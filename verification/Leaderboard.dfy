/** Selecting each run's best verified result, and ranking the runs. */
module Leaderboard {
  import opened ChessTypes
  import opened JobQueue

  datatype Tier = Diagnostic | Official | Final

  /** result_tier */
  function ResultTier(mode: string): Tier {
    if mode == "final_eval" || mode == "final_production" then Final
    else if mode == "official_round" || mode == "official" then Official
    else if mode == "track_b_official" then Final
    else Diagnostic
  }

  datatype Run = Run(id: string, track: string)

  // ----- the best result of a run ------------------------------------------

  /** A verified row of the run with a score, in the final or the official tier. */
  predicate Eligible(results: seq<Row>, run: string, i: nat) {
    && i < |results| && results[i].run == run
    && results[i].eval.verified && results[i].eval.score.Some?
    && ResultTier(results[i].eval.mode) != Diagnostic
  }

  function ScoreOf(results: seq<Row>, i: nat): real
    requires i < |results| && results[i].eval.score.Some?
  {
    results[i].eval.score.value
  }

  /** Row i is preferred to row k: the final tier first, then the higher score, then the earlier row. */
  predicate Preferred(results: seq<Row>, i: nat, k: nat)
    requires i < |results| && k < |results| && results[i].eval.score.Some? && results[k].eval.score.Some?
  {
    var ti, tk := ResultTier(results[i].eval.mode), ResultTier(results[k].eval.mode);
    if ti == tk then ScoreOf(results, i) > ScoreOf(results, k) || (ScoreOf(results, i) == ScoreOf(results, k) && i <= k)
    else ti == Final
  }

  ghost predicate IsBest(results: seq<Row>, run: string, i: nat) {
    Eligible(results, run, i) && forall k: nat :: Eligible(results, run, k) ==> Preferred(results, i, k)
  }

  /** The indices of the eligible rows of one tier, in row order. */
  method TierRows(results: seq<Row>, run: string, tier: Tier) returns (pool: seq<nat>)
    requires tier != Diagnostic
    ensures forall i: nat :: i in pool <==> Eligible(results, run, i) && ResultTier(results[i].eval.mode) == tier
    ensures forall a, b :: 0 <= a < b < |pool| ==> pool[a] < pool[b]
  {
    pool := [];
    for i := 0 to |results|
      invariant forall k: nat :: k in pool <==>
                  k < i && Eligible(results, run, k) && ResultTier(results[k].eval.mode) == tier
      invariant forall a, b :: 0 <= a < b < |pool| ==> pool[a] < pool[b]
      invariant forall a :: 0 <= a < |pool| ==> pool[a] < i
    {
      var row := results[i];
      if row.run == run && row.eval.verified && row.eval.score.Some? && ResultTier(row.eval.mode) == tier {
        pool := pool + [i];
      }
    }
  }

  /** max(pool, key=score): the first maximal row. */
  method FirstMax(results: seq<Row>, pool: seq<nat>) returns (best: nat)
    requires pool != [] && forall a :: 0 <= a < |pool| ==> pool[a] < |results| && results[pool[a]].eval.score.Some?
    requires forall a, b :: 0 <= a < b < |pool| ==> pool[a] < pool[b]
    ensures best in pool
    ensures forall k :: k in pool ==>
              ScoreOf(results, best) > ScoreOf(results, k) || (ScoreOf(results, best) == ScoreOf(results, k) && best <= k)
  {
    best := pool[0];
    for i := 1 to |pool|
      invariant best in pool[..i]
      invariant forall k :: k in pool[..i] ==>
                  ScoreOf(results, best) > ScoreOf(results, k)
                  || (ScoreOf(results, best) == ScoreOf(results, k) && best <= k)
    {
      assert pool[..i + 1] == pool[..i] + [pool[i]];
      if ScoreOf(results, pool[i]) > ScoreOf(results, best) {
        best := pool[i];
      }
    }
    assert pool[..|pool|] == pool;
  }

  /** select_best_verified_result */
  method SelectBest(results: seq<Row>, run: string) returns (best: Option<nat>)
    ensures best.None? <==> forall i: nat :: !Eligible(results, run, i)
    ensures best.Some? ==> IsBest(results, run, best.value)
  {
    var pool := TierRows(results, run, Final);
    ghost var finals := pool;
    if pool == [] {
      pool := TierRows(results, run, Official);
    }
    if pool == [] {
      return None;
    }
    forall a | 0 <= a < |pool| ensures pool[a] < |results| && results[pool[a]].eval.score.Some? {
      assert pool[a] in pool;
    }
    var b := FirstMax(results, pool);
    assert finals != [] ==> finals[0] in finals;
    return Some(b);
  }

  /** The best row is unique. */
  lemma BestIsUnique(results: seq<Row>, run: string, i: nat, k: nat)
    requires IsBest(results, run, i) && IsBest(results, run, k)
    ensures i == k
  {
  }

  /** A row that is not verified changes nobody's best result. */
  lemma UnverifiedIsIgnored(results: seq<Row>, row: Row, run: string, i: nat)
    requires !row.eval.verified
    ensures IsBest(results + [row], run, i) <==> IsBest(results, run, i)
  {
    forall k: nat
      ensures Eligible(results + [row], run, k) <==> Eligible(results, run, k)
      ensures k < |results| ==> (results + [row])[k] == results[k]
    {
    }
  }

  // ----- the ranking -------------------------------------------------------

  /** order is the run's place in the runs table. */
  datatype Entry = Entry(order: nat, run: string, result: nat, score: real)

  /** Higher scores first; equal scores in table order. */
  predicate Before(a: Entry, b: Entry) {
    a.score > b.score || (a.score == b.score && a.order < b.order)
  }

  predicate Ranked(entries: seq<Entry>) {
    forall i, j :: 0 <= i < j < |entries| ==> Before(entries[i], entries[j])
  }

  /** The stable sort by falling score, one insertion at a time. */
  method Insert(entries: seq<Entry>, e: Entry) returns (out: seq<Entry>)
    requires Ranked(entries) && forall i :: 0 <= i < |entries| ==> entries[i].order < e.order
    ensures Ranked(out) && multiset(out) == multiset(entries) + multiset{e}
  {
    var n := |entries|;
    while n > 0 && entries[n - 1].score < e.score
      invariant 0 <= n <= |entries|
      invariant forall i :: n <= i < |entries| ==> entries[i].score < e.score
    {
      n := n - 1;
    }
    out := entries[..n] + [e] + entries[n..];
    InsertedIsRanked(entries, n, e);
    assert entries == entries[..n] + entries[n..];
  }

  lemma InsertedIsRanked(entries: seq<Entry>, n: nat, e: Entry)
    requires Ranked(entries) && n <= |entries|
    requires forall i :: 0 <= i < |entries| ==> entries[i].order < e.order
    requires n > 0 ==> entries[n - 1].score >= e.score
    requires forall i :: n <= i < |entries| ==> entries[i].score < e.score
    ensures Ranked(entries[..n] + [e] + entries[n..])
  {
    var out := entries[..n] + [e] + entries[n..];
    forall i | 0 <= i < n ensures Before(entries[i], e) {
      if i < n - 1 {
        assert Before(entries[i], entries[n - 1]);
      }
    }
    forall i, j | 0 <= i < j < |out| ensures Before(out[i], out[j]) {
      var a := if i < n then i else i - 1;
      var b := if j < n then j else j - 1;
      if i != n && j != n {
        assert out[i] == entries[a] && out[j] == entries[b] && a < b;
      }
    }
  }

  /** The entry's run is on the track and the entry is its best result. */
  ghost predicate Earned(results: seq<Row>, runs: seq<Run>, track: string, e: Entry) {
    && e.order < |runs| && runs[e.order] == Run(e.run, track)
    && IsBest(results, e.run, e.result) && e.score == ScoreOf(results, e.result)
  }

  ghost predicate HasEligible(results: seq<Row>, run: string) {
    exists i: nat :: Eligible(results, run, i)
  }

  /** Ranked, every entry earned, and exactly one entry for each run of the track that has an eligible result. */
  ghost predicate IsBoard(results: seq<Row>, runs: seq<Run>, track: string, board: seq<Entry>) {
    && Ranked(board)
    && (forall i :: 0 <= i < |board| ==> Earned(results, runs, track, board[i]))
    && (forall i, j :: 0 <= i < j < |board| ==> board[i].order != board[j].order)
    && forall r :: 0 <= r < |runs| && runs[r].track == track && HasEligible(results, runs[r].id) ==>
         exists e :: e in board && e.order == r
  }

  /** One entry for each run of the track with an eligible result, in table order. */
  ghost predicate Collected(results: seq<Row>, runs: seq<Run>, track: string, entries: seq<Entry>, n: nat)
    requires n <= |runs|
  {
    && (forall i :: 0 <= i < |entries| ==> Earned(results, runs, track, entries[i]) && entries[i].order < n)
    && (forall i, j :: 0 <= i < j < |entries| ==> entries[i].order < entries[j].order)
    && forall r :: 0 <= r < n && runs[r].track == track && HasEligible(results, runs[r].id) ==>
         exists e :: e in entries && e.order == r
  }

  lemma CollectedMore(results: seq<Row>, runs: seq<Run>, track: string, entries: seq<Entry>, e: Entry)
    requires e.order < |runs| && Collected(results, runs, track, entries, e.order) && Earned(results, runs, track, e)
    ensures Collected(results, runs, track, entries + [e], e.order + 1)
  {
    hide Earned, HasEligible;
    assert e in entries + [e];
    assert forall x :: x in entries ==> x in entries + [e];
  }

  lemma CollectedNothing(results: seq<Row>, runs: seq<Run>, track: string, entries: seq<Entry>, n: nat)
    requires n < |runs| && Collected(results, runs, track, entries, n)
    requires runs[n].track != track || !HasEligible(results, runs[n].id)
    ensures Collected(results, runs, track, entries, n + 1)
  {
    hide Earned, HasEligible;
  }

  /** The loop over the runs. */
  method CollectEntries(results: seq<Row>, runs: seq<Run>, track: string) returns (entries: seq<Entry>)
    ensures Collected(results, runs, track, entries, |runs|)
  {
    hide IsBest, Eligible, Collected;
    entries := [];
    assert Collected(results, runs, track, [], 0) by { NothingCollected(results, runs, track); }
    for r := 0 to |runs|
      invariant Collected(results, runs, track, entries, r)
    {
      var best := None;
      if runs[r].track == track {
        best := SelectBest(results, runs[r].id);
      }
      if best.Some? {
        BestIsEligible(results, runs[r].id, best.value);
        EligibleHasScore(results, runs[r].id, best.value);
        var e := Entry(r, runs[r].id, best.value, ScoreOf(results, best.value));
        CollectedMore(results, runs, track, entries, e);
        entries := entries + [e];
      } else {
        CollectedNothing(results, runs, track, entries, r);
      }
    }
  }

  lemma NothingCollected(results: seq<Row>, runs: seq<Run>, track: string)
    ensures Collected(results, runs, track, [], 0)
  {
  }

  /** Sorting a list in table order by falling score. */
  method SortEntries(entries: seq<Entry>) returns (board: seq<Entry>)
    requires forall i, j :: 0 <= i < j < |entries| ==> entries[i].order < entries[j].order
    ensures Ranked(board) && forall e :: e in board <==> e in entries
  {
    board := [];
    for i := 0 to |entries|
      invariant Ranked(board) && multiset(board) == multiset(entries[..i])
    {
      assert entries[..i + 1] == entries[..i] + [entries[i]];
      forall k | 0 <= k < |board| ensures board[k].order < entries[i].order {
        assert board[k] in multiset(board);
        assert board[k] in entries[..i];
      }
      board := Insert(board, entries[i]);
    }
    assert entries[..|entries|] == entries;
    forall e ensures e in board <==> e in entries {
      assert e in board <==> e in multiset(board);
      assert e in entries <==> e in multiset(entries);
    }
  }

  /** verified_leaderboard */
  method VerifiedLeaderboard(results: seq<Row>, runs: seq<Run>, track: string) returns (board: seq<Entry>)
    ensures IsBoard(results, runs, track, board)
  {
    hide Earned, HasEligible;
    var entries := CollectEntries(results, runs, track);
    board := SortEntries(entries);
    forall i | 0 <= i < |board| ensures board[i] in entries {
    }
    RankedDistinct(board, entries);
  }

  lemma BestIsEligible(results: seq<Row>, run: string, i: nat)
    requires IsBest(results, run, i)
    ensures Eligible(results, run, i)
  {
  }

  lemma EligibleHasScore(results: seq<Row>, run: string, i: nat)
    requires Eligible(results, run, i)
    ensures i < |results| && results[i].eval.score.Some?
  {
  }

  lemma RankedDistinct(board: seq<Entry>, entries: seq<Entry>)
    requires Ranked(board) && forall i :: 0 <= i < |board| ==> board[i] in entries
    requires forall i, j :: 0 <= i < j < |entries| ==> entries[i].order < entries[j].order
    ensures forall i, j :: 0 <= i < j < |board| ==> board[i].order != board[j].order
  {
    forall i, j | 0 <= i < j < |board| ensures board[i].order != board[j].order {
      assert Before(board[i], board[j]);
      assert board[i] in entries && board[j] in entries;
    }
  }

  // ----- the ranking is determined -------------------------------------------

  lemma {:induction false} RankedUnique(a: seq<Entry>, b: seq<Entry>)
    requires Ranked(a) && Ranked(b) && forall e :: e in a <==> e in b
    ensures a == b
  {
    assert b != [] ==> b[0] in a;
    if a != [] {
      assert a[0] in b && b[0] in a;
      if a[0] != b[0] {
        HeadBefore(a, b[0]);
        HeadBefore(b, a[0]);
      }
      RestSame(a, b);
      RankedUnique(a[1..], b[1..]);
      assert a == [a[0]] + a[1..] && b == [b[0]] + b[1..];
    }
  }

  lemma HeadBefore(a: seq<Entry>, e: Entry)
    requires Ranked(a) && e in a && e != a[0]
    ensures Before(a[0], e)
  {
  }

  lemma RestSame(a: seq<Entry>, b: seq<Entry>)
    requires Ranked(a) && Ranked(b) && a != [] && b != [] && a[0] == b[0] && forall e :: e in a <==> e in b
    ensures Ranked(a[1..]) && Ranked(b[1..]) && forall e :: e in a[1..] <==> e in b[1..]
  {
    forall e ensures e in a[1..] <==> e in a && e != a[0] { RestHas(a, e); }
    forall e ensures e in b[1..] <==> e in b && e != b[0] { RestHas(b, e); }
  }

  lemma RestHas(a: seq<Entry>, e: Entry)
    requires Ranked(a) && a != []
    ensures e in a[1..] <==> e in a && e != a[0]
  {
    assert e in a <==> e == a[0] || e in a[1..] by { assert a == [a[0]] + a[1..]; }
    if e in a[1..] {
      var i :| 0 <= i < |a[1..]| && a[1..][i] == e;
      assert Before(a[0], a[i + 1]);
    }
  }

  /** An earned entry's run is on the track and has an eligible result, so every board lists that run. */
  lemma EarnedIsListed(results: seq<Row>, runs: seq<Run>, track: string, b: seq<Entry>, e: Entry)
    requires IsBoard(results, runs, track, b) && Earned(results, runs, track, e)
    ensures e in b
  {
    hide IsBest;
    BestIsEligible(results, e.run, e.result);
    var f :| f in b && f.order == e.order;
    assert Earned(results, runs, track, f);
    BestIsUnique(results, e.run, e.result, f.result);
  }

  /** Results, runs and track determine the leaderboard. */
  lemma BoardIsDetermined(results: seq<Row>, runs: seq<Run>, track: string, a: seq<Entry>, b: seq<Entry>)
    requires IsBoard(results, runs, track, a) && IsBoard(results, runs, track, b)
    ensures a == b
  {
    hide IsBest, Eligible, Earned;
    forall e ensures e in a <==> e in b {
      if e in a { EarnedIsListed(results, runs, track, b, e); }
      if e in b { EarnedIsListed(results, runs, track, a, e); }
    }
    RankedUnique(a, b);
  }

  /** A row that is not verified leaves the leaderboard as it is. */
  lemma UnverifiedKeepsBoard(results: seq<Row>, row: Row, runs: seq<Run>, track: string, board: seq<Entry>)
    requires !row.eval.verified
    ensures IsBoard(results + [row], runs, track, board) <==> IsBoard(results, runs, track, board)
  {
    forall e ensures Earned(results + [row], runs, track, e) <==> Earned(results, runs, track, e) {
      UnverifiedIsIgnored(results, row, e.run, e.result);
    }
    forall run ensures HasEligible(results + [row], run) <==> HasEligible(results, run) {
      UnverifiedEligible(results, row, run);
    }
    hide Earned, HasEligible, Ranked;
  }

  lemma UnverifiedEligible(results: seq<Row>, row: Row, run: string)
    requires !row.eval.verified
    ensures HasEligible(results + [row], run) <==> HasEligible(results, run)
  {
    forall k: nat ensures Eligible(results + [row], run, k) <==> Eligible(results, run, k) {
    }
  }

  // ----- in plain terms --------------------------------------------------------

  const FINAL_MODES: set<string> := {"final_eval", "final_production", "track_b_official"}
  const OFFICIAL_MODES: set<string> := {"official_round", "official"}

  /** A verified row of the run with a score, recorded in one of the modes. */
  predicate Counts(row: Row, run: string, modes: set<string>) {
    row.run == run && row.eval.verified && row.eval.score.Some? && row.eval.mode in modes
  }

  lemma EligibleMeans(results: seq<Row>, run: string, i: nat)
    ensures Eligible(results, run, i) <==> i < |results| && Counts(results[i], run, FINAL_MODES + OFFICIAL_MODES)
    ensures i < |results| ==> (ResultTier(results[i].eval.mode) == Final <==> results[i].eval.mode in FINAL_MODES)
    ensures i < |results| ==> (ResultTier(results[i].eval.mode) == Official <==> results[i].eval.mode in OFFICIAL_MODES)
  {
  }

  /** The best row is the first of greatest score among the run's final rows, or among its official rows when it
      has no final one. */
  lemma BestMeans(results: seq<Row>, run: string, i: nat)
    ensures IsBest(results, run, i) <==>
            var modes := if exists k :: 0 <= k < |results| && Counts(results[k], run, FINAL_MODES) then FINAL_MODES
                         else OFFICIAL_MODES;
            && i < |results| && Counts(results[i], run, modes)
            && forall k :: 0 <= k < |results| && Counts(results[k], run, modes) ==>
                 var a, b := results[i].eval.score.value, results[k].eval.score.value;
                 a > b || (a == b && i <= k)
  {
    forall k: nat
      ensures Eligible(results, run, k) <==> k < |results| && Counts(results[k], run, FINAL_MODES + OFFICIAL_MODES)
      ensures k < |results| ==> (ResultTier(results[k].eval.mode) == Final <==> results[k].eval.mode in FINAL_MODES)
      ensures k < |results| ==> (ResultTier(results[k].eval.mode) == Official <==> results[k].eval.mode in OFFICIAL_MODES)
    {
      EligibleMeans(results, run, k);
    }
    hide Eligible, ResultTier;
  }

  /** A leaderboard falls in score, and equal scores keep the order of the runs table. */
  lemma BoardFalls(results: seq<Row>, runs: seq<Run>, track: string, board: seq<Entry>, i: nat, j: nat)
    requires IsBoard(results, runs, track, board) && i < j < |board|
    ensures board[i].score > board[j].score || (board[i].score == board[j].score && board[i].order < board[j].order)
  {
    hide Earned, HasEligible;
    assert Before(board[i], board[j]);
  }
}
