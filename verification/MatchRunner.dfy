/** The alternating-colour match: its totals are a recount of its games. */
module MatchRunner {
  import opened ChessTypes
  import opened Start
  import opened Movegen
  import opened Fen
  import opened GameLoop

  datatype Point = Win | Draw | Loss

  /** Colours alternate: the candidate has White in even-numbered games. */
  function CandidateColor(i: nat): Color { if i % 2 == 0 then White else Black }

  /** The opening of game i: consecutive pairs share one. */
  function OpeningIndex(i: nat, openings: nat): (k: nat)
    requires openings > 0
    ensures k < openings
  {
    (i / 2) % openings
  }

  /** Game i from the candidate's point of view. */
  function PointOf(i: nat, rec: Record): Point {
    if rec.result == Drawn then Draw
    else if (rec.result == WhiteWins) == (CandidateColor(i) == White) then Win
    else Loss
  }

  function Tally(games: seq<Record>, point: Point): nat {
    if games == [] then 0
    else Tally(games[..|games| - 1], point) + if PointOf(|games| - 1, games[|games| - 1]) == point then 1 else 0
  }

  predicate FaultIsBy(i: nat, rec: Record, candidate: bool) {
    rec.fault.Some? && (rec.fault.value.side == CandidateColor(i)) == candidate
  }

  /** Faults of one kind committed by the candidate, or by the opponent. */
  function FaultTally(games: seq<Record>, candidate: bool, kind: FaultKind): nat {
    if games == [] then 0
    else FaultTally(games[..|games| - 1], candidate, kind) +
         if FaultIsBy(|games| - 1, games[|games| - 1], candidate) && games[|games| - 1].fault.value.kind == kind
         then 1 else 0
  }

  function AllFaults(games: seq<Record>, candidate: bool): nat {
    FaultTally(games, candidate, IllegalMove) + FaultTally(games, candidate, TimedOut) +
    FaultTally(games, candidate, Crashed)
  }

  /** A fault loses the game for the side that committed it. */
  predicate FaultLoses(rec: Record) {
    rec.fault.Some? ==> rec.result == LossFor(rec.fault.value.side)
  }

  /** Every game is exactly one of a win, a draw and a loss. */
  lemma {:induction false} TalliesAddUp(games: seq<Record>)
    ensures Tally(games, Win) + Tally(games, Draw) + Tally(games, Loss) == |games|
  {
    if games != [] {
      TalliesAddUp(games[..|games| - 1]);
    }
  }

  /** The candidate's faults never exceed its losses, nor the opponent's the candidate's wins. */
  lemma {:induction false} FaultsAreLosses(games: seq<Record>)
    requires forall i :: 0 <= i < |games| ==> FaultLoses(games[i])
    ensures AllFaults(games, true) <= Tally(games, Loss)
    ensures AllFaults(games, false) <= Tally(games, Win)
  {
    if games != [] {
      var i := |games| - 1;
      FaultsAreLosses(games[..i]);
      assert FaultLoses(games[i]);
    }
  }

  datatype Report = Report(games: seq<Record>, wins: nat, draws: nat, losses: nat,
                           candidateFaults: map<FaultKind, nat>, opponentFaults: map<FaultKind, nat>)

  predicate CountsFaults(faults: map<FaultKind, nat>, games: seq<Record>, candidate: bool) {
    forall k: FaultKind :: k in faults && faults[k] == FaultTally(games, candidate, k)
  }

  /** The report's counters are recounts of its games. */
  predicate Consistent(r: Report) {
    && r.wins == Tally(r.games, Win) && r.draws == Tally(r.games, Draw) && r.losses == Tally(r.games, Loss)
    && CountsFaults(r.candidateFaults, r.games, true)
    && CountsFaults(r.opponentFaults, r.games, false)
  }

  /** The game was started from its opening and played by its engines. */
  ghost predicate StartedFrom(rec: Record, fen: string, maxPlies: int, s: Session) {
    && ParsePos(fen).Some? && Follows(rec, ParsePos(fen).value, s)
    && (NeverPlayed(rec) || Truthful(rec, ParsePos(fen).value, maxPlies, 100))
  }

  lemma RecordFaultLoses(rec: Record, fen: string, maxPlies: int, s: Session)
    requires StartedFrom(rec, fen, maxPlies, s)
    ensures FaultLoses(rec)
  {
  }

  function OrStart(fens: seq<string>): seq<string> {
    if fens == [] then [START_FEN] else fens
  }

  /** play_match; sessions says what the engines do in each game. */
  method PlayMatch(games: int, maxPlies: int, fens: seq<string>, sessions: nat -> Session) returns (r: Result<Report>)
    ensures r.Ok? ==> Consistent(r.value) && |r.value.games| == (if games < 0 then 0 else games)
    ensures r.Ok? ==> var rep := r.value;
                      && rep.wins + rep.draws + rep.losses == |rep.games|
                      && AllFaults(rep.games, true) <= rep.losses && AllFaults(rep.games, false) <= rep.wins
    ensures r.Ok? ==> forall i :: 0 <= i < |r.value.games| ==>
              StartedFrom(r.value.games[i], OrStart(fens)[OpeningIndex(i, |OrStart(fens)|)], maxPlies, sessions(i))
    ensures r.ValueError? ==> exists i :: 0 <= i < |OrStart(fens)| && ParsePos(OrStart(fens)[i]).None?
  {
    hide StartedFrom, ParsePos, OpeningIndex, Consistent, FaultLoses;
    var startFens := if fens == [] then [START_FEN] else fens;
    var zero: map<FaultKind, nat> := map[IllegalMove := 0, TimedOut := 0, Crashed := 0];
    forall k: FaultKind ensures k in zero && zero[k] == 0 {
      match k case IllegalMove => case TimedOut => case Crashed =>
    }
    var rep := Report([], 0, 0, 0, zero, zero);
    NoGames(zero);
    var i := 0;
    while i < games
      invariant 0 <= i && (games >= 0 ==> i <= games) && (games < 0 ==> i == 0)
      invariant |rep.games| == i && Consistent(rep)
      invariant forall j :: 0 <= j < i ==>
                  StartedFrom(rep.games[j], startFens[OpeningIndex(j, |startFens|)], maxPlies, sessions(j))
    {
      var candidateWhite := i % 2 == 0;
      var pair := OpeningIndex(i, |startFens|);
      var game := PlayGame(startFens[pair], maxPlies, 100, sessions(i));
      if game.ValueError? {
        assert ParsePos(OrStart(fens)[pair]).None?;
        return ValueError;
      }
      var rec := game.value;
      Started(rec, startFens[pair], maxPlies, sessions(i));
      rep := Account(rep, rec, candidateWhite);
      i := i + 1;
    }
    forall j | 0 <= j < |rep.games| ensures FaultLoses(rep.games[j]) {
      RecordFaultLoses(rep.games[j], startFens[OpeningIndex(j, |startFens|)], maxPlies, sessions(j));
    }
    TalliesAddUp(rep.games);
    FaultsAreLosses(rep.games);
    ConsistentCounts(rep);
    return Ok(rep);
  }

  lemma NoGames(zero: map<FaultKind, nat>)
    requires forall k: FaultKind :: k in zero && zero[k] == 0
    ensures Consistent(Report([], 0, 0, 0, zero, zero))
  {
  }

  lemma ConsistentCounts(r: Report)
    requires Consistent(r)
    ensures r.wins == Tally(r.games, Win) && r.draws == Tally(r.games, Draw) && r.losses == Tally(r.games, Loss)
  {
  }

  lemma Started(rec: Record, fen: string, maxPlies: int, s: Session)
    requires ParsePos(fen).Some? && Follows(rec, ParsePos(fen).value, s)
    requires NeverPlayed(rec) || Truthful(rec, ParsePos(fen).value, maxPlies, 100)
    ensures StartedFrom(rec, fen, maxPlies, s)
  {
  }

  /** Games 2k and 2k+1 share an opening, with colours swapped. */
  lemma PairsShareOpenings(k: nat, openings: nat)
    requires openings > 0
    ensures OpeningIndex(2 * k, openings) == OpeningIndex(2 * k + 1, openings)
    ensures CandidateColor(2 * k) == White && CandidateColor(2 * k + 1) == Black
  {
  }

  /** One game's contribution to the counters. */
  method Account(rep: Report, rec: Record, candidateWhite: bool) returns (r: Report)
    requires Consistent(rep) && candidateWhite == (|rep.games| % 2 == 0)
    ensures Consistent(r) && r.games == rep.games + [rec]
  {
    var games := rep.games + [rec];
    assert games[..|games| - 1] == rep.games;
    r := rep.(games := games);
    if rec.result == Drawn {
      r := r.(draws := r.draws + 1);
    } else if (rec.result == WhiteWins) == candidateWhite {
      r := r.(wins := r.wins + 1);
    } else {
      r := r.(losses := r.losses + 1);
    }
    if rec.fault.Some? {
      var kind := rec.fault.value.kind;
      if (rec.fault.value.side == White) == candidateWhite {
        r := r.(candidateFaults := r.candidateFaults[kind := r.candidateFaults[kind] + 1]);
      } else {
        r := r.(opponentFaults := r.opponentFaults[kind := r.opponentFaults[kind] + 1]);
      }
    }
  }

  /** The candidate wins, draws or loses as its colour does. */
  lemma PointLaw(i: nat, rec: Record)
    ensures PointOf(i, rec) == Draw <==> rec.result == Drawn
    ensures i % 2 == 0 ==> (PointOf(i, rec) == Win <==> rec.result == WhiteWins)
    ensures i % 2 == 0 ==> (PointOf(i, rec) == Loss <==> rec.result == BlackWins)
    ensures i % 2 == 1 ==> (PointOf(i, rec) == Win <==> rec.result == BlackWins)
    ensures i % 2 == 1 ==> (PointOf(i, rec) == Loss <==> rec.result == WhiteWins)
  {
  }

  /** The openings come in order, two games each, and start over when all have been used. */
  lemma OpeningsTakeTurns(k: nat, openings: nat)
    requires openings > 0
    ensures k < openings ==> OpeningIndex(2 * k, openings) == k == OpeningIndex(2 * k + 1, openings)
    ensures OpeningIndex(k + 2 * openings, openings) == OpeningIndex(k, openings)
  {
    assert (k + 2 * openings) / 2 == k / 2 + openings;
    WrapsAround(k / 2, openings);
    if k < openings {
      assert (2 * k) / 2 == k && (2 * k + 1) / 2 == k;
      SmallMod(k, openings);
    }
  }

  lemma SmallMod(k: nat, n: nat)
    requires k < n
    ensures k % n == k
  {
  }

  lemma WrapsAround(x: nat, n: nat)
    requires n > 0
    ensures (x + n) % n == x % n
  {
    var k := (x + n) / n - x / n - 1;
    Distribute(n, (x + n) / n, x / n);
    assert n * k == x % n - (x + n) % n;
    SmallMultiple(n, k);
  }

  lemma Distribute(n: int, a: int, b: int)
    ensures n * (a - b - 1) == n * a - n * b - n
  {
  }

  lemma SmallMultiple(n: int, k: int)
    requires -n < n * k < n
    ensures k == 0
  {
    assert k >= 1 ==> n * k >= n;
    assert k <= -1 ==> n * k <= -n;
  }
}
