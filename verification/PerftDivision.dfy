/** perft_divide: node counts of the root moves, keyed by their UCI text. */
module PerftDivision {
  import opened ChessTypes
  import opened Rules
  import opened MoveLists
  import opened Distinct
  import opened Movegen
  import opened PerftTree
  import opened Uci

  /** The total of the counts filed under the texts of ms. */
  ghost function Total(counts: map<string, nat>, ms: seq<Move>): nat
    requires forall m :: m in ms ==> MoveText(m) in counts
  {
    if ms == [] then 0 else Total(counts, ms[..|ms| - 1]) + counts[MoveText(ms[|ms| - 1])]
  }

  /** The count perft_divide files under a root move. */
  ghost function RootCount(p: Pos, m: Move, depth: int): nat
    requires Complete(ORACLE)
  {
    if depth > 1 then Perft(ORACLE, After(p, m), depth - 1) else 1
  }

  ghost predicate Divides(counts: map<string, nat>, p: Pos, ms: seq<Move>, depth: int)
    requires Complete(ORACLE)
  {
    && (forall m :: m in ms ==> MoveText(m) in counts && counts[MoveText(m)] == RootCount(p, m, depth))
    && |counts| == |ms|
    && forall t :: t in counts ==> exists m :: m in ms && MoveText(m) == t
  }

  /** The counts of all root moves add up to perft. */
  lemma {:induction false} TotalIsPerft(counts: map<string, nat>, p: Pos, ms: seq<Move>, depth: nat)
    requires Complete(ORACLE) && depth >= 1
    requires forall m :: m in ms ==> MoveText(m) in counts && counts[MoveText(m)] == RootCount(p, m, depth)
    ensures Total(counts, ms) == PerftOver(ORACLE, p, ms, depth)
  {
    hide Complete, After, MoveText;
    if ms != [] {
      var rest := ms[..|ms| - 1];
      assert ms == rest + [ms[|ms| - 1]];
      TotalIsPerft(counts, p, rest, depth);
    }
  }

  lemma NothingFiled(p: Pos, ms: seq<Move>, depth: int)
    requires Complete(ORACLE) && ms == []
    ensures Divides(map[], p, ms, depth)
  {
  }

  lemma DividesCounts(counts: map<string, nat>, p: Pos, ms: seq<Move>, depth: int)
    requires Complete(ORACLE) && Divides(counts, p, ms, depth)
    ensures forall m :: m in ms ==> MoveText(m) in counts && counts[MoveText(m)] == RootCount(p, m, depth)
  {
  }

  /** Filing a new root move keeps the table a division: its key cannot collide. */
  lemma FileRootMove(counts: map<string, nat>, p: Pos, ms: seq<Move>, m: Move, depth: int)
    requires Complete(ORACLE) && Divides(counts, p, ms, depth) && m !in ms
    ensures Divides(counts[MoveText(m) := RootCount(p, m, depth)], p, ms + [m], depth)
  {
    hide Complete, After, MoveText, Perft;
    forall m' | m' in ms ensures MoveText(m') != MoveText(m) {
      if MoveText(m') == MoveText(m) {
        MoveTextInjective(m, m');
      }
    }
    assert MoveText(m) !in counts;
    var more := counts[MoveText(m) := RootCount(p, m, depth)];
    forall t | t in more ensures exists m' :: m' in ms + [m] && MoveText(m') == t {
      if t == MoveText(m) {
        assert m in ms + [m];
      } else {
        var m' :| m' in ms && MoveText(m') == t;
        assert m' in ms + [m];
      }
    }
  }

  /** No move is lost to a colliding key, and for depth >= 1 the values sum to perft. */
  method PerftDivide(b: Board, depth: int) returns (counts: map<string, nat>)
    requires b.Valid()
    ensures Complete(ORACLE)
    ensures Divides(counts, b.Value(), LegalMoves(ORACLE, b.Value()), depth)
    ensures depth >= 1 ==> Total(counts, LegalMoves(ORACLE, b.Value())) == Perft(ORACLE, b.Value(), depth)
  {
    hide Complete, After, LegalMoves, MoveText, Divides;
    OracleComplete();
    ghost var p := b.Value();
    var moves := GenerateLegal(b);
    LegalMovesDistinct(ORACLE, p);
    counts := map[];
    assert Divides(counts, p, moves[..0], depth) by { NothingFiled(p, moves[..0], depth); }
    for i := 0 to |moves|
      invariant Divides(counts, p, moves[..i], depth)
    {
      var m := moves[i];
      assert moves[..i + 1] == moves[..i] + [m];
      LegalMovesAreExact(ORACLE, p, m);
      var n := 1;
      if depth > 1 {
        var child := MakeMove(b, m);
        n := PerftCount(child.value, depth - 1);
      }
      FileRootMove(counts, p, moves[..i], m, depth);
      counts := counts[MoveText(m) := n];
    }
    assert moves[..|moves|] == moves;
    if depth >= 1 {
      assert forall m :: m in moves ==> MoveText(m) in counts && counts[MoveText(m)] == RootCount(p, m, depth) by {
        DividesCounts(counts, p, moves, depth);
      }
      TotalIsPerft(counts, p, moves, depth);
    }
  }
}
