/** perft counts the distinct legal lines, whatever order a generator lists moves in. */
module PerftTree {
  import opened ChessTypes
  import opened Rules
  import opened MoveLists
  import opened Distinct
  import opened Preservation
  import opened Movegen

  /** The recursion of perft over the legal moves. */
  ghost function Perft(o: Order, p: Pos, depth: nat): nat
    requires Complete(o)
    decreases depth, 0, 0
  {
    if depth == 0 then 1 else PerftOver(o, p, LegalMoves(o, p), depth)
  }

  ghost function PerftOver(o: Order, p: Pos, ms: seq<Move>, depth: nat): nat
    requires Complete(o) && depth > 0
    decreases depth - 1, 1, |ms|
  {
    if ms == [] then 0
    else PerftOver(o, p, ms[..|ms| - 1], depth) + Perft(o, After(p, ms[|ms| - 1]), depth - 1)
  }

  // ----- the lines themselves ----------------------------------------------

  /** m in front of every line of ls. */
  function Prefixed(m: Move, ls: seq<seq<Move>>): seq<seq<Move>> {
    seq(|ls|, i requires 0 <= i < |ls| => [m] + ls[i])
  }

  /** All legal lines of the given length, in search order. */
  ghost function Lines(o: Order, p: Pos, depth: nat): seq<seq<Move>>
    requires Complete(o)
    decreases depth, 0, 0
  {
    if depth == 0 then [[]] else LinesOver(o, p, LegalMoves(o, p), depth)
  }

  ghost function LinesOver(o: Order, p: Pos, ms: seq<Move>, depth: nat): seq<seq<Move>>
    requires Complete(o) && depth > 0
    decreases depth - 1, 1, |ms|
  {
    if ms == [] then []
    else var m := ms[|ms| - 1];
         LinesOver(o, p, ms[..|ms| - 1], depth) + Prefixed(m, Lines(o, After(p, m), depth - 1))
  }

  lemma PrefixedHolds(m: Move, ls: seq<seq<Move>>, line: seq<Move>)
    ensures line in Prefixed(m, ls) <==> line != [] && line[0] == m && line[1..] in ls
  {
    if line != [] && line[0] == m && line[1..] in ls {
      var i :| 0 <= i < |ls| && ls[i] == line[1..];
      assert Prefixed(m, ls)[i] == line;
    }
    if line in Prefixed(m, ls) {
      var i :| 0 <= i < |ls| && Prefixed(m, ls)[i] == line;
      assert line[1..] == ls[i];
    }
  }

  lemma PrefixedDistinct(m: Move, ls: seq<seq<Move>>)
    requires NoDup(ls)
    ensures NoDup(Prefixed(m, ls))
  {
    forall i, j | 0 <= i < j < |ls| ensures Prefixed(m, ls)[i] != Prefixed(m, ls)[j] {
      assert ([m] + ls[i])[1..] == ls[i] && ([m] + ls[j])[1..] == ls[j];
    }
  }

  /** Lines lists exactly the legal lines of its length. */
  lemma {:induction false} LinesAreExact(o: Order, p: Pos, depth: nat, line: seq<Move>)
    requires Complete(o)
    ensures line in Lines(o, p, depth) <==> |line| == depth && LegalLine(p, line)
    decreases depth, 0, 0
  {
    hide Complete, LegalMoves, Legal, After;
    if depth > 0 {
      LinesOverAreExact(o, p, LegalMoves(o, p), depth, line);
      if line != [] {
        LegalMovesAreExact(o, p, line[0]);
      }
    }
  }

  lemma {:induction false} LinesOverAreExact(o: Order, p: Pos, ms: seq<Move>, depth: nat, line: seq<Move>)
    requires Complete(o) && depth > 0
    ensures line in LinesOver(o, p, ms, depth) <==>
            |line| == depth && line[0] in ms && LegalLine(After(p, line[0]), line[1..])
    decreases depth - 1, 1, |ms|
  {
    hide Complete, After;
    if ms != [] {
      var m := ms[|ms| - 1];
      LinesOverAreExact(o, p, ms[..|ms| - 1], depth, line);
      PrefixedHolds(m, Lines(o, After(p, m), depth - 1), line);
      assert ms == ms[..|ms| - 1] + [m];
      if line != [] {
        LinesAreExact(o, After(p, m), depth - 1, line[1..]);
      }
    }
  }

  lemma {:induction false} LinesDistinct(o: Order, p: Pos, depth: nat)
    requires Complete(o)
    ensures NoDup(Lines(o, p, depth))
    decreases depth, 0, 0
  {
    hide Complete, LegalMoves;
    if depth > 0 {
      LegalMovesDistinct(o, p);
      LinesOverDistinct(o, p, LegalMoves(o, p), depth);
    }
  }

  lemma {:induction false} LinesOverDistinct(o: Order, p: Pos, ms: seq<Move>, depth: nat)
    requires Complete(o) && depth > 0 && NoDup(ms)
    ensures NoDup(LinesOver(o, p, ms, depth))
    decreases depth - 1, 1, |ms|
  {
    hide Complete, After;
    if ms != [] {
      var m := ms[|ms| - 1];
      var before := LinesOver(o, p, ms[..|ms| - 1], depth);
      var more := Prefixed(m, Lines(o, After(p, m), depth - 1));
      LinesOverDistinct(o, p, ms[..|ms| - 1], depth);
      LinesDistinct(o, After(p, m), depth - 1);
      PrefixedDistinct(m, Lines(o, After(p, m), depth - 1));
      forall line | line in before ensures line !in more {
        LinesOverAreExact(o, p, ms[..|ms| - 1], depth, line);
        PrefixedHolds(m, Lines(o, After(p, m), depth - 1), line);
      }
      NoDupAppend(before, more);
    }
  }

  /** perft is the number of distinct legal lines of length depth. */
  lemma {:induction false} PerftCountsLines(o: Order, p: Pos, depth: nat)
    requires Complete(o)
    ensures Perft(o, p, depth) == |Lines(o, p, depth)|
    decreases depth, 0, 0
  {
    hide Complete, LegalMoves;
    if depth > 0 {
      PerftOverCountsLines(o, p, LegalMoves(o, p), depth);
    }
  }

  lemma {:induction false} PerftOverCountsLines(o: Order, p: Pos, ms: seq<Move>, depth: nat)
    requires Complete(o) && depth > 0
    ensures PerftOver(o, p, ms, depth) == |LinesOver(o, p, ms, depth)|
    decreases depth - 1, 1, |ms|
  {
    hide Complete, After;
    if ms != [] {
      PerftOverCountsLines(o, p, ms[..|ms| - 1], depth);
      PerftCountsLines(o, After(p, ms[|ms| - 1]), depth - 1);
    }
  }

  /** Lists without duplicates and with the same members have the same length. */
  lemma {:induction false} SameLength<T>(a: seq<T>, b: seq<T>)
    requires NoDup(a) && NoDup(b) && forall x :: x in a <==> x in b
    ensures |a| == |b|
  {
    assert b != [] ==> b[0] in a;
    if a != [] {
      var x := a[0];
      assert x in b;
      var j :| 0 <= j < |b| && b[j] == x;
      var rest := b[..j] + b[j + 1..];
      assert b == b[..j] + [x] + b[j + 1..];
      forall y ensures y in a[1..] <==> y in rest {
        assert y in a <==> y == x || y in a[1..];
      }
      SameLength(a[1..], rest);
    }
  }

  /** perft does not depend on the order in which a generator tries its offsets. */
  lemma PerftIgnoresOrder(o: Order, o': Order, p: Pos, depth: nat)
    requires Complete(o) && Complete(o')
    ensures Perft(o, p, depth) == Perft(o', p, depth)
  {
    hide Complete, Perft, Lines, LegalLine;
    PerftCountsLines(o, p, depth);
    PerftCountsLines(o', p, depth);
    LinesDistinct(o, p, depth);
    LinesDistinct(o', p, depth);
    forall line ensures line in Lines(o, p, depth) <==> line in Lines(o', p, depth) {
      LinesAreExact(o, p, depth, line);
      LinesAreExact(o', p, depth, line);
    }
    SameLength(Lines(o, p, depth), Lines(o', p, depth));
  }

  // ----- the method --------------------------------------------------------

  lemma {:induction false} DepthOneIsLength(o: Order, p: Pos, ms: seq<Move>)
    requires Complete(o)
    ensures PerftOver(o, p, ms, 1) == |ms|
  {
    if ms != [] {
      DepthOneIsLength(o, p, ms[..|ms| - 1]);
    }
  }

  method PerftCount(b: Board, depth: int) returns (n: nat)
    requires b.Valid()
    ensures Complete(ORACLE) && n == Perft(ORACLE, b.Value(), if depth <= 0 then 0 else depth)
    decreases if depth <= 0 then 0 else depth
  {
    hide Complete, After, LegalMoves;
    OracleComplete();
    if depth <= 0 {
      return 1;
    }
    ghost var p := b.Value();
    var moves := GenerateLegal(b);
    if depth == 1 {
      DepthOneIsLength(ORACLE, p, moves);
      return |moves|;
    }
    n := 0;
    for i := 0 to |moves|
      invariant n == PerftOver(ORACLE, p, moves[..i], depth)
    {
      assert moves[..i + 1][..i] == moves[..i];
      LegalMovesAreExact(ORACLE, p, moves[i]);
      var child := MakeMove(b, moves[i]);
      var count := PerftCount(child.value, depth - 1);
      n := n + count;
    }
    assert moves[..|moves|] == moves;
  }
}
