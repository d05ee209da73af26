/** Colour symmetry of whole lines, hence of perft. */
module PerftSymmetry {
  import opened ChessTypes
  import opened Rules
  import opened MoveLists
  import opened Preservation
  import opened PerftTree
  import opened Repetition
  import opened Symmetry

  function FlipAll(line: seq<Move>): seq<Move> {
    seq(|line|, i requires 0 <= i < |line| => FlipMove(line[i]))
  }

  lemma SameKeyLegal(p: Pos, q: Pos, m: Move)
    requires SameKey(p, q)
    ensures Legal(p, m) <==> Legal(q, m)
  {
    SameAfter(p, q, m);
    hide Attacks, Attacked, KingSafe;
  }

  lemma {:induction false} SameKeyLine(p: Pos, q: Pos, line: seq<Move>)
    requires SameKey(p, q)
    ensures LegalLine(p, line) <==> LegalLine(q, line)
    decreases |line|
  {
    hide Legal, After, SameKey;
    if line != [] {
      SameKeyLegal(p, q, line[0]);
      SameAfter(p, q, line[0]);
      SameKeyLine(After(p, line[0]), After(q, line[0]), line[1..]);
    }
  }

  /** Flipping maps legal lines onto legal lines. */
  lemma {:induction false} FlipLine(p: Pos, line: seq<Move>)
    requires LoneKings(p)
    ensures LegalLine(Flip(p), FlipAll(line)) <==> LegalLine(p, line)
    decreases |line|
  {
    hide LoneKing, PseudoLegal, KingSafe, After, Flip, FlipMove;
    if line != [] {
      var m := line[0];
      assert FlipAll(line)[1..] == FlipAll(line[1..]);
      MoverIsLone(p);
      FlipLegal(p, m);
      if Legal(p, m) {
        LoneKingsStay(p, m);
        FlipLine(After(p, m), line[1..]);
        FlipAfter(p, m);
        SameKeyLine(After(Flip(p), FlipMove(m)), Flip(After(p, m)), FlipAll(line[1..]));
      }
    }
  }

  function FlipEach(lines: seq<seq<Move>>): seq<seq<Move>> {
    seq(|lines|, i requires 0 <= i < |lines| => FlipAll(lines[i]))
  }

  lemma FlipAllTwice(p: Pos, line: seq<Move>)
    ensures FlipAll(FlipAll(line)) == line
  {
    hide Flip, FlipMove;
    forall i | 0 <= i < |line| ensures FlipAll(FlipAll(line))[i] == line[i] {
      FlipTwice(p, line[i]);
    }
  }

  lemma FlipEachHolds(p: Pos, lines: seq<seq<Move>>, line: seq<Move>)
    ensures line in FlipEach(lines) <==> FlipAll(line) in lines
  {
    hide FlipAll;
    forall l: seq<Move> ensures FlipAll(FlipAll(l)) == l { FlipAllTwice(p, l); }
    if FlipAll(line) in lines {
      var i :| 0 <= i < |lines| && lines[i] == FlipAll(line);
      assert FlipEach(lines)[i] == line;
    }
  }

  lemma FlipEachDistinct(p: Pos, lines: seq<seq<Move>>)
    requires NoDup(lines)
    ensures NoDup(FlipEach(lines))
  {
    hide FlipAll;
    forall l: seq<Move> ensures FlipAll(FlipAll(l)) == l { FlipAllTwice(p, l); }
    forall i, j | 0 <= i < j < |lines| ensures FlipEach(lines)[i] != FlipEach(lines)[j] {
      assert FlipAll(FlipEach(lines)[i]) == lines[i] && FlipAll(FlipEach(lines)[j]) == lines[j];
    }
  }

  /** A position and its colour-flipped image have the same perft at every depth. */
  lemma FlipPerft(o: Order, p: Pos, depth: nat)
    requires Complete(o) && LoneKings(p)
    ensures Perft(o, Flip(p), depth) == Perft(o, p, depth)
  {
    hide Complete, LoneKings, Perft, Lines, LegalLine, FlipEach, Flip, FlipAll;
    var ours, theirs := Lines(o, p, depth), Lines(o, Flip(p), depth);
    PerftCountsLines(o, p, depth);
    PerftCountsLines(o, Flip(p), depth);
    LinesDistinct(o, p, depth);
    LinesDistinct(o, Flip(p), depth);
    FlipEachDistinct(p, ours);
    forall line ensures line in theirs <==> line in FlipEach(ours) {
      LinesAreExact(o, Flip(p), depth, line);
      FlipEachHolds(p, ours, line);
      LinesAreExact(o, p, depth, FlipAll(line));
      FlipLine(p, FlipAll(line));
      FlipAllTwice(p, line);
      FlipAllLength(line);
    }
    SameLength(theirs, FlipEach(ours));
    FlipEachLength(ours);
  }

  lemma FlipAllLength(line: seq<Move>)
    ensures |FlipAll(line)| == |line|
  {
  }

  lemma FlipEachLength(lines: seq<seq<Move>>)
    ensures |FlipEach(lines)| == |lines|
  {
  }
}
