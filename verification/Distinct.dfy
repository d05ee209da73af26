/** No generator lists a move twice. */
module Distinct {
  import opened ChessTypes
  import opened Geometry
  import opened Rules
  import opened MoveLists

  lemma {:induction false} StepMovesDistinct(squares: Squares, c: Color, s: Square, ds: seq<Delta>, n: nat)
    requires n <= |ds| && NoDup(ds)
    ensures NoDup(StepMoves(squares, c, s, ds, n))
  {
    hide FileOf, RankOf;
    if n > 0 {
      var before := StepMoves(squares, c, s, ds, n - 1);
      StepMovesDistinct(squares, c, s, ds, n - 1);
      forall m | m in before ensures Offset(s, m.to) != ds[n - 1] {
        StepMovesHold(squares, c, s, ds, n - 1, m);
      }
      match Shift(s, ds[n - 1])
      case None =>
      case Some(t) =>
        ShiftIff(s, ds[n - 1], t);
        NoDupAppend(before, [Move(s, t, None)]);
    }
  }

  lemma {:induction false} RayMovesDistinct(squares: Squares, c: Color, s: Square, u: Square, d: Delta)
    requires IsKingDelta(d)
    ensures NoDup(RayMoves(squares, c, s, u, d))
    decreases StepsLeft(u, d)
  {
    match Shift(u, d)
    case None =>
    case Some(t) =>
      if squares[t] == Empty {
        RayMovesDistinct(squares, c, s, t, d);
        RayMovesHold(squares, c, s, t, d, Move(s, t, None));
        RayIsSees(squares, t, d, t);
        NoDupAppend([Move(s, t, None)], RayMoves(squares, c, s, t, d));
      }
  }

  lemma {:induction false} SlideMovesDistinct(squares: Squares, c: Color, s: Square, ds: seq<Delta>, n: nat)
    requires n <= |ds| && AllKingDeltas(ds) && NoDup(ds)
    ensures NoDup(SlideMoves(squares, c, s, ds, n))
  {
    hide FileOf, RankOf;
    if n > 0 {
      var before := SlideMoves(squares, c, s, ds, n - 1);
      var ray := RayMoves(squares, c, s, s, ds[n - 1]);
      SlideMovesDistinct(squares, c, s, ds, n - 1);
      RayMovesDistinct(squares, c, s, s, ds[n - 1]);
      forall m | m in before ensures m !in ray {
        SlideMovesHold(squares, c, s, ds, n - 1, m);
        RayMovesHold(squares, c, s, s, ds[n - 1], m);
        RayIsSees(squares, s, ds[n - 1], m.to);
      }
      NoDupAppend(before, ray);
    }
  }

  lemma PawnPushesDistinct(p: Pos, s: Square)
    ensures NoDup(PawnPushes(p, s))
  {
    match Shift(s, Delta(0, Forward(p.side)))
    case None =>
    case Some(one) =>
      match Shift(s, Delta(0, 2 * Forward(p.side)))
      case None =>
      case Some(two) => NoDupAppend(PawnMove(p.side, s, one), [Move(s, two, None)]);
  }

  lemma {:induction false} PawnTakesDistinct(p: Pos, s: Square, fs: seq<int>, n: nat)
    requires n <= |fs| && NoDup(fs)
    ensures NoDup(PawnTakes(p, s, fs, n))
  {
    if n > 0 {
      var before := PawnTakes(p, s, fs, n - 1);
      PawnTakesDistinct(p, s, fs, n - 1);
      forall m | m in before ensures FileOf(m.to) - FileOf(s) != fs[n - 1] {
        PawnTakesHold(p, s, fs, n - 1, m);
      }
      match Shift(s, Delta(fs[n - 1], Forward(p.side)))
      case None =>
      case Some(t) =>
        NoDupAppend(before, PawnMove(p.side, s, t));
        NoDupAppend(before, [Move(s, t, None)]);
    }
  }

  lemma KingMovesDistinct(o: Order, p: Pos, s: Square)
    requires Complete(o)
    ensures NoDup(StepMoves(p.squares, p.side, s, o.king, |o.king|) + CastleMoves(p, s))
  {
    var steps := StepMoves(p.squares, p.side, s, o.king, |o.king|);
    StepMovesDistinct(p.squares, p.side, s, o.king, |o.king|);
    forall m | m in steps ensures IsKingDelta(Offset(s, m.to)) {
      StepMovesHold(p.squares, p.side, s, o.king, |o.king|, m);
      assert o.king[..|o.king|] == o.king;
    }
    NoDupAppend(steps, CastleMoves(p, s));
  }

  lemma PawnMovesDistinct(o: Order, p: Pos, s: Square)
    requires Complete(o)
    ensures NoDup(PawnPushes(p, s) + PawnTakes(p, s, o.pawn, |o.pawn|))
  {
    var takes := PawnTakes(p, s, o.pawn, |o.pawn|);
    PawnPushesDistinct(p, s);
    PawnTakesDistinct(p, s, o.pawn, |o.pawn|);
    forall m | m in takes ensures FileOf(m.to) != FileOf(s) {
      PawnTakesHold(p, s, o.pawn, |o.pawn|, m);
      assert o.pawn[..|o.pawn|] == o.pawn;
    }
    NoDupAppend(PawnPushes(p, s), takes);
  }

  lemma ManMovesDistinct(o: Order, p: Pos, s: Square)
    requires Complete(o)
    ensures NoDup(ManMoves(o, p, s))
  {
    if Holds(p.squares, s, p.side) {
      match p.squares[s].kind
      case Pawn => PawnMovesDistinct(o, p, s);
      case Knight => StepMovesDistinct(p.squares, p.side, s, o.knight, |o.knight|);
      case King => KingMovesDistinct(o, p, s);
      case k => SlideMovesDistinct(p.squares, p.side, s, SliderTable(o, k), |SliderTable(o, k)|);
    }
  }

  lemma {:induction false} PseudoUpToDistinct(o: Order, p: Pos, n: nat)
    requires Complete(o) && n <= 64
    ensures NoDup(PseudoUpTo(o, p, n))
  {
    hide PseudoLegal, ManMoves;
    if n > 0 {
      PseudoUpToDistinct(o, p, n - 1);
      ManMovesDistinct(o, p, n - 1);
      var before, more := PseudoUpTo(o, p, n - 1), ManMoves(o, p, n - 1);
      forall m | m in before ensures m !in more {
        PseudoUpToHolds(o, p, n - 1, m);
        ManMovesHold(o, p, n - 1, m);
      }
      NoDupAppend(before, more);
    }
  }

  lemma {:induction false} SafeMovesDistinct(p: Pos, ms: seq<Move>)
    requires NoDup(ms)
    ensures NoDup(SafeMoves(p, ms))
  {
    hide KingSafe, After;
    if ms != [] {
      var before := ms[..|ms| - 1];
      SafeMovesDistinct(p, before);
      SafeMovesHold(p, before, ms[|ms| - 1]);
    }
  }

  /** generate_legal never lists a move twice. */
  lemma LegalMovesDistinct(o: Order, p: Pos)
    requires Complete(o)
    ensures NoDup(LegalMoves(o, p))
  {
    PseudoUpToDistinct(o, p, 64);
    SafeMovesDistinct(p, PseudoMoves(o, p));
  }
}
