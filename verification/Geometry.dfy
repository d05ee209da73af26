/** Board geometry: offsets, rays and the alignment of squares. */
module Geometry {
  import opened ChessTypes

  /** The square at (file + df, rank + dr), or None when that is off the board. */
  function Shift(s: Square, d: Delta): (r: Option<Square>)
    ensures r.Some? ==> FileOf(r.value) == FileOf(s) + d.df && RankOf(r.value) == RankOf(s) + d.dr
    ensures r.Some? <==> 0 <= FileOf(s) + d.df < 8 && 0 <= RankOf(s) + d.dr < 8
  {
    var f := s % 8 + d.df;
    var r := s / 8 + d.dr;
    if 0 <= f < 8 && 0 <= r < 8 then Some(r * 8 + f) else None
  }

  lemma SameSquare(s: Square, t: Square)
    requires FileOf(s) == FileOf(t) && RankOf(s) == RankOf(t)
    ensures s == t
  {
  }

  /** Shift is exactly coordinate addition. */
  lemma ShiftIff(s: Square, d: Delta, t: Square)
    ensures Shift(s, d) == Some(t) <==> FileOf(t) == FileOf(s) + d.df && RankOf(t) == RankOf(s) + d.dr
  {
    if FileOf(t) == FileOf(s) + d.df && RankOf(t) == RankOf(s) + d.dr {
      SameSquare(Shift(s, d).value, t);
    }
  }

  // ----- alignment ---------------------------------------------------------

  predicate IsKnightDelta(d: Delta) {
    (Abs(d.df) == 1 && Abs(d.dr) == 2) || (Abs(d.df) == 2 && Abs(d.dr) == 1)
  }

  predicate IsKingDelta(d: Delta) {
    -1 <= d.df <= 1 && -1 <= d.dr <= 1 && !(d.df == 0 && d.dr == 0)
  }

  predicate IsRookDir(d: Delta) {
    IsKingDelta(d) && (d.df == 0 || d.dr == 0)
  }

  predicate IsBishopDir(d: Delta) {
    IsKingDelta(d) && d.df != 0 && d.dr != 0
  }

  function Offset(s: Square, t: Square): Delta {
    Delta(FileOf(t) - FileOf(s), RankOf(t) - RankOf(s))
  }

  /** On a common rank or file. */
  predicate IsLine(o: Delta) {
    (o.df == 0) != (o.dr == 0)
  }

  predicate IsDiagonal(o: Delta) {
    o.df != 0 && Abs(o.df) == Abs(o.dr)
  }

  predicate IsAligned(o: Delta) {
    IsLine(o) || IsDiagonal(o)
  }

  /** The unit direction of an offset. */
  function Unit(o: Delta): Delta {
    Delta(Sign(o.df), Sign(o.dr))
  }

  predicate Aligned(s: Square, t: Square) {
    IsAligned(Offset(s, t))
  }

  function Direction(s: Square, t: Square): Delta {
    Unit(Offset(s, t))
  }

  /** x lies strictly between s and t on a common line or diagonal. */
  predicate Between(s: Square, x: Square, t: Square) {
    Aligned(s, x) && Aligned(x, t) && Direction(s, x) == Direction(x, t)
  }

  ghost predicate Clear(squares: Squares, s: Square, t: Square) {
    forall x: Square :: Between(s, x, t) ==> squares[x] == Empty
  }

  lemma BetweenSymmetric(s: Square, x: Square, t: Square)
    ensures Between(s, x, t) <==> Between(t, x, s)
  {
  }

  lemma ClearSymmetric(squares: Squares, s: Square, t: Square)
    ensures Clear(squares, s, t) <==> Clear(squares, t, s)
  {
    forall x: Square {
      BetweenSymmetric(s, x, t);
    }
  }

  // ----- rays --------------------------------------------------------------

  /** How many steps direction d can still take from s; bounds every ray walk. */
  function StepsLeft(s: Square, d: Delta): nat {
    if d.df > 0 then 7 - FileOf(s) else if d.df < 0 then FileOf(s)
    else if d.dr > 0 then 7 - RankOf(s) else RankOf(s)
  }

  /** The squares a slider passes from s along d, up to and including the first man met. */
  function Ray(squares: Squares, s: Square, d: Delta): seq<Square>
    requires IsKingDelta(d)
    decreases StepsLeft(s, d)
  {
    match Shift(s, d)
    case None => []
    case Some(t) => if squares[t] == Empty then [t] + Ray(squares, t, d) else [t]
  }

  /** A slider at s sees t along d. */
  ghost predicate Sees(squares: Squares, s: Square, d: Delta, t: Square) {
    Aligned(s, t) && Direction(s, t) == d && Clear(squares, s, t)
  }

  function Plus(a: Delta, b: Delta): Delta {
    Delta(a.df + b.df, a.dr + b.dr)
  }

  /** Adding a unit step in front of an aligned offset keeps its direction. */
  lemma UnitStep(d: Delta, o: Delta)
    requires IsKingDelta(d)
    ensures IsAligned(d) && Unit(d) == d
    ensures IsAligned(o) && Unit(o) == d ==> IsAligned(Plus(d, o)) && Unit(Plus(d, o)) == d
    ensures IsAligned(Plus(d, o)) && Unit(Plus(d, o)) == d && o != Delta(0, 0) ==> IsAligned(o) && Unit(o) == d
  {
  }

  lemma OffsetPlus(s: Square, u: Square, t: Square)
    ensures Offset(s, t) == Plus(Offset(s, u), Offset(u, t))
    ensures Offset(s, t) == Delta(0, 0) ==> s == t
  {
    if Offset(s, t) == Delta(0, 0) {
      SameSquare(s, t);
    }
  }

  /** The squares between s and t are its neighbour u towards t and those between u and t. */
  lemma BetweenStep(s: Square, d: Delta, u: Square, x: Square, t: Square)
    requires IsKingDelta(d) && Offset(s, u) == d && Aligned(u, t) && Direction(u, t) == d && x != u
    ensures Between(s, x, t) <==> Between(u, x, t)
  {
    hide FileOf, RankOf, IsAligned, Unit, Plus, IsKingDelta;
    OffsetPlus(s, u, x);
    OffsetPlus(s, x, t);
    OffsetPlus(u, x, t);
    OffsetPlus(s, u, t);
    OffsetPlus(u, x, x);
    UnitStep(d, Offset(u, x));
    UnitStep(d, Offset(u, t));
    if Between(s, x, t) {
      AlignedDirection(Offset(s, x), Offset(x, t));
    }
    if Between(u, x, t) {
      AlignedDirection(Offset(u, x), Offset(x, t));
    }
  }

  /** What a slider at s sees beyond its next square u is what it would see from u. */
  lemma SeesStep(squares: Squares, s: Square, d: Delta, u: Square, t: Square)
    requires IsKingDelta(d) && Shift(s, d) == Some(u) && t != u
    ensures Sees(squares, s, d, t) <==> squares[u] == Empty && Sees(squares, u, d, t)
  {
    assert Offset(s, u) == d;
    hide FileOf, RankOf, IsAligned, Unit, Plus, IsKingDelta;
    OffsetPlus(s, u, t);
    OffsetPlus(u, t, t);
    UnitStep(d, Offset(u, t));
    if Aligned(u, t) && Direction(u, t) == d {
      assert Between(s, u, t);
      forall x: Square | x != u
        ensures Between(s, x, t) <==> Between(u, x, t)
      {
        BetweenStep(s, d, u, x, t);
      }
    }
  }

  /** Two aligned offsets with one direction add up to that direction. */
  lemma AlignedDirection(a: Delta, b: Delta)
    requires IsAligned(a) && IsAligned(b) && Unit(a) == Unit(b)
    ensures IsAligned(Plus(a, b)) && Unit(Plus(a, b)) == Unit(a)
  {
  }

  /** Nothing lies between a square and its neighbour. */
  lemma NeighbourSeen(squares: Squares, s: Square, d: Delta, u: Square)
    requires IsKingDelta(d) && Shift(s, d) == Some(u)
    ensures Sees(squares, s, d, u)
  {
    hide FileOf, RankOf;
    assert Offset(s, u) == d;
    forall x: Square
      ensures !Between(s, x, u)
    {
      OffsetPlus(s, x, u);
      if Between(s, x, u) {
        NoHalfStep(Offset(s, x), Offset(x, u));
      }
    }
  }

  lemma NoHalfStep(a: Delta, b: Delta)
    requires IsAligned(a) && IsAligned(b) && Unit(a) == Unit(b)
    ensures !IsKingDelta(Plus(a, b))
  {
  }

  /** A ray off the board sees nothing. */
  lemma EdgeSeesNothing(squares: Squares, s: Square, d: Delta, t: Square)
    requires IsKingDelta(d) && Shift(s, d) == None
    ensures !Sees(squares, s, d, t)
  {
  }

  /** The ray walk visits exactly the squares seen along its direction. */
  lemma {:induction false} RayIsSees(squares: Squares, s: Square, d: Delta, t: Square)
    requires IsKingDelta(d)
    ensures t in Ray(squares, s, d) <==> Sees(squares, s, d, t)
    decreases StepsLeft(s, d)
  {
    match Shift(s, d)
    case None => EdgeSeesNothing(squares, s, d, t);
    case Some(u) =>
      if t == u {
        NeighbourSeen(squares, s, d, u);
      } else {
        SeesStep(squares, s, d, u, t);
        if squares[u] == Empty {
          RayIsSees(squares, u, d, t);
        }
      }
  }
}
