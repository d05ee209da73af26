/** The reverse attack scan: looking outwards from a square for an attacker. */
module AttackScan {
  import opened ChessTypes
  import opened Geometry
  import opened Rules
  import opened MoveLists

  /** None of the first n offsets from t leads to the given man. */
  ghost predicate LeaperFree(squares: Squares, t: Square, ds: seq<Delta>, n: nat, piece: Piece) {
    n <= |ds| && forall i :: 0 <= i < n ==>
      var s := Shift(t, ds[i]); s.Some? ==> squares[s.value] != piece
  }

  /** The first man met from s along d, or Empty. */
  function RayEnd(squares: Squares, s: Square, d: Delta): Piece
    requires IsKingDelta(d)
    decreases StepsLeft(s, d)
  {
    match Shift(s, d)
    case None => Empty
    case Some(t) => if squares[t] == Empty then RayEnd(squares, t, d) else squares[t]
  }

  // A ray walk as a loop sees it: standing on cur, or off the board.

  /** The first man a walk standing on cur will meet. */
  ghost function Ahead(sq: Squares, cur: Option<Square>, d: Delta): Piece
    requires IsKingDelta(d)
  {
    match cur
    case None => Empty
    case Some(u) => if sq[u] == Empty then RayEnd(sq, u, d) else sq[u]
  }

  ghost function WalkLeft(cur: Option<Square>, d: Delta): nat {
    match cur case None => 0 case Some(u) => 1 + StepsLeft(u, d)
  }

  /** Each step brings the walk nearer the edge. */
  lemma WalkShrinks(u: Square, d: Delta)
    requires IsKingDelta(d)
    ensures WalkLeft(Shift(u, d), d) < WalkLeft(Some(u), d)
  {
  }

  /** The moves a slider's walk standing on cur has yet to add. */
  ghost function StillToAdd(squares: Squares, c: Color, s: Square, cur: Option<Square>, d: Delta): seq<Move>
    requires IsKingDelta(d)
  {
    match cur
    case None => []
    case Some(t) =>
      if squares[t] == Empty then [Move(s, t, None)] + RayMoves(squares, c, s, t, d)
      else if Holds(squares, t, c) then []
      else [Move(s, t, None)]
  }

  /** None of the first n rays from t ends at a slider of kind k or a queen. */
  ghost predicate SliderFree(squares: Squares, t: Square, ds: seq<Delta>, n: nat, c: Color, k: Kind) {
    n <= |ds| && AllKingDeltas(ds) && forall i :: 0 <= i < n ==>
      RayEnd(squares, t, ds[i]) != Man(c, k) && RayEnd(squares, t, ds[i]) != Man(c, Queen)
  }

  /** The two squares from which a pawn of colour c attacks. */
  function PawnOrigins(c: Color): seq<Delta> {
    [Delta(-1, -Forward(c)), Delta(1, -Forward(c))]
  }

  ghost predicate ScanFree(o: Order, squares: Squares, t: Square, c: Color)
    requires Complete(o)
  {
    && LeaperFree(squares, t, PawnOrigins(c), |PawnOrigins(c)|, Man(c, Pawn))
    && LeaperFree(squares, t, o.knight, |o.knight|, Man(c, Knight))
    && LeaperFree(squares, t, o.king, |o.king|, Man(c, King))
    && SliderFree(squares, t, o.rook, |o.rook|, c, Rook)
    && SliderFree(squares, t, o.bishop, |o.bishop|, c, Bishop)
  }

  lemma {:induction false} RayEndSees(squares: Squares, t: Square, d: Delta, piece: Piece)
    requires IsKingDelta(d) && piece != Empty
    ensures RayEnd(squares, t, d) == piece <==> exists s: Square :: squares[s] == piece && Sees(squares, t, d, s)
    decreases StepsLeft(t, d)
  {
    match Shift(t, d)
    case None =>
      forall s: Square ensures !Sees(squares, t, d, s) {
        EdgeSeesNothing(squares, t, d, s);
      }
    case Some(u) =>
      NeighbourSeen(squares, t, d, u);
      forall s: Square | s != u
        ensures Sees(squares, t, d, s) <==> squares[u] == Empty && Sees(squares, u, d, s)
      {
        SeesStep(squares, t, d, u, s);
      }
      if squares[u] == Empty {
        hide Sees, FileOf, RankOf;
        RayEndSees(squares, u, d, piece);
        SeesNotSelf(squares, u, d);
      }
  }

  lemma SeesNotSelf(squares: Squares, s: Square, d: Delta)
    ensures !Sees(squares, s, d, s)
  {
  }

  function Back(d: Delta): Delta { Delta(-d.df, -d.dr) }

  lemma OffsetBack(s: Square, t: Square)
    ensures Offset(t, s) == Back(Offset(s, t))
    ensures Direction(t, s) == Back(Direction(s, t))
    ensures IsLine(Offset(t, s)) == IsLine(Offset(s, t)) && IsDiagonal(Offset(t, s)) == IsDiagonal(Offset(s, t))
  {
  }

  /** A leaper table finds every leaper of its kind. */
  lemma LeaperScan(squares: Squares, t: Square, ds: seq<Delta>, piece: Piece)
    ensures LeaperFree(squares, t, ds, |ds|, piece) <==>
            forall s: Square :: squares[s] == piece ==> Offset(t, s) !in ds
  {
    hide FileOf, RankOf;
    forall s: Square, i | 0 <= i < |ds|
      ensures Shift(t, ds[i]) == Some(s) <==> Offset(t, s) == ds[i]
    {
      ShiftIff(t, ds[i], s);
    }
    if !LeaperFree(squares, t, ds, |ds|, piece) {
      var i :| 0 <= i < |ds| && Shift(t, ds[i]).Some? && squares[Shift(t, ds[i]).value] == piece;
      var s := Shift(t, ds[i]).value;
      assert Offset(t, s) in ds;
    }
  }

  /** A direction table finds every slider that sees t. */
  lemma SliderScan(squares: Squares, t: Square, ds: seq<Delta>, c: Color, k: Kind)
    requires AllKingDeltas(ds)
    ensures SliderFree(squares, t, ds, |ds|, c, k) <==>
            forall s: Square :: squares[s] == Man(c, k) || squares[s] == Man(c, Queen) ==>
              !(Aligned(t, s) && Clear(squares, t, s) && Direction(t, s) in ds)
  {
    hide FileOf, RankOf, Clear, Aligned, Direction;
    forall i | 0 <= i < |ds|
      ensures RayEnd(squares, t, ds[i]) == Man(c, k) <==>
              exists s: Square :: squares[s] == Man(c, k) && Sees(squares, t, ds[i], s)
      ensures RayEnd(squares, t, ds[i]) == Man(c, Queen) <==>
              exists s: Square :: squares[s] == Man(c, Queen) && Sees(squares, t, ds[i], s)
    {
      RayEndSees(squares, t, ds[i], Man(c, k));
      RayEndSees(squares, t, ds[i], Man(c, Queen));
    }
  }

  /** The scan from t comes upon the man on s. */
  ghost predicate Found(o: Order, squares: Squares, t: Square, c: Color, s: Square) {
    var piece := squares[s];
    var open := Aligned(t, s) && Clear(squares, t, s);
    || (piece == Man(c, Pawn) && Offset(t, s) in PawnOrigins(c))
    || (piece == Man(c, Knight) && Offset(t, s) in o.knight)
    || (piece == Man(c, King) && Offset(t, s) in o.king)
    || ((piece == Man(c, Rook) || piece == Man(c, Queen)) && open && Direction(t, s) in o.rook)
    || ((piece == Man(c, Bishop) || piece == Man(c, Queen)) && open && Direction(t, s) in o.bishop)
  }

  lemma TablesIff(o: Order, d: Delta)
    requires Complete(o)
    ensures d in o.knight <==> IsKnightDelta(d)
    ensures d in o.king <==> IsKingDelta(d)
    ensures d in o.rook <==> IsRookDir(d)
    ensures d in o.bishop <==> IsBishopDir(d)
  {
  }

  // Looking back along an offset is a move of the same shape.

  lemma LeapBack(o: Delta)
    ensures IsKnightDelta(Back(o)) == IsKnightDelta(o)
    ensures IsKingDelta(Back(o)) == IsKingDelta(o)
  {
    hide Abs;
    AbsBack(o.df);
    AbsBack(o.dr);
  }

  lemma AbsBack(x: int)
    ensures Abs(-x) == Abs(x)
  {
  }

  lemma LineBack(o: Delta)
    ensures IsLine(Back(o)) == IsLine(o)
  {
  }

  lemma DiagonalBack(o: Delta)
    ensures IsDiagonal(Back(o)) == IsDiagonal(o)
  {
  }

  lemma PawnOriginBack(o: Delta, c: Color)
    ensures Back(o) in PawnOrigins(c) <==> Abs(o.df) == 1 && o.dr == Forward(c)
  {
    var f := Forward(c);
    assert Back(o) in [Delta(-1, -f), Delta(1, -f)] <==> Back(o) == Delta(-1, -f) || Back(o) == Delta(1, -f);
  }

  lemma FoundIsAttacker(o: Order, squares: Squares, t: Square, c: Color, s: Square)
    requires Complete(o)
    ensures Found(o, squares, t, c, s) <==> Holds(squares, s, c) && Attacks(squares, s, t)
  {
    hide Clear, Complete, IsLine, IsDiagonal, Offset, Back, PawnOrigins, IsKnightDelta, IsKingDelta, Unit,
         IsRookDir, IsBishopDir, FileOf, RankOf, Forward, Abs;
    OffsetBack(s, t);
    ClearSymmetric(squares, s, t);
    LeapBack(Offset(s, t));
    LineBack(Offset(s, t));
    DiagonalBack(Offset(s, t));
    PawnOriginBack(Offset(s, t), c);
    TablesIff(o, Offset(t, s));
    TablesIff(o, Direction(t, s));
    if IsAligned(Offset(t, s)) {
      UnitKind(Offset(t, s));
    }
  }

  lemma ScanFindsNothing(o: Order, squares: Squares, t: Square, c: Color)
    requires Complete(o)
    ensures ScanFree(o, squares, t, c) <==> forall s: Square :: !Found(o, squares, t, c, s)
  {
    hide FileOf, RankOf, LeaperFree, SliderFree, Clear, Aligned, Direction, Offset, PawnOrigins;
    LeaperScan(squares, t, PawnOrigins(c), Man(c, Pawn));
    LeaperScan(squares, t, o.knight, Man(c, Knight));
    LeaperScan(squares, t, o.king, Man(c, King));
    SliderScan(squares, t, o.rook, c, Rook);
    SliderScan(squares, t, o.bishop, c, Bishop);
    if forall s: Square :: !Found(o, squares, t, c, s) {
      forall s: Square
        ensures squares[s] == Man(c, Pawn) ==> Offset(t, s) !in PawnOrigins(c)
        ensures squares[s] == Man(c, Knight) ==> Offset(t, s) !in o.knight
        ensures squares[s] == Man(c, King) ==> Offset(t, s) !in o.king
        ensures squares[s] == Man(c, Rook) || squares[s] == Man(c, Queen) ==>
                  !(Aligned(t, s) && Clear(squares, t, s) && Direction(t, s) in o.rook)
        ensures squares[s] == Man(c, Bishop) || squares[s] == Man(c, Queen) ==>
                  !(Aligned(t, s) && Clear(squares, t, s) && Direction(t, s) in o.bishop)
      {
        assert !Found(o, squares, t, c, s);
      }
    }
  }

  /** The scan with complete tables finds nothing exactly when nothing attacks t. */
  lemma ScanIsAttack(o: Order, squares: Squares, t: Square, c: Color)
    requires Complete(o)
    ensures ScanFree(o, squares, t, c) <==> !Attacked(squares, t, c)
  {
    hide Found, Attacks, ScanFree;
    ScanFindsNothing(o, squares, t, c);
    forall s: Square
      ensures Found(o, squares, t, c, s) <==> Holds(squares, s, c) && Attacks(squares, s, t)
    {
      FoundIsAttacker(o, squares, t, c, s);
    }
  }
}
