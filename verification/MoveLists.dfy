/** The generators' move lists as functions of the position. An Order fixes the
    sequence in which offsets are tried, so one definition serves every generator;
    the lists are then related to the declarative rules. */
module MoveLists {
  import opened ChessTypes
  import opened Geometry
  import opened Rules

  /** The offset tables of a move generator, in the order it tries them. */
  datatype Order = Order(knight: seq<Delta>, king: seq<Delta>, rook: seq<Delta>, bishop: seq<Delta>,
                         queen: seq<Delta>, pawn: seq<int>)

  /** Each table lists every offset of its kind exactly once. */
  ghost predicate Complete(o: Order) {
    && NoDup(o.knight) && (forall d :: d in o.knight <==> IsKnightDelta(d))
    && NoDup(o.king) && (forall d :: d in o.king <==> IsKingDelta(d))
    && NoDup(o.rook) && (forall d :: d in o.rook <==> IsRookDir(d))
    && NoDup(o.bishop) && (forall d :: d in o.bishop <==> IsBishopDir(d))
    && NoDup(o.queen) && (forall d :: d in o.queen <==> IsKingDelta(d))
    && NoDup(o.pawn) && (forall f :: f in o.pawn <==> f == -1 || f == 1)
  }

  lemma InFour<T>(s: seq<T>, x: T)
    requires |s| == 4
    ensures x in s <==> x == s[0] || x == s[1] || x == s[2] || x == s[3]
  {
  }

  lemma InEight<T>(s: seq<T>, x: T)
    requires |s| == 8
    ensures x in s <==> x == s[0] || x == s[1] || x == s[2] || x == s[3]
                        || x == s[4] || x == s[5] || x == s[6] || x == s[7]
  {
    assert s == s[..4] + s[4..];
    InFour(s[..4], x);
    InFour(s[4..], x);
  }

  // ----- the lists ---------------------------------------------------------

  /** Moves of a knight or king through the first n offsets. */
  function StepMoves(squares: Squares, c: Color, s: Square, ds: seq<Delta>, n: nat): seq<Move>
    requires n <= |ds|
  {
    if n == 0 then []
    else StepMoves(squares, c, s, ds, n - 1) +
         match Shift(s, ds[n - 1])
         case None => []
         case Some(t) => if Holds(squares, t, c) then [] else [Move(s, t, None)]
  }

  /** Moves from s along d to the squares beyond u, up to the first man met. */
  function RayMoves(squares: Squares, c: Color, s: Square, u: Square, d: Delta): seq<Move>
    requires IsKingDelta(d)
    decreases StepsLeft(u, d)
  {
    match Shift(u, d)
    case None => []
    case Some(t) =>
      if squares[t] == Empty then [Move(s, t, None)] + RayMoves(squares, c, s, t, d)
      else if Holds(squares, t, c) then []
      else [Move(s, t, None)]
  }

  predicate AllKingDeltas(ds: seq<Delta>) {
    forall d :: d in ds ==> IsKingDelta(d)
  }

  function SlideMoves(squares: Squares, c: Color, s: Square, ds: seq<Delta>, n: nat): seq<Move>
    requires n <= |ds| && AllKingDeltas(ds)
  {
    if n == 0 then []
    else SlideMoves(squares, c, s, ds, n - 1) + RayMoves(squares, c, s, s, ds[n - 1])
  }

  /** One move, or the four promotions in the order q, r, b, n. */
  function PawnMove(c: Color, s: Square, t: Square): seq<Move> {
    if RankOf(t) == LastRank(c)
    then [Move(s, t, Some(Queen)), Move(s, t, Some(Rook)), Move(s, t, Some(Bishop)), Move(s, t, Some(Knight))]
    else [Move(s, t, None)]
  }

  function PawnPushes(p: Pos, s: Square): seq<Move> {
    match Shift(s, Delta(0, Forward(p.side)))
    case None => []
    case Some(one) =>
      if p.squares[one] != Empty then []
      else PawnMove(p.side, s, one) +
           if RankOf(s) != StartRank(p.side) then []
           else match Shift(s, Delta(0, 2 * Forward(p.side)))
                case None => []
                case Some(two) => if p.squares[two] == Empty then [Move(s, two, None)] else []
  }

  function PawnTakes(p: Pos, s: Square, fs: seq<int>, n: nat): seq<Move>
    requires n <= |fs|
  {
    if n == 0 then []
    else PawnTakes(p, s, fs, n - 1) +
         match Shift(s, Delta(fs[n - 1], Forward(p.side)))
         case None => []
         case Some(t) =>
           if Holds(p.squares, t, p.side.Other()) then PawnMove(p.side, s, t)
           else if p.ep == Some(t) then [Move(s, t, None)]
           else []
  }

  ghost function CastleMoves(p: Pos, s: Square): seq<Move> {
    if s != Home(p.side) then []
    else (if CastleOpen(p, true) then [Move(s, s + 2, None)] else []) +
         (if CastleOpen(p, false) then [Move(s, s - 2, None)] else [])
  }

  function SliderTable(o: Order, k: Kind): seq<Delta> {
    match k case Rook => o.rook case Bishop => o.bishop case _ => o.queen
  }

  ghost function ManMoves(o: Order, p: Pos, s: Square): seq<Move>
    requires Complete(o)
  {
    if !Holds(p.squares, s, p.side) then []
    else match p.squares[s].kind
      case Pawn => PawnPushes(p, s) + PawnTakes(p, s, o.pawn, |o.pawn|)
      case Knight => StepMoves(p.squares, p.side, s, o.knight, |o.knight|)
      case King => StepMoves(p.squares, p.side, s, o.king, |o.king|) + CastleMoves(p, s)
      case k => SlideMoves(p.squares, p.side, s, SliderTable(o, k), |SliderTable(o, k)|)
  }

  /** The moves of the men standing on the first n squares. */
  ghost function PseudoUpTo(o: Order, p: Pos, n: nat): seq<Move>
    requires Complete(o) && n <= 64
  {
    if n == 0 then [] else PseudoUpTo(o, p, n - 1) + ManMoves(o, p, n - 1)
  }

  ghost function PseudoMoves(o: Order, p: Pos): seq<Move>
    requires Complete(o)
  {
    PseudoUpTo(o, p, 64)
  }

  /** The moves of ms that leave the mover's king safe, in order. */
  ghost function SafeMoves(p: Pos, ms: seq<Move>): seq<Move> {
    if ms == [] then []
    else SafeMoves(p, ms[..|ms| - 1]) +
         var m := ms[|ms| - 1];
         if KingSafe(After(p, m).squares, p.side) then [m] else []
  }

  ghost function LegalMoves(o: Order, p: Pos): seq<Move>
    requires Complete(o)
  {
    SafeMoves(p, PseudoMoves(o, p))
  }

  // ----- what the lists contain --------------------------------------------

  lemma {:induction false} StepMovesHold(squares: Squares, c: Color, s: Square, ds: seq<Delta>, n: nat, m: Move)
    requires n <= |ds|
    ensures m in StepMoves(squares, c, s, ds, n) <==>
            m.from == s && m.promo.None? && Offset(s, m.to) in ds[..n] && !Holds(squares, m.to, c)
  {
    hide FileOf, RankOf;
    if n > 0 {
      StepMovesHold(squares, c, s, ds, n - 1, m);
      ShiftIff(s, ds[n - 1], m.to);
      assert ds[..n] == ds[..n - 1] + [ds[n - 1]];
    }
  }

  lemma {:induction false} RayMovesHold(squares: Squares, c: Color, s: Square, u: Square, d: Delta, m: Move)
    requires IsKingDelta(d)
    ensures m in RayMoves(squares, c, s, u, d) <==>
            m.from == s && m.promo.None? && m.to in Ray(squares, u, d) && !Holds(squares, m.to, c)
    decreases StepsLeft(u, d)
  {
    match Shift(u, d)
    case None =>
    case Some(t) =>
      if squares[t] == Empty {
        RayMovesHold(squares, c, s, t, d, m);
      }
  }

  lemma {:induction false} SlideMovesHold(squares: Squares, c: Color, s: Square, ds: seq<Delta>, n: nat, m: Move)
    requires n <= |ds| && AllKingDeltas(ds)
    ensures m in SlideMoves(squares, c, s, ds, n) <==>
            m.from == s && m.promo.None? && Aligned(s, m.to) && Direction(s, m.to) in ds[..n] &&
            Clear(squares, s, m.to) && !Holds(squares, m.to, c)
  {
    if n > 0 {
      SlideMovesHold(squares, c, s, ds, n - 1, m);
      RayMovesHold(squares, c, s, s, ds[n - 1], m);
      RayIsSees(squares, s, ds[n - 1], m.to);
      assert ds[..n] == ds[..n - 1] + [ds[n - 1]];
    }
  }

  lemma PawnMoveHolds(c: Color, s: Square, t: Square, m: Move)
    ensures m in PawnMove(c, s, t) <==> m.from == s && m.to == t && PromotionFits(c, m)
  {
  }

  lemma PawnPushesHold(p: Pos, s: Square, m: Move)
    requires p.squares[s] == Man(p.side, Pawn)
    ensures m in PawnPushes(p, s) <==> m.from == s && (PawnPush(p, m) || PawnDouble(p, m))
  {
    var f := Forward(p.side);
    ShiftIff(s, Delta(0, f), m.to);
    ShiftIff(s, Delta(0, 2 * f), m.to);
    var one := Shift(s, Delta(0, f));
    if one.Some? {
      PawnMoveHolds(p.side, s, one.value, m);
      assert one.value == s + 8 * f;
    }
  }

  lemma {:induction false} PawnTakesHold(p: Pos, s: Square, fs: seq<int>, n: nat, m: Move)
    requires n <= |fs|
    ensures m in PawnTakes(p, s, fs, n) <==>
            && m.from == s
            && FileOf(m.to) - FileOf(s) in fs[..n] && RankOf(m.to) - RankOf(s) == Forward(p.side)
            && (if Holds(p.squares, m.to, p.side.Other()) then PromotionFits(p.side, m)
                else p.ep == Some(m.to) && m.promo.None?)
  {
    if n > 0 {
      PawnTakesHold(p, s, fs, n - 1, m);
      ShiftIff(s, Delta(fs[n - 1], Forward(p.side)), m.to);
      assert fs[..n] == fs[..n - 1] + [fs[n - 1]];
      var t := Shift(s, Delta(fs[n - 1], Forward(p.side)));
      if t.Some? {
        PawnMoveHolds(p.side, s, t.value, m);
      }
    }
  }

  lemma UnitKind(o: Delta)
    requires IsAligned(o)
    ensures IsKingDelta(Unit(o))
    ensures IsLine(o) <==> IsRookDir(Unit(o))
    ensures IsDiagonal(o) <==> IsBishopDir(Unit(o))
  {
  }

  lemma SliderMovesHold(o: Order, p: Pos, s: Square, m: Move)
    requires Complete(o) && Holds(p.squares, s, p.side)
    requires p.squares[s].kind in {Rook, Bishop, Queen}
    ensures m in ManMoves(o, p, s) <==> m.from == s && PieceMove(p, m)
  {
    var ds := SliderTable(o, p.squares[s].kind);
    SlideMovesHold(p.squares, p.side, s, ds, |ds|, m);
    assert ds[..|ds|] == ds;
    hide FileOf, RankOf, IsLine, IsDiagonal, Clear;
    if IsAligned(Offset(s, m.to)) {
      UnitKind(Offset(s, m.to));
    }
  }

  lemma PawnMovesHold(o: Order, p: Pos, s: Square, m: Move)
    requires Complete(o) && p.squares[s] == Man(p.side, Pawn)
    ensures m in ManMoves(o, p, s) <==> m.from == s && PseudoLegal(p, m)
  {
    PawnPushesHold(p, s, m);
    PawnTakesHold(p, s, o.pawn, |o.pawn|, m);
    assert o.pawn[..|o.pawn|] == o.pawn;
  }

  lemma LeaperMovesHold(o: Order, p: Pos, s: Square, m: Move)
    requires Complete(o) && Holds(p.squares, s, p.side)
    requires p.squares[s].kind in {Knight, King}
    ensures m in ManMoves(o, p, s) <==> m.from == s && PseudoLegal(p, m)
  {
    var ds := if p.squares[s].kind == Knight then o.knight else o.king;
    StepMovesHold(p.squares, p.side, s, ds, |ds|, m);
    assert ds[..|ds|] == ds;
    hide FileOf, RankOf;
  }

  lemma ManMovesHold(o: Order, p: Pos, s: Square, m: Move)
    requires Complete(o)
    ensures m in ManMoves(o, p, s) <==> m.from == s && PseudoLegal(p, m)
  {
    if Holds(p.squares, s, p.side) {
      match p.squares[s].kind
      case Pawn => PawnMovesHold(o, p, s, m);
      case Knight => LeaperMovesHold(o, p, s, m);
      case King => LeaperMovesHold(o, p, s, m);
      case _ => SliderMovesHold(o, p, s, m);
    }
  }

  lemma {:induction false} PseudoUpToHolds(o: Order, p: Pos, n: nat, m: Move)
    requires Complete(o) && n <= 64
    ensures m in PseudoUpTo(o, p, n) <==> m.from < n && PseudoLegal(p, m)
  {
    if n > 0 {
      PseudoUpToHolds(o, p, n - 1, m);
      ManMovesHold(o, p, n - 1, m);
    }
  }

  /** A generator with complete tables lists exactly the pseudo-legal moves. */
  lemma PseudoMovesAreExact(o: Order, p: Pos, m: Move)
    requires Complete(o)
    ensures m in PseudoMoves(o, p) <==> PseudoLegal(p, m)
  {
    PseudoUpToHolds(o, p, 64, m);
  }

  lemma {:induction false} SafeMovesHold(p: Pos, ms: seq<Move>, m: Move)
    ensures m in SafeMoves(p, ms) <==> m in ms && KingSafe(After(p, m).squares, p.side)
  {
    hide KingSafe, After;
    if ms != [] {
      SafeMovesHold(p, ms[..|ms| - 1], m);
      assert ms == ms[..|ms| - 1] + [ms[|ms| - 1]];
    }
  }

  /** generate_legal lists exactly the legal moves, whatever order its tables are in. */
  lemma LegalMovesAreExact(o: Order, p: Pos, m: Move)
    requires Complete(o)
    ensures m in LegalMoves(o, p) <==> Legal(p, m)
  {
    SafeMovesHold(p, PseudoMoves(o, p), m);
    PseudoMovesAreExact(o, p, m);
  }
}
