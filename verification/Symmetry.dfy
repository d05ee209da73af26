/** Colour symmetry: turning the board upside down and swapping the colours
    maps moves to moves and positions to positions. */
module Symmetry {
  import opened ChessTypes
  import opened Geometry
  import opened Rules
  import opened Preservation

  /** The same file on the opposite rank. */
  function Mirror(s: Square): (t: Square)
    ensures FileOf(t) == FileOf(s) && RankOf(t) == 7 - RankOf(s)
  {
    s % 8 + 8 * (7 - s / 8)
  }

  function SwapColor(piece: Piece): Piece {
    match piece case Empty => Empty case Man(c, k) => Man(c.Other(), k)
  }

  function FlipSquares(squares: Squares): (r: Squares)
    ensures forall s: Square :: r[Mirror(s)] == SwapColor(squares[s])
  {
    var r := seq(64, i requires 0 <= i < 64 => SwapColor(squares[Mirror(i)]));
    assert forall s: Square :: r[Mirror(s)] == SwapColor(squares[s]) by {
      forall s: Square ensures Mirror(Mirror(s)) == s { MirrorTwice(s); }
    }
    r
  }

  function FlipMove(m: Move): Move {
    Move(Mirror(m.from), Mirror(m.to), m.promo)
  }

  function FlipEp(ep: Option<EpSquare>): Option<EpSquare> {
    match ep case None => None case Some(e) => Some(Mirror(e))
  }

  function Flip(p: Pos): Pos {
    Pos(FlipSquares(p.squares), p.side.Other(), Rights(p.rights.bk, p.rights.bq, p.rights.wk, p.rights.wq),
        FlipEp(p.ep), p.half, p.full)
  }

  lemma MirrorTwice(s: Square)
    ensures Mirror(Mirror(s)) == s
  {
    SameSquare(Mirror(Mirror(s)), s);
  }

  lemma FlipTwice(p: Pos, m: Move)
    ensures Flip(Flip(p)) == p && FlipMove(FlipMove(m)) == m
  {
    hide Mirror, FlipSquares, FileOf, RankOf;
    MirrorTwice(m.from);
    MirrorTwice(m.to);
    if p.ep.Some? { MirrorTwice(p.ep.value); }
    forall s: Square ensures Mirror(Mirror(s)) == s && FlipSquares(FlipSquares(p.squares))[s] == p.squares[s] {
      MirrorTwice(s);
      assert FlipSquares(FlipSquares(p.squares))[Mirror(Mirror(s))] == p.squares[s];
    }
    assert FlipSquares(FlipSquares(p.squares)) == p.squares;
  }

  function Upend(d: Delta): Delta { Delta(d.df, -d.dr) }

  lemma UpendShape(o: Delta)
    ensures IsKnightDelta(Upend(o)) == IsKnightDelta(o) && IsKingDelta(Upend(o)) == IsKingDelta(o)
    ensures IsLine(Upend(o)) == IsLine(o) && IsDiagonal(Upend(o)) == IsDiagonal(o)
    ensures Unit(Upend(o)) == Upend(Unit(o))
  {
  }

  lemma MirrorOffset(s: Square, t: Square)
    ensures Offset(Mirror(s), Mirror(t)) == Upend(Offset(s, t))
  {
  }

  lemma MirrorBetween(s: Square, x: Square, t: Square)
    ensures Between(Mirror(s), Mirror(x), Mirror(t)) <==> Between(s, x, t)
  {
    hide Mirror, FileOf, RankOf, IsLine, IsDiagonal, IsKnightDelta, IsKingDelta, Unit, Offset;
    MirrorOffset(s, x);
    MirrorOffset(x, t);
    UpendShape(Offset(s, x));
    UpendShape(Offset(x, t));
  }

  lemma FlipClear(squares: Squares, s: Square, t: Square)
    ensures Clear(FlipSquares(squares), Mirror(s), Mirror(t)) <==> Clear(squares, s, t)
  {
    hide Between, Mirror;
    forall x: Square
      ensures Between(s, x, t) <==> Between(Mirror(s), Mirror(x), Mirror(t))
      ensures Mirror(Mirror(x)) == x
    {
      MirrorBetween(s, x, t);
      MirrorTwice(x);
    }
    if Clear(squares, s, t) {
      forall x: Square | Between(Mirror(s), x, Mirror(t))
        ensures FlipSquares(squares)[x] == Empty
      {
        assert Between(s, Mirror(x), t);
        assert FlipSquares(squares)[Mirror(Mirror(x))] == SwapColor(squares[Mirror(x)]);
      }
    }
    if Clear(FlipSquares(squares), Mirror(s), Mirror(t)) {
      forall x: Square | Between(s, x, t)
        ensures squares[x] == Empty
      {
        assert FlipSquares(squares)[Mirror(x)] == SwapColor(squares[x]);
      }
    }
  }

  lemma FlipAttacks(squares: Squares, s: Square, t: Square)
    ensures Attacks(FlipSquares(squares), Mirror(s), Mirror(t)) <==> Attacks(squares, s, t)
  {
    hide Clear, FileOf, RankOf, IsLine, IsDiagonal, Unit, Offset, IsKnightDelta, IsKingDelta, Mirror, FlipSquares;
    assert FlipSquares(squares)[Mirror(s)] == SwapColor(squares[s]);
    FlipClear(squares, s, t);
    MirrorOffset(s, t);
    UpendShape(Offset(s, t));
  }

  lemma FlipAttacked(squares: Squares, t: Square, c: Color)
    ensures Attacked(FlipSquares(squares), Mirror(t), c.Other()) <==> Attacked(squares, t, c)
  {
    hide Attacks, Mirror, FlipSquares;
    forall s: Square
      ensures Mirror(Mirror(s)) == s
      ensures Holds(squares, s, c) && Attacks(squares, s, t) <==>
              Holds(FlipSquares(squares), Mirror(s), c.Other()) && Attacks(FlipSquares(squares), Mirror(s), Mirror(t))
    {
      MirrorTwice(s);
      FlipAttacks(squares, s, t);
      assert FlipSquares(squares)[Mirror(s)] == SwapColor(squares[s]);
    }
    if Attacked(FlipSquares(squares), Mirror(t), c.Other()) {
      var s: Square :| Holds(FlipSquares(squares), s, c.Other()) && Attacks(FlipSquares(squares), s, Mirror(t));
      assert Mirror(Mirror(s)) == s;
      assert Holds(squares, Mirror(s), c) && Attacks(squares, Mirror(s), t);
    }
  }

  // ----- pseudo-legal moves --------------------------------------------------

  lemma MirrorIndex(s: Square)
    ensures Mirror(s) == s + 56 - 16 * RankOf(s)
  {
  }

  /** The contents of a mirrored square, in the terms the rules use. */
  lemma FlipHolds(squares: Squares, s: Square, c: Color)
    ensures FlipSquares(squares)[Mirror(s)] == SwapColor(squares[s])
    ensures Holds(FlipSquares(squares), Mirror(s), c.Other()) == Holds(squares, s, c)
  {
  }

  lemma FlipFits(p: Pos, m: Move)
    ensures PromotionFits(p.side.Other(), FlipMove(m)) == PromotionFits(p.side, m)
  {
  }

  lemma FlipPawnPush(p: Pos, m: Move)
    ensures PawnPush(Flip(p), FlipMove(m)) == PawnPush(p, m)
  {
    hide Mirror, FlipSquares, FileOf, RankOf, Offset, PromotionFits;
    FlipFits(p, m);
    MirrorOffset(m.from, m.to);
    FlipHolds(p.squares, m.to, p.side);
  }

  lemma MirrorAhead(s: Square, c: Color)
    requires RankOf(s) == StartRank(c)
    ensures 0 <= s + 8 * Forward(c) < 64
    ensures Mirror(s + 8 * Forward(c)) == Mirror(s) + 8 * Forward(c.Other())
  {
    MirrorIndex(s);
    MirrorIndex(s + 8 * Forward(c));
    assert RankOf(s + 8 * Forward(c)) == RankOf(s) + Forward(c);
  }

  lemma FlipPawnDouble(p: Pos, m: Move)
    ensures PawnDouble(Flip(p), FlipMove(m)) == PawnDouble(p, m)
  {
    hide Mirror, FlipSquares, Offset, FileOf, RankOf;
    MirrorOffset(m.from, m.to);
    FlipHolds(p.squares, m.to, p.side);
    if RankOf(m.from) == StartRank(p.side) {
      MirrorAhead(m.from, p.side);
      FlipHolds(p.squares, m.from + 8 * Forward(p.side), p.side);
    }
  }

  lemma FlipPawnTakes(p: Pos, m: Move)
    ensures PawnCapture(Flip(p), FlipMove(m)) == PawnCapture(p, m)
    ensures PawnEnPassant(Flip(p), FlipMove(m)) == PawnEnPassant(p, m)
  {
    hide Mirror, FlipSquares, FileOf, RankOf, PromotionFits;
    FlipFits(p, m);
    FlipHolds(p.squares, m.to, p.side.Other());
    assert PawnDiagonal(Flip(p), FlipMove(m)) == PawnDiagonal(p, m);
    if p.ep.Some? {
      MirrorTwice(m.to);
      MirrorTwice(p.ep.value);
    }
  }

  /** An empty or attacked square of the castling path, seen from both sides. */
  lemma FlipPathSquare(p: Pos, s: Square)
    ensures FlipSquares(p.squares)[Mirror(s)] == Empty <==> p.squares[s] == Empty
    ensures Attacked(FlipSquares(p.squares), Mirror(s), p.side) <==> Attacked(p.squares, s, p.side.Other())
  {
    hide Attacked;
    FlipHolds(p.squares, s, p.side);
    FlipAttacked(p.squares, s, p.side.Other());
  }

  lemma FlipCastleOpen(p: Pos, kingSide: bool)
    ensures CastleOpen(Flip(p), kingSide) == CastleOpen(p, kingSide)
  {
    hide Attacked, FlipSquares, Mirror;
    var h := Home(p.side);
    var d: int := if kingSide then 1 else -1;
    MirrorHome(p.side, 0);
    MirrorHome(p.side, d);
    MirrorHome(p.side, 2 * d);
    MirrorHome(p.side, -3);
    MirrorHome(p.side, if kingSide then 3 else -4);
    FlipHolds(p.squares, RookHome(p.side, kingSide), p.side);
    FlipPathSquare(p, h);
    FlipPathSquare(p, h + d);
    FlipPathSquare(p, h + 2 * d);
    FlipPathSquare(p, h - 3);
  }

  lemma FlipCastles(p: Pos, m: Move)
    ensures Castles(Flip(p), FlipMove(m)) == Castles(p, m)
  {
    hide CastleOpen, FlipSquares;
    FlipCastleOpen(p, true);
    FlipCastleOpen(p, false);
  }

  /** Flipping maps pseudo-legal moves onto pseudo-legal moves, on every board. */
  lemma FlipPseudoLegal(p: Pos, m: Move)
    ensures PseudoLegal(Flip(p), FlipMove(m)) <==> PseudoLegal(p, m)
  {
    hide FileOf, RankOf, FlipSquares, Mirror, PawnPush, PawnDouble, PawnCapture, PawnEnPassant, Castles, Attacks;
    FlipHolds(p.squares, m.from, p.side);
    FlipHolds(p.squares, m.to, p.side);
    FlipPawnPush(p, m);
    FlipPawnDouble(p, m);
    FlipPawnTakes(p, m);
    FlipCastles(p, m);
    FlipAttacks(p.squares, m.from, m.to);
  }

  // ----- making a move -------------------------------------------------------

  lemma FlipSquaresIs(squares: Squares, r: Squares)
    requires forall s: Square :: r[Mirror(s)] == SwapColor(squares[s])
    ensures r == FlipSquares(squares)
  {
    hide Mirror, FlipSquares;
    forall s: Square ensures r[s] == FlipSquares(squares)[s] {
      MirrorTwice(s);
      assert r[Mirror(Mirror(s))] == SwapColor(squares[Mirror(s)]);
      assert FlipSquares(squares)[Mirror(Mirror(s))] == SwapColor(squares[Mirror(s)]);
    }
    assert r == FlipSquares(squares);
  }

  /** Writing a square commutes with flipping. */
  lemma FlipUpdate(squares: Squares, s: Square, piece: Piece)
    ensures FlipSquares(squares[s := piece]) == FlipSquares(squares)[Mirror(s) := SwapColor(piece)]
  {
    hide Mirror, FlipSquares, FileOf, RankOf;
    var r: Squares := FlipSquares(squares)[Mirror(s) := SwapColor(piece)];
    var q: Squares := squares[s := piece];
    forall x: Square ensures r[Mirror(x)] == SwapColor(q[x]) {
      MirrorTwice(s);
      MirrorTwice(x);
      assert FlipSquares(squares)[Mirror(x)] == SwapColor(squares[x]);
    }
    FlipSquaresIs(q, r);
  }

  lemma FlipPlaced(p: Pos, m: Move)
    requires PseudoLegal(p, m)
    ensures Placed(SwapColor(p.squares[m.from]), m.promo) == SwapColor(Placed(p.squares[m.from], m.promo))
  {
    if m.promo.Some? {
      PromotionIsPawn(p, m);
    }
    PseudoLegalMoves(p, m);
    hide PseudoLegal;
  }

  lemma FlipOrdinary(p: Pos, m: Move)
    requires PseudoLegal(p, m)
    ensures Ordinary(Flip(p), FlipMove(m)) == FlipSquares(Ordinary(p, m))
  {
    hide Mirror, FlipSquares, PseudoLegal, Placed, SwapColor, FileOf, RankOf;
    FlipPlaced(p, m);
    FlipHolds(p.squares, m.from, p.side);
    assert SwapColor(Empty) == Empty by { SwapEmpty(); }
    FlipUpdate(p.squares, m.from, Empty);
    FlipUpdate(p.squares[m.from := Empty], m.to, Placed(p.squares[m.from], m.promo));
  }

  lemma SwapEmpty()
    ensures SwapColor(Empty) == Empty
  {
  }

  lemma FlipShape(p: Pos, m: Move)
    requires PseudoLegal(p, m)
    ensures TakesEnPassant(Flip(p), FlipMove(m)) == TakesEnPassant(p, m)
    ensures IsCastling(Flip(p), FlipMove(m)) == IsCastling(p, m)
  {
    hide FlipSquares, PseudoLegal;
    FlipHolds(p.squares, m.from, p.side);
    FlipHolds(p.squares, m.to, p.side);
    if p.ep.Some? {
      MirrorTwice(m.to);
      MirrorTwice(p.ep.value);
    }
  }

  lemma FlipSquaresAfter(p: Pos, m: Move)
    requires PseudoLegal(p, m)
    ensures SquaresAfter(Flip(p), FlipMove(m)) == FlipSquares(SquaresAfter(p, m))
  {
    hide FlipSquares, PseudoLegal, SquaresAfter, Ordinary, FileOf, RankOf, TakesEnPassant, IsCastling;
    FlipPseudoLegal(p, m);
    Shapes(p, m);
    Shapes(Flip(p), FlipMove(m));
    FlipShape(p, m);
    FlipOrdinary(p, m);
    if TakesEnPassant(p, m) {
      FlipEnPassant(p, m);
    } else if IsCastling(p, m) {
      FlipCastling(p, m);
    }
  }

  lemma MirrorBehind(s: Square, c: Color)
    requires 8 <= s < 56
    ensures Mirror(s - 8 * Forward(c)) == Mirror(s) - 8 * Forward(c.Other())
  {
    MirrorIndex(s);
    MirrorIndex(s - 8 * Forward(c));
    assert RankOf(s - 8 * Forward(c)) == RankOf(s) - Forward(c);
  }

  lemma FlipEnPassant(p: Pos, m: Move)
    requires PseudoLegal(p, m) && TakesEnPassant(p, m)
    ensures AfterEnPassant(Flip(p), FlipMove(m)) == FlipSquares(AfterEnPassant(p, m))
  {
    hide FlipSquares, PseudoLegal, Ordinary, Mirror, FileOf, RankOf;
    FlipOrdinary(p, m);
    MirrorBehind(m.to, p.side);
    FlipUpdate(Ordinary(p, m), m.to - 8 * Forward(p.side), Empty);
  }

  lemma MirrorHome(c: Color, i: int)
    requires -4 <= i <= 3
    ensures Mirror(Home(c) + i) == Home(c.Other()) + i
  {
  }

  lemma FlipCastling(p: Pos, m: Move)
    requires PseudoLegal(p, m) && IsCastling(p, m)
    ensures AfterCastling(Flip(p), FlipMove(m)) == FlipSquares(AfterCastling(p, m))
  {
    hide FlipSquares, PseudoLegal, Mirror, FileOf, RankOf;
    var h := Home(p.side);
    var d: int := m.to - h;
    var corner: int := if d == 2 then 3 else -4;
    var inner: int := if d == 2 then 1 else -1;
    var king := Man(p.side, King);
    var rook := Man(p.side, Rook);
    MirrorHome(p.side, 0);
    MirrorHome(p.side, d);
    MirrorHome(p.side, corner);
    MirrorHome(p.side, inner);
    var s1: Squares := p.squares[m.from := Empty];
    var s2: Squares := s1[m.to := king];
    var s3: Squares := s2[h + corner := Empty];
    FlipUpdate(p.squares, m.from, Empty);
    FlipUpdate(s1, m.to, king);
    FlipUpdate(s2, h + corner, Empty);
    FlipUpdate(s3, h + inner, rook);
  }

  /** Everything but the fullmove number. */
  function IgnoringFull(p: Pos): Pos { p.(full := 0) }

  lemma DoubleGap(p: Pos, m: Move)
    requires PseudoLegal(p, m) && IsPawn(p.squares[m.from])
    ensures Abs(m.to - m.from) == 16 <==> PawnDouble(p, m)
    ensures PawnDouble(p, m) ==> m.to == m.from + 16 * Forward(p.side)
  {
  }

  lemma FlipEpAfter(p: Pos, m: Move)
    requires PseudoLegal(p, m)
    ensures EpAfter(Flip(p), FlipMove(m)) == FlipEp(EpAfter(p, m))
  {
    hide FlipSquares, PseudoLegal, PawnDouble, Mirror;
    FlipHolds(p.squares, m.from, p.side);
    if IsPawn(p.squares[m.from]) {
      DoubleGap(p, m);
      FlipPseudoLegal(p, m);
      DoubleGap(Flip(p), FlipMove(m));
      FlipPawnDouble(p, m);
      if PawnDouble(p, m) {
        assert RankOf(m.from) == StartRank(p.side) by { DoubleStarts(p, m); }
        MirrorAhead(m.from, p.side);
      }
    }
  }

  lemma DoubleStarts(p: Pos, m: Move)
    requires PawnDouble(p, m)
    ensures RankOf(m.from) == StartRank(p.side)
  {
  }

  lemma MirrorMeets(s: Square, t: Square)
    ensures Mirror(s) == t <==> s == Mirror(t)
  {
    MirrorTwice(s);
    MirrorTwice(t);
  }

  lemma FlipRightsAfter(p: Pos, m: Move)
    ensures RightsAfter(Flip(p), FlipMove(m)) == Flip(After(p, m)).rights
  {
    hide FlipSquares, SquaresAfter, Mirror, EpAfter;
    assert Mirror(0) == 56 && Mirror(7) == 63 && Mirror(56) == 0 && Mirror(63) == 7 by { Corners(); }
    FlipHolds(p.squares, m.from, p.side);
    forall s: Square, t: Square ensures Mirror(s) == t <==> s == Mirror(t) {
      MirrorMeets(s, t);
    }
  }

  lemma Corners()
    ensures Mirror(0) == 56 && Mirror(7) == 63 && Mirror(56) == 0 && Mirror(63) == 7
  {
  }

  /** make_move commutes with flipping in everything but the fullmove number. */
  lemma FlipAfter(p: Pos, m: Move)
    requires PseudoLegal(p, m)
    ensures IgnoringFull(After(Flip(p), FlipMove(m))) == IgnoringFull(Flip(After(p, m)))
  {
    hide FlipSquares, PseudoLegal, SquaresAfter, RightsAfter, EpAfter;
    FlipSquaresAfter(p, m);
    FlipRightsAfter(p, m);
    FlipEpAfter(p, m);
    FlipHolds(p.squares, m.from, p.side);
    FlipHolds(p.squares, m.to, p.side);
  }

  // ----- legality ------------------------------------------------------------

  lemma FlipOneKing(squares: Squares, c: Color)
    requires OneKing(squares, c)
    ensures OneKing(FlipSquares(squares), c.Other())
  {
    hide FlipSquares, FileOf, RankOf, Mirror;
    var k: Square :| squares[k] == Man(c, King);
    FlipHolds(squares, k, c);
    forall s: Square | FlipSquares(squares)[s] == Man(c.Other(), King) ensures s == Mirror(k) {
      MirrorTwice(s);
      FlipHolds(squares, Mirror(s), c);
    }
  }

  lemma FlipLone(squares: Squares, c: Color)
    requires LoneKing(squares, c)
    ensures LoneKing(FlipSquares(squares), c.Other())
  {
    hide FlipSquares, Mirror;
    var king := Man(c.Other(), King);
    forall s: Square, t: Square | FlipSquares(squares)[s] == king && FlipSquares(squares)[t] == king
      ensures s == t
    {
      MirrorTwice(s);
      MirrorTwice(t);
      FlipHolds(squares, Mirror(s), c);
      FlipHolds(squares, Mirror(t), c);
    }
  }

  lemma KingFound(squares: Squares, c: Color, s: Square)
    requires squares[s] == Man(c, King)
    ensures KingSquare(squares, c).Some? && (LoneKing(squares, c) ==> KingSquare(squares, c) == Some(s))
  {
  }

  lemma KingFoundStands(squares: Squares, c: Color)
    requires KingSquare(squares, c).Some?
    ensures squares[KingSquare(squares, c).value] == Man(c, King)
  {
  }

  /** A lone king is found on the mirrored square, and so is its absence. */
  lemma FlipKingSquare(squares: Squares, c: Color)
    requires LoneKing(squares, c)
    ensures KingSquare(FlipSquares(squares), c.Other()) ==
            match KingSquare(squares, c) case None => None case Some(k) => Some(Mirror(k))
  {
    hide FlipSquares, Mirror, KingSquare, LoneKing, FindKing;
    var flipped := FlipSquares(squares);
    FlipLone(squares, c);
    if KingSquare(squares, c).Some? {
      var k := KingSquare(squares, c).value;
      KingFoundStands(squares, c);
      FlipHolds(squares, k, c);
      KingFound(flipped, c.Other(), Mirror(k));
    } else if KingSquare(flipped, c.Other()).Some? {
      var k := KingSquare(flipped, c.Other()).value;
      KingFoundStands(flipped, c.Other());
      MirrorTwice(k);
      FlipHolds(squares, Mirror(k), c);
      KingFound(squares, c, Mirror(k));
    }
  }

  lemma FlipKingSafe(squares: Squares, c: Color)
    requires LoneKing(squares, c)
    ensures KingSafe(FlipSquares(squares), c.Other()) == KingSafe(squares, c)
  {
    hide FlipSquares, Attacked, Mirror, KingSquare;
    FlipKingSquare(squares, c);
    if KingSquare(squares, c).Some? {
      FlipAttacked(squares, KingSquare(squares, c).value, c.Other());
    }
  }

  lemma MoverIsLone(p: Pos)
    requires LoneKings(p)
    ensures LoneKing(p.squares, p.side)
  {
    hide LoneKing;
    assert p.side == White || p.side == Black;
  }

  /** No pseudo-legal move makes a second king. */
  lemma LoneKingStays(p: Pos, m: Move, c: Color)
    requires PseudoLegal(p, m) && LoneKing(p.squares, c)
    ensures LoneKing(SquaresAfter(p, m), c)
  {
    hide SquaresAfter, PseudoLegal;
    forall s: Square | SquaresAfter(p, m)[s] == Man(c, King) ensures StoodOrCame(p, m, c, s) {
      KingStoodOrCame(p, m, c, s);
    }
  }

  /** The king of colour c stood on s before the move, or has come there by it. */
  predicate StoodOrCame(p: Pos, m: Move, c: Color, s: Square) {
    if p.squares[m.from] == Man(c, King) then s == m.to || (s != m.from && p.squares[s] == Man(c, King))
    else p.squares[s] == Man(c, King)
  }

  lemma KingStoodOrCame(p: Pos, m: Move, c: Color, s: Square)
    requires PseudoLegal(p, m) && SquaresAfter(p, m)[s] == Man(c, King)
    ensures StoodOrCame(p, m, c, s)
  {
    Shapes(p, m);
    hide PseudoLegal, SquaresAfter, TakesEnPassant;
  }

  lemma LoneKingsStay(p: Pos, m: Move)
    requires PseudoLegal(p, m) && LoneKings(p)
    ensures LoneKings(After(p, m))
  {
    hide PseudoLegal, SquaresAfter, RightsAfter, EpAfter, LoneKing;
    LoneKingStays(p, m, White);
    LoneKingStays(p, m, Black);
  }

  /** Flipping maps legal moves onto legal moves wherever the mover has at most one king. */
  lemma FlipLegal(p: Pos, m: Move)
    requires LoneKing(p.squares, p.side)
    ensures Legal(Flip(p), FlipMove(m)) <==> Legal(p, m)
  {
    hide LoneKing, PseudoLegal, KingSafe, SquaresAfter, FlipSquares;
    FlipPseudoLegal(p, m);
    if PseudoLegal(p, m) {
      LoneKingStays(p, m, p.side);
      FlipSquaresAfter(p, m);
      FlipKingSafe(SquaresAfter(p, m), p.side);
    }
  }

  lemma FlipInCheck(p: Pos)
    requires LoneKing(p.squares, p.side)
    ensures InCheck(Flip(p)) <==> InCheck(p)
  {
    hide Attacked, FlipSquares, Mirror, KingSquare, LoneKing;
    FlipKingSquare(p.squares, p.side);
    if KingSquare(p.squares, p.side).Some? {
      FlipAttacked(p.squares, KingSquare(p.squares, p.side).value, p.side.Other());
    }
  }

  /** Flipping preserves well-formedness. */
  lemma FlipWellFormed(p: Pos)
    requires WellFormed(p)
    ensures WellFormed(Flip(p))
  {
    hide KingSafe, OneKing, LoneKing, EpBacked, RightsBacked, NoPawnOnLastRanks;
    FlipOneKing(p.squares, White);
    FlipOneKing(p.squares, Black);
    assert OneKing(p.squares, p.side.Other());
    OneKingIsLone(p.squares, p.side.Other());
    FlipKingSafe(p.squares, p.side.Other());
    FlipBacked(p);
    FlipPawnRanks(p.squares);
  }

  lemma FlipBacked(p: Pos)
    requires EpBacked(p) && RightsBacked(p)
    ensures EpBacked(Flip(p)) && RightsBacked(Flip(p))
  {
    hide FlipSquares, Mirror;
    forall s: Square ensures FlipSquares(p.squares)[Mirror(s)] == SwapColor(p.squares[s]) {
      FlipHolds(p.squares, s, p.side);
    }
    Corners();
    MirrorHome(White, 0);
    MirrorHome(Black, 0);
    if p.ep.Some? {
      MirrorBehind(p.ep.value, p.side);
      MirrorBehind(p.ep.value, p.side.Other());
    }
  }

  lemma FlipPawnRanks(squares: Squares)
    requires NoPawnOnLastRanks(squares)
    ensures NoPawnOnLastRanks(FlipSquares(squares))
  {
    hide FlipSquares;
    forall s: Square | IsPawn(FlipSquares(squares)[s]) ensures 0 < RankOf(s) < 7 {
      MirrorTwice(s);
      FlipHolds(squares, Mirror(s), White);
    }
  }
}
