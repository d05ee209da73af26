/** The rules once more, in square numbers: what each man attacks, White's pawn and castling moves, and what a
    move leaves on the board. Black's follow by colour symmetry. */
module Laws {
  import opened ChessTypes
  import opened Geometry
  import opened Rules
  import opened Preservation

  function Sq(x: int): int { x * x }

  function Files(s: Square, t: Square): int { t % 8 - s % 8 }

  function Ranks(s: Square, t: Square): int { t / 8 - s / 8 }

  predicate Inside(a: int, x: int, b: int) { a < x < b || b < x < a }

  // ----- attacks ---------------------------------------------------------------

  /** A knight attacks at distance root five, a king at distance one or root two, a pawn diagonally ahead. */
  lemma StepLaws(squares: Squares, s: Square, t: Square)
    requires squares[s].Man?
    ensures squares[s].kind == Knight ==> (Attacks(squares, s, t) <==> Sq(Files(s, t)) + Sq(Ranks(s, t)) == 5)
    ensures squares[s].kind == King ==> (Attacks(squares, s, t) <==> 1 <= Sq(Files(s, t)) + Sq(Ranks(s, t)) <= 2)
    ensures squares[s] == Man(White, Pawn) ==> (Attacks(squares, s, t) <==> Sq(Files(s, t)) == 1 == Ranks(s, t))
    ensures squares[s] == Man(Black, Pawn) ==> (Attacks(squares, s, t) <==> Sq(Files(s, t)) == 1 == -Ranks(s, t))
  {
    var x, y := Files(s, t), Ranks(s, t);
    assert Offset(s, t) == Delta(x, y) && -7 <= x <= 7 && -7 <= y <= 7;
    SquaredSteps(x, y);
    hide Clear, Offset, Files, Ranks, Sq;
  }

  lemma SquaredSteps(x: int, y: int)
    requires -7 <= x <= 7 && -7 <= y <= 7
    ensures Sq(x) + Sq(y) == 5 <==> IsKnightDelta(Delta(x, y))
    ensures 1 <= Sq(x) + Sq(y) <= 2 <==> IsKingDelta(Delta(x, y))
    ensures Sq(x) == 1 <==> Abs(x) == 1
  {
    SmallSquare(x);
    SmallSquare(y);
    hide Sq;
  }

  lemma SmallSquare(x: int)
    requires -7 <= x <= 7
    ensures Sq(x) == match Abs(x) case 0 => 0 case 1 => 1 case 2 => 4 case 3 => 9 case 4 => 16 case 5 => 25 case 6 => 36
                                  case _ => 49
  {
  }

  /** x lies on the rank or file of s and t, inside them. */
  predicate OnLineInside(s: Square, x: Square, t: Square) {
    || (x % 8 == s % 8 == t % 8 && Inside(s / 8, x / 8, t / 8))
    || (x / 8 == s / 8 == t / 8 && Inside(s % 8, x % 8, t % 8))
  }

  /** x lies on the diagonal of s and t, inside them. */
  predicate OnDiagonalInside(s: Square, x: Square, t: Square) {
    && Inside(s % 8, x % 8, t % 8) && Inside(s / 8, x / 8, t / 8)
    && Abs(Files(s, x)) == Abs(Ranks(s, x)) && Abs(Files(x, t)) == Abs(Ranks(x, t))
  }

  predicate StraightAway(s: Square, t: Square) { s != t && (s % 8 == t % 8 || s / 8 == t / 8) }

  predicate DiagonallyAway(s: Square, t: Square) { s != t && Abs(Files(s, t)) == Abs(Ranks(s, t)) }

  lemma BetweenOnLine(s: Square, x: Square, t: Square)
    requires StraightAway(s, t)
    ensures Between(s, x, t) <==> OnLineInside(s, x, t)
  {
  }

  lemma BetweenOnDiagonal(s: Square, x: Square, t: Square)
    requires DiagonallyAway(s, t)
    ensures Between(s, x, t) <==> OnDiagonalInside(s, x, t)
  {
  }

  lemma LinesAndDiagonals(s: Square, t: Square)
    ensures IsLine(Offset(s, t)) <==> StraightAway(s, t)
    ensures IsDiagonal(Offset(s, t)) <==> DiagonallyAway(s, t)
  {
  }

  /** Rooks along free ranks and files, bishops along free diagonals, queens along both. */
  lemma SliderLaws(squares: Squares, s: Square, t: Square)
    requires squares[s].Man?
    ensures var straight := StraightAway(s, t) && forall x: Square :: OnLineInside(s, x, t) ==> squares[x] == Empty;
            var diagonal := DiagonallyAway(s, t) && forall x: Square :: OnDiagonalInside(s, x, t) ==> squares[x] == Empty;
            && (squares[s].kind == Rook ==> (Attacks(squares, s, t) <==> straight))
            && (squares[s].kind == Bishop ==> (Attacks(squares, s, t) <==> diagonal))
            && (squares[s].kind == Queen ==> (Attacks(squares, s, t) <==> straight || diagonal))
  {
    hide Between, OnLineInside, OnDiagonalInside, StraightAway, DiagonallyAway, Offset, IsLine, IsDiagonal;
    LinesAndDiagonals(s, t);
    if StraightAway(s, t) {
      forall x: Square ensures Between(s, x, t) <==> OnLineInside(s, x, t) { BetweenOnLine(s, x, t); }
    }
    if DiagonallyAway(s, t) {
      forall x: Square ensures Between(s, x, t) <==> OnDiagonalInside(s, x, t) { BetweenOnDiagonal(s, x, t); }
    }
  }

  // ----- moves -----------------------------------------------------------------

  /** White's pawn moves: one square ahead, two from the second rank, a capture on either side, or en passant;
      a promotion exactly on the eighth rank. */
  lemma WhitePawnLaw(p: Pos, m: Move)
    requires p.side == White && p.squares[m.from] == Man(White, Pawn)
    ensures PseudoLegal(p, m) <==>
            || (m.to == m.from + 8 && p.squares[m.to] == Empty && (m.promo.Some? <==> m.to >= 56))
            || (m.to == m.from + 16 && 8 <= m.from < 16 && p.squares[m.from + 8] == Empty && p.squares[m.to] == Empty
                && m.promo.None?)
            || (((m.to == m.from + 7 && m.from % 8 != 0) || (m.to == m.from + 9 && m.from % 8 != 7))
                && if p.squares[m.to].Is(Black) then m.promo.Some? <==> m.to >= 56
                   else p.ep == Some(m.to) && m.promo.None?)
  {
    PawnSteps(m.from, m.to);
    hide Clear, Attacks, Castles, FileOf, RankOf, PromotionFits, Offset;
    assert PromotionFits(White, m) <==> (m.promo.Some? <==> m.to >= 56) by { LastRankWhite(m); }
  }

  lemma LastRankWhite(m: Move)
    ensures PromotionFits(White, m) <==> (m.promo.Some? <==> m.to >= 56)
  {
  }

  lemma PawnSteps(s: Square, t: Square)
    ensures Offset(s, t) == Delta(0, 1) <==> t == s + 8
    ensures Offset(s, t) == Delta(0, 2) <==> t == s + 16
    ensures Abs(FileOf(t) - FileOf(s)) == 1 && RankOf(t) - RankOf(s) == 1 <==>
            (t == s + 7 && s % 8 != 0) || (t == s + 9 && s % 8 != 7)
    ensures RankOf(s) == 1 <==> 8 <= s < 16
  {
  }

  /** White castles e1g1 or e1c1: the right, the rook at home, empty squares between, and no black attack on the
      king's square or the two it crosses. */
  lemma WhiteCastlingLaw(p: Pos, m: Move)
    requires p.side == White && p.squares[m.from] == Man(White, King)
    ensures PseudoLegal(p, m) && m.from == 4 && (m.to == 6 || m.to == 2) <==>
            || (m == Move(4, 6, None) && p.rights.wk && p.squares[7] == Man(White, Rook)
                && p.squares[5] == Empty && p.squares[6] == Empty
                && !Attacked(p.squares, 4, Black) && !Attacked(p.squares, 5, Black) && !Attacked(p.squares, 6, Black))
            || (m == Move(4, 2, None) && p.rights.wq && p.squares[0] == Man(White, Rook)
                && p.squares[1] == Empty && p.squares[2] == Empty && p.squares[3] == Empty
                && !Attacked(p.squares, 4, Black) && !Attacked(p.squares, 3, Black) && !Attacked(p.squares, 2, Black))
  {
    hide Attacked, Clear;
  }

  /** Any other move of a man that is no pawn goes where the man attacks, unless an own man stands there. */
  lemma PieceLaw(p: Pos, m: Move)
    requires p.squares[m.from].Is(p.side) && p.squares[m.from].kind != Pawn
    requires p.squares[m.from].kind == King && m.from == Home(p.side) ==>
               m.to != Home(p.side) + 2 && m.to != Home(p.side) - 2
    ensures PseudoLegal(p, m) <==>
            Attacks(p.squares, m.from, m.to) && !p.squares[m.to].Is(p.side) && m.promo.None?
  {
    hide Attacked, Clear, CastleOpen;
  }

  lemma FoundKing(squares: Squares, c: Color, k: Square)
    requires LoneKing(squares, c) && squares[k] == Man(c, King)
    ensures KingSquare(squares, c) == Some(k)
  {
  }

  /** A side with at most one king is in check exactly when an enemy man attacks its king. */
  lemma CheckLaw(p: Pos)
    requires LoneKing(p.squares, p.side)
    ensures InCheck(p) <==>
            exists k: Square, s: Square :: p.squares[k] == Man(p.side, King) && p.squares[s].Is(p.side.Other())
                                           && Attacks(p.squares, s, k)
  {
    hide Attacks;
    if k: Square, s: Square :| p.squares[k] == Man(p.side, King) && p.squares[s].Is(p.side.Other())
                               && Attacks(p.squares, s, k) {
      FoundKing(p.squares, p.side, k);
      assert Holds(p.squares, s, p.side.Other());
    }
  }

  /** A move is legal when it is pseudo-legal and leaves the mover with a king that no enemy man attacks. */
  lemma LegalLaw(p: Pos, m: Move)
    requires LoneKing(SquaresAfter(p, m), p.side)
    ensures Legal(p, m) <==>
            PseudoLegal(p, m) &&
            exists k: Square :: After(p, m).squares[k] == Man(p.side, King) &&
              forall s: Square :: After(p, m).squares[s].Is(p.side.Other()) ==> !Attacks(After(p, m).squares, s, k)
  {
    hide Attacks, PseudoLegal, SquaresAfter, RightsAfter, EpAfter;
    var a := SquaresAfter(p, m);
    if k: Square :| a[k] == Man(p.side, King) && forall s: Square :: a[s].Is(p.side.Other()) ==> !Attacks(a, s, k) {
      FoundKing(a, p.side, k);
    }
    if Legal(p, m) {
      var k := KingSquare(a, p.side).value;
      assert a[k] == Man(p.side, King);
      forall s: Square | a[s].Is(p.side.Other()) ensures !Attacks(a, s, k) {
        assert Holds(a, s, p.side.Other());
      }
    }
  }

  // ----- what a move leaves --------------------------------------------------------

  /** The square a white move clears besides its origin: an en passant victim's or a castling rook's. */
  function Cleared(p: Pos, m: Move): Option<int> {
    if p.squares[m.from] == Man(White, Pawn) && m.to % 8 != m.from % 8 && p.squares[m.to] == Empty then Some(m.to - 8)
    else if p.squares[m.from] == Man(White, King) && m.from == 4 && m.to == 6 then Some(7)
    else if p.squares[m.from] == Man(White, King) && m.from == 4 && m.to == 2 then Some(0)
    else None
  }

  /** The board after White's move, square by square. */
  lemma WhiteBoardLaw(p: Pos, m: Move, s: Square)
    requires p.side == White && PseudoLegal(p, m)
    ensures var king := p.squares[m.from] == Man(White, King) && m.from == 4;
            After(p, m).squares[s] ==
            if s == m.from then Empty
            else if s == m.to then (if m.promo.Some? then Man(White, m.promo.value) else p.squares[m.from])
            else if Cleared(p, m) == Some(s) then Empty
            else if king && m.to == 6 && s == 5 then Man(White, Rook)
            else if king && m.to == 2 && s == 3 then Man(White, Rook)
            else p.squares[s]
  {
    Shapes(p, m);
    CastlingShape(p, m);
    PseudoLegalMoves(p, m);
    if m.promo.Some? {
      PromotionIsPawn(p, m);
    }
    if p.squares[m.from] == Man(White, Pawn) {
      OnlyPawnsTakeSideways(p, m);
    }
    hide PseudoLegal, SquaresAfter, CastleOpen;
  }

  lemma OnlyPawnsTakeSideways(p: Pos, m: Move)
    requires p.side == White && PseudoLegal(p, m) && p.squares[m.from] == Man(White, Pawn)
    ensures TakesEnPassant(p, m) <==> m.to % 8 != m.from % 8 && p.squares[m.to] == Empty
  {
    hide Clear, Attacks, Castles;
  }

  /** From a well-formed position a castling right lasts as long as king and rook stand at home. */
  lemma RightsLaw(p: Pos, m: Move)
    requires WellFormed(p) && PseudoLegal(p, m)
    ensures var a, r := After(p, m).squares, After(p, m).rights;
            && (r.wk <==> p.rights.wk && a[4] == Man(White, King) && a[7] == Man(White, Rook))
            && (r.wq <==> p.rights.wq && a[4] == Man(White, King) && a[0] == Man(White, Rook))
            && (r.bk <==> p.rights.bk && a[60] == Man(Black, King) && a[63] == Man(Black, Rook))
            && (r.bq <==> p.rights.bq && a[60] == Man(Black, King) && a[56] == Man(Black, Rook))
  {
    RightsPreserved(p, m);
    TouchedCorner(p, m, 0);
    TouchedCorner(p, m, 7);
    TouchedCorner(p, m, 56);
    TouchedCorner(p, m, 63);
    MovedKing(p, m, White);
    MovedKing(p, m, Black);
    hide PseudoLegal, SquaresAfter, KingSafe, OneKing, EpBacked, NoPawnOnLastRanks;
  }

  /** A rook at home is gone from there once its square is touched. */
  lemma TouchedCorner(p: Pos, m: Move, s: Square)
    requires WellFormed(p) && PseudoLegal(p, m)
    ensures Touches(m, s) && p.squares[s].Man? && p.squares[s].kind == Rook ==> SquaresAfter(p, m)[s] != p.squares[s]
  {
    if Touches(m, s) && p.squares[s].Man? && p.squares[s].kind == Rook {
      NotOntoOwnMan(p, m);
      PseudoLegalMoves(p, m);
      Shapes(p, m);
      CastlingShape(p, m);
      if m.promo.Some? {
        PromotionIsPawn(p, m);
      }
      hide PseudoLegal, SquaresAfter, WellFormed, CastleOpen;
    }
  }

  lemma MovedKing(p: Pos, m: Move, c: Color)
    requires WellFormed(p) && PseudoLegal(p, m)
    ensures p.squares[m.from] == Man(c, King) ==> forall s: Square :: s != m.to ==> SquaresAfter(p, m)[s] != Man(c, King)
    ensures p.squares[m.from] == Man(c, King) ==> m.to != m.from
  {
    if p.squares[m.from] == Man(c, King) {
      KingsStay(p, m, c, m.from);
      NotOntoOwnMan(p, m);
      PseudoLegalMoves(p, m);
    }
    hide WellFormed, PseudoLegal, SquaresAfter;
  }

  /** An en passant square appears exactly behind a white pawn that came from the second rank to the fourth. */
  lemma WhiteEpLaw(p: Pos, m: Move, e: EpSquare)
    requires p.side == White && PseudoLegal(p, m)
    ensures After(p, m).ep == Some(e) <==>
            p.squares[m.from] == Man(White, Pawn) && 8 <= m.from < 16 && m.to == m.from + 16 && e == m.from + 8
  {
    PseudoLegalMoves(p, m);
    if p.squares[m.from] == Man(White, Pawn) {
      WhitePawnLaw(p, m);
    }
    hide PseudoLegal, SquaresAfter, RightsAfter;
  }
}
