/** The rules of the oracle stated declaratively: who attacks what, which moves
    are pseudo-legal, what a move does, and when a position is well formed. */
module Rules {
  import opened ChessTypes
  import opened Geometry

  // ----- attacks -----------------------------------------------------------

  /** The man on s attacks t (FIDE Laws of Chess, articles 3.1 to 3.8). */
  ghost predicate Attacks(squares: Squares, s: Square, t: Square) {
    var o := Offset(s, t);
    match squares[s]
    case Empty => false
    case Man(c, Pawn) => Abs(o.df) == 1 && o.dr == Forward(c)
    case Man(_, Knight) => IsKnightDelta(o)
    case Man(_, King) => IsKingDelta(o)
    case Man(_, Rook) => IsLine(o) && Clear(squares, s, t)
    case Man(_, Bishop) => IsDiagonal(o) && Clear(squares, s, t)
    case Man(_, Queen) => IsAligned(o) && Clear(squares, s, t)
  }

  predicate Holds(squares: Squares, s: Square, c: Color) {
    squares[s].Is(c)
  }

  /** Some man of colour c attacks t. */
  ghost predicate Attacked(squares: Squares, t: Square, c: Color) {
    exists s: Square :: Holds(squares, s, c) && Attacks(squares, s, t)
  }

  // ----- kings -------------------------------------------------------------

  /** The first square at or after n holding the king of colour c. */
  function FindKing(squares: Squares, c: Color, n: nat): (r: Option<Square>)
    requires n <= 64
    ensures r.Some? ==> r.value >= n && squares[r.value] == Man(c, King)
    ensures r.Some? ==> forall s: Square :: n <= s < r.value ==> squares[s] != Man(c, King)
    ensures r.None? ==> forall s: Square :: n <= s ==> squares[s] != Man(c, King)
    decreases 64 - n
  {
    if n == 64 then None
    else if squares[n] == Man(c, King) then Some(n)
    else FindKing(squares, c, n + 1)
  }

  function KingSquare(squares: Squares, c: Color): Option<Square> {
    FindKing(squares, c, 0)
  }

  /** Colour c has a king and nothing attacks it. */
  ghost predicate KingSafe(squares: Squares, c: Color) {
    var k := KingSquare(squares, c);
    k.Some? && !Attacked(squares, k.value, c.Other())
  }

  ghost predicate InCheck(p: Pos) {
    var k := KingSquare(p.squares, p.side);
    k.Some? && Attacked(p.squares, k.value, p.side.Other())
  }

  // ----- pseudo-legal moves ------------------------------------------------

  function StartRank(c: Color): int { if c.White? then 1 else 6 }

  function LastRank(c: Color): int { if c.White? then 7 else 0 }

  /** A pawn reaching the last rank promotes; elsewhere it does not. */
  predicate PromotionFits(c: Color, m: Move) {
    m.promo.Some? <==> RankOf(m.to) == LastRank(c)
  }

  predicate PawnPush(p: Pos, m: Move) {
    Offset(m.from, m.to) == Delta(0, Forward(p.side)) && p.squares[m.to] == Empty && PromotionFits(p.side, m)
  }

  predicate PawnDouble(p: Pos, m: Move) {
    && Offset(m.from, m.to) == Delta(0, 2 * Forward(p.side))
    && RankOf(m.from) == StartRank(p.side)
    && p.squares[m.from + 8 * Forward(p.side)] == Empty
    && p.squares[m.to] == Empty
    && m.promo.None?
  }

  predicate PawnDiagonal(p: Pos, m: Move) {
    Abs(FileOf(m.to) - FileOf(m.from)) == 1 && RankOf(m.to) - RankOf(m.from) == Forward(p.side)
  }

  predicate PawnCapture(p: Pos, m: Move) {
    PawnDiagonal(p, m) && Holds(p.squares, m.to, p.side.Other()) && PromotionFits(p.side, m)
  }

  predicate PawnEnPassant(p: Pos, m: Move) {
    && PawnDiagonal(p, m)
    && !Holds(p.squares, m.to, p.side.Other())
    && p.ep == Some(m.to)
    && m.promo.None?
  }

  /** The king's home square, and the squares of a castling move on one wing. */
  function Home(c: Color): Square { if c.White? then 4 else 60 }

  predicate MayCastle(p: Pos, kingSide: bool) {
    match (p.side, kingSide)
    case (White, true) => p.rights.wk
    case (White, false) => p.rights.wq
    case (Black, true) => p.rights.bk
    case (Black, false) => p.rights.bq
  }

  function RookHome(c: Color, kingSide: bool): Square {
    if kingSide then Home(c) + 3 else Home(c) - 4
  }

  /** The wing is open: rook at home, empty squares between, king's path unattacked. */
  ghost predicate CastleOpen(p: Pos, kingSide: bool) {
    var h := Home(p.side);
    var e := p.side.Other();
    && MayCastle(p, kingSide)
    && p.squares[RookHome(p.side, kingSide)] == Man(p.side, Rook)
    && !Attacked(p.squares, h, e)
    && if kingSide then
         && p.squares[h + 1] == Empty && p.squares[h + 2] == Empty
         && !Attacked(p.squares, h + 1, e) && !Attacked(p.squares, h + 2, e)
       else
         && p.squares[h - 1] == Empty && p.squares[h - 2] == Empty && p.squares[h - 3] == Empty
         && !Attacked(p.squares, h - 1, e) && !Attacked(p.squares, h - 2, e)
  }

  ghost predicate Castles(p: Pos, m: Move) {
    var h := Home(p.side);
    && m.from == h
    && m.promo.None?
    && ((m.to == h + 2 && CastleOpen(p, true)) || (m.to == h - 2 && CastleOpen(p, false)))
  }

  /** A piece other than a pawn goes where it attacks, unless its own man stands there. */
  ghost predicate PieceMove(p: Pos, m: Move) {
    Attacks(p.squares, m.from, m.to) && !Holds(p.squares, m.to, p.side) && m.promo.None?
  }

  ghost predicate PseudoLegal(p: Pos, m: Move) {
    && Holds(p.squares, m.from, p.side)
    && match p.squares[m.from].kind
       case Pawn => PawnPush(p, m) || PawnDouble(p, m) || PawnCapture(p, m) || PawnEnPassant(p, m)
       case King => PieceMove(p, m) || Castles(p, m)
       case _ => PieceMove(p, m)
  }

  // ----- making a move -----------------------------------------------------

  /** A pawn steps diagonally onto the empty en passant square. */
  predicate TakesEnPassant(p: Pos, m: Move) {
    && p.squares[m.from].Man? && p.squares[m.from].kind == Pawn
    && p.ep == Some(m.to)
    && FileOf(m.to) != FileOf(m.from)
    && p.squares[m.to] == Empty
  }

  /** The square of the pawn taken en passant. */
  function EnPassantVictim(p: Pos, m: Move): Square
    requires TakesEnPassant(p, m)
  {
    if p.squares[m.from] == Man(White, Pawn) then m.to - 8 else m.to + 8
  }

  /** The man that arrives on the destination square. */
  function Placed(piece: Piece, promo: Option<Promotion>): Piece {
    match promo
    case None => piece
    case Some(k) => Man(if piece == Man(White, Pawn) then White else Black, k)
  }

  /** Relocate the rook when the king of colour c leaves home by two files. */
  function CastleRook(squares: Squares, c: Color, piece: Piece, m: Move): Squares {
    var h := Home(c);
    if piece != Man(c, King) || m.from != h then squares
    else if m.to == h + 2 then squares[h + 3 := Empty][h + 1 := Man(c, Rook)]
    else if m.to == h - 2 then squares[h - 4 := Empty][h - 1 := Man(c, Rook)]
    else squares
  }

  function SquaresAfter(p: Pos, m: Move): Squares {
    var piece := p.squares[m.from];
    var s1 := if TakesEnPassant(p, m) then p.squares[EnPassantVictim(p, m) := Empty] else p.squares;
    var s2 := s1[m.from := Empty][m.to := Placed(piece, m.promo)];
    CastleRook(CastleRook(s2, White, piece, m), Black, piece, m)
  }

  predicate Touches(m: Move, s: Square) { m.from == s || m.to == s }

  /** A right is lost when its king moves or when its rook's home square is touched. */
  function RightsAfter(p: Pos, m: Move): Rights {
    var wKing := p.squares[m.from] == Man(White, King);
    var bKing := p.squares[m.from] == Man(Black, King);
    Rights(
      p.rights.wk && !wKing && !Touches(m, 7),
      p.rights.wq && !wKing && !Touches(m, 0),
      p.rights.bk && !bKing && !Touches(m, 63),
      p.rights.bq && !bKing && !Touches(m, 56))
  }

  predicate IsPawn(piece: Piece) { piece.Man? && piece.kind == Pawn }

  function EpAfter(p: Pos, m: Move): Option<EpSquare> {
    if IsPawn(p.squares[m.from]) && Abs(m.to - m.from) == 16 then Some((m.from + m.to) / 2) else None
  }

  /** A pawn move or a capture, en passant included, resets the halfmove clock. */
  predicate ResetsClock(p: Pos, m: Move) {
    IsPawn(p.squares[m.from]) || p.squares[m.to] != Empty
  }

  /** The position after m; make_move raises ValueError when the origin square is empty. */
  function After(p: Pos, m: Move): Pos {
    Pos(SquaresAfter(p, m), p.side.Other(), RightsAfter(p, m), EpAfter(p, m),
        if ResetsClock(p, m) then 0 else p.half + 1,
        if p.side.Black? then p.full + 1 else p.full)
  }

  ghost predicate Legal(p: Pos, m: Move) {
    PseudoLegal(p, m) && KingSafe(After(p, m).squares, p.side)
  }

  // ----- well-formed positions ---------------------------------------------

  predicate OneKing(squares: Squares, c: Color) {
    exists k: Square :: squares[k] == Man(c, King) && forall s: Square :: squares[s] == Man(c, King) ==> s == k
  }

  /** Colour c has at most one king. */
  predicate LoneKing(squares: Squares, c: Color) {
    forall s: Square, t: Square :: squares[s] == Man(c, King) && squares[t] == Man(c, King) ==> s == t
  }

  ghost predicate LoneKings(p: Pos) { LoneKing(p.squares, White) && LoneKing(p.squares, Black) }

  lemma OneKingIsLone(squares: Squares, c: Color)
    requires OneKing(squares, c)
    ensures LoneKing(squares, c)
  {
  }

  predicate RightsBacked(p: Pos) {
    && (p.rights.wk || p.rights.wq ==> p.squares[4] == Man(White, King))
    && (p.rights.bk || p.rights.bq ==> p.squares[60] == Man(Black, King))
    && (p.rights.wk ==> p.squares[7] == Man(White, Rook))
    && (p.rights.wq ==> p.squares[0] == Man(White, Rook))
    && (p.rights.bk ==> p.squares[63] == Man(Black, Rook))
    && (p.rights.bq ==> p.squares[56] == Man(Black, Rook))
  }

  /** The en passant square is empty, and the pawn that has just passed over it stands in front. */
  predicate EpBacked(p: Pos) {
    match p.ep
    case None => true
    case Some(e) =>
      var f := 8 * Forward(p.side);
      && RankOf(e) == (if p.side.White? then 5 else 2)
      && p.squares[e] == Empty
      && p.squares[e - f] == Man(p.side.Other(), Pawn)
  }

  predicate NoPawnOnLastRanks(squares: Squares) {
    forall s: Square :: IsPawn(squares[s]) ==> 0 < RankOf(s) < 7
  }

  ghost predicate WellFormed(p: Pos) {
    && OneKing(p.squares, White) && OneKing(p.squares, Black)
    && RightsBacked(p)
    && EpBacked(p)
    && NoPawnOnLastRanks(p.squares)
    && KingSafe(p.squares, p.side.Other())
  }
}
