/** A start FEN on which the oracle lists a move the C++ engine does not know: an en passant square with the
    mover's own knight on it, 4k3/8/8/8/8/4N3/3P4/4K3 w - e3 0 1. */
module SelfCapture {
  import opened ChessTypes
  import opened Geometry
  import opened Rules
  import opened Preservation
  import opened Fen
  import opened Fen88
  import opened Engine88
  import opened UciShell
  import opened Shell88

  function Men(s: Square): Piece {
    if s == 4 then Man(White, King) else if s == 11 then Man(White, Pawn)
    else if s == 20 then Man(White, Knight) else if s == 60 then Man(Black, King) else Empty
  }

  function MenSquares(): Squares { seq(64, i requires 0 <= i < 64 => Men(i)) }

  /** No castling rights; e3 is the en passant square. */
  function KnightOnE3(): Pos {
    Pos(MenSquares(), White, Rights(false, false, false, false), Some(20), 0, 1)
  }

  /** d2e3 */
  const TAKE: Move := Move(11, 20, None)

  /** The squares after the pawn has taken its own knight. */
  function AfterTake(s: Square): Piece {
    if s == 4 then Man(White, King) else if s == 20 then Man(White, Pawn)
    else if s == 60 then Man(Black, King) else Empty
  }

  lemma OneKingAt(squares: Squares, c: Color, k: Square)
    requires forall s: Square :: squares[s] == Man(c, King) <==> s == k
    ensures OneKing(squares, c) && KingSquare(squares, c) == Some(k)
  {
    assert squares[k] == Man(c, King);
  }

  /** Neither the king on e1, nor the pawn on d2, nor the knight on e3 attacks e8. */
  lemma BlackIsSafe()
    ensures KingSafe(MenSquares(), Black)
  {
    hide Clear;
    OneKingAt(MenSquares(), Black, 60);
    forall s: Square | Holds(MenSquares(), s, White) ensures !Attacks(MenSquares(), s, 60) {
      assert s == 4 || s == 11 || s == 20;
    }
  }

  lemma ViewIsWellFormed()
    ensures FenValid(KnightOnE3()) && WellFormed(View(KnightOnE3()))
  {
    hide KingSafe;
    OneKingAt(MenSquares(), White, 4);
    OneKingAt(MenSquares(), Black, 60);
    BlackIsSafe();
    assert NoPawnOnLastRanks(MenSquares());
  }

  lemma SquaresTaken(s: Square)
    ensures SquaresAfter(KnightOnE3(), TAKE)[s] == AfterTake(s)
  {
  }

  lemma WhiteStaysSafe()
    ensures KingSafe(SquaresAfter(KnightOnE3(), TAKE), White)
  {
    hide Clear, SquaresAfter, MenSquares;
    var squares := SquaresAfter(KnightOnE3(), TAKE);
    forall s: Square ensures squares[s] == AfterTake(s) { SquaresTaken(s); }
    OneKingAt(squares, White, 4);
    forall s: Square | Holds(squares, s, Black) ensures !Attacks(squares, s, 4) {
      assert s == 60;
    }
  }

  lemma TakeIsLegal()
    ensures Legal(KnightOnE3(), TAKE) && Holds(KnightOnE3().squares, TAKE.to, White)
  {
    hide KingSafe, SquaresAfter;
    WhiteStaysSafe();
  }

  /** The runner accepts d2e3; the engine skips it and stays behind by a move. */
  lemma SelfCaptureFails()
    ensures var p := KnightOnE3();
            && ParsePos(FenText(p)) == Some(p) && NoSeparators(FenText(p)) && Quiet88(FenText(p))
            && WellFormed(View(p)) && LegalLine(p, [TAKE])
            && ReadsAlike(FenText(p), p, [TAKE]) && FollowsWellFormed(FenText(p), p, [TAKE])
            && Reached88(FenText(p), p, [TAKE]) == View(p) != View(Play(p, [TAKE]))
            && !KeepsUp(FenText(p), p)
  {
    hide KnightOnE3, FenText, ParsePos, WellFormed, Legal, After, Reached88, Follow, View, StreamWords, NoSeparators,
         Quiet88,
         FenValid, FourFields, ReadsAlike, MovesIndex;
    var p := KnightOnE3();
    SideIsWhite();
    ViewIsWellFormed();
    TakeIsLegal();
    OneMove(p, TAKE);
    WrittenFenKeepsUp(p);
    WrittenFenReached(p, [TAKE]);
    SelfCaptureLost(p, TAKE, StreamWords(FenText(p)));
    ViewClock(p, TAKE);
  }

  lemma SideIsWhite()
    ensures KnightOnE3().side == White
  {
  }
}
