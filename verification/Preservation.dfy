/** Every run of legal moves from a well-formed position stays well formed. */
module Preservation {
  import opened ChessTypes
  import opened Geometry
  import opened Rules

  // ----- forward generation and the reverse scan agree -----------------------

  lemma AttackerCaptures(p: Pos, s: Square, t: Square) returns (m: Move)
    requires Holds(p.squares, t, p.side.Other()) && Holds(p.squares, s, p.side) && Attacks(p.squares, s, t)
    ensures PseudoLegal(p, m) && m.from == s && m.to == t
  {
    hide Clear;
    m := Move(s, t, if IsPawn(p.squares[s]) && RankOf(t) == LastRank(p.side) then Some(Queen) else None);
  }

  lemma CaptureAttacks(p: Pos, m: Move)
    requires PseudoLegal(p, m) && Holds(p.squares, m.to, p.side.Other())
    ensures Attacks(p.squares, m.from, m.to)
  {
    hide Clear;
  }

  /** An enemy man is attacked exactly when some pseudo-legal move lands on it. */
  lemma AttackedIffCapturable(p: Pos, t: Square)
    requires Holds(p.squares, t, p.side.Other())
    ensures Attacked(p.squares, t, p.side) <==> exists m :: PseudoLegal(p, m) && m.to == t
  {
    hide Attacks, PseudoLegal;
    if Attacked(p.squares, t, p.side) {
      var s: Square :| Holds(p.squares, s, p.side) && Attacks(p.squares, s, t);
      var m := AttackerCaptures(p, s, t);
    }
    if m :| PseudoLegal(p, m) && m.to == t {
      CaptureAttacks(p, m);
      assert Holds(p.squares, m.from, p.side) by { PseudoLegalMoves(p, m); }
    }
  }

  lemma PseudoLegalMoves(p: Pos, m: Move)
    requires PseudoLegal(p, m)
    ensures Holds(p.squares, m.from, p.side)
  {
  }

  /** A legal move is pseudo-legal, so a man stands on its origin. */
  lemma LegalIsPseudo(p: Pos, m: Move)
    requires Legal(p, m)
    ensures PseudoLegal(p, m) && p.squares[m.from] != Empty
  {
  }

  // ----- kings ---------------------------------------------------------------

  lemma KingSquareIs(squares: Squares, c: Color, k: Square)
    requires OneKing(squares, c) && squares[k] == Man(c, King)
    ensures KingSquare(squares, c) == Some(k)
  {
  }

  /** A king is never captured. */
  lemma KingNotCaptured(p: Pos, m: Move)
    requires WellFormed(p) && PseudoLegal(p, m)
    ensures p.squares[m.to] != Man(p.side.Other(), King)
  {
    hide PseudoLegal, Attacked, OneKing, RightsBacked, EpBacked, NoPawnOnLastRanks, KingSquare;
    if p.squares[m.to] == Man(p.side.Other(), King) {
      AttackedIffCapturable(p, m.to);
      KingSquareIs(p.squares, p.side.Other(), m.to);
    }
  }

  // ----- the three shapes of a move -----------------------------------------

  predicate IsCastling(p: Pos, m: Move) {
    var h := Home(p.side);
    p.squares[m.from] == Man(p.side, King) && m.from == h && (m.to == h + 2 || m.to == h - 2)
  }

  function Ordinary(p: Pos, m: Move): Squares {
    p.squares[m.from := Empty][m.to := Placed(p.squares[m.from], m.promo)]
  }

  function AfterEnPassant(p: Pos, m: Move): Squares {
    var v := m.to - 8 * Forward(p.side);
    if 0 <= v < 64 then Ordinary(p, m)[v := Empty] else Ordinary(p, m)
  }

  function AfterCastling(p: Pos, m: Move): Squares {
    var h := Home(p.side);
    var s := p.squares[m.from := Empty][m.to := Man(p.side, King)];
    if m.to == h + 2 then s[h + 3 := Empty][h + 1 := Man(p.side, Rook)]
    else s[h - 4 := Empty][h - 1 := Man(p.side, Rook)]
  }

  /** A castling move of the list is a castle; any other king move is a single step. */
  lemma CastlingShape(p: Pos, m: Move)
    requires PseudoLegal(p, m)
    ensures IsCastling(p, m) ==> Castles(p, m)
    ensures p.squares[m.from].kind == King && !IsCastling(p, m) ==> PieceMove(p, m)
  {
    hide Clear, CastleOpen;
  }

  lemma Shapes(p: Pos, m: Move)
    requires PseudoLegal(p, m)
    ensures SquaresAfter(p, m) ==
            if TakesEnPassant(p, m) then AfterEnPassant(p, m)
            else if IsCastling(p, m) then AfterCastling(p, m)
            else Ordinary(p, m)
  {
    CastlingShape(p, m);
    hide Clear, CastleOpen, FileOf, RankOf;
    if TakesEnPassant(p, m) {
      assert SquaresAfter(p, m) == AfterEnPassant(p, m);
    }
  }

  // ----- preservation, conjunct by conjunct -----------------------------------

  /** What a well-formed position and a pseudo-legal move give to every proof below. */
  lemma PawnFacts(p: Pos, m: Move)
    requires WellFormed(p) && PseudoLegal(p, m) && IsPawn(p.squares[m.from])
    ensures m.promo.Some? <==> RankOf(m.to) == LastRank(p.side)
    ensures 0 < RankOf(m.from) < 7 && RankOf(m.to) != 7 - LastRank(p.side)
    ensures TakesEnPassant(p, m) ==> p.squares[m.to - 8 * Forward(p.side)] == Man(p.side.Other(), Pawn)
  {
    hide Clear, KingSafe, OneKing, RightsBacked;
    assert IsPawn(p.squares[m.from]);
  }

  lemma PromotionIsPawn(p: Pos, m: Move)
    requires PseudoLegal(p, m) && m.promo.Some?
    ensures IsPawn(p.squares[m.from])
  {
    hide Clear, CastleOpen, FileOf, RankOf;
  }

  lemma NotOntoOwnMan(p: Pos, m: Move)
    requires WellFormed(p) && PseudoLegal(p, m)
    ensures !Holds(p.squares, m.to, p.side)
  {
    hide Clear, Attacks, Attacked, KingSafe, OneKing, RightsBacked, NoPawnOnLastRanks, FileOf, RankOf;
  }

  /** Where the king of each colour stands after the move. */
  lemma KingsStay(p: Pos, m: Move, c: Color, k: Square)
    requires WellFormed(p) && PseudoLegal(p, m) && p.squares[k] == Man(c, King)
    ensures var k' := if m.from == k then m.to else k;
            SquaresAfter(p, m)[k'] == Man(c, King) &&
            forall s: Square :: SquaresAfter(p, m)[s] == Man(c, King) ==> s == k'
  {
    hide Clear, FileOf, RankOf, Attacked, PieceMove, PawnPush, PawnDouble, PawnCapture, PawnEnPassant, KingSafe,
         RightsBacked, EpBacked, NoPawnOnLastRanks;
    KingNotCaptured(p, m);
    NotOntoOwnMan(p, m);
    Shapes(p, m);
    CastlingShape(p, m);
    if m.promo.Some? {
      PromotionIsPawn(p, m);
    }
    if TakesEnPassant(p, m) {
      PawnFacts(p, m);
    }
    assert OneKing(p.squares, c);
  }

  lemma KingsPreserved(p: Pos, m: Move, c: Color)
    requires WellFormed(p) && PseudoLegal(p, m)
    ensures OneKing(SquaresAfter(p, m), c)
  {
    hide SquaresAfter, PseudoLegal, KingSafe, RightsBacked, EpBacked, NoPawnOnLastRanks;
    assert OneKing(p.squares, c);
    var k: Square :| p.squares[k] == Man(c, King);
    KingsStay(p, m, c, k);
  }

  /** A man no move touches keeps its square, unless a castling rook moves or en passant takes it. */
  lemma Untouched(p: Pos, m: Move, s: Square)
    requires PseudoLegal(p, m) && !Touches(m, s)
    ensures SquaresAfter(p, m)[s] == p.squares[s]
            || (IsCastling(p, m) && RankOf(s) == RankOf(m.from))
            || (TakesEnPassant(p, m) && s == m.to - 8 * Forward(p.side))
  {
    Shapes(p, m);
    hide PseudoLegal, SquaresAfter;
  }

  lemma RightsPreserved(p: Pos, m: Move)
    requires WellFormed(p) && PseudoLegal(p, m)
    ensures RightsBacked(After(p, m))
  {
    hide PseudoLegal, SquaresAfter, KingSafe, OneKing, EpBacked, NoPawnOnLastRanks;
    if TakesEnPassant(p, m) {
      PawnFacts(p, m);
    }
    forall s: Square | !Touches(m, s)
      ensures SquaresAfter(p, m)[s] == p.squares[s]
              || (IsCastling(p, m) && RankOf(s) == RankOf(m.from))
              || (TakesEnPassant(p, m) && s == m.to - 8 * Forward(p.side))
    {
      Untouched(p, m, s);
    }
    forall c: Color, k: Square | p.squares[k] == Man(c, King)
      ensures SquaresAfter(p, m)[if m.from == k then m.to else k] == Man(c, King)
    {
      KingsStay(p, m, c, k);
    }
  }

  lemma EpPreserved(p: Pos, m: Move)
    requires WellFormed(p) && PseudoLegal(p, m)
    ensures EpBacked(After(p, m))
  {
    hide Clear, Attacked, CastleOpen, KingSafe, OneKing, RightsBacked;
    if IsPawn(p.squares[m.from]) && Abs(m.to - m.from) == 16 {
      assert PawnDouble(p, m);
      Shapes(p, m);
    }
  }

  /** A pawn that has just made a double step left its own square empty, behind the en passant square. */
  lemma PassedSquaresEmpty(p: Pos, m: Move)
    requires PseudoLegal(p, m) && EpAfter(p, m).Some?
    ensures var e := EpAfter(p, m).value;
            var f := 8 * Forward(p.side);
            && e - f == m.from && e + f == m.to
            && SquaresAfter(p, m)[e] == Empty && SquaresAfter(p, m)[e - f] == Empty
            && SquaresAfter(p, m)[e + f] == Man(p.side, Pawn)
  {
    hide Clear, Attacked, CastleOpen;
    assert PawnDouble(p, m);
    Shapes(p, m);
  }

  lemma PawnRanksPreserved(p: Pos, m: Move)
    requires WellFormed(p) && PseudoLegal(p, m)
    ensures NoPawnOnLastRanks(SquaresAfter(p, m))
  {
    hide PseudoLegal, SquaresAfter, KingSafe, OneKing, RightsBacked, EpBacked, TakesEnPassant, FileOf;
    Shapes(p, m);
    if IsPawn(p.squares[m.from]) {
      PawnFacts(p, m);
    } else if m.promo.Some? {
      PromotionIsPawn(p, m);
    }
  }

  /** One legal move preserves well-formedness. */
  lemma LegalMovePreserves(p: Pos, m: Move)
    requires WellFormed(p) && Legal(p, m)
    ensures WellFormed(After(p, m))
  {
    KingsPreserved(p, m, White);
    KingsPreserved(p, m, Black);
    RightsPreserved(p, m);
    EpPreserved(p, m);
    PawnRanksPreserved(p, m);
    hide PseudoLegal, SquaresAfter, OneKing, RightsBacked, EpBacked, NoPawnOnLastRanks;
  }

  // ----- runs ------------------------------------------------------------------

  /** ms can be played from p, every move legal where it is played. */
  ghost predicate LegalLine(p: Pos, ms: seq<Move>)
    decreases |ms|
  {
    ms == [] || (Legal(p, ms[0]) && LegalLine(After(p, ms[0]), ms[1..]))
  }

  /** The position at the end of ms. */
  function Play(p: Pos, ms: seq<Move>): Pos
    decreases |ms|
  {
    if ms == [] then p else Play(After(p, ms[0]), ms[1..])
  }

  lemma PlayNothing(p: Pos)
    ensures LegalLine(p, []) && Play(p, []) == p
  {
  }

  /** Every run of legal moves from a well-formed position ends well formed. */
  lemma {:induction false} RunPreserves(p: Pos, ms: seq<Move>)
    requires WellFormed(p) && LegalLine(p, ms)
    ensures WellFormed(Play(p, ms))
    decreases |ms|
  {
    hide WellFormed, Legal, After;
    if ms != [] {
      LegalMovePreserves(p, ms[0]);
      RunPreserves(After(p, ms[0]), ms[1..]);
    }
  }

  lemma {:induction false} LineAppend(p: Pos, ms: seq<Move>, m: Move)
    ensures LegalLine(p, ms + [m]) <==> LegalLine(p, ms) && Legal(Play(p, ms), m)
    ensures Play(p, ms + [m]) == After(Play(p, ms), m)
    decreases |ms|
  {
    hide Legal, After;
    if ms == [] {
      assert (ms + [m])[1..] == [];
    } else {
      assert (ms + [m])[1..] == ms[1..] + [m];
      LineAppend(After(p, ms[0]), ms[1..], m);
    }
  }
}
