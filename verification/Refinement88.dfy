/** The engine's makeMove, legality filter and perft refine the oracle's, from
    every well-formed position. */
module Refinement88 {
  import opened ChessTypes
  import opened Geometry
  import opened Rules
  import opened MoveLists
  import opened Movegen
  import opened Preservation
  import opened Distinct
  import opened PerftTree
  import opened Square88
  import opened Engine88

  // ----- making a move -----------------------------------------------------

  method Put(b: Board88, x: int, code: int, ghost squares: Squares, ghost s: Square, ghost piece: Piece)
    requires Shows(b.sq[..], squares) && x == To88(s) && code == Code(piece)
    modifies b.sq
    ensures Shows(b.sq[..], squares[s := piece])
  {
    hide To88, Code;
    ShowsWrite(b.sq[..], squares, s, piece);
    b.sq[x] := code;
    assert b.sq[..] == old(b.sq[..])[x := code];
  }

  function PromoPiece(promo: int, white: bool): int {
    if white then promo else promo + COLOR_BIT
  }

  lemma PlacedCode(p: Pos, m: Move)
    requires PseudoLegal(p, m)
    ensures (if m.promo.Some? then PromoPiece(PromoCode(m.promo), p.side.White?) else Code(p.squares[m.from]))
            == Code(Placed(p.squares[m.from], m.promo))
    ensures PromoCode(m.promo) != 0 <==> m.promo.Some?
  {
    if m.promo.Some? {
      PromotionIsPawn(p, m);
    }
    PseudoLegalMoves(p, m);
    hide PseudoLegal;
  }

  /** Which branch of makeMove a record takes. */
  lemma FlagShape(p: Pos, m: Move)
    requires PseudoLegal(p, m)
    ensures Flag(p, m) == FLAG_EP <==> TakesEnPassant(p, m)
    ensures Flag(p, m) == FLAG_CASTLE <==> IsCastling(p, m)
    ensures Flag(p, m) == FLAG_DOUBLE <==> EpAfter(p, m).Some?
    ensures EpAfter(p, m).Some? ==> m.promo.None? && Ep88(EpAfter(p, m)) == To88(m.from) + 16 * Forward(p.side)
    ensures TakesEnPassant(p, m) ==>
              && m.promo.None? && 0 <= m.to - 8 * Forward(p.side) < 64
              && To88(m.to - 8 * Forward(p.side)) == To88(m.to) - 16 * Forward(p.side)
  {
    hide Clear, CastleOpen, Attacks;
    if IsPawn(p.squares[m.from]) && Abs(m.to - m.from) == 16 {
      DoubleIsPush(p, m);
    }
    if TakesEnPassant(p, m) {
      assert PawnEnPassant(p, m);
    }
  }

  lemma DoubleIsPush(p: Pos, m: Move)
    requires PseudoLegal(p, m) && IsPawn(p.squares[m.from]) && Abs(m.to - m.from) == 16
    ensures PawnDouble(p, m) && m.to == m.from + 16 * Forward(p.side)
    ensures RankOf(m.from + 8 * Forward(p.side)) == RankOf(m.from) + Forward(p.side)
  {
  }

  lemma CastleShape(p: Pos, m: Move)
    requires PseudoLegal(p, m) && IsCastling(p, m)
    ensures m.promo.None? && p.squares[m.from] == Man(p.side, King) && !TakesEnPassant(p, m)
    ensures p.squares[RookHome(p.side, m.to == Home(p.side) + 2)] == Man(p.side, Rook)
  {
    CastlingShape(p, m);
    hide Attacked, PseudoLegal;
  }

  /** b.sq[rto] = b.sq[rfrom]; b.sq[rfrom] = EMPTY. */
  method MoveRook(b: Board88, rfrom: int, rto: int, ghost s: Squares, ghost f: Square, ghost t: Square)
    requires Shows(b.sq[..], s) && rfrom == To88(f) && rto == To88(t) && f != t
    modifies b.sq
    ensures Shows(b.sq[..], s[f := Empty][t := s[f]])
  {
    hide To88, Code, Shows;
    CodeOf(b.sq[..], s, f);
    EmptyCode();
    Put(b, rto, b.sq[rfrom], s, t, s[f]);
    Put(b, rfrom, 0, s[t := s[f]], f, Empty);
    assert s[t := s[f]][f := Empty] == s[f := Empty][t := s[f]];
  }

  /** The rook's part of a castling move: the king already stands on m.to. */
  method CastleRook88(b: Board88, m: Move88, white: bool, ghost p: Pos, ghost mv: Move)
    requires m == Encode(p, mv) && PseudoLegal(p, mv) && IsCastling(p, mv) && white == p.side.White?
    requires Shows(b.sq[..], p.squares[mv.from := Empty][mv.to := Man(p.side, King)])
    modifies b.sq
    ensures Shows(b.sq[..], SquaresAfter(p, mv))
  {
    hide To88, PseudoLegal, SquaresAfter, Shows, TakesEnPassant;
    CastleShape(p, mv);
    Shapes(p, mv);
    ghost var h := Home(p.side);
    ghost var s: Squares := p.squares[mv.from := Empty][mv.to := Man(p.side, King)];
    HomeIndex(p.side, -4); HomeIndex(p.side, -1); HomeIndex(p.side, 1); HomeIndex(p.side, 3);
    HomeIndex(p.side, 2); HomeIndex(p.side, -2);
    var home := if white then 4 else 116;
    if m.to == home + 2 {
      MoveRook(b, home + 3, home + 1, s, h + 3, h + 1);
    } else {
      MoveRook(b, home - 4, home - 1, s, h - 4, h - 1);
    }
  }

  /** The writes to sq of makeMove. */
  method MoveMen88(b: Board88, m: Move88, white: bool, ghost p: Pos, ghost mv: Move)
    requires Shows(b.sq[..], p.squares) && white == p.side.White? && m == Encode(p, mv) && PseudoLegal(p, mv)
    modifies b.sq
    ensures Shows(b.sq[..], SquaresAfter(p, mv))
  {
    hide To88, Code, PseudoLegal, SquaresAfter, Shows, Flag, TakesEnPassant, IsCastling, PromoCode, Placed, EpAfter;
    Shapes(p, mv);
    FlagShape(p, mv);
    PlacedCode(p, mv);
    EmptyCode();
    CodeOf(b.sq[..], p.squares, mv.from);
    CodeOf(b.sq[..], p.squares, mv.to);
    ghost var placed := Placed(p.squares[mv.from], mv.promo);
    ghost var s1: Squares := p.squares[mv.from := Empty];
    var piece := b.sq[m.from];
    Put(b, m.from, 0, p.squares, mv.from, Empty);
    if m.flag == FLAG_EP {
      ghost var v: Square := mv.to - 8 * Forward(p.side);
      assert v != mv.to;
      Put(b, m.to + (if white then -16 else 16), 0, s1, v, Empty);
      Put(b, m.to, piece, s1[v := Empty], mv.to, placed);
      assert s1[v := Empty][mv.to := placed] == s1[mv.to := placed][v := Empty];
    } else if m.flag == FLAG_CASTLE {
      CastleShape(p, mv);
      Put(b, m.to, piece, s1, mv.to, placed);
      assert placed == Man(p.side, King) by { PlainPlaced(p, mv); }
      CastleRook88(b, m, white, p, mv);
    } else if m.promo != 0 {
      Put(b, m.to, PromoPiece(m.promo, white), s1, mv.to, placed);
    } else {
      Put(b, m.to, piece, s1, mv.to, placed);
    }
  }

  lemma PlainPlaced(p: Pos, m: Move)
    requires m.promo.None?
    ensures Placed(p.squares[m.from], m.promo) == p.squares[m.from]
  {
  }

  /** The lambda clearBySquare: which rights a touched square costs. */
  function RightsWithout(r: Rights, s: Square): Rights {
    Rights(r.wk && s != 4 && s != 7, r.wq && s != 4 && s != 0, r.bk && s != 60 && s != 63, r.bq && s != 60 && s != 56)
  }

  method ClearBySquare(castling: nat, x: int, ghost r: Rights, ghost s: Square) returns (out: nat)
    requires castling == RightsBits(r) && x == To88(s)
    ensures out == RightsBits(RightsWithout(r, s))
  {
    hide And, MaskOff, RightsBits;
    out := castling;
    if x == 4 { ClearRight(r); out := MaskOff(out, CR_WK + CR_WQ); }
    if x == 116 { ClearRight(r); out := MaskOff(out, CR_BK + CR_BQ); }
    if x == 7 { ClearRight(r); out := MaskOff(out, CR_WK); }
    if x == 0 { ClearRight(r); out := MaskOff(out, CR_WQ); }
    if x == 119 { ClearRight(r); out := MaskOff(out, CR_BK); }
    if x == 112 { ClearRight(r); out := MaskOff(out, CR_BQ); }
  }

  /** Rights lost by touched squares are the rights the oracle takes away. */
  lemma RightsAgree(p: Pos, m: Move)
    requires WellFormed(p) && PseudoLegal(p, m)
    ensures RightsWithout(RightsWithout(p.rights, m.from), m.to) == RightsAfter(p, m)
  {
    hide PseudoLegal, KingSafe, EpBacked, NoPawnOnLastRanks;
    KingNotCaptured(p, m);
    NotOntoOwnMan(p, m);
    PseudoLegalMoves(p, m);
    assert OneKing(p.squares, White) && OneKing(p.squares, Black);
  }

  /** makeMove takes a board representing p to one representing After(p, mv). */
  method MakeMove88(b: Board88, m: Move88, ghost p: Pos, ghost mv: Move)
    requires b.Represents(p) && WellFormed(p) && PseudoLegal(p, mv) && m == Encode(p, mv)
    modifies b, b.sq
    ensures b.Represents(After(p, mv))
  {
    hide To88, WellFormed, PseudoLegal, SquaresAfter, RightsAfter, Flag, EpAfter, RightsBits, Shows, EpStands;
    var white := b.whiteToMove;
    FlagShape(p, mv);
    RightsAgree(p, mv);
    b.ep := -1;
    MoveMen88(b, m, white, p, mv);
    if m.flag == FLAG_DOUBLE {
      b.ep := m.from + (if white then 16 else -16);
    }
    b.castling := ClearBySquare(b.castling, m.from, p.rights, mv.from);
    b.castling := ClearBySquare(b.castling, m.to, RightsWithout(p.rights, mv.from), mv.to);
    b.whiteToMove := !white;
    EpStandsExact(After(p, mv));
  }

  // ----- legality ----------------------------------------------------------

  lemma WellFormedEp(p: Pos)
    requires WellFormed(p)
    ensures EpEmpty(p)
  {
    hide KingSafe, OneKing, RightsBacked, NoPawnOnLastRanks;
  }

  lemma ViewOfWellFormed(p: Pos)
    requires WellFormed(p)
    ensures View(p) == p
  {
    WellFormedEp(p);
    hide WellFormed;
  }

  /** In the engine's view of a position the pseudo-legal moves are those that land on no man of the mover's own;
      the others are en passant captures onto one. */
  lemma ViewPseudo(p: Pos, m: Move)
    ensures PseudoLegal(View(p), m) <==> PseudoLegal(p, m) && !Holds(p.squares, m.to, p.side)
  {
    hide Attacks, Attacked, FileOf, RankOf;
    assert CastleOpen(View(p), true) == CastleOpen(p, true) && CastleOpen(View(p), false) == CastleOpen(p, false);
  }

  lemma ViewAfter(p: Pos, m: Move)
    ensures After(View(p), m) == After(p, m)
  {
    hide CastleRook, FileOf;
  }

  lemma ViewLegal(p: Pos, m: Move)
    ensures Legal(View(p), m) <==> Legal(p, m) && !Holds(p.squares, m.to, p.side)
  {
    hide PseudoLegal, KingSafe, After, View;
    ViewPseudo(p, m);
    ViewAfter(p, m);
    assert View(p).side == p.side by { ViewSide(p); }
  }

  lemma ViewSide(p: Pos)
    ensures View(p).side == p.side && View(p).squares == p.squares
  {
  }

  /** After a move the en passant square is empty, so the engine's view is the position. */
  lemma ViewOfAfter(p: Pos, m: Move)
    requires PseudoLegal(p, m)
    ensures View(After(p, m)) == After(p, m)
  {
    hide PseudoLegal, SquaresAfter, RightsAfter, EpAfter;
    if EpAfter(p, m).Some? {
      PassedSquaresEmpty(p, m);
    }
  }

  /** A line whose first move is not lost on the engine is the same line in its view. */
  lemma ViewLine(p: Pos, line: seq<Move>)
    requires LegalLine(p, line) && (line != [] ==> !Holds(p.squares, line[0].to, p.side))
    ensures LegalLine(View(p), line) && Play(View(p), line) == View(Play(p, line))
  {
    hide Legal, After, View, LegalLine, Play;
    LineHead(p, line);
    LineHead(View(p), line);
    if line != [] {
      ViewLegal(p, line[0]);
      ViewAfter(p, line[0]);
      ViewOfPlay(After(p, line[0]), line[1..], p, line[0]);
    }
  }

  lemma LineHead(p: Pos, line: seq<Move>)
    ensures if line == [] then LegalLine(p, line) && Play(p, line) == p
            else (LegalLine(p, line) <==> Legal(p, line[0]) && LegalLine(After(p, line[0]), line[1..]))
                 && Play(p, line) == Play(After(p, line[0]), line[1..])
  {
    hide Legal, After;
  }

  /** Behind a legal move every position of a line is its own view. */
  lemma {:induction false} ViewOfPlay(q: Pos, line: seq<Move>, p: Pos, m: Move)
    requires Legal(p, m) && q == After(p, m) && LegalLine(q, line)
    ensures View(Play(q, line)) == Play(q, line)
    decreases |line|
  {
    hide Legal, After, View, LegalLine, Play;
    LineHead(q, line);
    if line == [] {
      LegalIsPseudo(p, m);
      ViewOfAfter(p, m);
    } else {
      ViewOfPlay(After(q, line[0]), line[1..], q, line[0]);
    }
  }

  /** The mover has a king after its move, so "not in check" is "king safe". */
  lemma MoverHasKing(p: Pos, m: Move)
    requires WellFormed(p) && PseudoLegal(p, m)
    ensures KingSquare(SquaresAfter(p, m), p.side).Some?
  {
    hide PseudoLegal, SquaresAfter, WellFormed;
    KingsPreserved(p, m, p.side);
  }

  /** genLegal lists the records of exactly the legal moves, in the engine's order. */
  method GenLegal88(b: Board88, ghost p: Pos) returns (out: seq<Move88>)
    requires b.Represents(p) && WellFormed(p)
    ensures Complete(ENGINE) && out == EncodeAll(p, LegalMoves(ENGINE, p))
  {
    hide Complete, WellFormed, PseudoMoves, PseudoLegal, SquaresAfter, RightsAfter, EpAfter, Encode, EncodeAll,
         Attacked, KingSquare, RightsBits, Shows;
    WellFormedEp(p);
    var pseudo := GenPseudoLegal88(b, p);
    ghost var ms := PseudoMoves(ENGINE, p);
    out := [];
    EncodedElements(p, ms);
    EmptyRecord(p);
    assert ms[..0] == [];
    for i := 0 to |pseudo|
      invariant out == EncodeAll(p, SafeMoves(p, ms[..i]))
    {
      PseudoMovesAreExact(ENGINE, p, ms[i]);
      MoverHasKing(p, ms[i]);
      assert b.sq.Length == 128 by { LengthOf(b, p); }
      var nb := new Board88.Duplicate(b);
      MakeMove88(nb, pseudo[i], p, ms[i]);
      var check := InCheck88(nb, b.whiteToMove, After(p, ms[i]));
      SafeStep(p, ms, i);
      if !check {
        out := out + [pseudo[i]];
        EncodedElements(p, [ms[i]]);
        EncodeAppend(p, SafeMoves(p, ms[..i]), [ms[i]]);
      }
    }
    assert ms[..|ms|] == ms;
  }

  lemma SafeStep(p: Pos, ms: seq<Move>, i: nat)
    requires i < |ms|
    ensures SafeMoves(p, ms[..i + 1]) ==
            if KingSafe(After(p, ms[i]).squares, p.side) then SafeMoves(p, ms[..i]) + [ms[i]] else SafeMoves(p, ms[..i])
  {
    assert ms[..i + 1][..i] == ms[..i];
  }

  lemma LengthOf(b: Board88, p: Pos)
    requires b.Represents(p)
    ensures b.sq.Length == 128
  {
  }

  lemma EncodedElements(p: Pos, ms: seq<Move>)
    ensures |EncodeAll(p, ms)| == |ms|
    ensures forall i :: 0 <= i < |ms| ==> EncodeAll(p, ms)[i] == Encode(p, ms[i])
    ensures |ms| == 1 ==> EncodeAll(p, ms) == [Encode(p, ms[0])]
  {
  }

  /** The engine's and the oracle's order of trying offsets give the same legal moves, each once. For well-formed
      positions GenLegal88 ties the engine's own generator to the former. */
  lemma SameLegalMoves(p: Pos)
    requires Complete(ENGINE) && Complete(ORACLE)
    ensures forall m :: m in LegalMoves(ENGINE, p) <==> m in LegalMoves(ORACLE, p)
    ensures NoDup(LegalMoves(ENGINE, p)) && NoDup(LegalMoves(ORACLE, p))
    ensures NoDup(EncodeAll(p, LegalMoves(ENGINE, p)))
  {
    hide Complete, LegalMoves, Encode;
    forall m ensures m in LegalMoves(ENGINE, p) <==> m in LegalMoves(ORACLE, p) {
      LegalMovesAreExact(ENGINE, p, m);
      LegalMovesAreExact(ORACLE, p, m);
    }
    LegalMovesDistinct(ENGINE, p);
    LegalMovesDistinct(ORACLE, p);
    forall m, n | Encode(p, m) == Encode(p, n) ensures m == n {
      EncodeInjective(p, m, n);
    }
  }

  // ----- perft -------------------------------------------------------------

  /** uint64_t arithmetic. */
  const TWO64: nat := 0x1_0000_0000_0000_0000

  /** The engine's perft is the oracle's, modulo the 64-bit counter. */
  method Perft88(b: Board88, depth: nat, ghost p: Pos) returns (nodes: nat)
    requires b.Represents(p) && WellFormed(p)
    ensures Complete(ORACLE) && nodes == Perft(ORACLE, p, depth) % TWO64
    decreases depth
  {
    OracleComplete();
    EngineComplete();
    PerftIgnoresOrder(ENGINE, ORACLE, p, depth);
    nodes := EnginePerft(b, depth, p);
  }

  method EnginePerft(b: Board88, depth: nat, ghost p: Pos) returns (nodes: nat)
    requires b.Represents(p) && WellFormed(p)
    ensures Complete(ENGINE) && nodes == Perft(ENGINE, p, depth) % TWO64
    decreases depth
  {
    hide Complete, WellFormed, LegalMoves, SquaresAfter, RightsAfter, EpAfter, Encode, EncodeAll, RightsBits, Shows,
         Legal;
    EngineComplete();
    if depth == 0 {
      return 1;
    }
    var moves := GenLegal88(b, p);
    ghost var ms := LegalMoves(ENGINE, p);
    EncodedElements(p, ms);
    if depth == 1 {
      DepthOneIsLength(ENGINE, p, ms);
      return |moves| % TWO64;
    }
    nodes := 0;
    for i := 0 to |moves|
      invariant nodes == PerftOver(ENGINE, p, ms[..i], depth) % TWO64
    {
      assert ms[..i + 1][..i] == ms[..i];
      LegalMovesAreExact(ENGINE, p, ms[i]);
      LegalMovePreserves(p, ms[i]);
      assert b.sq.Length == 128 by { LengthOf(b, p); }
      var nb := new Board88.Duplicate(b);
      assert PseudoLegal(p, ms[i]) by { LegalIsPseudo(p, ms[i]); }
      MakeMove88(nb, moves[i], p, ms[i]);
      var more := EnginePerft(nb, depth - 1, After(p, ms[i]));
      ModSum(PerftOver(ENGINE, p, ms[..i], depth), Perft(ENGINE, After(p, ms[i]), depth - 1));
      nodes := (nodes + more) % TWO64;
    }
    assert ms[..|ms|] == ms;
  }

  lemma ModSum(a: nat, b: nat)
    ensures (a % TWO64 + b % TWO64) % TWO64 == (a + b) % TWO64
  {
  }
}
