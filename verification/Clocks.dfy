/** The counters of a position, told from the boards alone: the halfmove clock counts the plies since a pawn
    last moved or a man was last taken, the fullmove number counts Black's moves. */
module Clocks {
  import opened ChessTypes
  import opened Geometry
  import opened Rules
  import opened Preservation

  /** The men on the first n squares. */
  function Men(squares: Squares, n: nat): nat
    requires n <= 64
  {
    if n == 0 then 0 else Men(squares, n - 1) + if squares[n - 1] == Empty then 0 else 1
  }

  function One(piece: Piece): nat { if piece == Empty then 0 else 1 }

  lemma {:induction false} MenUpdate(squares: Squares, s: Square, piece: Piece, n: nat)
    requires n <= 64
    ensures Men(squares[s := piece], n) == Men(squares, n) + if s < n then One(piece) - One(squares[s]) else 0
  {
    if n > 0 {
      MenUpdate(squares, s, piece, n - 1);
    }
  }

  predicate SamePawns(a: Squares, b: Squares) {
    forall s: Square :: IsPawn(a[s]) <==> IsPawn(b[s])
  }

  /** No sequence of moves leads back from b to a: other squares hold pawns, or men are gone. */
  predicate Irreversible(a: Squares, b: Squares) {
    !SamePawns(a, b) || Men(b, 64) < Men(a, 64)
  }

  lemma LeavesOrigin(p: Pos, m: Move)
    requires PseudoLegal(p, m)
    ensures m.from != m.to && SquaresAfter(p, m)[m.from] == Empty
  {
    Shapes(p, m);
    CastlingShape(p, m);
    hide Clear, CastleOpen, SquaresAfter;
  }

  lemma OrdinaryMen(p: Pos, m: Move)
    requires PseudoLegal(p, m) && !IsPawn(p.squares[m.from]) && !IsCastling(p, m)
    ensures SquaresAfter(p, m) == p.squares[m.from := Empty][m.to := p.squares[m.from]]
    ensures Men(SquaresAfter(p, m), 64) == Men(p.squares, 64) - One(p.squares[m.to])
  {
    Shapes(p, m);
    PseudoLegalMoves(p, m);
    LeavesOrigin(p, m);
    if m.promo.Some? {
      PromotionIsPawn(p, m);
    }
    MenUpdate(p.squares, m.from, Empty, 64);
    MenUpdate(p.squares[m.from := Empty], m.to, p.squares[m.from], 64);
    hide PseudoLegal, SquaresAfter, Men;
  }

  /** Castling moves king and rook over empty squares. */
  lemma CastlingMen(p: Pos, m: Move)
    requires PseudoLegal(p, m) && IsCastling(p, m)
    ensures Men(SquaresAfter(p, m), 64) == Men(p.squares, 64) && SamePawns(p.squares, SquaresAfter(p, m))
    ensures p.squares[m.to] == Empty
  {
    hide Men, Attacked, PseudoLegal, SquaresAfter, Clear, FileOf, RankOf;
    CastlingShape(p, m);
    Shapes(p, m);
    var h := Home(p.side);
    var rook := Man(p.side, Rook);
    var s0 := p.squares[m.from := Empty];
    var s1 := s0[m.to := Man(p.side, King)];
    var corner: Square := if m.to == h + 2 then h + 3 else h - 4;
    var inner: Square := if m.to == h + 2 then h + 1 else h - 1;
    var s2 := s1[corner := Empty];
    MenUpdate(p.squares, m.from, Empty, 64);
    MenUpdate(s0, m.to, Man(p.side, King), 64);
    MenUpdate(s1, corner, Empty, 64);
    MenUpdate(s2, inner, rook, 64);
    assert SquaresAfter(p, m) == s2[inner := rook];
  }

  /** The clock restarts exactly at an irreversible move; otherwise it goes on by one. */
  lemma ClockAfter(p: Pos, m: Move)
    requires PseudoLegal(p, m)
    ensures After(p, m).half == if Irreversible(p.squares, After(p, m).squares) then 0 else p.half + 1
  {
    hide Men, PseudoLegal, SquaresAfter, RightsAfter, EpAfter, IsCastling;
    LeavesOrigin(p, m);
    if IsPawn(p.squares[m.from]) {
      assert !SamePawns(p.squares, SquaresAfter(p, m));
    } else if IsCastling(p, m) {
      CastlingMen(p, m);
    } else {
      OrdinaryMen(p, m);
    }
  }

  // ----- whole lines ---------------------------------------------------------

  /** The boards before and after ply i of the line. */
  ghost predicate IrreversibleAt(p: Pos, line: seq<Move>, i: nat)
    requires i < |line|
  {
    Irreversible(Play(p, line[..i]).squares, Play(p, line[..i + 1]).squares)
  }

  /** Over a legal line the clock is the number of plies since the last irreversible one; without any, they add
      to the clock at the start. k counts the plies up to and including the last irreversible one. */
  lemma {:induction false} ClockOverLine(p: Pos, line: seq<Move>, k: nat)
    requires LegalLine(p, line) && k <= |line| && (k > 0 ==> IrreversibleAt(p, line, k - 1))
    requires forall i :: k <= i < |line| ==> !IrreversibleAt(p, line, i)
    ensures Play(p, line).half == if k == 0 then p.half + |line| else |line| - k
    decreases |line|
  {
    hide Irreversible, After, Legal, Play, LegalLine;
    if line == [] {
      PlayNothing(p);
    } else {
      var n := |line| - 1;
      var init, m := line[..n], line[n];
      assert line == init + [m] && line[..n + 1] == line;
      LineAppend(p, init, m);
      LegalIsPseudo(Play(p, init), m);
      ClockAfter(Play(p, init), m);
      assert forall i :: 0 <= i <= n ==> init[..i] == line[..i];
      if k <= n {
        assert !IrreversibleAt(p, line, n);
        assert k > 0 ==> IrreversibleAt(p, init, k - 1) by { assert k > 0 ==> IrreversibleAt(p, line, k - 1); }
        forall i | k <= i < n ensures !IrreversibleAt(p, init, i) {
          assert !IrreversibleAt(p, line, i);
        }
        ClockOverLine(p, init, k);
      }
    }
  }

  /** Over any line the fullmove number grows by Black's plies. */
  lemma {:induction false} NumberOverLine(p: Pos, line: seq<Move>)
    ensures Play(p, line).full == p.full + (|line| + if p.side == Black then 1 else 0) / 2
    ensures Play(p, line).side == if |line| % 2 == 0 then p.side else p.side.Other()
    decreases |line|
  {
    hide SquaresAfter, RightsAfter, EpAfter;
    if line != [] {
      NumberOverLine(After(p, line[0]), line[1..]);
    }
  }
}
