/** Why every game ends: a potential that each clock-resetting move lowers and no move raises. */
module GamePotential {
  import opened ChessTypes
  import opened Geometry
  import opened Rules
  import opened Preservation

  /** One for each man, and for a pawn also the ranks still ahead of it. */
  function ManPotential(piece: Piece, s: Square): nat {
    match piece
    case Empty => 0
    case Man(White, Pawn) => 1 + 7 - RankOf(s)
    case Man(Black, Pawn) => 1 + RankOf(s)
    case _ => 1
  }

  function PotentialUpTo(squares: Squares, n: nat): nat
    requires n <= 64
  {
    if n == 0 then 0 else PotentialUpTo(squares, n - 1) + ManPotential(squares[n - 1], n - 1)
  }

  function Potential(squares: Squares): nat {
    PotentialUpTo(squares, 64)
  }

  lemma {:induction false} UpdateUpTo(squares: Squares, s: Square, piece: Piece, n: nat)
    requires n <= 64
    ensures PotentialUpTo(squares[s := piece], n) ==
            PotentialUpTo(squares, n) + if s < n then ManPotential(piece, s) - ManPotential(squares[s], s) else 0
  {
    hide ManPotential;
    if n > 0 {
      UpdateUpTo(squares, s, piece, n - 1);
    }
  }

  /** Writing one square changes the potential by what that square gains. */
  lemma Update(squares: Squares, s: Square, piece: Piece)
    ensures Potential(squares[s := piece]) ==
            Potential(squares) + ManPotential(piece, s) - ManPotential(squares[s], s)
  {
    UpdateUpTo(squares, s, piece, 64);
  }

  lemma OrdinaryPotential(p: Pos, m: Move)
    requires m.from != m.to
    ensures Potential(Ordinary(p, m)) ==
            Potential(p.squares) - ManPotential(p.squares[m.from], m.from) - ManPotential(p.squares[m.to], m.to)
            + ManPotential(Placed(p.squares[m.from], m.promo), m.to)
  {
    hide ManPotential, Potential, Placed;
    Update(p.squares, m.from, Empty);
    Update(p.squares[m.from := Empty], m.to, Placed(p.squares[m.from], m.promo));
    assert ManPotential(Empty, m.from) == 0 by { NoMan(m.from); }
  }

  lemma NoMan(s: Square)
    ensures ManPotential(Empty, s) == 0
  {
  }

  /** How the moved man's own potential changes. */
  lemma MoverPotential(p: Pos, m: Move)
    requires PseudoLegal(p, m)
    ensures m.from != m.to
    ensures var piece := p.squares[m.from];
            var change := ManPotential(Placed(piece, m.promo), m.to) - ManPotential(piece, m.from);
            if IsPawn(piece) then change < 0 else change == 0
    ensures p.squares[m.to] != Empty ==> ManPotential(p.squares[m.to], m.to) >= 1
  {
    hide Clear, CastleOpen;
  }

  lemma CastlingPotential(p: Pos, m: Move)
    requires PseudoLegal(p, m) && IsCastling(p, m)
    ensures Potential(AfterCastling(p, m)) == Potential(p.squares) && p.squares[m.to] == Empty
  {
    CastlingShape(p, m);
    hide Attacked, PseudoLegal, FileOf, RankOf, Potential;
    var h := Home(p.side);
    var d: int := m.to - h;
    var corner: int := if d == 2 then 3 else -4;
    var inner: int := if d == 2 then 1 else -1;
    var king := Man(p.side, King);
    var rook := Man(p.side, Rook);
    var s1: Squares := p.squares[m.from := Empty];
    var s2: Squares := s1[m.to := king];
    var s3: Squares := s2[h + corner := Empty];
    Update(p.squares, m.from, Empty);
    Update(s1, m.to, king);
    Update(s2, h + corner, Empty);
    Update(s3, h + inner, rook);
  }

  /** A pseudo-legal move never raises the potential, and lowers it when it resets the clock. */
  lemma MoveLowersPotential(p: Pos, m: Move)
    requires PseudoLegal(p, m)
    ensures Potential(After(p, m).squares) <= Potential(p.squares)
    ensures ResetsClock(p, m) ==> Potential(After(p, m).squares) < Potential(p.squares)
  {
    Shapes(p, m);
    MoverPotential(p, m);
    hide PseudoLegal, SquaresAfter, Potential, ManPotential, Placed, FileOf, RankOf;
    OrdinaryPotential(p, m);
    if TakesEnPassant(p, m) {
      var v: Square := m.to - 8 * Forward(p.side);
      Update(Ordinary(p, m), v, Empty);
      NoMan(v);
    } else if IsCastling(p, m) {
      CastlingPotential(p, m);
    }
  }

  /** A bound on the moves still possible below the clock threshold h. */
  function MovesLeft(p: Pos, h: nat): nat {
    h * Potential(p.squares) + if p.half < h then h - p.half else 0
  }

  /** Each move made below the threshold uses up at least one. */
  lemma MovesLeftFalls(p: Pos, m: Move, h: nat)
    requires PseudoLegal(p, m) && p.half < h
    ensures MovesLeft(After(p, m), h) < MovesLeft(p, h)
  {
    hide PseudoLegal, SquaresAfter, Potential;
    MoveLowersPotential(p, m);
    var a, b := Potential(After(p, m).squares), Potential(p.squares);
    if ResetsClock(p, m) {
      assert h * (a + 1) <= h * b by { Scale(h, a + 1, b); }
    } else {
      Scale(h, a, b);
    }
  }

  lemma Scale(h: nat, a: nat, b: nat)
    requires a <= b
    ensures h * a <= h * b
  {
  }

  /** The start allows at most h * (potential + 1) moves. */
  lemma MovesLeftBound(p: Pos, h: nat)
    ensures MovesLeft(p, h) <= h * (Potential(p.squares) + 1)
  {
    hide Potential;
  }
}
