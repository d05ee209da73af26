/** What minimax values mean: forced mates, stalemates, and the material count at the leaves. */
module MateSearch {
  import opened ChessTypes
  import opened Rules
  import opened MoveLists
  import opened Movegen
  import opened Search

  // ----- mates ---------------------------------------------------------------

  /** The side to move can mate within d plies whatever the other side plays. */
  ghost predicate ForcesMate(p: Pos, d: nat)
    decreases d
  {
    d > 0 && exists m :: Legal(p, m) && IsMated(After(p, m), d - 1)
  }

  /** The side to move is mated, or will be within d plies whatever it plays. */
  ghost predicate IsMated(p: Pos, d: nat)
    decreases d
  {
    if HasLegalMove(p) then d > 0 && forall m :: Legal(p, m) ==> ForcesMate(After(p, m), d - 1) else InCheck(p)
  }

  /** Checkmated and stalemated positions score -100000 and 0 at every depth. */
  lemma StuckScores(p: Pos, depth: nat, usePst: bool)
    requires Complete(ORACLE) && !HasLegalMove(p)
    ensures Minimax(p, depth, usePst) == if InCheck(p) then -100_000 else 0
  {
    hide Complete, LegalMoves, InCheck, HasLegalMove;
    EmptyMeansStuck(p);
  }

  /** At depth 0 any other position scores its evaluation, which is no mate score. */
  lemma LeafScores(p: Pos, usePst: bool)
    requires Complete(ORACLE) && HasLegalMove(p)
    ensures Minimax(p, 0, usePst) == Score(p.squares, usePst, 64) * if p.side == White then 1 else -1
    ensures -100_000 < Minimax(p, 0, usePst) < 100_000
  {
    hide Complete, LegalMoves, InCheck, HasLegalMove, Score;
    EmptyMeansStuck(p);
    ScoreBound(p.squares, usePst, 64);
  }

  /** Deeper down it is worth what its best legal move is worth, the opponent's value negated. */
  lemma BestScores(p: Pos, depth: nat, usePst: bool)
    requires Complete(ORACLE) && HasLegalMove(p) && depth > 0
    ensures exists m :: Legal(p, m) && Minimax(p, depth, usePst) == -Minimax(After(p, m), depth - 1, usePst)
    ensures forall m :: Legal(p, m) ==> Minimax(p, depth, usePst) >= -Minimax(After(p, m), depth - 1, usePst)
  {
    hide Complete, LegalMoves, InCheck, HasLegalMove, BestOf, Legal, After;
    var ms := LegalMoves(ORACLE, p);
    EmptyMeansStuck(p);
    forall n ensures n in ms <==> Legal(p, n) {
      LegalMovesAreExact(ORACLE, p, n);
    }
    BestOfIsMaximum(p, ms, depth, usePst);
    var m :| m in ms && MoveValue(p, m, depth, usePst) == BestOf(p, ms, depth, usePst);
    assert Legal(p, m) && Minimax(p, depth, usePst) == -Minimax(After(p, m), depth - 1, usePst);
    forall n | Legal(p, n) ensures Minimax(p, depth, usePst) >= -Minimax(After(p, n), depth - 1, usePst) {
      assert MoveValue(p, n, depth, usePst) <= BestOf(p, ms, depth, usePst);
    }
  }

  /** The mate scores are reached exactly by the forced mates. */
  lemma {:induction false} MateScores(p: Pos, depth: nat, usePst: bool)
    requires Complete(ORACLE)
    ensures Minimax(p, depth, usePst) == 100_000 <==> ForcesMate(p, depth)
    ensures Minimax(p, depth, usePst) == -100_000 <==> IsMated(p, depth)
    decreases depth
  {
    hide Complete, Minimax, InCheck, HasLegalMove, Legal, After;
    if !HasLegalMove(p) {
      StuckScores(p, depth, usePst);
      NothingToForce(p, depth);
    } else if depth == 0 {
      LeafScores(p, usePst);
    } else {
      forall m
        ensures Minimax(After(p, m), depth - 1, usePst) == 100_000 <==> ForcesMate(After(p, m), depth - 1)
        ensures Minimax(After(p, m), depth - 1, usePst) == -100_000 <==> IsMated(After(p, m), depth - 1)
        ensures -100_000 <= Minimax(After(p, m), depth - 1, usePst) <= 100_000
      {
        MateScores(After(p, m), depth - 1, usePst);
        MinimaxBound(After(p, m), depth - 1, usePst);
      }
      BestScores(p, depth, usePst);
      MinimaxBound(p, depth, usePst);
    }
  }

  lemma NothingToForce(p: Pos, depth: nat)
    requires !HasLegalMove(p)
    ensures !ForcesMate(p, depth)
  {
    hide Legal;
  }

  /** When mate can be forced the root search keeps exactly the moves that force it. */
  lemma TopMovesMate(p: Pos, depth: nat, usePst: bool, m: Move)
    requires Complete(ORACLE) && depth > 0 && ForcesMate(p, depth)
    ensures m in TopMoves(p, depth, usePst) <==> Legal(p, m) && IsMated(After(p, m), depth - 1)
  {
    hide Complete, Minimax, InCheck, HasLegalMove, Legal, After, TopMoves, IsMated;
    forall n
      ensures MoveValue(p, n, depth, usePst) == 100_000 <==> IsMated(After(p, n), depth - 1)
      ensures MoveValue(p, n, depth, usePst) <= 100_000
    {
      MateScores(After(p, n), depth - 1, usePst);
      MinimaxBound(After(p, n), depth - 1, usePst);
    }
    TopMovesAreBest(p, depth, usePst, m);
  }

  /** The move checkmates at once. */
  ghost predicate Mates(p: Pos, m: Move) {
    Legal(p, m) && InCheck(After(p, m)) && !HasLegalMove(After(p, m))
  }

  /** A checkmating move is among the best at every depth; at depth 1 nothing else is, when there is one. */
  lemma MatesAreTop(p: Pos, depth: nat, usePst: bool, m: Move, n: Move)
    requires Complete(ORACLE) && depth > 0 && Mates(p, m)
    ensures m in TopMoves(p, depth, usePst)
    ensures n in TopMoves(p, 1, usePst) <==> Mates(p, n)
  {
    hide Complete, InCheck, HasLegalMove, Legal, After, TopMoves;
    TopMovesMate(p, depth, usePst, m);
    assert IsMated(After(p, m), 0);
    TopMovesMate(p, 1, usePst, n);
  }

  // ----- material ------------------------------------------------------------

  /** How many of the first n squares hold the given man. */
  function Tally(squares: Squares, piece: Piece, n: nat): nat
    requires n <= 64
  {
    if n == 0 then 0 else Tally(squares, piece, n - 1) + if squares[n - 1] == piece then 1 else 0
  }

  /** White's men of a kind less Black's. */
  function Surplus(squares: Squares, k: Kind, n: nat): int
    requires n <= 64
  {
    Tally(squares, Man(White, k), n) - Tally(squares, Man(Black, k), n)
  }

  /** 1 for a white man of the kind, -1 for a black one. */
  function Sense(piece: Piece, k: Kind): int {
    if piece == Man(White, k) then 1 else if piece == Man(Black, k) then -1 else 0
  }

  lemma MaterialOfSquare(squares: Squares, s: Square)
    ensures SquareScore(squares, s, false) ==
            100 * Sense(squares[s], Pawn) + 320 * Sense(squares[s], Knight) + 330 * Sense(squares[s], Bishop)
            + 500 * Sense(squares[s], Rook) + 900 * Sense(squares[s], Queen)
  {
  }

  lemma SurplusStep(squares: Squares, k: Kind, n: nat)
    requires n < 64
    ensures Surplus(squares, k, n + 1) == Surplus(squares, k, n) + Sense(squares[n], k)
  {
  }

  /** Without the square table the evaluation counts material in centipawns. */
  lemma {:induction false} MaterialScore(squares: Squares, n: nat)
    requires n <= 64
    ensures Score(squares, false, n) ==
            100 * Surplus(squares, Pawn, n) + 320 * Surplus(squares, Knight, n) + 330 * Surplus(squares, Bishop, n)
            + 500 * Surplus(squares, Rook, n) + 900 * Surplus(squares, Queen, n)
  {
    hide SquareScore, Sense, Surplus;
    if n == 0 {
      NoSurplus(squares);
    } else {
      MaterialScore(squares, n - 1);
      MaterialOfSquare(squares, n - 1);
      SurplusStep(squares, Pawn, n - 1);
      SurplusStep(squares, Knight, n - 1);
      SurplusStep(squares, Bishop, n - 1);
      SurplusStep(squares, Rook, n - 1);
      SurplusStep(squares, Queen, n - 1);
    }
  }

  lemma NoSurplus(squares: Squares)
    ensures forall k: Kind :: Surplus(squares, k, 0) == 0
  {
  }

  function Min(x: int, y: int): int { if x < y then x else y }

  /** With it, every man gains four times its distance from the edges, and a pawn three times its advance. */
  lemma TableScore(squares: Squares, s: Square)
    ensures var f, r := FileOf(s), RankOf(s);
            SquareScore(squares, s, true) - SquareScore(squares, s, false) ==
            match squares[s]
            case Empty => 0
            case Man(White, k) => 4 * (Min(f, 7 - f) + Min(r, 7 - r)) + if k == Pawn then 3 * r else 0
            case Man(Black, k) => -(4 * (Min(f, 7 - f) + Min(r, 7 - r)) + if k == Pawn then 3 * (7 - r) else 0)
  {
    assert 0 <= FileOf(s) < 8 && 0 <= RankOf(s) < 8;
    CenterIsDistance(FileOf(s));
    CenterIsDistance(RankOf(s));
    hide FileOf, RankOf, CenterBonus;
  }

  lemma CenterIsDistance(x: int)
    requires 0 <= x < 8
    ensures CenterBonus(x) == Min(x, 7 - x)
  {
  }
}
