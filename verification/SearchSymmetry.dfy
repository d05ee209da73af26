/** The search is blind to colour and to the clocks: equal repetition keys have equal
    minimax values, and so have a position and its colour-flipped image. */
module SearchSymmetry {
  import opened ChessTypes
  import opened Rules
  import opened MoveLists
  import opened Movegen
  import opened Repetition
  import opened Symmetry
  import opened Search

  // ----- clocks ------------------------------------------------------------

  lemma {:induction false} SameMinimax(p: Pos, q: Pos, depth: nat, usePst: bool)
    requires Complete(ORACLE) && SameKey(p, q)
    ensures Minimax(p, depth, usePst) == Minimax(q, depth, usePst)
    decreases depth, 0, 0
  {
    hide Complete, LegalMoves, InCheck;
    SameLegal(ORACLE, p, q);
    if depth > 0 {
      SameBestOf(p, q, LegalMoves(ORACLE, p), depth, usePst);
    }
  }

  lemma {:induction false} SameBestOf(p: Pos, q: Pos, ms: seq<Move>, depth: nat, usePst: bool)
    requires Complete(ORACLE) && SameKey(p, q) && depth > 0
    ensures BestOf(p, ms, depth, usePst) == BestOf(q, ms, depth, usePst)
    decreases depth - 1, 2, |ms|
  {
    hide Complete, After, Minimax;
    if ms != [] {
      var m := ms[|ms| - 1];
      SameBestOf(p, q, ms[..|ms| - 1], depth, usePst);
      SameAfter(p, q, m);
      SameMinimax(After(p, m), After(q, m), depth - 1, usePst);
    }
  }

  // ----- evaluation --------------------------------------------------------

  lemma FlipSquareScore(squares: Squares, s: Square, usePst: bool)
    ensures SquareScore(FlipSquares(squares), Mirror(s), usePst) == -SquareScore(squares, s, usePst)
  {
    hide FlipSquares;
    FlipHolds(squares, s, White);
    assert CenterBonus(RankOf(Mirror(s))) == CenterBonus(RankOf(s)) by { CenterMirror(RankOf(s)); }
    hide Mirror, FileOf, RankOf, CenterBonus;
  }

  lemma CenterMirror(r: int)
    requires 0 <= r < 8
    ensures CenterBonus(7 - r) == CenterBonus(r)
  {
  }

  /** The score of the first n squares of a rank. */
  function RankScore(squares: Squares, usePst: bool, r: nat, n: nat): int
    requires r < 8 && n <= 8
  {
    if n == 0 then 0 else RankScore(squares, usePst, r, n - 1) + SquareScore(squares, 8 * r + n - 1, usePst)
  }

  lemma {:induction false} ScoreByRank(squares: Squares, usePst: bool, r: nat, n: nat)
    requires r < 8 && n <= 8
    ensures Score(squares, usePst, 8 * r + n) == Score(squares, usePst, 8 * r) + RankScore(squares, usePst, r, n)
  {
    hide SquareScore;
    if n > 0 {
      ScoreByRank(squares, usePst, r, n - 1);
    }
  }

  lemma {:induction false} FlipRankScore(squares: Squares, usePst: bool, r: nat, n: nat)
    requires r < 8 && n <= 8
    ensures RankScore(FlipSquares(squares), usePst, 7 - r, n) == -RankScore(squares, usePst, r, n)
  {
    hide SquareScore, FlipSquares, Mirror;
    if n > 0 {
      FlipRankScore(squares, usePst, r, n - 1);
      FlipSquareScore(squares, 8 * r + n - 1, usePst);
      MirrorInRank(r, n - 1);
    }
  }

  lemma MirrorInRank(r: nat, i: nat)
    requires r < 8 && i < 8
    ensures Mirror(8 * r + i) == 8 * (7 - r) + i
  {
  }

  /** The total over the first n ranks, and over the last n ranks, of a board. */
  function FirstRanks(squares: Squares, usePst: bool, n: nat): int
    requires n <= 8
  {
    if n == 0 then 0 else FirstRanks(squares, usePst, n - 1) + RankScore(squares, usePst, n - 1, 8)
  }

  function LastRanks(squares: Squares, usePst: bool, n: nat): int
    requires n <= 8
  {
    if n == 0 then 0 else LastRanks(squares, usePst, n - 1) + RankScore(squares, usePst, 8 - n, 8)
  }

  lemma {:induction false} ScoreIsFirstRanks(squares: Squares, usePst: bool, n: nat)
    requires n <= 8
    ensures Score(squares, usePst, 8 * n) == FirstRanks(squares, usePst, n)
  {
    hide RankScore;
    if n > 0 {
      ScoreIsFirstRanks(squares, usePst, n - 1);
      ScoreByRank(squares, usePst, n - 1, 8);
    }
  }

  lemma {:induction false} FlipRanks(squares: Squares, usePst: bool, n: nat)
    requires n <= 8
    ensures LastRanks(FlipSquares(squares), usePst, n) == -FirstRanks(squares, usePst, n)
  {
    hide RankScore, FlipSquares;
    if n > 0 {
      FlipRanks(squares, usePst, n - 1);
      FlipRankScore(squares, usePst, n - 1, 8);
    }
  }

  lemma {:induction false} RanksMeet(squares: Squares, usePst: bool, n: nat)
    requires n <= 8
    ensures FirstRanks(squares, usePst, 8 - n) + LastRanks(squares, usePst, n) == FirstRanks(squares, usePst, 8)
  {
    hide RankScore;
    if n > 0 {
      RanksMeet(squares, usePst, n - 1);
    }
  }

  /** Flipping negates the evaluation, so the side to move sees the same score. */
  lemma FlipScore(p: Pos, usePst: bool)
    ensures Score(FlipSquares(p.squares), usePst, 64) == -Score(p.squares, usePst, 64)
    ensures EvalSideToMove(Flip(p), usePst) == EvalSideToMove(p, usePst)
  {
    hide FlipSquares, Score, LastRanks, FirstRanks;
    var f := FlipSquares(p.squares);
    ScoreIsFirstRanks(p.squares, usePst, 8);
    ScoreIsFirstRanks(f, usePst, 8);
    FlipRanks(p.squares, usePst, 8);
    RanksMeet(f, usePst, 8);
    assert FirstRanks(f, usePst, 0) == 0 by { NoRanks(f, usePst); }
  }

  lemma NoRanks(squares: Squares, usePst: bool)
    ensures FirstRanks(squares, usePst, 0) == 0
  {
  }

  // ----- minimax -----------------------------------------------------------

  /** ns are the flipped moves of ms, in any order. */
  ghost predicate FlippedSet(ms: seq<Move>, ns: seq<Move>) {
    (forall m :: m in ms ==> FlipMove(m) in ns) && (forall n :: n in ns ==> FlipMove(n) in ms)
  }

  lemma FlipLegalMoves(p: Pos)
    requires Complete(ORACLE) && LoneKings(p)
    ensures FlippedSet(LegalMoves(ORACLE, p), LegalMoves(ORACLE, Flip(p)))
  {
    hide Complete, LegalMoves, Legal, LoneKings, LoneKing, Flip, FlipMove;
    MoverIsLone(p);
    forall m
      ensures m in LegalMoves(ORACLE, p) ==> FlipMove(m) in LegalMoves(ORACLE, Flip(p))
      ensures m in LegalMoves(ORACLE, Flip(p)) ==> FlipMove(m) in LegalMoves(ORACLE, p)
    {
      LegalMovesAreExact(ORACLE, p, m);
      LegalMovesAreExact(ORACLE, p, FlipMove(m));
      LegalMovesAreExact(ORACLE, Flip(p), m);
      LegalMovesAreExact(ORACLE, Flip(p), FlipMove(m));
      FlipLegal(p, m);
      FlipTwice(p, m);
      FlipLegal(p, FlipMove(m));
    }
  }

  lemma {:induction false} FlipMoveValue(p: Pos, m: Move, depth: nat, usePst: bool)
    requires Complete(ORACLE) && LoneKings(p) && Legal(p, m) && depth > 0
    ensures MoveValue(Flip(p), FlipMove(m), depth, usePst) == MoveValue(p, m, depth, usePst)
    decreases depth - 1, 1
  {
    hide Complete, After, Minimax, LoneKings, PseudoLegal, KingSafe, Flip, FlipMove;
    FlipAfter(p, m);
    LoneKingsStay(p, m);
    FlipMinimax(After(p, m), depth - 1, usePst);
    SameMinimax(After(Flip(p), FlipMove(m)), Flip(After(p, m)), depth - 1, usePst);
  }

  /** A position and its colour-flipped image have the same minimax value at every depth. */
  lemma {:induction false} FlipMinimax(p: Pos, depth: nat, usePst: bool)
    requires Complete(ORACLE) && LoneKings(p)
    ensures Minimax(Flip(p), depth, usePst) == Minimax(p, depth, usePst)
    decreases depth, 0
  {
    hide Complete, LegalMoves, InCheck, LoneKings, LoneKing, EvalSideToMove, Flip, FlipMove, BestOf, MoveValue, Legal;
    var ms, ns := LegalMoves(ORACLE, p), LegalMoves(ORACLE, Flip(p));
    FlipLegalMoves(p);
    MoverIsLone(p);
    FlipInCheck(p);
    FlipScore(p, usePst);
    assert ns != [] ==> ns[0] in ns;
    assert ms != [] ==> ms[0] in ms;
    if ms != [] && depth > 0 {
      forall m | m in ms ensures MoveValue(Flip(p), FlipMove(m), depth, usePst) == MoveValue(p, m, depth, usePst) {
        LegalMovesAreExact(ORACLE, p, m);
        FlipMoveValue(p, m, depth, usePst);
      }
      forall m ensures FlipMove(FlipMove(m)) == m { FlipTwice(p, m); }
      BestOfIsMaximum(p, ms, depth, usePst);
      BestOfIsMaximum(Flip(p), ns, depth, usePst);
    }
  }
}
