/** The benchmark opponents' evaluation and alpha-beta search compute minimax. */
module Search {
  import opened ChessTypes
  import opened Rules
  import opened MoveLists
  import opened Movegen

  const MATE_SCORE := 100_000

  // ----- evaluation --------------------------------------------------------

  function PieceValue(k: Kind): int {
    match k case Pawn => 100 case Knight => 320 case Bishop => 330 case Rook => 500 case Queen => 900 case King => 0
  }

  /** _FILE_BONUS and _RANK_BONUS. */
  function CenterBonus(x: int): int {
    if x == 0 || x == 7 then 0 else if x == 1 || x == 6 then 1 else if x == 2 || x == 5 then 2 else 3
  }

  function Advance(c: Color, s: Square): int {
    3 * if c.White? then RankOf(s) else 7 - RankOf(s)
  }

  /** A man's worth on s, from its owner's point of view. */
  function Worth(piece: Piece, s: Square, usePst: bool): int
    requires piece.Man?
  {
    PieceValue(piece.kind) +
    if !usePst then 0
    else 4 * (CenterBonus(FileOf(s)) + CenterBonus(RankOf(s))) + if piece.kind == Pawn then Advance(piece.color, s) else 0
  }

  /** What s adds to the score, from White's point of view. */
  function SquareScore(squares: Squares, s: Square, usePst: bool): int {
    match squares[s]
    case Empty => 0
    case Man(White, _) => Worth(squares[s], s, usePst)
    case Man(Black, _) => -Worth(squares[s], s, usePst)
  }

  function Score(squares: Squares, usePst: bool, n: nat): int
    requires n <= 64
  {
    if n == 0 then 0 else Score(squares, usePst, n - 1) + SquareScore(squares, n - 1, usePst)
  }

  function EvalSideToMove(p: Pos, usePst: bool): int {
    var score := Score(p.squares, usePst, 64);
    if p.side.White? then score else -score
  }

  method Evaluate(b: Board, usePst: bool) returns (score: int)
    requires b.Valid()
    ensures score == Score(b.Value().squares, usePst, 64)
  {
    score := 0;
    for s := 0 to 64
      invariant score == Score(b.Value().squares, usePst, s)
    {
      var piece := b.squares[s];
      if piece == Empty {
        continue;
      }
      var value := Worth(piece, s, usePst);
      score := score + if piece.color.White? then value else -value;
    }
  }

  lemma SquareScoreBound(squares: Squares, s: Square, usePst: bool)
    ensures -924 <= SquareScore(squares, s, usePst) <= 924
  {
  }

  lemma {:induction false} ScoreBound(squares: Squares, usePst: bool, n: nat)
    requires n <= 64
    ensures -924 * n <= Score(squares, usePst, n) <= 924 * n
  {
    if n > 0 {
      SquareScoreBound(squares, n - 1, usePst);
      ScoreBound(squares, usePst, n - 1);
    }
  }

  // ----- plain minimax -----------------------------------------------------

  /** The value of p to its side to move, searched to the given depth without any pruning. */
  ghost function Minimax(p: Pos, depth: nat, usePst: bool): int
    requires Complete(ORACLE)
    decreases depth, 0, 0
  {
    var ms := LegalMoves(ORACLE, p);
    if ms == [] then (if InCheck(p) then -MATE_SCORE else 0)
    else if depth == 0 then EvalSideToMove(p, usePst)
    else BestOf(p, ms, depth, usePst)
  }

  /** What m is worth to the side to move. */
  ghost function MoveValue(p: Pos, m: Move, depth: nat, usePst: bool): int
    requires Complete(ORACLE) && depth > 0
    decreases depth - 1, 1, 0
  {
    -Minimax(After(p, m), depth - 1, usePst)
  }

  /** The greatest value among ms; below every possible value when there is none. */
  ghost function BestOf(p: Pos, ms: seq<Move>, depth: nat, usePst: bool): int
    requires Complete(ORACLE) && depth > 0
    decreases depth - 1, 2, |ms|
  {
    if ms == [] then -MATE_SCORE - 1
    else var rest := BestOf(p, ms[..|ms| - 1], depth, usePst);
         var last := MoveValue(p, ms[|ms| - 1], depth, usePst);
         if last > rest then last else rest
  }

  /** Minimax values lie between being mated and mating. */
  lemma {:induction false} MinimaxBound(p: Pos, depth: nat, usePst: bool)
    requires Complete(ORACLE)
    ensures -MATE_SCORE <= Minimax(p, depth, usePst) <= MATE_SCORE
    decreases depth, 0, 0
  {
    hide Complete, LegalMoves;
    ScoreBound(p.squares, usePst, 64);
    if depth > 0 && LegalMoves(ORACLE, p) != [] {
      BestOfBound(p, LegalMoves(ORACLE, p), depth, usePst);
    }
  }

  lemma {:induction false} BestOfBound(p: Pos, ms: seq<Move>, depth: nat, usePst: bool)
    requires Complete(ORACLE) && depth > 0
    ensures BestOf(p, ms, depth, usePst) <= MATE_SCORE
    ensures ms != [] ==> BestOf(p, ms, depth, usePst) >= -MATE_SCORE
    decreases depth - 1, 2, |ms|
  {
    hide Complete, After;
    if ms != [] {
      BestOfBound(p, ms[..|ms| - 1], depth, usePst);
      MinimaxBound(After(p, ms[|ms| - 1]), depth - 1, usePst);
    }
  }

  /** BestOf is the maximum of the move values: attained, and never exceeded. */
  lemma {:induction false} BestOfIsMaximum(p: Pos, ms: seq<Move>, depth: nat, usePst: bool)
    requires Complete(ORACLE) && depth > 0 && ms != []
    ensures exists m :: m in ms && MoveValue(p, m, depth, usePst) == BestOf(p, ms, depth, usePst)
    ensures forall m :: m in ms ==> MoveValue(p, m, depth, usePst) <= BestOf(p, ms, depth, usePst)
    decreases |ms|
  {
    hide Complete, After, Minimax;
    var rest, last := ms[..|ms| - 1], ms[|ms| - 1];
    assert ms == rest + [last];
    MinimaxBound(After(p, last), depth - 1, usePst);
    if rest != [] {
      BestOfIsMaximum(p, rest, depth, usePst);
      var m :| m in rest && MoveValue(p, m, depth, usePst) == BestOf(p, rest, depth, usePst);
      assert m in ms;
    }
    assert last in ms;
  }

  // ----- alpha-beta --------------------------------------------------------

  /** The fail-soft promise: exact inside the window, a bound on the right side outside it. */
  predicate FailSoft(v: int, alpha: int, beta: int, r: int) {
    && (alpha < v < beta ==> r == v)
    && (v <= alpha ==> v <= r <= alpha)
    && (v >= beta ==> beta <= r <= v)
  }

  /** What `best` says about the moves already searched, given that no cutoff has occurred. */
  predicate Searched(v: int, alpha: int, best: int) {
    if best > alpha then best == v else v <= best
  }

  /** One more move, searched with the raised window, keeps the account of the searched moves. */
  lemma SearchStep(v: int, x: int, alpha: int, beta: int, a: int, best: int, value: int)
    requires Searched(v, alpha, best) && alpha <= a < beta && (a == alpha || a == best)
    requires FailSoft(-x, -beta, -a, -value)
    ensures var v' := if x > v then x else v;
            var best' := if value > best then value else best;
            if best' < beta then Searched(v', alpha, best') else v' >= best'
  {
  }

  /** What the clock shows at its successive readings, in milliseconds. */
  type Timer = nat -> real

  /** No reading from the first up to, but not including, the second shows a time after the deadline. */
  ghost predicate InTime(timer: Timer, deadline: real, from: nat, to: nat) {
    forall i :: from <= i < to ==> timer(i) <= deadline
  }

  /** Readings in time stay so when a further call's are: all but its last, or the last too. */
  lemma ReadingsJoin(timer: Timer, deadline: real, from: nat, to: nat, next: nat)
    requires from <= to < next && InTime(timer, deadline, from, to) && InTime(timer, deadline, to, next - 1)
    ensures InTime(timer, deadline, from, next - 1)
    ensures InTime(timer, deadline, from, next) <==> InTime(timer, deadline, to, next)
  {
  }

  lemma FirstReading(timer: Timer, deadline: real, start: nat)
    ensures InTime(timer, deadline, start, start)
    ensures InTime(timer, deadline, start, start + 1) <==> timer(start) <= deadline
  {
  }

  /** Alpha-beta. Every node reads the clock, and a reading after the deadline is a SearchTimeout: None. Readings
      start at `start`; `next` is the next one. */
  method Negamax(b: Board, depth: int, alpha: int, beta: int, usePst: bool, timer: Timer, deadline: real, start: nat)
    returns (r: Option<int>, next: nat)
    requires b.Valid() && alpha < beta
    ensures Complete(ORACLE)
    ensures start < next && InTime(timer, deadline, start, next - 1)
    ensures r.Some? <==> InTime(timer, deadline, start, next)
    ensures r.Some? ==> FailSoft(Minimax(b.Value(), if depth <= 0 then 0 else depth, usePst), alpha, beta, r.value)
    decreases if depth <= 0 then 0 else depth
  {
    hide Complete, After, LegalMoves, InCheck, Score, FailSoft, Searched, BestOf, InTime;
    OracleComplete();
    FirstReading(timer, deadline, start);
    next := start + 1;
    if timer(start) > deadline {
      return None, next;
    }
    ghost var p := b.Value();
    var moves := GenerateLegal(b);
    if moves == [] {
      var check := IsInCheck(b);
      ExactIsFailSoft(Minimax(p, if depth <= 0 then 0 else depth, usePst), alpha, beta);
      return Some(if check then -MATE_SCORE else 0), next;
    }
    if depth <= 0 {
      var score := Evaluate(b, usePst);
      ExactIsFailSoft(Minimax(p, 0, usePst), alpha, beta);
      return Some(if b.side.White? then score else -score), next;
    }
    var best := -MATE_SCORE - 1;
    var a := alpha;
    NothingSearched(p, moves[..0], depth, usePst, alpha);
    for i := 0 to |moves|
      invariant Searched(BestOf(p, moves[..i], depth, usePst), alpha, best)
      invariant alpha <= a < beta && (a == alpha || a == best) && (i > 0 ==> best <= a)
      invariant start < next && InTime(timer, deadline, start, next - 1) && InTime(timer, deadline, start, next)
    {
      LegalMovesAreExact(ORACLE, p, moves[i]);
      var child := MakeMove(b, moves[i]);
      ghost var called := next;
      var reply;
      reply, next := Negamax(child.value, depth - 1, -beta, -a, usePst, timer, deadline, next);
      ReadingsJoin(timer, deadline, start, called, next);
      if reply.None? {
        return None, next;
      }
      var value := -reply.value;
      SearchStep(BestOf(p, moves[..i], depth, usePst), MoveValue(p, moves[i], depth, usePst), alpha, beta, a, best,
                 value);
      BestOfStep(p, moves, i, depth, usePst);
      if value > best {
        best := value;
      }
      if best > a {
        a := best;
      }
      if a >= beta {
        BestOfPrefix(p, moves, i + 1, depth, usePst);
        CutoffIsFailSoft(BestOf(p, moves, depth, usePst), alpha, beta, best);
        return Some(best), next;
      }
    }
    assert moves[..|moves|] == moves;
    AllSearchedIsFailSoft(BestOf(p, moves, depth, usePst), alpha, beta, best);
    return Some(best), next;
  }

  lemma ExactIsFailSoft(v: int, alpha: int, beta: int)
    requires alpha < beta
    ensures FailSoft(v, alpha, beta, v)
  {
  }

  lemma CutoffIsFailSoft(v: int, alpha: int, beta: int, best: int)
    requires alpha < beta <= best <= v
    ensures FailSoft(v, alpha, beta, best)
  {
  }

  lemma AllSearchedIsFailSoft(v: int, alpha: int, beta: int, best: int)
    requires Searched(v, alpha, best) && alpha < beta && best < beta
    ensures FailSoft(v, alpha, beta, best)
  {
  }

  lemma NothingSearched(p: Pos, ms: seq<Move>, depth: nat, usePst: bool, alpha: int)
    requires Complete(ORACLE) && depth > 0 && ms == []
    ensures Searched(BestOf(p, ms, depth, usePst), alpha, -MATE_SCORE - 1)
  {
  }

  lemma BestOfStep(p: Pos, ms: seq<Move>, i: nat, depth: nat, usePst: bool)
    requires Complete(ORACLE) && depth > 0 && i < |ms|
    ensures BestOf(p, ms[..i + 1], depth, usePst) ==
            var rest := BestOf(p, ms[..i], depth, usePst);
            var x := MoveValue(p, ms[i], depth, usePst);
            if x > rest then x else rest
  {
    assert ms[..i + 1][..i] == ms[..i];
  }

  lemma {:induction false} BestOfPrefix(p: Pos, ms: seq<Move>, n: nat, depth: nat, usePst: bool)
    requires Complete(ORACLE) && depth > 0 && n <= |ms|
    ensures BestOf(p, ms[..n], depth, usePst) <= BestOf(p, ms, depth, usePst)
    decreases |ms|
  {
    hide Complete, After, Minimax;
    if n == |ms| {
      assert ms[..n] == ms;
    } else {
      assert ms[..|ms| - 1][..n] == ms[..n];
      BestOfPrefix(p, ms[..|ms| - 1], n, depth, usePst);
    }
  }

  // ----- root --------------------------------------------------------------

  /** The moves of ms worth exactly v, in order. */
  ghost function WorthExactly(p: Pos, ms: seq<Move>, depth: nat, usePst: bool, v: int): seq<Move>
    requires Complete(ORACLE) && depth > 0
  {
    if ms == [] then []
    else WorthExactly(p, ms[..|ms| - 1], depth, usePst, v) +
         if MoveValue(p, ms[|ms| - 1], depth, usePst) == v then [ms[|ms| - 1]] else []
  }

  /** The legal moves of maximal minimax value, in generation order. */
  ghost function TopMoves(p: Pos, depth: nat, usePst: bool): seq<Move>
    requires Complete(ORACLE) && depth > 0
  {
    var ms := LegalMoves(ORACLE, p);
    WorthExactly(p, ms, depth, usePst, BestOf(p, ms, depth, usePst))
  }

  lemma {:induction false} AboveAll(p: Pos, ms: seq<Move>, depth: nat, usePst: bool, v: int)
    requires Complete(ORACLE) && depth > 0 && v > BestOf(p, ms, depth, usePst)
    ensures WorthExactly(p, ms, depth, usePst, v) == []
  {
    hide Complete, After, Minimax;
    if ms != [] {
      AboveAll(p, ms[..|ms| - 1], depth, usePst, v);
    }
  }

  lemma {:induction false} WorthExactlyHolds(p: Pos, ms: seq<Move>, depth: nat, usePst: bool, v: int, m: Move)
    requires Complete(ORACLE) && depth > 0
    ensures m in WorthExactly(p, ms, depth, usePst, v) <==> m in ms && MoveValue(p, m, depth, usePst) == v
  {
    hide Complete, After, Minimax;
    if ms != [] {
      WorthExactlyHolds(p, ms[..|ms| - 1], depth, usePst, v, m);
      assert ms == ms[..|ms| - 1] + [ms[|ms| - 1]];
    }
  }

  /** TopMoves are exactly the legal moves no other legal move beats, and exist when a legal move does. */
  lemma TopMovesAreBest(p: Pos, depth: nat, usePst: bool, m: Move)
    requires Complete(ORACLE) && depth > 0
    ensures m in TopMoves(p, depth, usePst) <==>
            Legal(p, m) && forall n :: Legal(p, n) ==> MoveValue(p, n, depth, usePst) <= MoveValue(p, m, depth, usePst)
    ensures TopMoves(p, depth, usePst) == [] <==> !HasLegalMove(p)
  {
    hide Complete, LegalMoves, Legal, After, Minimax, BestOf, WorthExactly;
    var ms := LegalMoves(ORACLE, p);
    var v := BestOf(p, ms, depth, usePst);
    forall n ensures n in ms <==> Legal(p, n) {
      LegalMovesAreExact(ORACLE, p, n);
    }
    WorthExactlyHolds(p, ms, depth, usePst, v, m);
    EmptyMeansStuck(p);
    if ms != [] {
      BestOfIsMaximum(p, ms, depth, usePst);
      var n :| n in ms && MoveValue(p, n, depth, usePst) == v;
      WorthExactlyHolds(p, ms, depth, usePst, v, n);
    }
    if TopMoves(p, depth, usePst) != [] {
      WorthExactlyHolds(p, ms, depth, usePst, v, TopMoves(p, depth, usePst)[0]);
    }
  }

  /** The best moves at fixed depth; None when some reading of the clock is after the deadline. */
  method SearchRoot(b: Board, depth: int, usePst: bool, timer: Timer, deadline: real, start: nat)
    returns (r: Option<seq<Move>>, next: nat)
    requires b.Valid() && depth > 0
    ensures Complete(ORACLE)
    ensures start <= next && (HasLegalMove(b.Value()) ==> start < next)
    ensures r.Some? <==> InTime(timer, deadline, start, next)
    ensures r.Some? ==> r.value == TopMoves(b.Value(), depth, usePst)
  {
    hide Complete, After, LegalMoves, InCheck, Minimax, HasLegalMove, InTime;
    OracleComplete();
    FirstReading(timer, deadline, start);
    ghost var p := b.Value();
    var moves := GenerateLegal(b);
    EmptyMeansStuck(p);
    next := start;
    var bestScore: Option<int> := None;
    var bestMoves := [];
    for i := 0 to |moves|
      invariant start + i <= next && InTime(timer, deadline, start, next)
      invariant bestScore == if i == 0 then None else Some(BestOf(p, moves[..i], depth, usePst))
      invariant bestMoves == WorthExactly(p, moves[..i], depth, usePst, BestOf(p, moves[..i], depth, usePst))
    {
      assert moves[..i + 1][..i] == moves[..i];
      LegalMovesAreExact(ORACLE, p, moves[i]);
      var child := MakeMove(b, moves[i]);
      ghost var called := next;
      var reply;
      reply, next := Negamax(child.value, depth - 1, -MATE_SCORE - 1, MATE_SCORE + 1, usePst, timer, deadline, next);
      ReadingsJoin(timer, deadline, start, called, next);
      if reply.None? {
        return None, next;
      }
      MinimaxBound(After(p, moves[i]), depth - 1, usePst);
      var value := -reply.value;
      assert value == MoveValue(p, moves[i], depth, usePst);
      if bestScore.None? || value > bestScore.value {
        bestScore := Some(value);
        AboveAll(p, moves[..i], depth, usePst, value);
        bestMoves := [moves[i]];
      } else if value == bestScore.value {
        bestMoves := bestMoves + [moves[i]];
      }
    }
    assert moves[..|moves|] == moves;
    return Some(bestMoves), next;
  }

  function Max(x: real, y: real): real { if x < y then y else x }

  /** The deadline set at a given time: four fifths of the time for the move, which counts as at least 10 ms, later,
      and at least 10 ms later. */
  function DeadlineAt(now: real, movetimeMs: int): real {
    now + Max(0.8 * Max(movetimeMs as real, 10.0), 10.0)
  }

  /** Iterative deepening: the choice is optimal for the deepest completed iteration, which is the last exactly when
      no later reading of the clock is after the deadline set at the first; when even the first iteration ran out of
      time it is any legal move. */
  method ChooseDepthBased(b: Board, maxDepth: nat, usePst: bool, movetimeMs: int, timer: Timer)
    returns (choice: Option<Move>, completed: nat, next: nat)
    requires b.Valid()
    ensures Complete(ORACLE)
    ensures choice.None? <==> !HasLegalMove(b.Value())
    ensures choice.Some? ==> Legal(b.Value(), choice.value)
    ensures choice.Some? && completed > 0 ==> choice.value in TopMoves(b.Value(), completed, usePst)
    ensures completed <= maxDepth && next > 0
    ensures choice.Some? ==> (completed == maxDepth <==> InTime(timer, DeadlineAt(timer(0), movetimeMs), 1, next))
  {
    hide Complete, LegalMoves, Legal, TopMoves, DeadlineAt;
    OracleComplete();
    ghost var p := b.Value();
    completed, next := 0, 1;
    var legal := GenerateLegal(b);
    EmptyMeansStuck(p);
    if legal == [] {
      return None, 0, next;
    }
    assert legal[0] in legal;
    var m :| m in legal;
    LegalMovesAreExact(ORACLE, p, m);
    choice := Some(m);
    var deadline := DeadlineAt(timer(0), movetimeMs);
    for depth := 1 to maxDepth + 1
      invariant completed == depth - 1 && next > 0 && InTime(timer, deadline, 1, next)
      invariant choice.Some? && Legal(p, choice.value)
      invariant completed > 0 ==> choice.value in TopMoves(p, completed, usePst)
    {
      var candidates;
      candidates, next := SearchRoot(b, depth, usePst, timer, deadline, next);
      if candidates.None? {
        return;
      }
      TopMovesAreBest(p, depth, usePst, m);
      assert candidates.value[0] in candidates.value;
      var c :| c in candidates.value;
      TopMovesAreBest(p, depth, usePst, c);
      choice, completed := Some(c), depth;
    }
  }
}
