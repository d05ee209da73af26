/** The benchmark opponents as UCI engines: reading a position and answering it. */
module Opponents {
  import opened ChessTypes
  import opened Rules
  import opened MoveLists
  import opened Preservation
  import opened Movegen
  import opened Uci
  import opened Text
  import opened Fen
  import opened FenBoard
  import opened Start
  import opened GameLoop
  import opened Search
  import opened UciShell

  // ----- reading a position ------------------------------------------------

  /** The loop over the texts after "moves". */
  method ApplyMoves(start: Board, texts: seq<string>) returns (r: Result<Board>)
    requires start.Valid()
    ensures r.ValueError? <==> ApplyTexts(start.Value(), texts).None?
    ensures r.Ok? ==> r.value.Valid() && ApplyTexts(start.Value(), texts) == Some(r.value.Value())
  {
    hide After, ParseMove;
    var board := start;
    assert texts[0..] == texts;
    for i := 0 to |texts|
      invariant board.Valid()
      invariant ApplyTexts(start.Value(), texts) == ApplyTexts(board.Value(), texts[i..])
    {
      var m := ParseMove(texts[i]);
      if m.None? {
        return ValueError;
      }
      var next := MakeMove(board, m.value);
      if next.ValueError? {
        return ValueError;
      }
      assert texts[i..][1..] == texts[i + 1..];
      board := next.value;
    }
    return Ok(board);
  }

  /** _parse_position */
  method ReadPosition(tokens: seq<string>) returns (r: Result<Board>)
    ensures r.ValueError? <==> ParsePosition(tokens).None?
    ensures r.Ok? ==> r.value.Valid() && ParsePosition(tokens) == Some(r.value.Value())
  {
    hide ParsePos, ApplyTexts, Words;
    StartParses();
    r := ParseFen(START_FEN);
    var board := r.value;
    var idx := 0;
    if tokens != [] && tokens[0] == "startpos" {
      idx := 1;
    } else if tokens != [] && tokens[0] == "fen" {
      var end := |tokens|;
      for i := 0 to |tokens|
        invariant end == |tokens| && forall j :: 0 <= j < i ==> tokens[j] != "moves"
      {
        if tokens[i] == "moves" {
          end := i;
          break;
        }
      }
      FirstMoves(tokens, end);
      r := ParseFen(Words(tokens[1..end]));
      if r.ValueError? {
        return;
      }
      board := r.value;
      idx := end;
    }
    assert ParsePosition(tokens) == Continue(board.Value(), tokens[idx..]);
    if idx < |tokens| && tokens[idx] == "moves" {
      assert tokens[idx..][1..] == tokens[idx + 1..];
      r := ApplyMoves(board, tokens[idx + 1..]);
    } else {
      r := Ok(board);
    }
  }

  /** The loop stops at the first "moves". */
  lemma FirstMoves(tokens: seq<string>, end: nat)
    requires end <= |tokens| && forall j :: 0 <= j < end ==> tokens[j] != "moves"
    requires end < |tokens| ==> tokens[end] == "moves"
    ensures end == MovesIndex(tokens)
  {
    MovesIndexIs(tokens);
  }

  // ----- strategies --------------------------------------------------------

  /** DepthBased stands for BenchMaterial1 (1, false), BenchPST1 (1, true), BenchMiniMax2 (2, false) and
      BenchAlphaBeta3 (3, true). */
  datatype Strategy = BenchRandom | BenchGreedyCapture | DepthBased(maxDepth: nat, usePst: bool)

  method ChooseRandom(b: Board) returns (choice: Option<Move>)
    requires b.Valid()
    ensures choice.None? <==> !HasLegalMove(b.Value())
    ensures choice.Some? ==> Legal(b.Value(), choice.value)
  {
    hide LegalMoves, Legal, Complete;
    var legal := GenerateLegal(b);
    EmptyMeansStuck(b.Value());
    if legal == [] {
      return None;
    }
    assert legal[0] in legal;
    var m :| m in legal;
    LegalMovesAreExact(ORACLE, b.Value(), m);
    return Some(m);
  }

  /** The value of what m takes; None when it takes nothing. */
  function Victim(p: Pos, m: Move): Option<int> {
    if p.squares[m.to].Man? then Some(PieceValue(p.squares[m.to].kind))
    else if p.ep == Some(m.to) && IsPawn(p.squares[m.from]) then Some(PieceValue(Pawn))
    else None
  }

  /** m takes at least as much as n. */
  ghost predicate TakesAsMuch(p: Pos, m: Move, n: Move) {
    Victim(p, n).Some? ==> Victim(p, m).Some? && Victim(p, m).value >= Victim(p, n).value
  }

  method ChooseGreedyCapture(b: Board) returns (choice: Option<Move>)
    requires b.Valid()
    ensures choice.None? <==> !HasLegalMove(b.Value())
    ensures choice.Some? ==> Legal(b.Value(), choice.value)
    ensures choice.Some? ==> forall n :: Legal(b.Value(), n) ==> TakesAsMuch(b.Value(), choice.value, n)
  {
    hide LegalMoves, Legal, Complete;
    ghost var p := b.Value();
    var legal := GenerateLegal(b);
    EmptyMeansStuck(p);
    if legal == [] {
      return None;
    }
    forall m ensures m in legal <==> Legal(p, m) {
      LegalMovesAreExact(ORACLE, p, m);
    }
    var best := -1;
    var top: seq<Move> := [];
    for i := 0 to |legal|
      invariant best == -1 <==> top == []
      invariant best >= -1 && forall m :: m in top ==> m in legal[..i] && Victim(p, m) == Some(best)
      invariant forall m :: m in legal[..i] && Victim(p, m).Some? ==> best >= Victim(p, m).value
    {
      var m := legal[i];
      assert legal[..i + 1] == legal[..i] + [m];
      var victim := b.squares[m.to];
      var gain := -1;
      if victim != Empty {
        gain := PieceValue(victim.kind);
      } else if b.ep.Some? && m.to == b.ep.value && IsPawn(b.squares[m.from]) {
        gain := PieceValue(Pawn);
      }
      if gain > best {
        best, top := gain, [m];
      } else if gain == best && gain >= 0 {
        top := top + [m];
      }
    }
    assert legal[..|legal|] == legal;
    if top != [] {
      assert top[0] in top;
      var m :| m in top;
      return Some(m);
    }
    assert legal[0] in legal;
    var m :| m in legal;
    return Some(m);
  }

  /** Time ran out: some reading of the clock shows a time after the deadline set at the first. */
  ghost predicate RanOut(timer: Timer, movetimeMs: int) {
    exists i :: i > 0 && timer(i) > DeadlineAt(timer(0), movetimeMs)
  }

  /** m is a choice of strategy s in p: any legal move at random, a capture of greatest worth when there is one, or
      a best move of the deepest iteration completed, which is the last unless time ran out. */
  ghost predicate Plays(s: Strategy, p: Pos, m: Move, movetimeMs: int, timer: Timer) {
    Legal(p, m) &&
    match s
    case BenchRandom => true
    case BenchGreedyCapture => forall n :: Legal(p, n) ==> TakesAsMuch(p, m, n)
    case DepthBased(depth, usePst) =>
      exists completed: nat ::
        && completed <= depth && (completed < depth ==> RanOut(timer, movetimeMs))
        && (completed > 0 ==> Complete(ORACLE) && m in TopMoves(p, completed, usePst))
  }

  method Choose(s: Strategy, b: Board, movetimeMs: int, timer: Timer) returns (choice: Option<Move>)
    requires b.Valid()
    ensures choice.None? <==> !HasLegalMove(b.Value())
    ensures choice.Some? ==> Plays(s, b.Value(), choice.value, movetimeMs, timer)
  {
    hide Complete, Legal, TopMoves, HasLegalMove, TakesAsMuch, DeadlineAt;
    match s
    case BenchRandom => choice := ChooseRandom(b);
    case BenchGreedyCapture => choice := ChooseGreedyCapture(b);
    case DepthBased(depth, usePst) =>
      var completed, next;
      choice, completed, next := ChooseDepthBased(b, depth, usePst, movetimeMs, timer);
  }

  /** Greedy play takes a queen when some legal move does, a queen or rook when some legal move takes a rook, and
      so down to pawns, en passant included. */
  lemma GreedyTakesMost(p: Pos, m: Move, n: Move, movetimeMs: int, timer: Timer)
    requires Plays(BenchGreedyCapture, p, m, movetimeMs, timer) && Legal(p, n) && p.squares[n.to].Man?
    ensures p.squares[n.to].kind == Queen ==> p.squares[m.to].Man? && p.squares[m.to].kind == Queen
    ensures p.squares[n.to].kind == Rook ==> p.squares[m.to].Man? && p.squares[m.to].kind in {Queen, Rook}
    ensures p.squares[n.to].kind == Bishop ==> p.squares[m.to].Man? && p.squares[m.to].kind in {Queen, Rook, Bishop}
    ensures p.squares[n.to].kind == Knight ==>
              p.squares[m.to].Man? && p.squares[m.to].kind in {Queen, Rook, Bishop, Knight}
    ensures p.squares[n.to].kind == Pawn ==>
              if p.squares[m.to].Man? then p.squares[m.to].kind != King
              else p.ep == Some(m.to) && IsPawn(p.squares[m.from])
  {
    hide Legal;
    assert TakesAsMuch(p, m, n);
  }

  /** With the clock in time a search plays a move no legal move beats at its full depth. */
  lemma PlaysBestInTime(depth: nat, usePst: bool, p: Pos, m: Move, n: Move, movetimeMs: int, timer: Timer)
    requires Complete(ORACLE) && depth > 0 && Plays(DepthBased(depth, usePst), p, m, movetimeMs, timer)
    requires forall i :: i > 0 ==> timer(i) <= DeadlineAt(timer(0), movetimeMs)
    ensures Legal(p, n) ==> Minimax(After(p, m), depth - 1, usePst) <= Minimax(After(p, n), depth - 1, usePst)
  {
    hide Complete, Legal, TopMoves, Minimax, After, DeadlineAt;
    assert !RanOut(timer, movetimeMs);
    var completed: nat :| && completed <= depth && (completed < depth ==> RanOut(timer, movetimeMs))
                          && (completed > 0 ==> m in TopMoves(p, completed, usePst));
    TopMovesAreBest(p, depth, usePst, m);
  }

  /** One turn of uci_loop: a position command, then go. A malformed position keeps the previous board. */
  method AnswerTurn(s: Strategy, previous: Board, tokens: seq<string>, movetimeMs: int, timer: Timer)
    returns (board: Board, text: string)
    requires previous.Valid()
    ensures board.Valid()
    ensures board.Value() == match ParsePosition(tokens) case None => previous.Value() case Some(q) => q
    ensures if HasLegalMove(board.Value())
            then exists m :: Plays(s, board.Value(), m, movetimeMs, timer) && text == MoveText(m)
            else text == "0000"
  {
    hide ParsePosition, Legal, MoveText, Plays;
    board := previous;
    var r := ReadPosition(tokens);
    if r.Ok? {
      board := r.value;
    }
    var choice := Choose(s, board, movetimeMs, timer);
    text := if choice.Some? then MoveText(choice.value) else "0000";
  }

  /** Asked by the runner for a move, a benchmark opponent answers with its strategy's choice among the legal moves
      of the runner's own position, whatever the random choices and the clock, whenever the start FEN survives the
      command. */
  method RunnerAsks(s: Strategy, previous: Board, startFen: string, moves: seq<string>, movetimeMs: int, timer: Timer,
                    ghost p: Pos, ghost line: seq<Move>)
    returns (text: string)
    requires previous.Valid() && ParsePos(startFen) == Some(p) && LegalLine(p, line) && moves == TextsOf(line)
    requires Survives(startFen, line) && HasLegalMove(Play(p, line))
    ensures exists m :: Plays(s, Play(p, line), m, movetimeMs, timer) && text == MoveText(m)
    ensures exists m :: Legal(Play(p, line), m) && text == MoveText(m)
  {
    hide ParsePosition, Legal, MoveText, ParsePos, LegalLine, Play, Survives, Fields, PositionCommand, FenArgument,
         FirstLine, OneLine, HasLegalMove, TopMoves, TakesAsMuch, RanOut;
    FirstLineRoundTrip(startFen, p, line);
    var words := Fields(FirstLine(PositionCommand(FenArgument(startFen), moves), PY_BREAKS));
    var board;
    board, text := AnswerTurn(s, previous, if words == [] then [] else words[1..], movetimeMs, timer);
  }
}
