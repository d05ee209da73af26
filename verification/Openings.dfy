/** Opening rows resolved to start FENs. */
module Openings {
  import opened ChessTypes
  import opened Rules
  import opened Preservation
  import opened Movegen
  import opened Uci
  import opened Fen
  import opened FenBoard
  import opened Start
  import opened GameLoop
  import opened Engine88
  import opened Refinement88
  import opened UciShell
  import opened Shell88

  /** The FEN an opening row names: absent, empty and "startpos" mean the initial position. */
  function RowFen(fen: Option<string>): string {
    if fen.None? then START_FEN
    else if fen.value == "" || fen.value == "startpos" then START_FEN
    else fen.value
  }

  /** The row is accepted: its FEN parses and its moves are the texts of a legal line from there. */
  ghost predicate Accepts(fen: Option<string>, moves: seq<string>, line: seq<Move>) {
    ParsePos(RowFen(fen)).Some? && moves == TextsOf(line) && LegalLine(ParsePos(RowFen(fen)).value, line)
  }

  /** opening_start_fen; None stands for an OpeningError. */
  method OpeningStartFen(fen: Option<string>, moves: seq<string>) returns (r: Option<string>, ghost line: seq<Move>)
    ensures r.Some? <==> exists l :: Accepts(fen, moves, l)
    ensures r.Some? ==> Accepts(fen, moves, line) && r.value == FenText(Play(ParsePos(RowFen(fen)).value, line))
  {
    hide ParsePos, Legal, LegalLine, Play, MoveText, After, FenText;
    line := [];
    var parsed := ParseFen(RowFen(fen));
    if parsed.ValueError? {
      return None, [];
    }
    var board := parsed.value;
    ghost var p := board.Value();
    PlayNothing(p);
    assert moves[..0] == [];
    for i := 0 to |moves|
      invariant board.Valid() && board.Value() == Play(p, line)
      invariant moves[..i] == TextsOf(line) && LegalLine(p, line) && |line| == i
    {
      assert moves[..i + 1] == moves[..i] + [moves[i]];
      var legal := LegalByText(board);
      var m := ParseMove(moves[i]);
      if m.None? || moves[i] !in legal {
        forall l | Accepts(fen, moves, l) ensures false {
          NextMoveIsLegal(p, l, line, i);
          MoveRoundTrip(l[i]);
        }
        return None, [];
      }
      LegalIsPseudo(board.Value(), legal[moves[i]]);
      LineAppend(p, line, legal[moves[i]]);
      TextsAppend(line, legal[moves[i]]);
      var next := MakeMove(board, legal[moves[i]]);
      line := line + [legal[moves[i]]];
      board := next.value;
    }
    assert moves[..|moves|] == moves;
    assert Accepts(fen, moves, line);
    var text := BoardToFen(board);
    return Some(text), line;
  }

  lemma {:induction false} LegalLinePrefix(p: Pos, l: seq<Move>, i: nat)
    requires LegalLine(p, l) && i < |l|
    ensures Legal(Play(p, l[..i]), l[i])
    decreases |l|
  {
    hide Legal, After;
    if i > 0 {
      LegalLinePrefix(After(p, l[0]), l[1..], i - 1);
      assert l[..i][1..] == l[1..][..i - 1];
    }
  }

  /** An accepting line agrees with the moves resolved so far, so the next text is that of a legal move. */
  lemma NextMoveIsLegal(p: Pos, l: seq<Move>, line: seq<Move>, i: nat)
    requires LegalLine(p, l) && |line| == i < |l| && TextsOf(l)[..i] == TextsOf(line)
    ensures Legal(Play(p, line), l[i])
  {
    hide Legal, LegalLine, Play, MoveText;
    forall j | 0 <= j < i ensures line[j] == l[j] {
      assert TextsOf(line)[j] == TextsOf(l)[j];
      MoveTextInjective(line[j], l[j]);
    }
    assert l[..i] == line;
    LegalLinePrefix(p, l, i);
  }

  /** An accepted opening from a well-formed FEN gives a start FEN that parses to a well-formed position
      reachable by legal moves. */
  lemma OpeningReparses(fen: Option<string>, moves: seq<string>, line: seq<Move>)
    requires Accepts(fen, moves, line) && WellFormed(ParsePos(RowFen(fen)).value)
    ensures var last := Play(ParsePos(RowFen(fen)).value, line);
            ParsePos(FenText(last)) == Some(last) && WellFormed(last)
  {
    hide ParsePos, LegalLine, FenText, WellFormed;
    var p := ParsePos(RowFen(fen)).value;
    RunPreserves(p, line);
    ParsedIsValid(RowFen(fen));
    FullStays(p, line);
    WellFormedIsValid(Play(p, line));
    FenRoundTrip(Play(p, line));
  }

  /** No game from such an opening meets either failure of the position command: the benchmark opponents and
      the C++ engine are on the runner's position throughout. */
  lemma OpeningGamesArrive(fen: Option<string>, moves: seq<string>, line: seq<Move>, game: seq<Move>)
    requires Accepts(fen, moves, line) && WellFormed(ParsePos(RowFen(fen)).value)
    requires LegalLine(Play(ParsePos(RowFen(fen)).value, line), game)
    ensures var last := Play(ParsePos(RowFen(fen)).value, line);
            ReadsBack(FenText(last), last, game) && Reached88(FenText(last), last, game) == Play(last, game)
  {
    hide ParsePos, LegalLine, FenText, WellFormed, FenValid, Play, ReadsBack, Survives, KeepsUp, Reached88,
         NoSelfCapture,
         View, ReadsAlike;
    var last := Play(ParsePos(RowFen(fen)).value, line);
    OpeningReparses(fen, moves, line);
    ParsedIsValid(FenText(last));
    WrittenFenSurvives(last, game);
    PositionRoundTrip(FenText(last), last, game);
    NoSelfCaptures(last);
    WrittenFenKeepsUp(last);
    KeptUp(FenText(last), last, game);
    RunPreserves(last, game);
    ViewOfWellFormed(Play(last, game));
  }

  lemma NoSelfCaptures(p: Pos)
    requires WellFormed(p)
    ensures NoSelfCapture(p)
  {
    hide WellFormed, PseudoLegal, Legal;
    forall m | Legal(p, m) ensures !Holds(p.squares, m.to, p.side) {
      LegalIsPseudo(p, m);
      NotOntoOwnMan(p, m);
    }
  }

  lemma {:induction false} FullStays(p: Pos, line: seq<Move>)
    ensures Play(p, line).full >= p.full
    decreases |line|
  {
    hide SquaresAfter, RightsAfter, EpAfter;
    if line != [] {
      FullStays(After(p, line[0]), line[1..]);
    }
  }

  lemma WellFormedIsValid(p: Pos)
    requires WellFormed(p) && p.full >= 1
    ensures FenValid(p)
  {
    hide KingSafe, OneKing, RightsBacked, NoPawnOnLastRanks;
  }

  /** Rows without a FEN, with an empty one or with "startpos" start from the initial position, others from theirs. */
  lemma RowFenMeans(fen: Option<string>)
    ensures fen == None || fen == Some("") || fen == Some("startpos") ==> ParsePos(RowFen(fen)) == Some(START)
    ensures fen.Some? && fen.value != "" && fen.value != "startpos" ==> RowFen(fen) == fen.value
  {
    hide ParsePos;
    StartParses();
  }
}
