/** The position command across the process boundary, and the opponents' answers. */
module UciShell {
  import opened ChessTypes
  import opened Rules
  import opened Preservation
  import opened Movegen
  import opened Uci
  import opened Text
  import opened Fen
  import opened Start
  import opened GameLoop

  // ----- writing the command -----------------------------------------------

  function PositionBase(fen: Option<string>): string {
    if fen.None? then "position startpos" else "position fen " + fen.value
  }

  /** position_command; fen None means the initial position. */
  function PositionCommand(fen: Option<string>, moves: seq<string>): string {
    if moves == [] then PositionBase(fen) else PositionBase(fen) + " moves " + Words(moves)
  }

  // ----- reading it --------------------------------------------------------

  /** The index of the first "moves", or the length. */
  function MovesIndex(tokens: seq<string>): (n: nat)
    ensures n <= |tokens|
  {
    if tokens == [] || tokens[0] == "moves" then 0 else 1 + MovesIndex(tokens[1..])
  }

  lemma {:induction false} MovesIndexIs(tokens: seq<string>)
    ensures forall i :: 0 <= i < MovesIndex(tokens) ==> tokens[i] != "moves"
    ensures MovesIndex(tokens) < |tokens| ==> tokens[MovesIndex(tokens)] == "moves"
  {
    if tokens != [] && tokens[0] != "moves" {
      MovesIndexIs(tokens[1..]);
    }
  }

  /** Apply UCI moves without checking legality; None stands for a ValueError. */
  ghost function ApplyTexts(p: Pos, texts: seq<string>): Option<Pos>
    decreases |texts|
  {
    if texts == [] then Some(p)
    else match ParseMove(texts[0])
         case None => None
         case Some(m) => if p.squares[m.from] == Empty then None else ApplyTexts(After(p, m), texts[1..])
  }

  /** The optional "moves ..." tail. */
  ghost function Continue(p: Pos, rest: seq<string>): Option<Pos> {
    if rest != [] && rest[0] == "moves" then ApplyTexts(p, rest[1..]) else Some(p)
  }

  /** "fen <fields> [moves ...]": tokens[0] is "fen". */
  ghost function ParseFenForm(tokens: seq<string>, end: nat): Option<Pos>
    requires 0 < end <= |tokens|
  {
    match ParsePos(Words(tokens[1..end]))
    case None => None
    case Some(p) => Continue(p, tokens[end..])
  }

  /** _parse_position on the tokens after "position"; None stands for a ValueError. */
  ghost function ParsePosition(tokens: seq<string>): Option<Pos> {
    if tokens != [] && tokens[0] == "startpos" then Continue(START, tokens[1..])
    else if tokens != [] && tokens[0] == "fen" && MovesIndex(tokens) > 0 then ParseFenForm(tokens, MovesIndex(tokens))
    else Continue(START, tokens)
  }

  // ----- tokens of the command ---------------------------------------------

  lemma OneWord(t: string)
    requires IsToken(t)
    ensures Fields(t) == [t]
  {
    FirstToken(t, "");
    assert t + "" == t;
  }

  lemma TextsAreTokens(line: seq<Move>)
    ensures AllTokens(TextsOf(line))
  {
    forall i | 0 <= i < |line| ensures IsToken(TextsOf(line)[i]) {
      MoveTextIsToken(line[i]);
    }
  }

  function HeadTokens(fen: Option<string>): seq<string> {
    if fen.None? then ["startpos"] else ["fen"] + Fields(fen.value)
  }

  lemma BaseTokens(fen: Option<string>)
    ensures Fields(PositionBase(fen)) == ["position"] + HeadTokens(fen)
  {
    hide Fields;
    OneWord("position");
    if fen.None? {
      OneWord("startpos");
      FieldsJoin("position", "startpos");
      assert "position" + " " + "startpos" == PositionBase(fen);
    } else {
      var f := fen.value;
      OneWord("fen");
      FieldsJoin("fen", f);
      FieldsJoin("position", "fen" + " " + f);
      assert "position" + " " + ("fen" + " " + f) == PositionBase(fen) by {
        assert "position" + " " + "fen" + " " == "position fen ";
      }
    }
  }

  lemma TailTokens(base: string, line: seq<Move>)
    requires line != []
    ensures Fields(base + " moves " + Words(TextsOf(line))) == Fields(base) + (["moves"] + TextsOf(line))
  {
    hide Fields, Words, TextsOf;
    var words := Words(TextsOf(line));
    TextsAreTokens(line);
    FieldsOfWords(TextsOf(line));
    OneWord("moves");
    FieldsJoin("moves", words);
    FieldsJoin(base, "moves" + " " + words);
    assert base + " " + ("moves" + " " + words) == base + " moves " + words by {
      assert " " + "moves" + " " == " moves ";
    }
  }

  /** The tokens an engine reads from the command line. */
  lemma CommandTokens(fen: Option<string>, line: seq<Move>)
    ensures Fields(PositionCommand(fen, TextsOf(line))) ==
            ["position"] + HeadTokens(fen) + if line == [] then [] else ["moves"] + TextsOf(line)
  {
    hide Fields, Words, PositionBase, HeadTokens;
    BaseTokens(fen);
    if line != [] {
      TailTokens(PositionBase(fen), line);
    }
  }

  // ----- the round trip ----------------------------------------------------

  /** Applying the texts of a legal line plays the line. */
  lemma {:induction false} ApplyLine(p: Pos, line: seq<Move>)
    requires LegalLine(p, line)
    ensures ApplyTexts(p, TextsOf(line)) == Some(Play(p, line))
    decreases |line|
  {
    hide After, MoveText, ParseMove;
    if line != [] {
      MoveRoundTrip(line[0]);
      LegalIsPseudo(p, line[0]);
      ApplyLine(After(p, line[0]), line[1..]);
      assert TextsOf(line)[1..] == TextsOf(line[1..]);
    }
  }

  /** "moves" is not a UCI move: m is no file. */
  lemma MovesIsNoMove(p: Pos, texts: seq<string>)
    requires texts != [] && texts[0] == "moves"
    ensures ApplyTexts(p, texts).None?
  {
    NotBlank("moves");
    assert "moves"[0..2][0] == 'm';
  }

  /** Texts that contain "moves" cannot all be applied. */
  lemma {:induction false} MovesStops(p: Pos, texts: seq<string>)
    requires "moves" in texts
    ensures ApplyTexts(p, texts).None?
    decreases |texts|
  {
    hide After, ParseMove;
    if texts[0] == "moves" {
      MovesIsNoMove(p, texts);
    } else if ParseMove(texts[0]).Some? && p.squares[ParseMove(texts[0]).value.from] != Empty {
      MovesStops(After(p, ParseMove(texts[0]).value), texts[1..]);
    }
  }

  /** Counts every move made: the fullmove number and the side to move. */
  function MoveClock(p: Pos): nat { 2 * p.full + if p.side.Black? then 1 else 0 }

  /** Applying any move at all changes the position. */
  lemma {:induction false} ApplyAdvances(p: Pos, texts: seq<string>)
    requires ApplyTexts(p, texts).Some?
    ensures MoveClock(ApplyTexts(p, texts).value) == MoveClock(p) + |texts|
    decreases |texts|
  {
    hide SquaresAfter, RightsAfter, EpAfter, ParseMove;
    if texts != [] {
      ApplyAdvances(After(p, ParseMove(texts[0]).value), texts[1..]);
    }
  }

  /** parse_fen looks at the first six fields only. */
  lemma SixFields(fen: string, n: nat)
    requires 6 <= n <= |Fields(fen)|
    ensures ParsePos(Words(Fields(fen)[..n])) == ParsePos(fen)
  {
    hide FieldsPos, Words;
    FieldsAreTokens(fen);
    var some := Fields(fen)[..n];
    assert AllTokens(some);
    FieldsOfWords(some);
    hide Fields;
  }

  lemma FieldsAreNotMoves(a: string, b: string, c: string, d: string, e: string, f: string)
    requires FieldsPos(a, b, c, d, e, f).Some?
    ensures a != "moves" && b != "moves" && c != "moves" && d != "moves" && e != "moves" && f != "moves"
  {
    hide ParsePlacement, ParseSide, ParseCastling, ParseEp, ParseInt, OneKing;
    MovesIsNoField();
  }

  /** A FEN that parses has no "moves" among the fields that matter. */
  lemma MovesIsLate(fen: string)
    requires ParsePos(fen).Some?
    ensures |Fields(fen)| >= 4
    ensures MovesIndex(Fields(fen)) == |Fields(fen)| || MovesIndex(Fields(fen)) >= 6
  {
    hide FieldsPos, Fields, MovesIndex;
    var fields := Fields(fen);
    MovesIndexIs(fields);
    FieldsAreNotMoves(fields[0], fields[1], fields[2], fields[3],
                      if |fields| > 4 then fields[4] else "0", if |fields| > 5 then fields[5] else "1");
  }

  lemma MovesIsNoField()
    ensures ParsePlacement("moves").None? && ParseSide("moves").None? && ParseCastling("moves").None?
    ensures ParseEp("moves").None? && ParseInt("moves").None?
  {
    assert ParseCastling("moves").None? by {
      var t := "moves";
      assert t[0] == 'm';
      CastlingLetter('m');
    }
    assert ParsePlacement("moves").None? by {
      FirstPart("moves", "");
    }
  }

  /** The runner names the initial position "startpos". */
  function FenArgument(startFen: string): Option<string> {
    if startFen == START_FEN then None else Some(startFen)
  }

  function Tail(line: seq<Move>): seq<string> {
    if line == [] then [] else ["moves"] + TextsOf(line)
  }

  // ----- lines of the command ----------------------------------------------

  /** The line breaks of a Python text stream. */
  const PY_BREAKS: set<char> := {'\n', '\r'}

  lemma PyBreaksAreBlank(c: char)
    requires c in PY_BREAKS
    ensures IsBlank(c)
  {
  }

  /** Breaks are blanks other than the space, so words are joined on one line. */
  lemma WordsOnOneLine(tokens: seq<string>, breaks: set<char>)
    requires AllTokens(tokens) && ' ' !in breaks && forall c :: c in breaks ==> IsBlank(c)
    ensures OneLine(Words(tokens), breaks)
  {
    WordsBlanks(tokens);
    hide Words;
  }

  /** The move list is on the first line only when the start FEN does not break it. */
  function HeardTail(startFen: string, line: seq<Move>, breaks: set<char>): seq<string> {
    if OneLine(startFen, breaks) then Tail(line) else []
  }

  function TailText(line: seq<Move>): string {
    if line == [] then "" else " moves " + Words(TextsOf(line))
  }

  lemma TailOnOneLine(line: seq<Move>, breaks: set<char>)
    requires ' ' !in breaks && forall c :: c in breaks ==> IsBlank(c)
    ensures OneLine(TailText(line), breaks)
  {
    hide Words, TextsOf;
    if line != [] {
      TextsAreTokens(line);
      WordsOnOneLine(TextsOf(line), breaks);
      assert OneLine(" moves ", breaks) by { assert " moves " == " " + "moves" + " "; Blankless("moves", breaks); }
    }
  }

  lemma Blankless(t: string, breaks: set<char>)
    requires IsToken(t) && forall c :: c in breaks ==> IsBlank(c)
    ensures OneLine(t, breaks)
  {
  }

  lemma CommandText(fen: Option<string>, line: seq<Move>)
    ensures PositionCommand(fen, TextsOf(line)) == PositionBase(fen) + TailText(line)
  {
    assert TextsOf(line) == [] <==> line == [];
    assert PositionBase(fen) + "" == PositionBase(fen);
  }

  /** The words of the command's first line. */
  lemma FirstLineWords(startFen: string, line: seq<Move>, breaks: set<char>)
    requires ' ' !in breaks && forall c :: c in breaks ==> IsBlank(c)
    requires startFen != START_FEN
    ensures Fields(FirstLine(PositionCommand(FenArgument(startFen), TextsOf(line)), breaks)) ==
            ["position"] + (["fen"] + Fields(FirstLine(startFen, breaks))) + HeardTail(startFen, line, breaks)
  {
    hide Fields, Words, TextsOf, PositionCommand, TailText;
    CommandText(Some(startFen), line);
    TailOnOneLine(line, breaks);
    assert OneLine("position fen ", breaks) by { PositionFenOnOneLine(breaks); }
    var rest := startFen + TailText(line);
    assert PositionCommand(Some(startFen), TextsOf(line)) == "position fen " + rest;
    LineContinues("position fen ", rest, breaks);
    if OneLine(startFen, breaks) {
      LineContinues(startFen, TailText(line), breaks);
      WholeLine(TailText(line), breaks);
      WholeLine(startFen, breaks);
      CommandTokens(Some(startFen), line);
    } else {
      LineEnds(startFen, TailText(line), breaks);
      BaseTokens(Some(FirstLine(startFen, breaks)));
    }
  }

  lemma PositionFenOnOneLine(breaks: set<char>)
    requires ' ' !in breaks && forall c :: c in breaks ==> IsBlank(c)
    ensures OneLine("position fen ", breaks)
  {
    var s := "position fen ";
    forall i | 0 <= i < |s| ensures s[i] !in breaks {
      assert s[i] == ' ' || !IsBlank(s[i]);
    }
  }

  lemma Regrouped<T>(x: T, a: seq<T>, b: seq<T>)
    ensures ([x] + a + b)[1..] == a + b
  {
  }

  /** The start FEN reaches the engine intact: it is one line, and it has no field "moves", or that is its
      last field and no moves follow. */
  predicate Survives(startFen: string, line: seq<Move>) {
    var fields := Fields(startFen);
    && OneLine(startFen, PY_BREAKS)
    && (MovesIndex(fields) == |fields| || (line == [] && MovesIndex(fields) == |fields| - 1))
  }

  lemma ContinueLine(p: Pos, line: seq<Move>)
    requires LegalLine(p, line)
    ensures Continue(p, Tail(line)) == Some(Play(p, line))
  {
    hide ApplyTexts, LegalLine;
    if line != [] {
      ApplyLine(p, line);
      assert Tail(line)[1..] == TextsOf(line);
    } else {
      assert Play(p, line) == p;
    }
  }

  lemma SameFields(a: string, b: string)
    requires Fields(a) == Fields(b)
    ensures ParsePos(a) == ParsePos(b)
  {
    hide FieldsPos, Fields;
  }

  lemma {:induction false} MovesIndexIn(a: seq<string>, b: seq<string>)
    ensures MovesIndex(a + b) == if MovesIndex(a) < |a| then MovesIndex(a) else |a| + MovesIndex(b)
  {
    if a == [] {
      assert a + b == b;
    } else if a[0] != "moves" {
      MovesIndexIn(a[1..], b);
      assert (a + b)[1..] == a[1..] + b;
    }
  }

  /** Without a stray "moves" field the engine rebuilds the runner's position. */
  lemma PlainFenArrives(fen: string, p: Pos, line: seq<Move>)
    requires ParsePos(fen) == Some(p) && LegalLine(p, line) && MovesIndex(Fields(fen)) == |Fields(fen)|
    ensures ParsePosition(["fen"] + Fields(fen) + Tail(line)) == Some(Play(p, line))
  {
    hide ApplyTexts, LegalLine, ParsePos, Play, Words, Continue;
    var fields := Fields(fen);
    var tokens := ["fen"] + fields + Tail(line);
    hide Fields;
    FenFirst(fields + Tail(line));
    MovesIndexIn(fields, Tail(line));
    assert tokens == ["fen"] + (fields + Tail(line));
    assert MovesIndex(Tail(line)) == 0;
    assert tokens[1..1 + |fields|] == fields && tokens[1 + |fields|..] == Tail(line);
    FieldsAreTokens(fen);
    FieldsOfWords(fields);
    SameFields(Words(fields), fen);
    ContinueLine(p, line);
  }

  /** Where the fen form ends when a field is "moves". */
  lemma StrayTokens(fields: seq<string>, tail: seq<string>)
    requires MovesIndex(fields) < |fields|
    ensures var n := MovesIndex(fields);
            var tokens := ["fen"] + fields + tail;
            && MovesIndex(tokens) == 1 + n
            && tokens[1..1 + n] == fields[..n]
            && tokens[1 + n..] == ["moves"] + (fields[n + 1..] + tail)
  {
    hide MovesIndex;
    MovesIndexIs(fields);
    MovesIndexIn(fields, tail);
    FenFirst(fields + tail);
    Slices("fen", fields, tail, MovesIndex(fields));
  }

  lemma FenFirst(rest: seq<string>)
    ensures MovesIndex(["fen"] + rest) == 1 + MovesIndex(rest)
  {
    assert (["fen"] + rest)[1..] == rest;
  }

  lemma Slices<T>(x: T, a: seq<T>, b: seq<T>, n: nat)
    requires n < |a|
    ensures [x] + a + b == [x] + (a + b)
    ensures ([x] + a + b)[1..1 + n] == a[..n]
    ensures ([x] + a + b)[1 + n..] == [a[n]] + (a[n + 1..] + b)
  {
  }

  /** A stray "moves" field swallows what follows it. */
  lemma StrayMoves(fen: string, p: Pos, line: seq<Move>)
    requires ParsePos(fen) == Some(p) && MovesIndex(Fields(fen)) < |Fields(fen)|
    ensures ParsePosition(["fen"] + Fields(fen) + Tail(line)) ==
            ApplyTexts(p, Fields(fen)[MovesIndex(Fields(fen)) + 1..] + Tail(line))
  {
    hide ApplyTexts, ParsePos, Words, Fields, Tail, MovesIndex;
    var fields := Fields(fen);
    MovesIsLate(fen);
    SixFields(fen, MovesIndex(fields));
    StrayTokens(fields, Tail(line));
  }

  // ----- written FENs ------------------------------------------------------

  /** The text written for a FEN-valid position is one line of six fields, none of them "moves". */
  lemma WrittenFen(p: Pos, breaks: set<char>)
    requires FenValid(p) && ' ' !in breaks && forall c :: c in breaks ==> IsBlank(c)
    ensures OneLine(FenText(p), breaks)
    ensures |Fields(FenText(p))| == 6 && MovesIndex(Fields(FenText(p))) == 6
  {
    hide Fields, Words, PlacementFrom, CastlingText, EpText, OneLine, FenValid, MovesIndex;
    var tokens := [PlacementFrom(p.squares, 7), SideText(p.side), CastlingText(p.rights), EpText(p.ep), Decimal(p.half),
                   Decimal(p.full)];
    FenTokens(p);
    FieldsOfWords(tokens);
    WordsOnOneLine(tokens, breaks);
    FenRoundTrip(p);
    MovesIsLate(FenText(p));
  }

  lemma PyBreaks()
    ensures ' ' !in PY_BREAKS && forall c :: c in PY_BREAKS ==> IsBlank(c)
  {
    forall c | c in PY_BREAKS ensures IsBlank(c) {
      PyBreaksAreBlank(c);
    }
  }

  lemma StartIsFenValid()
    ensures FenValid(START)
  {
    hide FenValid, ParsePos;
    StartParses();
    ParsedIsValid(START_FEN);
  }

  /** So it survives the command, whatever moves follow. */
  lemma WrittenFenSurvives(p: Pos, line: seq<Move>)
    requires FenValid(p)
    ensures Survives(FenText(p), line)
  {
    hide FenValid, FenText, Fields, OneLine, MovesIndex;
    PyBreaks();
    WrittenFen(p, PY_BREAKS);
  }

  // ----- the round trip ----------------------------------------------------

  /** The words after "position" on the first line of the runner's command. */
  function RunnerTokens(startFen: string, line: seq<Move>): seq<string> {
    var words := Fields(FirstLine(PositionCommand(FenArgument(startFen), TextsOf(line)), PY_BREAKS));
    if words == [] then [] else words[1..]
  }

  /** The first line of the command gives the runner's position. */
  ghost predicate FirstLineGives(startFen: string, p: Pos, line: seq<Move>) {
    ParsePosition(RunnerTokens(startFen, line)) == Some(Play(p, line))
  }

  lemma RunnerTokensOfStart(line: seq<Move>)
    ensures RunnerTokens(START_FEN, line) == ["startpos"] + Tail(line)
  {
    hide Fields, Words, TextsOf, PositionCommand, TailText, FirstLine;
    PyBreaks();
    CommandText(None, line);
    TailOnOneLine(line, PY_BREAKS);
    StartposOnOneLine();
    var text := PositionCommand(None, TextsOf(line));
    OneLineJoin(PositionBase(None), TailText(line), PY_BREAKS);
    WholeLine(text, PY_BREAKS);
    CommandTokens(None, line);
    Regrouped("position", ["startpos"], Tail(line));
  }

  lemma StartposOnOneLine()
    ensures OneLine(PositionBase(None), PY_BREAKS)
  {
    var s := "position startpos";
    forall i | 0 <= i < |s| ensures s[i] !in PY_BREAKS {
    }
  }

  lemma OneLineJoin(a: string, b: string, breaks: set<char>)
    requires OneLine(a, breaks) && OneLine(b, breaks)
    ensures OneLine(a + b, breaks)
  {
  }

  lemma RunnerTokensAre(startFen: string, line: seq<Move>)
    requires startFen != START_FEN
    ensures RunnerTokens(startFen, line) ==
            ["fen"] + Fields(FirstLine(startFen, PY_BREAKS)) + HeardTail(startFen, line, PY_BREAKS)
  {
    hide Fields, PositionCommand, TextsOf, FenArgument, FirstLine, HeardTail;
    PyBreaks();
    FirstLineWords(startFen, line, PY_BREAKS);
    Regrouped("position", ["fen"] + Fields(FirstLine(startFen, PY_BREAKS)), HeardTail(startFen, line, PY_BREAKS));
  }

  /** The initial position is announced as "startpos". */
  lemma StartArrives(line: seq<Move>)
    requires LegalLine(START, line)
    ensures FirstLineGives(START_FEN, START, line) && Survives(START_FEN, line)
  {
    hide ApplyTexts, LegalLine, ParsePos, Play, Continue, ParseFenForm, Survives, RunnerTokens, FenValid;
    ContinueLine(START, line);
    assert (["startpos"] + Tail(line))[1..] == Tail(line);
    RunnerTokensOfStart(line);
    StartText();
    StartIsFenValid();
    WrittenFenSurvives(START, line);
  }

  /** From a start FEN of one line the first line gives the runner's position if and only if that FEN survives. */
  lemma FirstLineRoundTrip(startFen: string, p: Pos, line: seq<Move>)
    requires ParsePos(startFen) == Some(p) && LegalLine(p, line)
    ensures Survives(startFen, line) ==> FirstLineGives(startFen, p, line)
    ensures OneLine(startFen, PY_BREAKS) && FirstLineGives(startFen, p, line) ==> Survives(startFen, line)
  {
    hide ApplyTexts, LegalLine, ParsePos, Play, Continue, ParsePosition, Fields, PositionCommand, FirstLine,
         RunnerTokens,
         OneLine;
    if startFen == START_FEN {
      StartParses();
      StartArrives(line);
    } else if OneLine(startFen, PY_BREAKS) {
      var fields := Fields(startFen);
      var n := MovesIndex(fields);
      RunnerTokensAre(startFen, line);
      WholeLine(startFen, PY_BREAKS);
      if n == |fields| {
        PlainFenArrives(startFen, p, line);
      } else {
        StrayMoves(startFen, p, line);
        StrayIsLost(p, fields[n + 1..], line);
      }
    }
  }

  lemma StrayIsLost(p: Pos, rest: seq<string>, line: seq<Move>)
    ensures ApplyTexts(p, rest + Tail(line)) == Some(Play(p, line)) <==> rest == [] && line == []
  {
    if line != [] {
      assert (rest + Tail(line))[|rest|] == "moves";
      MovesStops(p, rest + Tail(line));
    } else {
      assert rest + Tail(line) == rest;
      if ApplyTexts(p, rest).Some? {
        ApplyAdvances(p, rest);
      }
    }
  }

  lemma LineAdvances(p: Pos, line: seq<Move>)
    requires LegalLine(p, line)
    ensures Play(p, line) == p <==> line == []
  {
    hide ApplyTexts;
    ApplyLine(p, line);
    ApplyAdvances(p, TextsOf(line));
  }

  /** What a broken start FEN conveys when no move follows. */
  lemma BrokenFen(startFen: string, p: Pos)
    requires ParsePos(startFen) == Some(p)
    ensures var head := FirstLine(startFen, PY_BREAKS);
            ParsePosition(["fen"] + Fields(head)) == Some(p) <==>
            ParsePos(head) == Some(p) && MovesIndex(Fields(head)) >= |Fields(head)| - 1
  {
    hide ApplyTexts, ParsePos, Play, Continue, ParsePosition, Fields, FirstLine, OneLine;
    var head := FirstLine(startFen, PY_BREAKS);
    var f, n := Fields(head), MovesIndex(Fields(head));
    PyBreaks();
    FirstLineFields(startFen, PY_BREAKS);
    MovesIsLate(startFen);
    PrefixMoves(f, Fields(startFen));
    assert ["fen"] + f + Tail([]) == ["fen"] + f;
    if n < |f| {
      SixFields(head, 6);
      SixFields(startFen, 6);
      assert f[..6] == Fields(startFen)[..6];
      StrayMoves(head, p, []);
      StrayIsLost(p, f[n + 1..], []);
      assert Play(p, []) == p by { PlayNothing(p); }
    } else {
      PlainFenReads(head);
    }
  }

  lemma {:induction false} PrefixMoves(a: seq<string>, b: seq<string>)
    requires a <= b
    ensures MovesIndex(a) == |a| || MovesIndex(a) == MovesIndex(b)
  {
    if a != [] && a[0] != "moves" {
      PrefixMoves(a[1..], b[1..]);
    }
  }

  lemma PlainFenReads(fen: string)
    requires MovesIndex(Fields(fen)) == |Fields(fen)|
    ensures ParsePosition(["fen"] + Fields(fen)) == ParsePos(fen)
  {
    hide ParsePos, Words;
    var fields := Fields(fen);
    FieldsAreTokens(fen);
    hide Fields;
    FenFirst(fields);
    var tokens := ["fen"] + fields;
    assert tokens[1..|tokens|] == fields && tokens[|tokens|..] == [];
    assert MovesIndex(tokens) == |tokens|;
    FieldsOfWords(fields);
    SameFields(Words(fields), fen);
  }

  /** The same for a whole game, given the runner's lines one by one. */
  lemma FirstLineGame(startFen: string, p: Pos)
    requires ParsePos(startFen) == Some(p)
    ensures (forall line :: LegalLine(p, line) ==> FirstLineGives(startFen, p, line)) <==>
            if HasLegalMove(p) then OneLine(startFen, PY_BREAKS) && MovesIndex(Fields(startFen)) == |Fields(startFen)|
            else
              var head := FirstLine(startFen, PY_BREAKS);
              ParsePos(head) == Some(p) && MovesIndex(Fields(head)) >= |Fields(head)| - 1
  {
    hide LegalLine, ParsePos, Play, FirstLineGives, Fields, FirstLine, OneLine, MovesIndex, Legal, After;
    PlayNothing(p);
    if HasLegalMove(p) {
      var m :| Legal(p, m);
      OneMove(p, m);
      if OneLine(startFen, PY_BREAKS) {
        FirstLineRoundTrip(startFen, p, [m]);
        forall line | LegalLine(p, line)
          ensures MovesIndex(Fields(startFen)) == |Fields(startFen)| ==> FirstLineGives(startFen, p, line)
        {
          FirstLineRoundTrip(startFen, p, line);
        }
      } else {
        BrokenFenIsDeaf(startFen, p, [m]);
      }
    } else {
      forall line | LegalLine(p, line) ensures line == [] {
        StuckLine(p, line);
      }
      NothingToPlay(startFen, p);
    }
  }

  lemma OneMove(p: Pos, m: Move)
    requires Legal(p, m)
    ensures LegalLine(p, [m]) && Play(p, [m]) == After(p, m)
  {
    assert [m][1..] == [];
    PlayNothing(After(p, m));
    hide Legal, After;
  }

  lemma StuckLine(p: Pos, line: seq<Move>)
    requires LegalLine(p, line) && !HasLegalMove(p)
    ensures line == []
  {
    hide Legal, After;
  }

  /** A break in the start FEN keeps the moves from the opponent. */
  lemma BrokenFenIsDeaf(startFen: string, p: Pos, line: seq<Move>)
    requires ParsePos(startFen) == Some(p) && !OneLine(startFen, PY_BREAKS) && LegalLine(p, line) && line != []
    ensures !(FirstLineGives(startFen, p, []) && FirstLineGives(startFen, p, line))
  {
    hide ParsePosition, LegalLine, ParsePos, Play, Fields, FirstLine, OneLine, RunnerTokens;
    StartIsOneLine();
    RunnerTokensAre(startFen, []);
    RunnerTokensAre(startFen, line);
    PlayNothing(p);
    LineAdvances(p, line);
  }

  lemma StartIsOneLine()
    ensures OneLine(START_FEN, PY_BREAKS)
  {
    hide OneLine, Fields, MovesIndex;
    PlayNothing(START);
    StartArrives([]);
  }

  lemma NothingToPlay(startFen: string, p: Pos)
    requires ParsePos(startFen) == Some(p)
    ensures var head := FirstLine(startFen, PY_BREAKS);
            FirstLineGives(startFen, p, []) <==>
            ParsePos(head) == Some(p) && MovesIndex(Fields(head)) >= |Fields(head)| - 1
  {
    hide ParsePosition, LegalLine, ParsePos, Play, Fields, FirstLine, OneLine, MovesIndex, RunnerTokens;
    PlayNothing(p);
    if startFen == START_FEN {
      StartIsOneLine();
      WholeLine(startFen, PY_BREAKS);
      FirstLineRoundTrip(startFen, p, []);
      StartParses();
      StartArrives([]);
    } else {
      RunnerTokensAre(startFen, []);
      BrokenFen(startFen, p);
      var fields := ["fen"] + Fields(FirstLine(startFen, PY_BREAKS));
      assert fields + HeardTail(startFen, [], PY_BREAKS) == fields;
    }
  }

  // ----- all the lines of the command --------------------------------------

  /** What one line does to an opponent's board; None stands for a process that has quit. */
  ghost function HeardLine(board: Option<Pos>, words: seq<string>): Option<Pos> {
    if board.None? || words == [] then board
    else if words[0] == "ucinewgame" then Some(START)
    else if words[0] == "quit" then None
    else if words[0] == "position" then
      match ParsePosition(words[1..]) case None => board case Some(q) => Some(q)
    else board
  }

  ghost function HeardLines(board: Option<Pos>, lines: seq<string>): Option<Pos>
    decreases |lines|
  {
    if lines == [] then board else HeardLines(HeardLine(board, Fields(lines[0])), lines[1..])
  }

  function CommandLines(startFen: string, line: seq<Move>): seq<string> {
    LinesOf(PositionCommand(FenArgument(startFen), TextsOf(line)), PY_BREAKS)
  }

  /** Whatever board an opponent holds, the runner's command leaves it on the runner's position. */
  ghost predicate ReadsBack(startFen: string, p: Pos, line: seq<Move>) {
    forall b: Pos :: HeardLines(Some(b), CommandLines(startFen, line)) == Some(Play(p, line))
  }

  /** The words of a line that leaves the board alone. */
  predicate Harmless(words: seq<string>) {
    words == [] || (words[0] != "ucinewgame" && words[0] != "quit" && words[0] != "position")
  }

  /** No line of the start FEN after the first is a command that touches the board. */
  predicate Quiet(startFen: string) {
    var lines := LinesOf(startFen, PY_BREAKS);
    forall i :: 1 <= i < |lines| ==> Harmless(Fields(lines[i]))
  }

  lemma OneLineIsQuiet(startFen: string)
    requires OneLine(startFen, PY_BREAKS)
    ensures Quiet(startFen)
  {
    LinesOfOne(startFen, PY_BREAKS);
  }

  lemma {:induction false} HarmlessLines(board: Option<Pos>, lines: seq<string>)
    requires forall i :: 0 <= i < |lines| ==> Harmless(Fields(lines[i]))
    ensures HeardLines(board, lines) == board
    decreases |lines|
  {
    hide ParsePosition, Fields;
    if lines != [] {
      HarmlessLines(board, lines[1..]);
    }
  }

  lemma {:induction false} HeardBoth(board: Option<Pos>, a: seq<string>, b: seq<string>)
    ensures HeardLines(board, a + b) == HeardLines(HeardLines(board, a), b)
    decreases |a|
  {
    hide HeardLine, Fields;
    if a == [] {
      assert a + b == b;
    } else {
      assert (a + b)[1..] == a[1..] + b;
      HeardBoth(HeardLine(board, Fields(a[0])), a[1..], b);
    }
  }

  lemma HeardOne(board: Option<Pos>, l: string)
    ensures HeardLines(board, [l]) == HeardLine(board, Fields(l))
  {
    hide HeardLine, Fields;
  }

  /** The lines of the command: the first starts with the command word, the last ends with the moves. */
  lemma CommandLinesAre(startFen: string, line: seq<Move>, breaks: set<char>)
    requires startFen != START_FEN && ' ' !in breaks && forall c :: c in breaks ==> IsBlank(c)
    ensures var lines, n := LinesOf(startFen, breaks), |LinesOf(startFen, breaks)|;
            LinesOf(PositionCommand(FenArgument(startFen), TextsOf(line)), breaks) ==
            if n == 1 then ["position fen " + (lines[0] + TailText(line))]
            else ["position fen " + lines[0]] + lines[1..n - 1] + [lines[n - 1] + TailText(line)]
  {
    hide Words, TextsOf, PositionCommand, TailText, OneLine, LinesOf;
    CommandText(Some(startFen), line);
    TailOnOneLine(line, breaks);
    PositionFenOnOneLine(breaks);
    var lines := LinesOf(startFen, breaks);
    var rest := startFen + TailText(line);
    assert PositionCommand(Some(startFen), TextsOf(line)) == "position fen " + rest;
    LinesInFront("position fen ", rest, breaks);
    LinesBehind(startFen, TailText(line), breaks);
    Rejoined("position fen ", lines, TailText(line));
  }

  lemma Rejoined(a: string, lines: seq<string>, b: string)
    requires lines != []
    ensures var n := |lines|;
            var all := lines[..n - 1] + [lines[n - 1] + b];
            [a + all[0]] + all[1..] ==
            if n == 1 then [a + (lines[0] + b)] else [a + lines[0]] + lines[1..n - 1] + [lines[n - 1] + b]
  {
  }

  lemma TailFields(a: string, line: seq<Move>)
    ensures Fields(a + TailText(line)) == Fields(a) + Tail(line)
  {
    hide Fields, Words, TextsOf;
    if line == [] {
      assert a + "" == a && Fields(a) + [] == Fields(a);
    } else {
      TailTokens(a, line);
      assert a + " moves " + Words(TextsOf(line)) == a + (" moves " + Words(TextsOf(line)));
    }
  }

  /** On a quiet start FEN only the first line counts. */
  lemma QuietHears(startFen: string, line: seq<Move>, b: Pos)
    requires Quiet(startFen)
    ensures HeardLines(Some(b), CommandLines(startFen, line)) ==
            match ParsePosition(RunnerTokens(startFen, line)) case None => Some(b) case Some(q) => Some(q)
  {
    hide ParsePosition, Fields, LinesOf, PositionCommand, TextsOf, FirstLine, TailText, HeardLines, FenArgument;
    var lines := CommandLines(startFen, line);
    forall i | 1 <= i < |lines| ensures Harmless(Fields(lines[i])) {
      LaterLine(startFen, line, i);
    }
    FirstWord(startFen, line);
    assert lines == [lines[0]] + lines[1..];
    HeardBoth(Some(b), [lines[0]], lines[1..]);
    HeardOne(Some(b), lines[0]);
    HarmlessLines(HeardLine(Some(b), Fields(lines[0])), lines[1..]);
  }

  lemma FirstWord(startFen: string, line: seq<Move>)
    ensures Fields(CommandLines(startFen, line)[0]) == ["position"] + RunnerTokens(startFen, line)
  {
    hide Fields, FirstLine, PositionCommand, TextsOf, OneLine;
    var words := Fields(FirstLine(PositionCommand(FenArgument(startFen), TextsOf(line)), PY_BREAKS));
    PyBreaks();
    if startFen == START_FEN {
      StartCommandWords(line);
      Headed("position", ["startpos"], Tail(line));
    } else {
      FirstLineWords(startFen, line, PY_BREAKS);
      Headed("position", ["fen"] + Fields(FirstLine(startFen, PY_BREAKS)), HeardTail(startFen, line, PY_BREAKS));
    }
  }

  lemma Headed<T>(x: T, a: seq<T>, b: seq<T>)
    ensures [x] + a + b != [] && [x] + a + b == [x] + ([x] + a + b)[1..]
  {
  }

  lemma LaterLine(startFen: string, line: seq<Move>, i: nat)
    requires Quiet(startFen) && 1 <= i < |CommandLines(startFen, line)|
    ensures Harmless(Fields(CommandLines(startFen, line)[i]))
  {
    hide Fields, LinesOf, PositionCommand, TextsOf, FirstLine, TailText;
    var lines := LinesOf(startFen, PY_BREAKS);
    if startFen == START_FEN {
      StartCommandIsOneLine(line);
    } else {
      PyBreaks();
      CommandLinesAre(startFen, line, PY_BREAKS);
      TailFields(lines[|lines| - 1], line);
    }
  }

  lemma StartCommandWords(line: seq<Move>)
    ensures Fields(FirstLine(PositionCommand(None, TextsOf(line)), PY_BREAKS)) == ["position"] + ["startpos"] + Tail(line)
  {
    hide Fields, Words, TextsOf, PositionCommand, FirstLine, OneLine;
    StartCommandIsOneLine(line);
    WholeLine(PositionCommand(None, TextsOf(line)), PY_BREAKS);
    CommandTokens(None, line);
  }

  lemma StartCommandIsOneLine(line: seq<Move>)
    ensures OneLine(PositionCommand(None, TextsOf(line)), PY_BREAKS) && |CommandLines(START_FEN, line)| == 1
  {
    hide Fields, Words, TextsOf, PositionCommand, TailText, LinesOf, OneLine;
    PyBreaks();
    CommandText(None, line);
    TailOnOneLine(line, PY_BREAKS);
    StartposOnOneLine();
    OneLineJoin(PositionBase(None), TailText(line), PY_BREAKS);
    LinesOfOne(PositionCommand(None, TextsOf(line)), PY_BREAKS);
  }

  lemma QuietReads(startFen: string, p: Pos, line: seq<Move>)
    requires Quiet(startFen)
    ensures ReadsBack(startFen, p, line) <==> FirstLineGives(startFen, p, line)
  {
    hide ParsePosition, Play, Quiet, HeardLines, CommandLines, RunnerTokens;
    forall b: Pos
      ensures HeardLines(Some(b), CommandLines(startFen, line)) ==
              match ParsePosition(RunnerTokens(startFen, line)) case None => Some(b) case Some(q) => Some(q)
    {
      QuietHears(startFen, line, b);
    }
    var other := Play(p, line).(half := Play(p, line).half + 1);
    assert HeardLines(Some(other), CommandLines(startFen, line)) ==
           match ParsePosition(RunnerTokens(startFen, line)) case None => Some(other) case Some(q) => Some(q);
  }

  /** From a start FEN of one line an opponent rebuilds exactly the runner's position if and only if that FEN
      survives. */
  lemma PositionRoundTrip(startFen: string, p: Pos, line: seq<Move>)
    requires ParsePos(startFen) == Some(p) && LegalLine(p, line)
    ensures Survives(startFen, line) ==> ReadsBack(startFen, p, line)
    ensures OneLine(startFen, PY_BREAKS) && ReadsBack(startFen, p, line) ==> Survives(startFen, line)
  {
    hide LegalLine, ParsePos, Play, ReadsBack, FirstLineGives, Fields, MovesIndex, OneLine, Quiet;
    FirstLineRoundTrip(startFen, p, line);
    if OneLine(startFen, PY_BREAKS) {
      OneLineIsQuiet(startFen);
      QuietReads(startFen, p, line);
    }
  }

  /** For a whole game from a quiet start FEN: in every position of the game an opponent rebuilds the runner's if
      and only if the start FEN is one line without a field "moves". When the game is over before it starts, only
      the first line has to give the position, with nothing after a field "moves". */
  lemma GameRoundTrip(startFen: string, p: Pos)
    requires ParsePos(startFen) == Some(p) && Quiet(startFen)
    ensures (forall line :: LegalLine(p, line) ==> ReadsBack(startFen, p, line)) <==>
            if HasLegalMove(p) then OneLine(startFen, PY_BREAKS) && MovesIndex(Fields(startFen)) == |Fields(startFen)|
            else
              var head := FirstLine(startFen, PY_BREAKS);
              ParsePos(head) == Some(p) && MovesIndex(Fields(head)) >= |Fields(head)| - 1
  {
    hide LegalLine, ParsePos, Play, ReadsBack, FirstLineGives, Fields, FirstLine, OneLine, MovesIndex, HasLegalMove,
         Quiet;
    forall line ensures ReadsBack(startFen, p, line) <==> FirstLineGives(startFen, p, line) {
      QuietReads(startFen, p, line);
    }
    FirstLineGame(startFen, p);
  }

  // ----- start FENs with commands in them ----------------------------------

  /** The words after "position" give p, and leave the place for a list of moves open. */
  ghost predicate Conveys(words: seq<string>, p: Pos) {
    if words != [] && words[0] == "fen" then ParsePos(Words(words[1..])) == Some(p)
    else (words == [] || words == ["startpos"]) && p == START
  }

  /** What a list of moves behind the words leads to. */
  lemma ParseTail(words: seq<string>, line: seq<Move>)
    requires MovesIndex(words) == |words| && words != [] && words[0] == "fen"
    ensures ParsePosition(words + Tail(line)) ==
            match ParsePos(Words(words[1..]))
            case None => None
            case Some(q) => Continue(q, Tail(line))
  {
    hide ParsePos, Words, Continue;
    MovesIndexIn(words, Tail(line));
    var all := words + Tail(line);
    assert MovesIndex(Tail(line)) == 0;
    assert all[1..|words|] == words[1..] && all[|words|..] == Tail(line);
  }

  lemma ConveysLine(words: seq<string>, p: Pos, line: seq<Move>)
    requires MovesIndex(words) == |words| && LegalLine(p, line) && Conveys(words, p)
    ensures ParsePosition(words + Tail(line)) == Some(Play(p, line))
  {
    hide ParsePos, Words, Continue, LegalLine, Play, TextsOf;
    ContinueLine(p, line);
    if words != [] && words[0] == "fen" {
      ParseTail(words, line);
    } else if words == [] {
      assert words + Tail(line) == Tail(line);
    } else {
      assert (words + Tail(line))[1..] == Tail(line);
    }
  }

  /** Words that do not end where a list of moves may start leave the initial position, moves or not. */
  lemma StuckStart(words: seq<string>, tail: seq<string>)
    requires MovesIndex(words) == |words| && words != [] && words[0] != "fen"
    requires words[0] == "startpos" ==> |words| > 1
    ensures ParsePosition(words + tail) == Some(START)
  {
    hide ApplyTexts;
    MovesIndexIs(words);
    var all := words + tail;
    assert all[0] == words[0];
    if words[0] == "startpos" {
      assert all[1..][0] == words[1];
    }
  }

  lemma StartOnly(words: seq<string>)
    requires words == [] || words == ["startpos"]
    ensures ParsePosition(words) == Some(START)
  {
    hide ApplyTexts;
  }

  lemma ContinueNothing(p: Pos)
    ensures Continue(p, []) == Some(p)
  {
  }

  lemma OnlyConveyed(words: seq<string>, p: Pos, m: Move)
    requires MovesIndex(words) == |words| && !Conveys(words, p) && Legal(p, m)
    ensures var before, behind := ParsePosition(words + Tail([])), ParsePosition(words + Tail([m]));
            (before.None? && behind.None?) || (before.Some? && before != Some(p)) || behind == Some(p)
  {
    hide ParsePos, Words, Legal, ParsePosition, Continue, TextsOf, After;
    assert words + Tail([]) == words && Tail([]) == [];
    if words != [] && words[0] == "fen" {
      ParseTail(words, []);
      ParseTail(words, [m]);
      if ParsePos(Words(words[1..])).Some? {
        ContinueNothing(ParsePos(Words(words[1..])).value);
      }
    } else if words == [] || words == ["startpos"] {
      StartOnly(words);
    } else {
      assert words[0] == "startpos" ==> |words| > 1 by { if |words| == 1 { assert words == [words[0]]; } }
      StuckStart(words, Tail([]));
      StuckStart(words, Tail([m]));
    }
  }

  /** Every line of the command but the last. */
  function EarlierLines(startFen: string): seq<string>
    requires !OneLine(startFen, PY_BREAKS)
  {
    var lines := LinesOf(startFen, PY_BREAKS);
    ["position fen " + lines[0]] + lines[1..|lines| - 1]
  }

  function LastLine(startFen: string): string {
    var lines := LinesOf(startFen, PY_BREAKS);
    lines[|lines| - 1]
  }

  /** No line sends the opponent away. */
  predicate NoQuit(lines: seq<string>) {
    forall i :: 0 <= i < |lines| ==> Fields(lines[i]) == [] || Fields(lines[i])[0] != "quit"
  }

  lemma {:induction false} AwakeUnlessQuit(b: Pos, lines: seq<string>)
    ensures HeardLines(Some(b), lines).Some? <==> NoQuit(lines)
    decreases |lines|
  {
    hide ParsePosition, Fields;
    if lines != [] {
      var c := HeardLine(Some(b), Fields(lines[0]));
      if c.Some? {
        AwakeUnlessQuit(c.value, lines[1..]);
        assert NoQuit(lines) <==> NoQuit(lines[1..]) by { QuitLater(lines); }
      } else {
        AsleepStays(lines[1..]);
      }
    }
  }

  lemma QuitLater(lines: seq<string>)
    requires lines != [] && (Fields(lines[0]) == [] || Fields(lines[0])[0] != "quit")
    ensures NoQuit(lines) <==> NoQuit(lines[1..])
  {
    hide Fields;
    assert lines == [lines[0]] + lines[1..];
  }

  lemma {:induction false} AsleepStays(lines: seq<string>)
    ensures HeardLines(None, lines) == None
  {
    hide Fields, ParsePosition;
    if lines != [] {
      AsleepStays(lines[1..]);
    }
  }

  lemma BrokenHears(startFen: string, line: seq<Move>, b: Pos)
    requires startFen != START_FEN && !OneLine(startFen, PY_BREAKS)
    ensures HeardLines(Some(b), CommandLines(startFen, line)) ==
            HeardLine(HeardLines(Some(b), EarlierLines(startFen)), Fields(LastLine(startFen)) + Tail(line))
  {
    hide Fields, LinesOf, PositionCommand, TextsOf, FirstLine, TailText, HeardLine, HeardLines;
    PyBreaks();
    CommandLinesAre(startFen, line, PY_BREAKS);
    SeveralLines(startFen);
    var last := LastLine(startFen) + TailText(line);
    TailFields(LastLine(startFen), line);
    HeardBoth(Some(b), EarlierLines(startFen), [last]);
    HeardOne(HeardLines(Some(b), EarlierLines(startFen)), last);
  }

  lemma SeveralLines(s: string)
    requires !OneLine(s, PY_BREAKS)
    ensures |LinesOf(s, PY_BREAKS)| > 1
  {
    NotWhole(s, PY_BREAKS);
  }

  /** A start FEN of several lines, the last of them without a word "moves": over a whole game an opponent is on
      the runner's position if and only if that last line is itself a position command giving the start position,
      and no line before it is "quit". */
  lemma LastLineDecides(startFen: string, p: Pos)
    requires ParsePos(startFen) == Some(p) && HasLegalMove(p) && !OneLine(startFen, PY_BREAKS)
    requires MovesIndex(Fields(LastLine(startFen))) == |Fields(LastLine(startFen))|
    ensures (forall line :: LegalLine(p, line) ==> ReadsBack(startFen, p, line)) <==>
            var last := Fields(LastLine(startFen));
            NoQuit(EarlierLines(startFen)) && last != [] && last[0] == "position" && Conveys(last[1..], p)
  {
    hide LegalLine, ParsePos, ParsePosition, Play, Fields, LinesOf, FirstLine, OneLine, Legal, After, HeardLine,
         HeardLines,
         CommandLines, EarlierLines, LastLine, Conveys, MovesIndex, NoQuit;
    var last := Fields(LastLine(startFen));
    StartIsOneLine();
    var m :| Legal(p, m);
    OneMove(p, m);
    PlayNothing(p);
    forall b: Pos, line ensures HeardLines(Some(b), CommandLines(startFen, line)) ==
                                HeardLine(HeardLines(Some(b), EarlierLines(startFen)), last + Tail(line))
    {
      BrokenHears(startFen, line, b);
    }
    if NoQuit(EarlierLines(startFen)) && last != [] && last[0] == "position" && Conveys(last[1..], p) {
      forall line | LegalLine(p, line) ensures ReadsBack(startFen, p, line) {
        LastLineGives(startFen, last, p, line);
      }
    } else {
      LastLineFails(startFen, last, p, m);
    }
  }

  lemma DropFirst(words: seq<string>, tail: seq<string>)
    requires words != [] && MovesIndex(words) == |words|
    ensures (words + tail)[0] == words[0] && (words + tail)[1..] == words[1..] + tail
    ensures MovesIndex(words[1..]) == |words[1..]|
  {
    DropHead(words, tail);
    assert |words[1..]| == |words| - 1;
  }

  lemma DropHead<T>(a: seq<T>, b: seq<T>)
    requires a != []
    ensures (a + b)[0] == a[0] && (a + b)[1..] == a[1..] + b
  {
  }

  lemma LastLineGives(startFen: string, last: seq<string>, p: Pos, line: seq<Move>)
    requires !OneLine(startFen, PY_BREAKS) && last != [] && last[0] == "position" && Conveys(last[1..], p)
    requires MovesIndex(last) == |last| && LegalLine(p, line) && NoQuit(EarlierLines(startFen))
    requires forall b: Pos :: HeardLines(Some(b), CommandLines(startFen, line)) ==
                              HeardLine(HeardLines(Some(b), EarlierLines(startFen)), last + Tail(line))
    ensures ReadsBack(startFen, p, line)
  {
    hide LegalLine, ParsePosition, Play, Fields, HeardLines, CommandLines, EarlierLines, Conveys, MovesIndex, NoQuit;
    DropFirst(last, Tail(line));
    ConveysLine(last[1..], p, line);
    forall b: Pos ensures HeardLines(Some(b), CommandLines(startFen, line)) == Some(Play(p, line)) {
      AwakeUnlessQuit(b, EarlierLines(startFen));
    }
  }

  /** A last line that is no position command, or that nobody hears, does the same with moves behind it. */
  lemma NoMovesHeard(c: Option<Pos>, last: seq<string>, m: Move)
    requires c.None? || last == [] || last[0] != "position"
    ensures HeardLine(c, last + Tail([])) == HeardLine(c, last + Tail([m]))
  {
    hide TextsOf, ParsePosition;
    var tail := Tail([m]);
    assert Tail([]) == [] && tail[0] == "moves";
    assert (last + tail)[0] == if last == [] then "moves" else last[0];
    assert last != [] ==> (last + Tail([]))[0] == last[0];
  }

  lemma LastLineFails(startFen: string, last: seq<string>, p: Pos, m: Move)
    requires !OneLine(startFen, PY_BREAKS) && Legal(p, m) && LegalLine(p, [m]) && Play(p, [m]) == After(p, m)
    requires MovesIndex(last) == |last|
    requires !(NoQuit(EarlierLines(startFen)) && last != [] && last[0] == "position" && Conveys(last[1..], p))
    requires forall b: Pos, line :: HeardLines(Some(b), CommandLines(startFen, line)) ==
                                    HeardLine(HeardLines(Some(b), EarlierLines(startFen)), last + Tail(line))
    ensures !(ReadsBack(startFen, p, []) && ReadsBack(startFen, p, [m]))
  {
    hide LegalLine, ParsePosition, Play, Fields, HeardLines, CommandLines, EarlierLines, Conveys, MovesIndex, NoQuit,
         Legal,
         After, TextsOf, HeardLine, Tail, OneLine;
    PlayNothing(p);
    LineAdvances(p, [m]);
    var c := HeardLines(Some(p), EarlierLines(startFen));
    AwakeUnlessQuit(p, EarlierLines(startFen));
    assert HeardLines(Some(p), CommandLines(startFen, [])) == HeardLine(c, last + Tail([]));
    assert HeardLines(Some(p), CommandLines(startFen, [m])) == HeardLine(c, last + Tail([m]));
    if c.None? || last == [] || last[0] != "position" {
      NoMovesHeard(c, last, m);
    } else {
      DropFirst(last, Tail([]));
      DropFirst(last, Tail([m]));
      OnlyConveyed(last[1..], p, m);
      PositionHeard(c, last + Tail([]));
      PositionHeard(c, last + Tail([m]));
    }
  }

  lemma PositionHeard(c: Option<Pos>, words: seq<string>)
    requires c.Some? && words != [] && words[0] == "position"
    ensures HeardLine(c, words) == match ParsePosition(words[1..]) case None => c case Some(q) => Some(q)
  {
    hide ParsePosition;
  }

  // ----- two start FENs that fail ------------------------------------------

  lemma ExtraField(p: Pos)
    requires FenValid(p)
    ensures Fields(FenText(p) + " moves") == Fields(FenText(p)) + ["moves"]
    ensures ParsePos(FenText(p) + " moves") == Some(p)
  {
    hide FenText, Fields, ParsePos, FenValid, Words, MovesIndex, OneLine;
    var text := FenText(p) + " moves";
    var fields := Fields(FenText(p));
    PyBreaks();
    WrittenFen(p, PY_BREAKS);
    FenRoundTrip(p);
    assert FenText(p) + " " + "moves" == text by { assert " " + "moves" == " moves"; }
    FieldsJoin(FenText(p), "moves");
    OneWord("moves");
    SixFields(text, 6);
    SixFields(FenText(p), 6);
    assert Fields(text)[..6] == fields[..6];
  }

  /** A written FEN with a seventh field "moves" parses, but loses every move played. */
  lemma StrayMovesFail(p: Pos, line: seq<Move>)
    requires FenValid(p) && LegalLine(p, line) && line != []
    ensures ParsePos(FenText(p) + " moves") == Some(p) && !Survives(FenText(p) + " moves", line)
    ensures !ReadsBack(FenText(p) + " moves", p, line)
  {
    hide FenText, Fields, ParsePos, FenValid, LegalLine, ReadsBack, MovesIndex, OneLine;
    var text := FenText(p) + " moves";
    ExtraField(p);
    PyBreaks();
    WrittenFen(p, PY_BREAKS);
    MovesIndexIn(Fields(FenText(p)), ["moves"]);
    MovesFirst();
    assert OneLine(text, PY_BREAKS) by {
      assert OneLine(" moves", PY_BREAKS) by { MovesOnOneLine(); }
      OneLineJoin(FenText(p), " moves", PY_BREAKS);
    }
    PositionRoundTrip(text, p, line);
  }

  lemma MovesFirst()
    ensures MovesIndex(["moves"]) == 0
  {
  }

  lemma MovesOnOneLine()
    ensures OneLine(" moves", PY_BREAKS)
  {
    var s := " moves";
    forall i | 0 <= i < |s| ensures s[i] !in PY_BREAKS {
    }
  }

  lemma TwoLines(a: string, b: string)
    requires OneLine(a, PY_BREAKS) && OneLine(b, PY_BREAKS)
    ensures LinesOf(a + "\n" + b, PY_BREAKS) == [a, b]
    ensures !OneLine(a + "\n" + b, PY_BREAKS) && Fields(a + "\n" + b) == Fields(a) + Fields(b)
  {
    hide Fields, LinesOf, FirstLine;
    PyBreaks();
    FieldsAcross(a, '\n', b);
    Broken(a, b);
    BreakThen(b);
    LinesInFront(a, "\n" + b, PY_BREAKS);
    assert a + "" == a;
  }

  lemma Broken(a: string, b: string)
    ensures a + "\n" + b == a + ("\n" + b) == a + ['\n'] + b && !OneLine(a + "\n" + b, PY_BREAKS)
  {
    assert (a + "\n" + b)[|a|] == '\n' && '\n' in PY_BREAKS;
  }

  lemma BreakThen(b: string)
    requires OneLine(b, PY_BREAKS)
    ensures LinesOf("\n" + b, PY_BREAKS) == ["", b]
  {
    assert ("\n" + b)[0] in PY_BREAKS && ("\n" + b)[1..] == b;
    LinesOfOne(b, PY_BREAKS);
  }

  /** A written FEN with a line break after it parses, but loses every move played. */
  lemma LineBreakFails(p: Pos, line: seq<Move>)
    requires FenValid(p) && LegalLine(p, line) && line != []
    ensures ParsePos(FenText(p) + "\n") == Some(p) && Quiet(FenText(p) + "\n")
    ensures ReadsBack(FenText(p) + "\n", p, []) && !ReadsBack(FenText(p) + "\n", p, line)
  {
    hide FenText, Fields, ParsePos, FenValid, LegalLine, MovesIndex, ReadsBack, FirstLineGives, OneLine, LinesOf;
    var f := FenText(p);
    var text := f + "\n";
    PyBreaks();
    WrittenFen(p, PY_BREAKS);
    FenRoundTrip(p);
    EmptyLine(PY_BREAKS);
    TwoLines(f, "");
    assert f + "\n" + "" == text;
    assert Fields("") == [] by { NoFields(); }
    assert Fields(f) + [] == Fields(f);
    SameFields(text, f);
    assert Quiet(text);
    QuietReads(text, p, []);
    QuietReads(text, p, line);
    NothingToPlay(text, p);
    BrokenFenIsDeaf(text, p, line);
  }

  lemma EmptyLine(breaks: set<char>)
    ensures OneLine("", breaks)
  {
  }

  lemma NoFields()
    ensures Fields("") == []
  {
  }

  /** A written FEN followed by a second position command is no single line, and yet every move arrives: the
      second line says it all again. */
  lemma RepeatedCommandArrives(p: Pos)
    requires FenValid(p) && HasLegalMove(p)
    ensures var text := FenText(p) + "\n" + ("position fen " + FenText(p));
            && ParsePos(text) == Some(p) && !OneLine(text, PY_BREAKS)
            && forall line :: LegalLine(p, line) ==> ReadsBack(text, p, line)
  {
    hide FenText, Fields, ParsePos, FenValid, LegalLine, MovesIndex, ReadsBack, OneLine, LinesOf, HasLegalMove, Words;
    var f := FenText(p);
    var again := "position fen " + f;
    var text := f + "\n" + again;
    PyBreaks();
    WrittenFen(p, PY_BREAKS);
    FenRoundTrip(p);
    PositionFenOnOneLine(PY_BREAKS);
    OneLineJoin("position fen ", f, PY_BREAKS);
    TwoLines(f, again);
    SixFields(text, 6);
    SixFields(f, 6);
    assert Fields(text)[..6] == Fields(f)[..6];
    BaseTokens(Some(f));
    var last := Fields(again);
    assert last == ["position"] + (["fen"] + Fields(f));
    assert last[1..] == ["fen"] + Fields(f) && last[1..][1..] == Fields(f);
    FieldsAreTokens(f);
    FieldsOfWords(Fields(f));
    SameFields(Words(Fields(f)), f);
    CommandWord(Fields(f));
    assert LastLine(text) == again;
    NoQuitFirst(text, f, again);
    LastLineDecides(text, p);
  }

  lemma CommandWord(fields: seq<string>)
    requires MovesIndex(fields) == |fields|
    ensures MovesIndex(["position"] + (["fen"] + fields)) == |fields| + 2
  {
    FenFirst(fields);
    assert (["position"] + (["fen"] + fields))[1..] == ["fen"] + fields;
  }

  lemma NoQuitFirst(text: string, f: string, again: string)
    requires LinesOf(text, PY_BREAKS) == [f, again] && !OneLine(text, PY_BREAKS)
    ensures NoQuit(EarlierLines(text))
  {
    hide Fields, LinesOf, OneLine;
    assert EarlierLines(text) == ["position fen " + f];
    BaseTokens(Some(f));
    assert Fields("position fen " + f)[0] == "position";
  }
}
