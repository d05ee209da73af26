/** The C++ engine and the runner's position command: which position the engine ends up on. */
module Shell88 {
  import opened ChessTypes
  import opened Rules
  import opened Movegen
  import opened Preservation
  import opened Uci
  import opened Text
  import opened Fen
  import opened Start
  import opened GameLoop
  import opened UciShell
  import opened Engine88
  import opened Refinement88
  import opened Answers88
  import opened Fen88

  // ----- the position reached ----------------------------------------------

  /** What the engine does with the words after the position: "moves" and texts, or nothing. */
  ghost function Follow(p: Pos, rest: seq<string>): Pos {
    if rest != [] && rest[0] == "moves" then Obey(p, rest[1..]) else p
  }

  /** std::getline ends a line at this character only. */
  const CPP_BREAKS: set<char> := {'\n'}

  /** The words the engine takes for the FEN: up to six, stopping at a word "moves". */
  function Taken(words: seq<string>): seq<string> {
    if MovesIndex(words) < 6 then words[..MovesIndex(words)] else words[..6]
  }

  /** The words it goes on with; a "moves" it stopped at is swallowed. */
  function Behind(words: seq<string>): seq<string> {
    var n := MovesIndex(words);
    if n >= 6 then words[6..] else if n < |words| then words[n + 1..] else []
  }

  /** The words behind "position fen" on the line the engine is given, as a stream delivers them. */
  function LineWords(startFen: string, line: seq<Move>): seq<string> {
    StreamWords(FirstLine(startFen, CPP_BREAKS)) + HeardTail(startFen, line, CPP_BREAKS)
  }

  /** Where the engine ends up. Fewer than four words for the FEN leave the initial position; an en passant square
      with a man on it counts for nothing. */
  ghost function Reached88(startFen: string, p: Pos, line: seq<Move>): Pos {
    var words := LineWords(startFen, line);
    Follow(if |Taken(words)| < 4 then START else View(p), Behind(words))
  }

  /** The engine's own words for the FEN are too few or describe p: so it is for every text without the
      separators that Python's split takes for blanks and a stream does not. */
  ghost predicate ReadsAlike(startFen: string, p: Pos, line: seq<Move>) {
    var taken := Taken(LineWords(startFen, line));
    |taken| < 4 || FourFields(taken, p)
  }

  /** Moves are only followed from a position that is well formed in the engine's view. */
  ghost predicate FollowsWellFormed(startFen: string, p: Pos, line: seq<Move>) {
    var words := LineWords(startFen, line);
    Behind(words) != [] && Behind(words)[0] == "moves" && |Taken(words)| >= 4 ==> WellFormed(View(p))
  }

  /** None of the words is the text of a legal move. */
  ghost predicate NoneLegal(p: Pos, words: seq<string>) {
    forall i, m :: 0 <= i < |words| && Legal(p, m) ==> MoveText(m) != words[i]
  }

  lemma {:induction false} ObeyNone(p: Pos, words: seq<string>, rest: seq<string>)
    requires NoneLegal(p, words)
    ensures Obey(p, words + rest) == Obey(p, rest)
  {
    hide Legal, MoveText, Obey;
    if words == [] {
      assert words + rest == rest;
    } else {
      assert (words + rest)[0] == words[0] && (words + rest)[1..] == words[1..] + rest;
      ObeyUnknown(p, words + rest);
      ObeyNone(p, words[1..], rest);
    }
  }

  /** Every obeyed word is a move made, so the clock shows whether one was. */
  lemma {:induction false} ObeyCounts(p: Pos, words: seq<string>)
    ensures MoveClock(Obey(p, words)) >= MoveClock(p)
    ensures !NoneLegal(p, words) ==> MoveClock(Obey(p, words)) > MoveClock(p)
    decreases |words|
  {
    hide Legal, MoveText, SquaresAfter, RightsAfter, EpAfter;
    if words != [] {
      if m :| Legal(p, m) && MoveText(m) == words[0] {
        ObeyMove(p, m, words);
        ObeyCounts(After(p, m), words[1..]);
      } else {
        ObeyUnknown(p, words);
        ObeyCounts(p, words[1..]);
        assert NoneLegal(p, words[1..]) ==> NoneLegal(p, words);
      }
    }
  }

  lemma FollowLine(p: Pos, line: seq<Move>)
    requires LegalLine(p, line)
    ensures Follow(p, [] + Tail(line)) == Play(p, line)
  {
    hide Obey, LegalLine;
    assert [] + Tail(line) == Tail(line);
    if line != [] {
      ObeyLine(p, line);
      assert Tail(line)[1..] == TextsOf(line);
    }
  }

  lemma MovesIsNotLegal(p: Pos)
    ensures NoneLegal(p, ["moves"])
  {
    forall m | Legal(p, m) ensures MoveText(m) != "moves" {
      NameLetters(m.from);
      assert "moves"[0] == 'm';
      assert MoveText(m)[0] == SquareName(m.from)[0];
    }
  }

  /** After a stray seventh word "moves" the engine follows the game unless a later field is a legal move. */
  lemma FollowPastStray(p: Pos, extra: seq<string>, line: seq<Move>)
    requires LegalLine(p, line) && NoneLegal(p, extra)
    ensures Follow(p, ["moves"] + extra + Tail(line)) == Play(p, line)
  {
    hide Obey, LegalLine, NoneLegal, TextsOf;
    var rest := ["moves"] + extra + Tail(line);
    assert rest[1..] == extra + Tail(line);
    ObeyNone(p, extra, Tail(line));
    if line == [] {
      PlayNothing(p);
      ObeyNothing(p);
    } else {
      MovesIsNotLegal(p);
      ObeyNone(p, ["moves"], TextsOf(line));
      ObeyLine(p, line);
    }
  }

  /** No legal move of p lands on a man of the mover's own, as an en passant capture onto one would. */
  ghost predicate NoSelfCapture(p: Pos) {
    forall m :: Legal(p, m) ==> !Holds(p.squares, m.to, p.side)
  }

  /** The start FEN is one line whose first four words describe p; it has exactly six words, or the seventh is
      "moves" and no later one the text of a legal move; and the engine knows every legal move of p. */
  ghost predicate KeepsUp(startFen: string, p: Pos) {
    var f := StreamWords(startFen);
    && OneLine(startFen, CPP_BREAKS) && FourFields(f, p) && NoSelfCapture(p)
    && MovesIndex(f) >= 6 && (|f| == 6 || (f[6] == "moves" && NoneLegal(View(p), f[7..])))
  }

  /** Over a whole game from a start FEN without separator characters the engine is on the runner's position,
      counting the moves made, in every position of the game if and only if the start FEN keeps up. A game that is
      over before it starts only asks for four fields on the first line. */
  lemma EngineKeepsUp(startFen: string, p: Pos)
    requires ParsePos(startFen) == Some(p) && NoSeparators(startFen) && Quiet88(startFen)
    requires |StreamWords(FirstLine(startFen, CPP_BREAKS))| >= 6 ==> WellFormed(View(p))
    ensures (forall line :: LegalLine(p, line) ==> Reached88(startFen, p, line) == View(Play(p, line))) <==>
            if HasLegalMove(p) then KeepsUp(startFen, p)
            else |StreamWords(FirstLine(startFen, CPP_BREAKS))| >= 4 || View(p) == START
  {
    hide LegalLine, ParsePos, Play, Reached88, KeepsUp, StreamWords, FirstLine, Legal, After, View, NoSeparators,
         WellFormed, Quiet88;
    PlayNothing(p);
    if HasLegalMove(p) {
      var m :| Legal(p, m);
      if KeepsUp(startFen, p) {
        forall line | LegalLine(p, line) ensures Reached88(startFen, p, line) == View(Play(p, line)) {
          KeptUp(startFen, p, line);
        }
      } else {
        var n := LeftBehind(startFen, p, m);
        OneMove(p, n);
      }
    } else {
      forall line | LegalLine(p, line) ensures line == [] {
        StuckLine(p, line);
      }
      ReachedStuck(startFen, p);
    }
  }

  /** What the fields of the first line come to, without separators. */
  lemma ReachedPlain(startFen: string, p: Pos, line: seq<Move>)
    requires ParsePos(startFen) == Some(p) && NoSeparators(startFen)
    ensures var f := StreamWords(FirstLine(startFen, CPP_BREAKS));
            && f == Fields(FirstLine(startFen, CPP_BREAKS)) <= Fields(startFen)
            && (MovesIndex(f) == |f| || MovesIndex(f) >= 6)
            && (OneLine(startFen, CPP_BREAKS) ==> |f| >= 4 && f == StreamWords(startFen))
            && Reached88(startFen, p, line) ==
               (if |f| < 4 then START
                else if |f| < 6 then View(p)
                else Follow(View(p), f[6..] + HeardTail(startFen, line, CPP_BREAKS)))
            && (|f| >= 4 ==> FourFields(f, p) && ReadsAlike(startFen, p, line))
  {
    hide ParsePos, Fields, StreamWords, FirstLine, NoSeparators, View, Obey, OneLine, MovesIndex, ParsePlacement,
         ParseCastling, ParseEp, TextsOf;
    var head := FirstLine(startFen, CPP_BREAKS);
    var f, tail := StreamWords(head), HeardTail(startFen, line, CPP_BREAKS);
    CppBreaks();
    PrefixPlain(startFen, head);
    StreamReadsFields(head);
    FirstLineFields(startFen, CPP_BREAKS);
    MovesIsLate(startFen);
    PrefixMoves(f, Fields(startFen));
    ParsedHasFourFields(startFen);
    MovesIndexIn(f, tail);
    MoveIsNotMoves(line);
    TailIndex(startFen, line);
    if OneLine(startFen, CPP_BREAKS) {
      WholeLine(startFen, CPP_BREAKS);
    }
    var words := f + tail;
    if MovesIndex(f) >= 6 {
      assert words[..6] == f[..6] && words[6..] == f[6..] + tail;
    } else {
      assert words[..|f|] == f;
      assert |words| > |f| ==> words[|f| + 1..] == tail[1..];
    }
  }

  lemma PrefixPlain(s: string, t: string)
    requires NoSeparators(s) && t <= s
    ensures NoSeparators(t)
  {
  }

  lemma TailIndex(startFen: string, line: seq<Move>)
    ensures var tail := HeardTail(startFen, line, CPP_BREAKS);
            && MovesIndex(tail) == 0
            && (tail != [] ==> tail[0] == "moves" && tail[1..] == TextsOf(line) && TextsOf(line) != [])
  {
    hide OneLine, MoveText;
  }

  lemma KeptUp(startFen: string, p: Pos, line: seq<Move>)
    requires LegalLine(p, line) && KeepsUp(startFen, p)
    ensures Reached88(startFen, p, line) == View(Play(p, line)) && ReadsAlike(startFen, p, line)
  {
    hide LegalLine, Play, StreamWords, FirstLine, Follow, NoneLegal, OneLine, MovesIndex, View, ParsePlacement,
         ParseCastling,
         ParseEp, TextsOf;
    WholeLine(startFen, CPP_BREAKS);
    var f, v, tail := StreamWords(startFen), View(p), Tail(line);
    LineStarts(p, line);
    ViewLine(p, line);
    MovesIndexIn(f, tail);
    var words := f + tail;
    assert LineWords(startFen, line) == words;
    assert words[..6] == f[..6] && words[6..] == f[6..] + tail;
    if |f| == 6 {
      assert f[6..] == [];
      FollowLine(v, line);
    } else {
      assert f[6..] == ["moves"] + f[7..];
      FollowPastStray(v, f[7..], line);
    }
  }

  lemma LineStarts(p: Pos, line: seq<Move>)
    requires LegalLine(p, line) && NoSelfCapture(p)
    ensures line != [] ==> !Holds(p.squares, line[0].to, p.side)
  {
    hide Legal;
  }

  /** Otherwise the engine is wrong before the first move, or after it for some first move. */
  lemma LeftBehind(startFen: string, p: Pos, m: Move) returns (n: Move)
    requires ParsePos(startFen) == Some(p) && NoSeparators(startFen) && Legal(p, m) && !KeepsUp(startFen, p)
    ensures Legal(p, n)
    ensures !(Reached88(startFen, p, []) == View(p) && Reached88(startFen, p, [n]) == View(After(p, n)))
  {
    hide ParsePos, StreamWords, Fields, FirstLine, Obey, NoneLegal, OneLine, Legal, After, View, Reached88, MovesIndex,
         NoSelfCapture, NoSeparators, FourFields, ReadsAlike;
    n := m;
    ViewClock(p, m);
    ReachedPlain(startFen, p, []);
    ReachedPlain(startFen, p, [m]);
    var f, v := StreamWords(FirstLine(startFen, CPP_BREAKS)), View(p);
    if OneLine(startFen, CPP_BREAKS) && |f| >= 6 {
      assert Tail([]) == [] && f[6..] + Tail([]) == f[6..];
      if |f| > 6 && f[6] == "moves" && !NoneLegal(v, f[7..]) {
        assert f[6..][1..] == f[7..];
        ObeyCounts(v, f[7..]);
      } else if |f| > 6 && f[6] != "moves" {
        assert (f[6..] + Tail([m]))[0] == f[6];
      } else {
        AtLeastSix(f);
        n := SelfCapture(p);
        ReachedPlain(startFen, p, [n]);
        ViewClock(p, n);
        SelfCaptureLost(p, n, f);
      }
    }
  }

  lemma AtLeastSix(f: seq<string>)
    requires |f| >= 6 && (MovesIndex(f) == |f| || MovesIndex(f) >= 6)
    ensures MovesIndex(f) >= 6
  {
  }

  lemma SelfCapture(p: Pos) returns (m: Move)
    requires !NoSelfCapture(p)
    ensures Legal(p, m) && Holds(p.squares, m.to, p.side)
  {
    hide Legal;
    m :| Legal(p, m) && Holds(p.squares, m.to, p.side);
  }

  /** The engine ignores an en passant capture onto a man of the mover's own. */
  lemma SelfCaptureLost(p: Pos, m: Move, f: seq<string>)
    requires Legal(p, m) && Holds(p.squares, m.to, p.side)
    requires |f| == 6 || (|f| > 6 && f[6] == "moves" && NoneLegal(View(p), f[7..]))
    ensures Follow(View(p), f[6..] + Tail([m])) == View(p)
  {
    hide Legal, View, Obey, MoveText;
    var v := View(p);
    var texts := TextsOf([m]);
    assert texts == [MoveText(m)] && Tail([m]) == ["moves"] + texts;
    forall n | Legal(v, n) ensures MoveText(n) != MoveText(m) {
      ViewLegal(p, n);
      if MoveText(n) == MoveText(m) {
        MoveTextInjective(n, m);
      }
    }
    NoneThere(v, texts);
    if |f| == 6 {
      assert f[6..] + Tail([m]) == ["moves"] + texts;
    } else {
      var rest := f[7..] + (["moves"] + texts);
      assert (f[6..] + Tail([m]))[1..] == rest;
      ObeyNone(v, f[7..], ["moves"] + texts);
      MovesIsNotLegal(v);
      ObeyNone(v, ["moves"], texts);
    }
  }

  lemma NoneThere(v: Pos, texts: seq<string>)
    requires NoneLegal(v, texts)
    ensures Obey(v, texts) == v
  {
    hide Obey, Legal, MoveText;
    ObeyNone(v, texts, []);
    assert texts + [] == texts;
    ObeyNothing(v);
  }

  lemma ViewClock(p: Pos, m: Move)
    ensures MoveClock(View(p)) == MoveClock(p) && MoveClock(View(After(p, m))) > MoveClock(View(p))
  {
    hide SquaresAfter, RightsAfter, EpAfter;
  }

  lemma ObeyStuck(p: Pos, rest: seq<string>)
    requires !HasLegalMove(p)
    ensures Follow(p, rest) == p
  {
    hide Obey, Legal, MoveText;
    if rest != [] && rest[0] == "moves" {
      ObeyNone(p, rest[1..], []);
      assert rest[1..] + [] == rest[1..];
      ObeyNothing(p);
    }
  }

  lemma ReachedStuck(startFen: string, p: Pos)
    requires ParsePos(startFen) == Some(p) && NoSeparators(startFen) && !HasLegalMove(p)
    ensures Reached88(startFen, p, []) == View(p) <==>
            |StreamWords(FirstLine(startFen, CPP_BREAKS))| >= 4 || View(p) == START
  {
    hide StreamWords, Fields, FirstLine, Follow, HasLegalMove, View, Reached88, MovesIndex, ParsePos, NoSeparators,
         OneLine,
         FourFields, ReadsAlike;
    var f := StreamWords(FirstLine(startFen, CPP_BREAKS));
    ReachedPlain(startFen, p, []);
    StuckView(p);
    if |f| >= 6 {
      ObeyStuck(View(p), f[6..] + HeardTail(startFen, [], CPP_BREAKS));
    }
  }

  lemma StuckView(p: Pos)
    requires !HasLegalMove(p)
    ensures !HasLegalMove(View(p))
  {
    hide Legal, View;
    forall m ensures !Legal(View(p), m) {
      ViewLegal(p, m);
    }
  }

  /** Whatever the position, fewer than six fields on the line leave the engine there: no move arrives. */
  lemma TooFewFields(startFen: string, p: Pos, line: seq<Move>)
    requires ParsePos(startFen) == Some(p) && NoSeparators(startFen)
    requires 4 <= |StreamWords(FirstLine(startFen, CPP_BREAKS))| < 6
    ensures Reached88(startFen, p, line) == View(p)
    ensures FollowsWellFormed(startFen, p, line) && ReadsAlike(startFen, p, line)
  {
    hide ParsePos, StreamWords, Fields, FirstLine, View, Obey, OneLine, NoSeparators, FourFields, WellFormed, TextsOf,
         MovesIndex;
    ReachedPlain(startFen, p, line);
    var f, tail := StreamWords(FirstLine(startFen, CPP_BREAKS)), HeardTail(startFen, line, CPP_BREAKS);
    MovesIndexIn(f, tail);
    TailIndex(startFen, line);
    MoveIsNotMoves(line);
    assert |f + tail| > |f| ==> (f + tail)[|f| + 1..] == tail[1..];
  }

  /** A FEN the oracle writes keeps up exactly when no legal move captures its own side's man. */
  lemma WrittenFenKeepsUp(p: Pos)
    requires FenValid(p)
    ensures KeepsUp(FenText(p), p) <==> NoSelfCapture(p)
    ensures NoSeparators(FenText(p)) && ParsePos(FenText(p)) == Some(p) && |StreamWords(FenText(p))| == 6
  {
    hide FenValid, FenText, Fields, OneLine, NoneLegal, ParsePos, StreamWords, NoSelfCapture, FourFields,
         NoSeparators, MovesIndex;
    CppBreaks();
    WrittenFen(p, CPP_BREAKS);
    FenRoundTrip(p);
    WrittenPlain(p);
    StreamReadsFields(FenText(p));
    ParsedHasFourFields(FenText(p));
  }

  lemma WrittenFenReached(p: Pos, line: seq<Move>)
    requires FenValid(p)
    ensures var f := StreamWords(FenText(p));
            && |f| == 6 && Quiet88(FenText(p)) && ReadsAlike(FenText(p), p, line)
            && Reached88(FenText(p), p, line) == Follow(View(p), f[6..] + Tail(line))
  {
    hide FenValid, FenText, Fields, OneLine, ParsePos, StreamWords, NoSeparators, MovesIndex, View, Follow, Reached88,
         FourFields, ReadsAlike;
    CppBreaks();
    WrittenFen(p, CPP_BREAKS);
    WholeLine(FenText(p), CPP_BREAKS);
    LinesOfOne(FenText(p), CPP_BREAKS);
    WrittenFenKeepsUp(p);
    ReachedPlain(FenText(p), p, line);
  }

  lemma WrittenPlain(p: Pos)
    ensures NoSeparators(FenText(p))
  {
    hide Words, PlacementFrom, CastlingText, EpText, NoSeparators, Decimal;
    FenTokens(p);
    WordsWithoutSeparators([PlacementFrom(p.squares, 7), SideText(p.side), CastlingText(p.rights), EpText(p.ep),
                            Decimal(p.half), Decimal(p.full)]);
  }

  lemma CppBreaks()
    ensures ' ' !in CPP_BREAKS && forall c :: c in CPP_BREAKS ==> IsBlank(c)
  {
    forall c | c in CPP_BREAKS ensures IsBlank(c) {
    }
  }

  /** The text of a position's first four fields. */
  function FourFieldText(p: Pos): string {
    Words([PlacementFrom(p.squares, 7), SideText(p.side), CastlingText(p.rights), EpText(p.ep)])
  }

  lemma ShortFen(p: Pos)
    requires FenValid(p) && p.half == 0 && p.full == 1
    ensures ParsePos(FourFieldText(p)) == Some(p) && |Fields(FourFieldText(p))| == 4
    ensures OneLine(FourFieldText(p), CPP_BREAKS)
  {
    hide PlacementFrom, CastlingText, EpText, ParsePlacement, ParseCastling, ParseEp, Fields, Words, OneKing, OneLine;
    var tokens := [PlacementFrom(p.squares, 7), SideText(p.side), CastlingText(p.rights), EpText(p.ep)];
    FenTokens(p);
    assert tokens == [PlacementFrom(p.squares, 7), SideText(p.side), CastlingText(p.rights), EpText(p.ep),
                      Decimal(p.half), Decimal(p.full)][..4];
    FieldsOfWords(tokens);
    CppBreaks();
    WordsOnOneLine(tokens, CPP_BREAKS);
    PlacementRoundTrip(p.squares);
    CastlingRoundTrip(p.rights);
    EpRoundTrip(p.ep);
    assert ParseInt("0") == Some(0) && ParseInt("1") == Some(1) by { Counters(); }
    hide ParseInt;
  }

  lemma Counters()
    ensures ParseInt("0") == Some(0) && ParseInt("1") == Some(1)
  {
    IntRoundTrip(0);
    IntRoundTrip(1);
  }

  /** A FEN of four fields parses, but the engine stays on the start position: after one move it has the
      wrong side to move. */
  lemma ShortFenFails(p: Pos, line: seq<Move>)
    requires FenValid(p) && p.half == 0 && p.full == 1 && LegalLine(p, line) && line != []
    ensures ParsePos(FourFieldText(p)) == Some(p)
    ensures Reached88(FourFieldText(p), p, line) == View(p) != View(Play(p, line))
    ensures |line| == 1 ==> Reached88(FourFieldText(p), p, line).side != Play(p, line).side
  {
    hide FenValid, FourFieldText, ParsePos, Fields, StreamWords, FirstLine, OneLine, SquaresAfter, RightsAfter,
         EpAfter, Legal,
         NoSeparators, Reached88, FollowsWellFormed, ReadsAlike;
    ShortFen(p);
    ShortPlain(p);
    WholeLine(FourFieldText(p), CPP_BREAKS);
    StreamReadsFields(FourFieldText(p));
    TooFewFields(FourFieldText(p), p, line);
    ApplyLine(p, line);
    ApplyAdvances(p, TextsOf(line));
    assert |TextsOf(line)| == |line|;
    assert |line| == 1 ==> Play(p, line) == After(p, line[0]);
  }

  lemma ShortPlain(p: Pos)
    ensures NoSeparators(FourFieldText(p))
  {
    hide Words, PlacementFrom, CastlingText, EpText, NoSeparators;
    FenTokens(p);
    var tokens := [PlacementFrom(p.squares, 7), SideText(p.side), CastlingText(p.rights), EpText(p.ep)];
    assert tokens == [PlacementFrom(p.squares, 7), SideText(p.side), CastlingText(p.rights), EpText(p.ep),
                      Decimal(p.half), Decimal(p.full)][..4];
    WordsWithoutSeparators(tokens);
  }

  // ----- the words of the command ------------------------------------------

  lemma WordsWithoutSeparators(tokens: seq<string>)
    requires AllTokens(tokens)
    ensures NoSeparators(Words(tokens))
  {
    WordsBlanks(tokens);
    hide Words;
  }

  lemma {:induction false} WordsAppend(tokens: seq<string>, t: string)
    requires tokens != []
    ensures Words(tokens + [t]) == Words(tokens) + " " + t
  {
    if |tokens| == 1 {
      assert (tokens + [t])[1..] == [t];
    } else {
      WordsAppend(tokens[1..], t);
      assert (tokens + [t])[1..] == tokens[1..] + [t];
      Associate(tokens[0], " ", Words(tokens[1..]), " " + t);
    }
  }

  lemma Associate(a: string, b: string, c: string, d: string)
    ensures a + b + (c + d) == a + b + c + d
  {
  }

  lemma StartIsPlain()
    ensures NoSeparators(START_FEN) && OneLine(START_FEN, CPP_BREAKS) && |StreamWords(START_FEN)| == 6
    ensures FourFields(StreamWords(START_FEN), START) && MovesIndex(StreamWords(START_FEN)) == 6
  {
    hide Fields, StreamWords, FenText, NoSeparators, OneLine, FenValid, MovesIndex, ParsePos, FourFields;
    StartText();
    StartIsFenValid();
    CppBreaks();
    WrittenFen(START, CPP_BREAKS);
    WrittenPlain(START);
    StreamReadsFields(START_FEN);
    StartParses();
    ParsedHasFourFields(START_FEN);
  }

  lemma MoveIsNotMoves(line: seq<Move>)
    ensures line != [] ==> TextsOf(line)[0] != "moves"
  {
    if line != [] {
      NameLetters(line[0].from);
      assert "moves"[0] == 'm';
    }
  }

  // ----- the command handler -----------------------------------------------

  /** The words of the FEN form: up to six for the FEN, stopping at a word "moves", which is read too. */
  method ReadFenWords(words: seq<string>, start: nat) returns (fen: string, at: nat)
    requires start <= |words| && AllStreamWords(words)
    ensures start <= at <= |words|
    ensures fen == Words(Taken(words[start..])) && words[at..] == Behind(words[start..])
  {
    hide Words, MovesIndex;
    fen, at := "", start;
    var i := 0;
    ghost var rest := words[start..];
    MovesIndexIs(rest);
    WordsOfNone();
    while i < 6 && at < |words|
      invariant 0 <= i <= 6 && at == start + i <= |words| && i <= MovesIndex(rest)
      invariant fen == Words(rest[..i]) && (fen == "" <==> i == 0)
      decreases |words| - at
    {
      var field := words[at];
      assert field == rest[i];
      at := at + 1;
      if field == "moves" {
        IndexHere(rest, i);
        assert words[at..] == rest[i + 1..];
        return;
      }
      IndexBeyond(rest, i);
      if fen != "" {
        WordsAppend(rest[..i], field);
        fen := fen + " ";
      } else {
        WordsOfOne(field);
      }
      fen := fen + field;
      assert rest[..i + 1] == rest[..i] + [field];
      i := i + 1;
    }
    assert words[at..] == rest[i..];
  }

  lemma IndexHere(words: seq<string>, i: nat)
    requires i < |words| && i <= MovesIndex(words) && words[i] == "moves"
    ensures MovesIndex(words) == i
  {
    MovesIndexIs(words);
  }

  lemma IndexBeyond(words: seq<string>, i: nat)
    requires i < |words| && i <= MovesIndex(words) && words[i] != "moves"
    ensures i + 1 <= MovesIndex(words)
  {
    MovesIndexIs(words);
  }

  lemma WordsOfNone()
    ensures Words([]) == ""
  {
  }

  lemma WordsOfOne(t: string)
    ensures Words([] + [t]) == t
  {
  }

  lemma StreamTail(a: string, line: seq<Move>)
    ensures StreamWords(a + TailText(line)) == StreamWords(a) + Tail(line)
  {
    hide StreamWords, Words, TextsOf, Fields, NoSeparators;
    if line == [] {
      assert a + "" == a && StreamWords(a) + [] == StreamWords(a);
    } else {
      var texts := TextsOf(line);
      var words := Words(texts);
      TextsAreTokens(line);
      WordsWithoutSeparators(texts);
      StreamReadsFields(words);
      FieldsOfWords(texts);
      assert StreamWords("moves") == ["moves"] by { OneStreamWord("moves"); }
      StreamJoin("moves", words);
      StreamJoin(a, "moves" + " " + words);
      assert a + " " + ("moves" + " " + words) == a + (" moves " + words) by { assert " " + "moves" + " " == " moves "; }
    }
  }

  /** The words of the runner's command on the line the engine is given. */
  lemma RunnerWords(startFen: string, line: seq<Move>)
    ensures StreamWords(FirstLine(PositionCommand(FenArgument(startFen), TextsOf(line)), CPP_BREAKS)) ==
            if startFen == START_FEN then ["position", "startpos"] + Tail(line)
            else ["position", "fen"] + LineWords(startFen, line)
  {
    hide StreamWords, PositionCommand, TextsOf, FirstLine, OneLine, TailText, FenArgument;
    CppBreaks();
    CommandText(FenArgument(startFen), line);
    TailOnOneLine(line, CPP_BREAKS);
    if startFen == START_FEN {
      assert FenArgument(startFen) == None by { StartArgument(); }
      StartposOnOneLine();
      StartposOnOneCppLine();
      OneLineJoin(PositionBase(None), TailText(line), CPP_BREAKS);
      WholeLine(PositionCommand(None, TextsOf(line)), CPP_BREAKS);
      StreamTail("position startpos", line);
      TwoWords("position", "startpos");
      assert "position" + " " + "startpos" == "position startpos";
    } else {
      assert FenArgument(startFen) == Some(startFen) by { FenIsArgument(startFen); }
      var head, rest := FirstLine(startFen, CPP_BREAKS), startFen + TailText(line);
      PositionFenOnOneLine(CPP_BREAKS);
      assert PositionCommand(Some(startFen), TextsOf(line)) == "position fen " + rest;
      LineContinues("position fen ", rest, CPP_BREAKS);
      if OneLine(startFen, CPP_BREAKS) {
        LineContinues(startFen, TailText(line), CPP_BREAKS);
        WholeLine(TailText(line), CPP_BREAKS);
        WholeLine(startFen, CPP_BREAKS);
        StreamTail(startFen, line);
      } else {
        LineEnds(startFen, TailText(line), CPP_BREAKS);
      }
      PositionFenWords(FirstLine(rest, CPP_BREAKS));
    }
  }

  lemma StartArgument()
    ensures FenArgument(START_FEN) == None
  {
  }

  lemma FenIsArgument(startFen: string)
    requires startFen != START_FEN
    ensures FenArgument(startFen) == Some(startFen)
  {
  }

  lemma StartposOnOneCppLine()
    ensures OneLine(PositionBase(None), CPP_BREAKS)
  {
    StartposOnOneLine();
  }

  lemma TwoWords(a: string, b: string)
    requires IsStreamWord(a) && IsStreamWord(b)
    ensures StreamWords(a + " " + b) == [a, b]
  {
    hide StreamWords;
    StreamJoin(a, b);
    OneStreamWord(a);
    OneStreamWord(b);
  }

  lemma PositionFenWords(rest: string)
    ensures StreamWords("position fen " + rest) == ["position", "fen"] + StreamWords(rest)
  {
    hide StreamWords;
    TwoWords("position", "fen");
    assert "position" + " " + "fen" == "position fen";
    StreamJoin("position fen", rest);
    assert "position fen" + " " + rest == "position fen " + rest;
  }

  /** Without separators in the start FEN there are none in the command. */
  lemma CommandPlain(startFen: string, line: seq<Move>)
    requires NoSeparators(startFen)
    ensures NoSeparators(PositionCommand(FenArgument(startFen), TextsOf(line)))
  {
    hide Words, TextsOf, PositionCommand;
    CommandText(FenArgument(startFen), line);
    TextsAreTokens(line);
    WordsWithoutSeparators(TextsOf(line));
    assert NoSeparators(" moves ") && NoSeparators("position startpos") && NoSeparators("position fen ");
  }

  /** The words after the position: a first word "moves" starts the list of moves. */
  method FollowWords(b: Board88, words: seq<string>, at: nat, ghost p: Pos)
    requires b.Represents(p) && at <= |words| && (at < |words| && words[at] == "moves" ==> WellFormed(p))
    modifies b, b.sq
    ensures b.Represents(Follow(p, words[at..]))
  {
    hide Obey, WellFormed, Board88.Represents;
    if at < |words| && words[at] == "moves" {
      ApplyMoves88(b, words[at + 1..], p);
      assert words[at..][1..] == words[at + 1..];
    }
  }

  /** A FEN the reader gives up on leaves the initial position instead. */
  method ParseOrStart88(b: Board88, fen: string) returns (ok: bool)
    requires b.sq.Length == 128
    modifies b, b.sq
    ensures forall p :: FourFields(StreamWords(fen), p) ==> ok && b.Represents(p)
    ensures |StreamWords(fen)| < 4 ==> !ok
    ensures !ok ==> b.Represents(START)
  {
    hide StreamWords, NoSeparators, ParsePos, FourFields, Board88.Represents;
    ok := ParseFen88(b, fen);
    if !ok {
      StartIsPlain();
      var _ := ParseFen88(b, START_FEN);
    }
  }

  /** handlePosition on the line of the runner's command that getline delivers. */
  method HandlePosition88(b: Board88, text: string, ghost startFen: string, ghost p: Pos, ghost line: seq<Move>)
    requires text == FirstLine(PositionCommand(FenArgument(startFen), TextsOf(line)), CPP_BREAKS)
    requires ParsePos(startFen) == Some(p) && ReadsAlike(startFen, p, line) && FollowsWellFormed(startFen, p, line)
    requires b.sq.Length == 128
    modifies b, b.sq
    ensures b.Represents(Reached88(startFen, p, line))
  {
    hide StreamWords, NoSeparators, ParsePos, PositionCommand, TextsOf, WellFormed, Words, FourFields, Taken, Behind,
         View,
         Board88.Represents, AllStreamWords, FenArgument, Obey, Follow, FirstLine, LineWords;
    var words := StreamWords(text);
    RunnerWords(startFen, line);
    StreamWordsAreWords(text);
    StartWellFormed();
    if |words| > 1 && words[1] == "startpos" {
      StartIsPlain();
      StartParses();
      var _ := ParseFen88(b, START_FEN);
      assert words[2..] == Tail(line);
      ReachedFromStart(line);
      ViewOfWellFormed(START);
      FollowWords(b, words, 2, START);
    } else if |words| > 1 && words[1] == "fen" {
      ghost var all := LineWords(startFen, line);
      assert words[2..] == all;
      var fen, at := ReadFenWords(words, 2);
      TakenAreRead(words, all);
      var _ := ParseOrStart88(b, fen);
      ghost var q := if |Taken(all)| < 4 then START else View(p);
      if |Taken(all)| >= 4 {
        ViewStands(b, p);
      }
      FirstBehind(words, at, all);
      FollowWords(b, words, at, q);
    }
  }

  lemma FirstBehind(words: seq<string>, at: nat, all: seq<string>)
    requires at <= |words| && words[at..] == Behind(all)
    ensures at < |words| ==> Behind(all) != [] && Behind(all)[0] == words[at]
  {
    hide Behind;
    assert at < |words| ==> words[at..][0] == words[at];
  }

  lemma TakenAreRead(words: seq<string>, all: seq<string>)
    requires AllStreamWords(words) && |words| >= 2 && words[2..] == all
    ensures StreamWords(Words(Taken(all))) == Taken(all)
  {
    hide StreamWords, Words, MovesIndex;
    forall i | 0 <= i < |all| ensures IsStreamWord(all[i]) {
      assert all[i] == words[i + 2];
    }
    StreamOfWords(Taken(all));
  }

  lemma ReachedFromStart(line: seq<Move>)
    ensures Reached88(START_FEN, START, line) == Follow(View(START), Tail(line))
  {
    hide StreamWords, FirstLine, Follow, OneLine, TextsOf, FourFields, MovesIndex, View;
    StartIsPlain();
    WholeLine(START_FEN, CPP_BREAKS);
    var f := StreamWords(START_FEN);
    MovesIndexIn(f, Tail(line));
    assert (f + Tail(line))[6..] == Tail(line);
    TailIndex(START_FEN, line);
  }

  // ----- the main loop -----------------------------------------------------

  /** The words of a line that leaves the engine's board alone. */
  predicate Harmless88(words: seq<string>) {
    words == [] || (words[0] != "ucinewgame" && words[0] != "quit" && words[0] != "position")
  }

  /** No line of the start FEN after the first is a command that touches the board. */
  predicate Quiet88(startFen: string) {
    var lines := LinesOf(startFen, CPP_BREAKS);
    forall i :: 1 <= i < |lines| ==> Harmless88(StreamWords(lines[i]))
  }

  lemma HarmlessTail(words: seq<string>, line: seq<Move>)
    requires Harmless88(words)
    ensures Harmless88(words + Tail(line))
  {
    hide TextsOf;
    assert words != [] ==> (words + Tail(line))[0] == words[0];
    assert words == [] ==> words + Tail(line) == Tail(line);
  }

  lemma LaterLine88(startFen: string, line: seq<Move>, i: nat)
    requires Quiet88(startFen)
    requires 1 <= i < |LinesOf(PositionCommand(FenArgument(startFen), TextsOf(line)), CPP_BREAKS)|
    ensures Harmless88(StreamWords(LinesOf(PositionCommand(FenArgument(startFen), TextsOf(line)), CPP_BREAKS)[i]))
  {
    hide StreamWords, LinesOf, PositionCommand, TextsOf, FirstLine, TailText, OneLine;
    var lines := LinesOf(startFen, CPP_BREAKS);
    CppBreaks();
    if startFen == START_FEN {
      CommandText(None, line);
      TailOnOneLine(line, CPP_BREAKS);
      StartposOnOneCppLine();
      OneLineJoin(PositionBase(None), TailText(line), CPP_BREAKS);
      LinesOfOne(PositionCommand(None, TextsOf(line)), CPP_BREAKS);
    } else {
      hide Harmless88, Tail;
      CommandLinesAre(startFen, line, CPP_BREAKS);
      var last := lines[|lines| - 1];
      StreamTail(last, line);
      if |lines| > 1 {
        HarmlessTail(StreamWords(last), line);
      }
    }
  }

  /** A command other than "position"; only "ucinewgame" touches the board, and "quit" ends the loop. */
  method OtherCommand88(b: Board88, cmd: string) returns (quit: bool)
    requires b.sq.Length == 128
    modifies b, b.sq
    ensures quit == (cmd == "quit")
    ensures cmd == "ucinewgame" ==> b.Represents(START)
    ensures cmd != "ucinewgame" ==> unchanged(b) && unchanged(b.sq)
  {
    hide StreamWords, NoSeparators, ParsePos, FourFields, Board88.Represents;
    if cmd == "ucinewgame" {
      StartIsPlain();
      var _ := ParseFen88(b, START_FEN);
    }
    quit := cmd == "quit";
  }

  /** The main loop on all lines of the runner's command, from a start FEN whose later lines are no commands. */
  method Hear88(b: Board88, text: string, ghost startFen: string, ghost p: Pos, ghost line: seq<Move>)
    requires text == PositionCommand(FenArgument(startFen), TextsOf(line)) && Quiet88(startFen)
    requires ParsePos(startFen) == Some(p) && ReadsAlike(startFen, p, line) && FollowsWellFormed(startFen, p, line)
    requires b.sq.Length == 128
    modifies b, b.sq
    ensures b.Represents(Reached88(startFen, p, line))
  {
    hide StreamWords, ParsePos, PositionCommand, TextsOf, FenArgument, FirstLine, LinesOf, Reached88,
         Board88.Represents,
         ReadsAlike, FollowsWellFormed, Quiet88;
    var lines := LinesOf(text, CPP_BREAKS);
    assert |lines| > 0;
    var quit, i := false, 0;
    while i < |lines| && !quit
      invariant 0 <= i <= |lines| && (i > 0 ==> b.Represents(Reached88(startFen, p, line)))
      invariant !quit
    {
      var words := StreamWords(lines[i]);
      if i > 0 {
        LaterLine88(startFen, line, i);
      } else {
        RunnerWords(startFen, line);
      }
      if words != [] {
        if words[0] == "position" {
          HandlePosition88(b, lines[i], startFen, p, line);
        } else {
          quit := OtherCommand88(b, words[0]);
        }
      }
      i := i + 1;
    }
  }

  // ----- the reply ---------------------------------------------------------

  /** Asked by the runner for a move on a start FEN that keeps up, the engine replies with the text of a legal
      move of the runner's own position. */
  method EngineReplies88(b: Board88, text: string, ghost startFen: string, ghost p: Pos, ghost line: seq<Move>)
    returns (reply: string)
    requires text == PositionCommand(FenArgument(startFen), TextsOf(line)) && b.sq.Length == 128
    requires ParsePos(startFen) == Some(p) && WellFormed(View(p)) && KeepsUp(startFen, p)
    requires LegalLine(p, line) && HasLegalMove(Play(p, line))
    modifies b, b.sq
    ensures exists m :: Legal(Play(p, line), m) && MoveText(m) == reply
  {
    hide ParsePos, PositionCommand, TextsOf, FenArgument, Reached88, Board88.Represents, WellFormed, LegalLine, Play,
         Legal,
         MoveText, View, KeepsUp, ReadsAlike, Quiet88;
    KeptUp(startFen, p, line);
    KeepsUpIsQuiet(startFen, p);
    Hear88(b, text, startFen, p, line);
    RunnerSeen(startFen, p, line);
    reply := PickBestMove88(b, View(Play(p, line)));
    forall m | Legal(View(Play(p, line)), m) ensures Legal(Play(p, line), m) {
      ViewLegal(Play(p, line), m);
    }
  }

  lemma KeepsUpIsQuiet(startFen: string, p: Pos)
    requires KeepsUp(startFen, p)
    ensures Quiet88(startFen)
  {
    hide StreamWords, FourFields;
    LinesOfOne(startFen, CPP_BREAKS);
  }

  /** Throughout such a game the engine's view is well formed and has a legal move whenever the runner's position has. */
  lemma RunnerSeen(startFen: string, p: Pos, line: seq<Move>)
    requires KeepsUp(startFen, p) && WellFormed(View(p)) && LegalLine(p, line)
    ensures WellFormed(View(Play(p, line)))
    ensures HasLegalMove(Play(p, line)) ==> HasLegalMove(View(Play(p, line)))
  {
    hide StreamWords, FourFields, WellFormed, LegalLine, Play, Legal, View, OneLine, MovesIndex, NoneLegal;
    LineStarts(p, line);
    ViewLine(p, line);
    RunPreserves(View(p), line);
    LineHead(p, line);
    if HasLegalMove(Play(p, line)) {
      var m :| Legal(Play(p, line), m);
      if line == [] {
        ViewLegal(p, m);
      } else {
        ViewOfPlay(After(p, line[0]), line[1..], p, line[0]);
      }
    }
  }

  // ----- two more start FENs that fail -------------------------------------

  /** Tokens with one separator character between them. */
  function Joined(tokens: seq<string>, c: char): string {
    if tokens == [] then "" else if |tokens| == 1 then tokens[0] else tokens[0] + [c] + Joined(tokens[1..], c)
  }

  lemma {:induction false} JoinedFields(tokens: seq<string>, c: char)
    requires AllTokens(tokens) && IsBlank(c)
    ensures Fields(Joined(tokens, c)) == tokens
  {
    if |tokens| == 1 {
      OneWord(tokens[0]);
    } else if |tokens| > 1 {
      JoinedFields(tokens[1..], c);
      OneWord(tokens[0]);
      FieldsAcross(tokens[0], c, Joined(tokens[1..], c));
    }
  }

  lemma {:induction false} JoinedIsOneWord(tokens: seq<string>, c: char)
    requires AllTokens(tokens) && tokens != [] && !IsSpace(c)
    ensures IsStreamWord(Joined(tokens, c))
  {
    if |tokens| > 1 {
      JoinedIsOneWord(tokens[1..], c);
    }
  }

  const FS: char := 28 as char

  /** The six fields of a position separated by character 28. */
  function FsText(p: Pos): string {
    Joined([PlacementFrom(p.squares, 7), SideText(p.side), CastlingText(p.rights), EpText(p.ep), Decimal(p.half),
            Decimal(p.full)], FS)
  }

  lemma FsFields(p: Pos)
    ensures Fields(FsText(p)) == Fields(FenText(p)) && |Fields(FenText(p))| == 6 && IsStreamWord(FsText(p))
  {
    hide Fields, Words, Joined, PlacementFrom, CastlingText, EpText, Decimal, IsStreamWord;
    var tokens := [PlacementFrom(p.squares, 7), SideText(p.side), CastlingText(p.rights), EpText(p.ep), Decimal(p.half),
                   Decimal(p.full)];
    FenTokens(p);
    FieldsOfWords(tokens);
    JoinedFields(tokens, FS);
    JoinedIsOneWord(tokens, FS);
  }

  /** Fields separated by character 28 parse, but the engine reads them as one word and falls back on the initial
      position, where it stays. */
  lemma SeparatorsFail(p: Pos, line: seq<Move>)
    requires FenValid(p)
    ensures ParsePos(FsText(p)) == Some(p) && StreamWords(FsText(p)) == [FsText(p)]
    ensures Reached88(FsText(p), p, line) == START
    ensures ReadsAlike(FsText(p), p, line) && FollowsWellFormed(FsText(p), p, line)
  {
    hide Fields, FenText, FsText, ParsePos, FenValid, StreamWords, FirstLine, Obey, OneLine, TextsOf, View,
         WellFormed, MovesIndex;
    var s := FsText(p);
    FsFields(p);
    FenRoundTrip(p);
    SameFields(s, FenText(p));
    OneStreamWord(s);
    NoBreakInWord(s);
    WholeLine(s, CPP_BREAKS);
    MovesIsLate(s);
    var tail := HeardTail(s, line, CPP_BREAKS);
    TailIndex(s, line);
    OneWordIndex(s, tail);
    MoveIsNotMoves(line);
    assert |[s] + tail| > 1 ==> ([s] + tail)[2..] == tail[1..];
  }

  lemma NoBreakInWord(s: string)
    requires IsStreamWord(s)
    ensures OneLine(s, CPP_BREAKS)
  {
  }

  lemma OneWordIndex(s: string, tail: seq<string>)
    requires MovesIndex(tail) == 0 && |Fields(s)| >= 4
    ensures MovesIndex([s] + tail) == 1
  {
    assert ([s] + tail)[1..] == tail;
    assert s != "moves" by {
      if s == "moves" { OneWord(s); }
    }
  }
}
