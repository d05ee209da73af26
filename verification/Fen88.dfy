/** The C++ engine's FEN reader: on every FEN the oracle accepts it builds a board
    representing the oracle's position. */
module Fen88 {
  import opened ChessTypes
  import opened Geometry
  import opened Uci
  import opened Text
  import opened Fen
  import opened Square88
  import opened Engine88

  // ----- the placement field as a stream of characters -------------------------

  /** Parts after the first, each with its slash in front. */
  function SlashTail(parts: seq<string>): string {
    if parts == [] then "" else "/" + parts[0] + SlashTail(parts[1..])
  }

  predicate NoSlashes(parts: seq<string>) {
    forall i :: 0 <= i < |parts| ==> '/' !in parts[i]
  }

  lemma SlashTailOf(part: string, parts: seq<string>)
    ensures SlashTail([part] + parts) == "/" + part + SlashTail(parts) && SlashTail([]) == ""
  {
    assert ([part] + parts)[1..] == parts;
  }

  lemma NoSlashesAlso(part: string, parts: seq<string>)
    requires NoSlashes(parts) && '/' !in part
    ensures NoSlashes([part] + parts)
  {
  }

  /** The text is its parts, separated by slashes; no part holds a slash. */
  lemma {:induction false} PartsRejoin(text: string)
    ensures "/" + text == SlashTail(SlashParts(text)) && NoSlashes(SlashParts(text))
    decreases |text|
  {
    hide SlashTail, NoSlashes;
    var n := Slash(text);
    NoSlashesAlso(text[..n], []) by { NoParts(); }
    if n < |text| {
      var rest := text[n + 1..];
      PartsRejoin(rest);
      SlashTailOf(text[..n], SlashParts(rest));
      NoSlashesAlso(text[..n], SlashParts(rest));
      assert "/" + text == "/" + text[..n] + ("/" + rest);
    } else {
      SlashTailOf(text, []);
      assert text[..n] == text && [text] + [] == [text];
      assert "/" + text + "" == "/" + text;
    }
  }

  lemma NoParts()
    ensures NoSlashes([])
  {
  }

  /** charToPiece, with 0 for every other character. */
  function CharToPiece(c: char): int {
    match CharPiece(c) case None => 0 case Some(piece) => Code(piece)
  }

  lemma CharCode(c: char)
    ensures CharToPiece(c) != 0 <==> CharPiece(c).Some?
  {
  }

  /** s has been passed when the reader stands on the given file and rank. */
  predicate Passed(s: Square, rank: int, file: int) {
    RankOf(s) > rank || (RankOf(s) == rank && FileOf(s) < file)
  }

  /** The squares passed hold their men, the others nothing. */
  ghost predicate ReadUpTo(a: seq<int>, target: Squares, rank: int, file: int) {
    |a| == 128 && forall s: Square :: a[To88(s)] == if Passed(s, rank, file) then Code(target[s]) else 0
  }

  lemma ReadRun(a: seq<int>, target: Squares, rank: int, file: nat, n: nat)
    requires ReadUpTo(a, target, rank, file)
    requires forall s: Square :: RankOf(s) == rank && file <= FileOf(s) < file + n ==> target[s] == Empty
    ensures ReadUpTo(a, target, rank, file + n)
  {
    hide To88, FileOf, RankOf;
    EmptyCode();
  }

  lemma ReadMan(a: seq<int>, target: Squares, rank: int, file: nat, s: Square)
    requires ReadUpTo(a, target, rank, file) && RankOf(s) == rank && FileOf(s) == file
    ensures 0 <= To88(s) < 128 && ReadUpTo(a[To88(s) := Code(target[s])], target, rank, file + 1)
  {
    hide To88, FileOf, RankOf, Code;
    forall t: Square
      ensures 0 <= To88(t) < 128 && (To88(s) == To88(t) ==> s == t)
      ensures FileOf(t) == FileOf(s) && RankOf(t) == RankOf(s) ==> t == s
    {
      To88Injective(s, t);
      To88Injective(t, t);
      if FileOf(t) == FileOf(s) && RankOf(t) == RankOf(s) {
        SameSquare(t, s);
      }
    }
  }

  lemma ReadRankDone(a: seq<int>, target: Squares, rank: int)
    requires ReadUpTo(a, target, rank, 8)
    ensures ReadUpTo(a, target, rank - 1, 0)
  {
    forall s: Square ensures Passed(s, rank, 8) <==> Passed(s, rank - 1, 0) {
    }
    hide To88, FileOf, RankOf;
  }

  lemma ReadAll(a: seq<int>, target: Squares)
    requires ReadUpTo(a, target, 0, 8)
    ensures Shows(a, target)
  {
    forall s: Square ensures Passed(s, 0, 8) {
    }
    hide To88, FileOf, RankOf, Code;
  }

  lemma ReadNothing(a: seq<int>, target: Squares)
    requires |a| == 128 && forall i :: 0 <= i < 128 ==> a[i] == 0
    ensures ReadUpTo(a, target, 7, 0)
  {
    forall s: Square ensures 0 <= To88(s) < 128 && !Passed(s, 7, 0) {
      To88Injective(s, s);
    }
    hide To88, FileOf, RankOf;
  }

  /** Where the reader stands in the parts: inside part k with j characters read. */
  ghost predicate At(text: string, i: nat, parts: seq<string>, k: nat, j: nat)
    requires i <= |text|
  {
    k < |parts| && j <= |parts[k]| && text[i..] == parts[k][j..] + SlashTail(parts[k + 1..])
  }

  lemma NextInPart(text: string, i: nat, parts: seq<string>, k: nat, j: nat)
    requires i < |text| && At(text, i, parts, k, j) && forall x :: 0 <= x < |parts| ==> '/' !in parts[x]
    ensures if text[i] == '/' then j == |parts[k]| && k + 1 < |parts| && At(text, i + 1, parts, k + 1, 0)
            else j < |parts[k]| && parts[k][j] == text[i] && At(text, i + 1, parts, k, j + 1)
  {
    assert text[i..][0] == text[i] && text[i..][1..] == text[i + 1..];
    if j < |parts[k]| {
      assert parts[k][j..][0] == parts[k][j] && parts[k][j..][1..] == parts[k][j + 1..];
      assert parts[k][j] in parts[k];
    } else {
      assert parts[k][j..] == "";
      assert parts[k + 1..] != [];
      assert parts[k + 1..][1..] == parts[k + 2..];
      assert SlashTail(parts[k + 1..]) == "/" + parts[k + 1] + SlashTail(parts[k + 2..]);
      assert text[i + 1..] == parts[k + 1] + SlashTail(parts[k + 2..]);
      assert parts[k + 1][0..] == parts[k + 1];
    }
  }

  lemma NextAtEnd(text: string, parts: seq<string>, k: nat, j: nat)
    requires At(text, |text|, parts, k, j)
    ensures j == |parts[k]| && k + 1 == |parts|
  {
    assert text[|text|..] == "";
    assert |parts[k][j..]| == 0 && |SlashTail(parts[k + 1..])| == 0;
  }

  /** Every character of a fitting rank string adds its cells, at most up to the eighth. */
  lemma CharAdds(parts: seq<string>, k: nat, j: nat)
    requires RanksFit(parts) && k < 8 && j < |parts[k]|
    ensures Expand(parts[k][..j]).Some? && CharCells(parts[k][j]).Some?
    ensures Expand(parts[k][..j + 1]) == Some(Expand(parts[k][..j]).value + CharCells(parts[k][j]).value)
    ensures Expand(parts[k][..j + 1]).value <= Expand(parts[k]).value && |Expand(parts[k]).value| == 8
  {
    ExpandPrefix(parts[k], j);
    ExpandPrefix(parts[k], j + 1);
    ExpandStep(parts[k], j);
  }

  /** Those cells stand where the target has them. */
  lemma CellsInTarget(parts: seq<string>, k: nat, j: nat, s: Square)
    requires RanksFit(parts) && k < 8 && j < |parts[k]| && RankOf(s) == 7 - k
    requires Expand(parts[k][..j]).Some? && CharCells(parts[k][j]).Some?
    ensures var file := |Expand(parts[k][..j]).value|;
            var cells := CharCells(parts[k][j]).value;
            file <= FileOf(s) < file + |cells| ==> RanksSquares(parts)[s] == cells[FileOf(s) - file]
  {
    CharAdds(parts, k, j);
    hide Expand, CharCells, RanksFit;
    var row := Expand(parts[k]).value;
    var file := |Expand(parts[k][..j]).value|;
    var cells := CharCells(parts[k][j]).value;
    assert forall x :: file <= x < file + |cells| ==> row[x] == cells[x - file];
  }

  /** Part k of the text read up to its character j: the reader's rank, file and board. */
  ghost predicate Reading(text: string, i: nat, k: nat, j: nat, rank: int, file: int, a: seq<int>) {
    var parts := SlashParts(text);
    && i <= |text| && RanksFit(parts) && NoSlashes(parts) && At(text, i, parts, k, j) && k < 8 && rank == 7 - k
    && Expand(parts[k][..j]).Some? && file == |Expand(parts[k][..j]).value|
    && ReadUpTo(a, RanksSquares(parts), rank, file)
  }

  lemma ReadingStarts(text: string, a: seq<int>)
    requires RanksFit(SlashParts(text)) && |a| == 128 && forall i :: 0 <= i < 128 ==> a[i] == 0
    ensures Reading(text, 0, 0, 0, 7, 0, a)
  {
    hide SlashParts, RanksFit, RanksSquares, ReadUpTo;
    var parts := SlashParts(text);
    PartsRejoin(text);
    ReadNothing(a, RanksSquares(parts));
    assert ("/" + text)[1..] == text && parts[0][0..] == parts[0];
    assert ("/" + parts[0] + SlashTail(parts[1..]))[1..] == parts[0] + SlashTail(parts[1..]);
    assert text[0..] == text && parts[0][..0] == "";
    EightRanks(text);
  }

  lemma EightRanks(text: string)
    requires RanksFit(SlashParts(text))
    ensures |SlashParts(text)| == 8
  {
  }

  lemma ReadingSlash(text: string, i: nat, k: nat, j: nat, rank: int, file: int, a: seq<int>)
    requires Reading(text, i, k, j, rank, file, a) && i < |text| && text[i] == '/'
    ensures Reading(text, i + 1, k + 1, 0, rank - 1, 0, a)
  {
    hide SlashParts, RanksSquares, ReadUpTo, At, Expand;
    var parts := SlashParts(text);
    NextInPart(text, i, parts, k, j);
    WholePart(parts, k, j);
    ReadRankDone(a, RanksSquares(parts), rank);
    assert parts[k + 1][..0] == "";
    ExpandNothing();
  }

  lemma WholePart(parts: seq<string>, k: nat, j: nat)
    requires RanksFit(parts) && k < 8 && j == |parts[k]|
    ensures Expand(parts[k][..j]).Some? && |Expand(parts[k][..j]).value| == 8
  {
    assert parts[k][..j] == parts[k];
  }

  lemma ReadingDigit(text: string, i: nat, k: nat, j: nat, rank: int, file: int, a: seq<int>)
    requires Reading(text, i, k, j, rank, file, a) && i < |text| && IsDigit(text[i])
    ensures Reading(text, i + 1, k, j + 1, rank, file + DigitValue(text[i]), a)
  {
    hide SlashParts, RanksSquares, ReadUpTo, At, Expand, FileOf, RankOf, RanksFit;
    var parts := SlashParts(text);
    assert text[i] != '/';
    NextInPart(text, i, parts, k, j);
    EightRanks(text);
    CharAdds(parts, k, j);
    var n := DigitValue(text[i]);
    assert CharCells(text[i]) == Some(Empties(n));
    forall s: Square | RankOf(s) == rank && file <= FileOf(s) < file + n ensures RanksSquares(parts)[s] == Empty {
      CellsInTarget(parts, k, j, s);
    }
    ReadRun(a, RanksSquares(parts), rank, file, n);
  }

  lemma ReadingMan(text: string, i: nat, k: nat, j: nat, rank: int, file: int, a: seq<int>)
    requires Reading(text, i, k, j, rank, file, a) && i < |text| && text[i] != '/' && !IsDigit(text[i])
    ensures CharPiece(text[i]).Some? && 0 <= rank < 8 && 0 <= file < 8
    ensures |a| == 128 && Reading(text, i + 1, k, j + 1, rank, file + 1, a[16 * rank + file := CharToPiece(text[i])])
  {
    hide SlashParts, RanksSquares, At, Expand, FileOf, RankOf, RanksFit;
    var parts := SlashParts(text);
    NextInPart(text, i, parts, k, j);
    EightRanks(text);
    CharAdds(parts, k, j);
    var piece := CharPiece(text[i]).value;
    assert CharCells(text[i]) == Some([piece]);
    var s: Square := 8 * rank + file;
    Coordinates64(rank, file);
    CellsInTarget(parts, k, j, s);
    assert To88(s) == 16 * rank + file;
    ReadMan(a, RanksSquares(parts), rank, file, s);
  }

  lemma Coordinates64(rank: int, file: int)
    requires 0 <= rank < 8 && 0 <= file < 8
    ensures RankOf(8 * rank + file) == rank && FileOf(8 * rank + file) == file
  {
  }

  lemma ReadingEnds(text: string, k: nat, j: nat, rank: int, file: int, a: seq<int>)
    requires Reading(text, |text|, k, j, rank, file, a)
    ensures Shows(a, RanksSquares(SlashParts(text)))
  {
    hide SlashParts, RanksSquares, ReadUpTo, At, Expand;
    var parts := SlashParts(text);
    NextAtEnd(text, parts, k, j);
    WholePart(parts, k, j);
    ReadAll(a, RanksSquares(parts));
  }

  // ----- the reader --------------------------------------------------------

  /** The placement field, written into an empty board; false when it gives up. */
  method ReadPlacement88(b: Board88, text: string) returns (ok: bool)
    requires b.sq.Length == 128 && forall i :: 0 <= i < 128 ==> b.sq[i] == 0
    modifies b.sq
    ensures ParsePlacement(text).Some? ==> ok && Shows(b.sq[..], ParsePlacement(text).value)
  {
    hide Reading, SlashParts, RanksFit, RanksSquares, Shows, CharPiece;
    var rank, file := 7, 0;
    ghost var k, j := 0, 0;
    ghost var fits := RanksFit(SlashParts(text));
    if fits {
      ReadingStarts(text, b.sq[..]);
    }
    for i := 0 to |text|
      invariant file >= 0
      invariant fits ==> Reading(text, i, k, j, rank, file, b.sq[..])
    {
      var c := text[i];
      if c == '/' {
        if fits {
          ReadingSlash(text, i, k, j, rank, file, b.sq[..]);
        }
        k, j := k + 1, 0;
        rank, file := rank - 1, 0;
      } else if IsDigit(c) {
        if fits {
          ReadingDigit(text, i, k, j, rank, file, b.sq[..]);
        }
        j := j + 1;
        file := file + DigitValue(c);
      } else {
        CharCode(c);
        ghost var next := if |b.sq[..]| == 128 && 0 <= rank < 8 && 0 <= file < 8
                          then b.sq[..][16 * rank + file := CharToPiece(c)] else [];
        if fits {
          ReadingMan(text, i, k, j, rank, file, b.sq[..]);
        }
        j := j + 1;
        var piece := CharToPiece(c);
        if piece == 0 || rank < 0 || rank > 7 || file < 0 || file > 7 {
          return false;
        }
        b.sq[rank * 16 + file] := piece;
        assert b.sq[..] == next;
        file := file + 1;
      }
    }
    if fits {
      ReadingEnds(text, k, j, rank, file, b.sq[..]);
    }
    return true;
  }

  /** The rights named by the first letters of the castling field. */
  function RightsNamed(text: string): Rights {
    Rights('K' in text, 'Q' in text, 'k' in text, 'q' in text)
  }

  lemma NameRight(r: Rights, text: string, i: nat)
    requires i < |text| && r == RightsNamed(text[..i])
    ensures RightsNamed(text[..i + 1]) ==
            if text[i] == 'K' then r.(wk := true) else if text[i] == 'Q' then r.(wq := true)
            else if text[i] == 'k' then r.(bk := true) else if text[i] == 'q' then r.(bq := true) else r
  {
    assert text[..i + 1] == text[..i] + [text[i]];
  }

  /** The castling field: letters set bits, other characters are passed over. */
  method ReadCastling88(text: string) returns (castling: nat)
    ensures castling == RightsBits(if text == "-" then RightsNamed("") else RightsNamed(text))
  {
    hide Or, RightsBits, RightsNamed;
    castling := 0;
    NoRights();
    if text != "-" {
      assert text[..0] == "";
      for i := 0 to |text|
        invariant castling == RightsBits(RightsNamed(text[..i]))
      {
        NameRight(RightsNamed(text[..i]), text, i);
        GrantRight(RightsNamed(text[..i]));
        match text[i]
        case 'K' => castling := Or(castling, CR_WK);
        case 'Q' => castling := Or(castling, CR_WQ);
        case 'k' => castling := Or(castling, CR_BK);
        case 'q' => castling := Or(castling, CR_BQ);
        case _ =>
      }
      assert text[..|text|] == text;
    }
  }

  lemma NoRights()
    ensures RightsBits(RightsNamed("")) == 0
  {
  }

  /** squareFromName: looks at the first two characters only. */
  function SquareFromName(s: string): int {
    if |s| < 2 then -1
    else var file, rank := s[0] as int - 'a' as int, s[1] as int - '1' as int;
         if file < 0 || file > 7 || rank < 0 || rank > 7 then -1 else rank * 16 + file
  }

  /** Where the oracle reads a square's name, so does the engine. */
  lemma SquareFromNameAgrees(s: Square)
    ensures SquareFromName(SquareName(s)) == To88(s)
  {
    NameLetters(s);
  }

  lemma EpAgrees(text: string)
    requires ParseEp(text).Some?
    ensures (if text == "-" then -1 else SquareFromName(text)) == Ep88(ParseEp(text).value)
  {
    if text != "-" {
      SquareIndexRoundTrip(text);
      var s: Square :| SquareName(s) == text;
      SquareNameRoundTrip(s);
      SquareFromNameAgrees(s);
    }
  }

  // ----- words -------------------------------------------------------------

  /** isspace in the C locale: unlike Python's split, not the separators 28 to 31. */
  predicate IsSpace(c: char) { c == ' ' || 9 <= c as int <= 13 }

  predicate NoSeparators(s: string) {
    forall i :: 0 <= i < |s| ==> !(28 <= s[i] as int <= 31)
  }

  function WordLength(s: string): (n: nat)
    ensures n <= |s| && forall i :: 0 <= i < n ==> !IsSpace(s[i])
    ensures n < |s| ==> IsSpace(s[n])
  {
    if s == [] || IsSpace(s[0]) then 0 else 1 + WordLength(s[1..])
  }

  /** The words successive stream reads deliver. */
  function StreamWords(s: string): seq<string>
    decreases |s|
  {
    if s == [] then []
    else if IsSpace(s[0]) then StreamWords(s[1..])
    else [s[..WordLength(s)]] + StreamWords(s[WordLength(s)..])
  }

  lemma {:induction false} SameLength(s: string)
    requires NoSeparators(s)
    ensures WordLength(s) == TokenLength(s)
  {
    if s != [] && !IsBlank(s[0]) {
      SameLength(s[1..]);
    }
  }

  /** Without the separator characters a stream reads the fields Python's split gives. */
  lemma {:induction false} StreamReadsFields(s: string)
    requires NoSeparators(s)
    ensures StreamWords(s) == Fields(s)
    decreases |s|
  {
    if s != [] {
      SameLength(s);
      if IsBlank(s[0]) {
        StreamReadsFields(s[1..]);
      } else {
        StreamReadsFields(s[WordLength(s)..]);
      }
    }
  }

  lemma WordBefore(a: string, b: string)
    requires a != [] && !IsSpace(a[0])
    ensures WordLength(a + " " + b) == WordLength(a)
  {
    var s := a + " " + b;
    var n := WordLength(a);
    assert forall i :: 0 <= i < |a| ==> s[i] == a[i];
    assert s[|a|] == ' ';
    assert n == |a| || IsSpace(a[n]);
  }

  /** Reading words distributes over a separating space. */
  lemma {:induction false} StreamJoin(a: string, b: string)
    ensures StreamWords(a + " " + b) == StreamWords(a) + StreamWords(b)
    decreases |a|
  {
    var s := a + " " + b;
    if a == [] {
      assert s[1..] == b;
    } else if IsSpace(a[0]) {
      StreamJoin(a[1..], b);
      assert s[1..] == a[1..] + " " + b;
    } else {
      var n := WordLength(a);
      WordBefore(a, b);
      StreamJoin(a[n..], b);
      assert s[n..] == a[n..] + " " + b;
      assert s[..n] == a[..n];
    }
  }

  /** A word a stream can deliver. */
  predicate IsStreamWord(s: string) {
    s != [] && forall i :: 0 <= i < |s| ==> !IsSpace(s[i])
  }

  predicate AllStreamWords(words: seq<string>) {
    forall i :: 0 <= i < |words| ==> IsStreamWord(words[i])
  }

  lemma OneStreamWord(s: string)
    requires IsStreamWord(s)
    ensures StreamWords(s) == [s]
  {
    assert WordLength(s) == |s|;
    assert s[..|s|] == s;
  }

  lemma {:induction false} StreamWordsAreWords(s: string)
    ensures AllStreamWords(StreamWords(s))
    decreases |s|
  {
    if s != [] {
      if IsSpace(s[0]) {
        StreamWordsAreWords(s[1..]);
      } else {
        StreamWordsAreWords(s[WordLength(s)..]);
      }
    }
  }

  /** Reading a join gives the words back. */
  lemma {:induction false} StreamOfWords(words: seq<string>)
    requires AllStreamWords(words)
    ensures StreamWords(Words(words)) == words
  {
    if |words| == 1 {
      OneStreamWord(words[0]);
    } else if |words| > 1 {
      StreamOfWords(words[1..]);
      OneStreamWord(words[0]);
      StreamJoin(words[0], Words(words[1..]));
    }
  }

  // ----- whole texts -------------------------------------------------------

  /** The four fields the engine reads are those of p; the counters are any text. */
  ghost predicate FourFields(fields: seq<string>, p: Pos) {
    && |fields| >= 4
    && ParsePlacement(fields[0]) == Some(p.squares) && ParseSide(fields[1]) == Some(p.side)
    && ParseCastling(fields[2]) == Some(p.rights) && ParseEp(fields[3]) == Some(p.ep)
  }

  lemma ParsedHasFourFields(fen: string)
    requires ParsePos(fen).Some?
    ensures FourFields(Fields(fen), ParsePos(fen).value)
  {
    hide Fields, ParsePlacement, ParseSide, ParseCastling, ParseEp, ParseInt;
  }

  lemma AcceptedHasFourWords(fen: string)
    requires NoSeparators(fen) && ParsePos(fen).Some?
    ensures FourFields(StreamWords(fen), ParsePos(fen).value)
  {
    hide FourFields, ParsePos, Fields, StreamWords, NoSeparators;
    StreamReadsFields(fen);
    ParsedHasFourFields(fen);
  }

  /** parseFen into an existing board, cleared first: four words that describe a position leave that position,
      whatever the counters say, and fewer are refused. */
  method ParseFen88(b: Board88, fen: string) returns (ok: bool)
    requires b.sq.Length == 128
    modifies b, b.sq
    ensures forall p :: FourFields(StreamWords(fen), p) ==> ok && b.Represents(p)
    ensures NoSeparators(fen) && ParsePos(fen).Some? ==> ok && b.Represents(ParsePos(fen).value)
    ensures |StreamWords(fen)| < 4 ==> !ok
  {
    hide ParsePos, StreamWords, Fields, NoSeparators, ParsePlacement, ParseCastling, ParseEp, Shows, RightsBits,
         SquareFromName, RightsNamed, EpStands;
    if NoSeparators(fen) && ParsePos(fen).Some? {
      AcceptedHasFourWords(fen);
    }
    forall i | 0 <= i < 128 {
      b.sq[i] := 0;
    }
    b.whiteToMove, b.castling, b.ep := true, 0, -1;
    var words := StreamWords(fen);
    if |words| < 4 {
      return false;
    }
    ok := ReadPlacement88(b, words[0]);
    if !ok {
      return false;
    }
    b.whiteToMove := words[1] == "w";
    b.castling := ReadCastling88(words[2]);
    b.ep := if words[3] == "-" then -1 else SquareFromName(words[3]);
    forall p | FourFields(words, p) ensures b.Represents(p) {
      EpAgrees(words[3]);
      EpStandsExact(p);
      CastlingAgrees(words[2]);
    }
    return true;
  }

  lemma CastlingAgrees(text: string)
    requires ParseCastling(text).Some?
    ensures ParseCastling(text).value == if text == "-" then RightsNamed("") else RightsNamed(text)
  {
  }
}
