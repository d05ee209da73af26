/** FEN text (section 16.1 of the PGN Specification) as the repository reads and writes it. */
module Fen {
  import opened ChessTypes
  import opened Rules
  import opened Uci
  import opened Text

  // ----- pieces and ranks --------------------------------------------------

  function KindChar(k: Kind): char {
    match k case Pawn => 'p' case Knight => 'n' case Bishop => 'b' case Rook => 'r' case Queen => 'q' case King => 'k'
  }

  function PieceChar(piece: Piece): char {
    match piece
    case Empty => '.'
    case Man(Black, k) => KindChar(k)
    case Man(White, Pawn) => 'P'
    case Man(White, Knight) => 'N'
    case Man(White, Bishop) => 'B'
    case Man(White, Rook) => 'R'
    case Man(White, Queen) => 'Q'
    case Man(White, King) => 'K'
  }

  /** The man a FEN letter stands for. */
  function CharPiece(c: char): Option<Piece> {
    match c
    case 'p' => Some(Man(Black, Pawn))
    case 'n' => Some(Man(Black, Knight))
    case 'b' => Some(Man(Black, Bishop))
    case 'r' => Some(Man(Black, Rook))
    case 'q' => Some(Man(Black, Queen))
    case 'k' => Some(Man(Black, King))
    case 'P' => Some(Man(White, Pawn))
    case 'N' => Some(Man(White, Knight))
    case 'B' => Some(Man(White, Bishop))
    case 'R' => Some(Man(White, Rook))
    case 'Q' => Some(Man(White, Queen))
    case 'K' => Some(Man(White, King))
    case _ => None
  }

  function Empties(n: nat): seq<Piece> { seq(n, _ => Empty) }

  /** What one character adds to a rank: a run of empty squares or a man. */
  function CharCells(c: char): Option<seq<Piece>> {
    if IsDigit(c) then
      if 1 <= DigitValue(c) <= 8 then Some(Empties(DigitValue(c))) else None
    else match CharPiece(c)
         case None => None
         case Some(piece) => Some([piece])
  }

  /** The cells a rank string spells out; None when a character is not allowed. */
  function Expand(s: string): Option<seq<Piece>> {
    if s == [] then Some([])
    else match (Expand(s[..|s| - 1]), CharCells(s[|s| - 1]))
         case (Some(before), Some(more)) => Some(before + more)
         case _ => None
  }

  /** A prefix of an allowed rank string spells out a prefix of its cells. */
  lemma {:induction false} ExpandPrefix(s: string, i: nat)
    requires i <= |s| && Expand(s).Some?
    ensures Expand(s[..i]).Some? && Expand(s[..i]).value <= Expand(s).value
    decreases |s|
  {
    if i == |s| {
      assert s[..i] == s;
    } else {
      ExpandPrefix(s[..|s| - 1], i);
      assert s[..|s| - 1][..i] == s[..i];
    }
  }

  lemma ExpandStep(s: string, i: nat)
    requires i < |s|
    ensures Expand(s[..i + 1]) == match (Expand(s[..i]), CharCells(s[i]))
                                  case (Some(before), Some(more)) => Some(before + more)
                                  case _ => None
  {
    assert s[..i + 1][..i] == s[..i];
  }

  function RunText(run: nat): string { if run == 0 then "" else Decimal(run) }

  /** The text of the first n cells: finished text, and the run of empty cells still open. */
  function RankUpTo(cells: seq<Piece>, n: nat): (string, nat)
    requires n <= |cells|
  {
    if n == 0 then ("", 0)
    else var (out, run) := RankUpTo(cells, n - 1);
         if cells[n - 1] == Empty then (out, run + 1)
         else (out + RunText(run) + [PieceChar(cells[n - 1])], 0)
  }

  function RankText(cells: seq<Piece>): string {
    var (out, run) := RankUpTo(cells, |cells|);
    out + RunText(run)
  }

  lemma CharPieceRoundTrip(piece: Piece)
    requires piece.Man?
    ensures CharPiece(PieceChar(piece)) == Some(piece) && !IsDigit(PieceChar(piece))
    ensures PieceChar(piece) != '/' && !IsBlank(PieceChar(piece))
  {
  }

  lemma ExpandNothing()
    ensures Expand("") == Some([])
  {
  }

  lemma ExpandAppend(s: string, c: char)
    ensures Expand(s + [c]) == match (Expand(s), CharCells(c))
                               case (Some(before), Some(more)) => Some(before + more)
                               case _ => None
  {
    assert (s + [c])[..|s|] == s;
  }

  lemma ExpandRun(s: string, run: nat)
    requires Expand(s).Some? && run <= 8
    ensures Expand(s + RunText(run)) == Some(Expand(s).value + Empties(run))
  {
    if run == 0 {
      assert s + "" == s && Expand(s).value + Empties(0) == Expand(s).value;
    } else {
      assert RunText(run) == [DigitChar(run)];
      ExpandAppend(s, DigitChar(run));
    }
  }

  lemma {:induction false} ExpandRank(cells: seq<Piece>, n: nat)
    requires n <= |cells| <= 8
    ensures var (out, run) := RankUpTo(cells, n);
            run <= n && Expand(out).Some? && Expand(out).value + Empties(run) == cells[..n]
  {
    hide Expand, RunText, PieceChar, CharPiece;
    ExpandNothing();
    if n > 0 {
      ExpandRank(cells, n - 1);
      var (out, run) := RankUpTo(cells, n - 1);
      assert cells[..n] == cells[..n - 1] + [cells[n - 1]];
      if cells[n - 1] == Empty {
        assert Empties(run + 1) == Empties(run) + [Empty];
      } else {
        ExpandRun(out, run);
        CharPieceRoundTrip(cells[n - 1]);
        ExpandAppend(out + RunText(run), PieceChar(cells[n - 1]));
        assert cells[..n] + Empties(0) == cells[..n];
      }
    }
  }

  /** Reading a written rank gives the cells back. */
  lemma RankRoundTrip(cells: seq<Piece>)
    requires |cells| <= 8
    ensures Expand(RankText(cells)) == Some(cells)
  {
    ExpandRank(cells, |cells|);
    var (out, run) := RankUpTo(cells, |cells|);
    ExpandRun(out, run);
    assert cells[..|cells|] == cells;
  }

  predicate Plain(s: string) {
    forall i :: 0 <= i < |s| ==> s[i] != '/' && !IsBlank(s[i])
  }

  lemma {:induction false} RankUpToPlain(cells: seq<Piece>, n: nat)
    requires n <= |cells|
    ensures Plain(RankUpTo(cells, n).0)
  {
    if n > 0 {
      RankUpToPlain(cells, n - 1);
      if cells[n - 1] != Empty {
        CharPieceRoundTrip(cells[n - 1]);
      }
    }
  }

  lemma RankTextPlain(cells: seq<Piece>)
    ensures Plain(RankText(cells))
  {
    RankUpToPlain(cells, |cells|);
  }

  // ----- placement ---------------------------------------------------------

  function Row(squares: Squares, r: nat): seq<Piece>
    requires r < 8
  {
    squares[8 * r..8 * r + 8]
  }

  /** Ranks r down to 0, separated by slashes. */
  function PlacementFrom(squares: Squares, r: nat): string
    requires r < 8
  {
    if r == 0 then RankText(Row(squares, 0))
    else RankText(Row(squares, r)) + "/" + PlacementFrom(squares, r - 1)
  }

  lemma PlacementStep(squares: Squares, r: nat)
    requires r < 8
    ensures PlacementFrom(squares, 0) == RankText(Row(squares, 0))
    ensures r > 0 ==> PlacementFrom(squares, r) == RankText(Row(squares, r)) + "/" + PlacementFrom(squares, r - 1)
  {
  }

  predicate RanksFit(parts: seq<string>) {
    |parts| == 8 && forall i :: 0 <= i < 8 ==> Expand(parts[i]).Some? && |Expand(parts[i]).value| == 8
  }

  function RanksSquares(parts: seq<string>): Squares
    requires RanksFit(parts)
  {
    seq(64, s requires 0 <= s < 64 => Expand(parts[7 - s / 8]).value[s % 8])
  }

  function ParsePlacement(text: string): Option<Squares> {
    var parts := SlashParts(text);
    if RanksFit(parts) then Some(RanksSquares(parts)) else None
  }

  lemma {:induction false} PlacementParts(squares: Squares, r: nat)
    requires r < 8
    ensures var parts := SlashParts(PlacementFrom(squares, r));
            |parts| == r + 1 && forall i :: 0 <= i <= r ==> parts[i] == RankText(Row(squares, r - i))
  {
    hide SlashParts, RankText, Row;
    RankTextPlain(Row(squares, r));
    assert '/' !in RankText(Row(squares, r));
    if r == 0 {
      FirstPart(RankText(Row(squares, 0)), "");
    } else {
      PlacementParts(squares, r - 1);
      FirstPart(RankText(Row(squares, r)), PlacementFrom(squares, r - 1));
    }
  }

  lemma PlacementRoundTrip(squares: Squares)
    ensures ParsePlacement(PlacementFrom(squares, 7)) == Some(squares)
  {
    hide SlashParts, RankText, Expand, PlacementFrom;
    var parts := SlashParts(PlacementFrom(squares, 7));
    PlacementParts(squares, 7);
    forall i | 0 <= i < 8 ensures Expand(parts[i]) == Some(Row(squares, 7 - i)) {
      RankRoundTrip(Row(squares, 7 - i));
    }
    forall s | 0 <= s < 64 ensures RanksSquares(parts)[s] == squares[s] {
      assert Expand(parts[7 - s / 8]) == Some(Row(squares, s / 8));
      assert Row(squares, s / 8)[s % 8] == squares[8 * (s / 8) + s % 8];
    }
    assert RanksSquares(parts) == squares;
  }

  lemma {:induction false} PlacementIsToken(squares: Squares, r: nat)
    requires r < 8
    ensures IsToken(PlacementFrom(squares, r))
  {
    hide RankText;
    RankTextPlain(Row(squares, r));
    RankTextNotEmpty(Row(squares, r));
    if r > 0 {
      PlacementIsToken(squares, r - 1);
    }
  }

  lemma RankTextNotEmpty(cells: seq<Piece>)
    requires |cells| == 8
    ensures RankText(cells) != ""
  {
    RankRoundTrip(cells);
  }

  // ----- the other fields --------------------------------------------------

  function SideText(c: Color): string { if c.White? then "w" else "b" }

  function ParseSide(text: string): Option<Color> {
    if text == "w" then Some(White) else if text == "b" then Some(Black) else None
  }

  function RightsLetters(r: Rights): string {
    (if r.wk then "K" else "") + (if r.wq then "Q" else "") + (if r.bk then "k" else "") + (if r.bq then "q" else "")
  }

  function CastlingText(r: Rights): string {
    if RightsLetters(r) == "" then "-" else RightsLetters(r)
  }

  function ParseCastling(text: string): Option<Rights> {
    if text == "-" then Some(Rights(false, false, false, false))
    else if NoDup(text) && forall i :: 0 <= i < |text| ==> text[i] in "KQkq" then
      Some(Rights('K' in text, 'Q' in text, 'k' in text, 'q' in text))
    else None
  }

  function EpText(ep: Option<EpSquare>): string {
    match ep case None => "-" case Some(e) => SquareName(e)
  }

  function ParseEp(text: string): Option<Option<EpSquare>> {
    if text == "-" then Some(None)
    else match SquareIndex(text)
         case None => None
         case Some(s) => if RankOf(s) == 2 || RankOf(s) == 5 then Some(Some(s)) else None
  }

  lemma LettersHold(r: Rights, c: char)
    ensures c in RightsLetters(r) <==>
            (c == 'K' && r.wk) || (c == 'Q' && r.wq) || (c == 'k' && r.bk) || (c == 'q' && r.bq)
  {
  }

  lemma LettersDistinct(r: Rights)
    ensures NoDup(RightsLetters(r))
  {
    var k := if r.wk then "K" else "";
    var q := if r.wq then "Q" else "";
    var l := if r.bk then "k" else "";
    NoDupAppend(k, q);
    NoDupAppend(k + q, l);
    NoDupAppend(k + q + l, if r.bq then "q" else "");
  }

  lemma CastlingLetter(c: char)
    ensures c in "KQkq" <==> c == 'K' || c == 'Q' || c == 'k' || c == 'q'
  {
    var letters := "KQkq";
    assert letters[0] == 'K' && letters[1] == 'Q' && letters[2] == 'k' && letters[3] == 'q';
  }

  lemma CastlingRoundTrip(r: Rights)
    ensures ParseCastling(CastlingText(r)) == Some(r)
    ensures IsToken(CastlingText(r))
  {
    hide RightsLetters, NoDup;
    var t := RightsLetters(r);
    LettersDistinct(r);
    LettersHold(r, 'K');
    LettersHold(r, 'Q');
    LettersHold(r, 'k');
    LettersHold(r, 'q');
    if t == "" {
      assert Rights(false, false, false, false) == r;
    } else {
      forall i | 0 <= i < |t| ensures t[i] in "KQkq" && !IsBlank(t[i]) && t[i] != '-' {
        LettersHold(r, t[i]);
        CastlingLetter(t[i]);
      }
      assert t != "-" by { assert t[0] != '-'; }
    }
  }

  lemma EpRoundTrip(ep: Option<EpSquare>)
    ensures ParseEp(EpText(ep)) ==
            if ep.Some? && RankOf(ep.value) != 2 && RankOf(ep.value) != 5 then None else Some(ep)
    ensures IsToken(EpText(ep))
  {
    if ep.Some? {
      SquareNameRoundTrip(ep.value);
      NameLetters(ep.value);
    }
  }

  // ----- whole positions ---------------------------------------------------

  /** The characters of a rank. */
  predicate IsRankChar(c: char) {
    '1' <= c <= '8' || c in "pnbrqkPNBRQK"
  }

  lemma RankCharOf(c: char)
    ensures CharCells(c).Some? <==> IsRankChar(c)
    ensures CharCells(c).Some? ==> |CharCells(c).value| == if '1' <= c <= '8' then c as int - '0' as int else 1
  {
    var letters := "pnbrqkPNBRQK";
    assert c in letters <==> CharPiece(c).Some? by { LetterOf(c); }
  }

  lemma LetterOf(c: char)
    ensures c in "pnbrqkPNBRQK" <==> CharPiece(c).Some?
  {
    var letters := "pnbrqkPNBRQK";
    assert letters[0] == 'p' && letters[1] == 'n' && letters[2] == 'b' && letters[3] == 'r' && letters[4] == 'q';
    assert letters[5] == 'k' && letters[6] == 'P' && letters[7] == 'N' && letters[8] == 'B' && letters[9] == 'R';
    assert letters[10] == 'Q' && letters[11] == 'K';
  }

  /** A rank string is read exactly when it holds digits from 1 to 8 and men's letters only. */
  lemma {:induction false} RankIsRead(s: string)
    ensures Expand(s).Some? <==> forall i :: 0 <= i < |s| ==> IsRankChar(s[i])
  {
    hide CharCells, IsRankChar;
    if s != [] {
      RankIsRead(s[..|s| - 1]);
      RankCharOf(s[|s| - 1]);
      assert s == s[..|s| - 1] + [s[|s| - 1]];
    }
  }

  /** The castling field: a dash, or some of the letters KQkq, each at most once; they name the rights. */
  lemma CastlingMeans(text: string)
    ensures ParseCastling(text).Some? <==>
            text == "-" || forall i :: 0 <= i < |text| ==>
              (text[i] == 'K' || text[i] == 'Q' || text[i] == 'k' || text[i] == 'q')
              && forall j :: 0 <= j < i ==> text[j] != text[i]
    ensures ParseCastling(text).Some? ==>
              var r := ParseCastling(text).value;
              (r.wk <==> 'K' in text) && (r.wq <==> 'Q' in text) && (r.bk <==> 'k' in text) && (r.bq <==> 'q' in text)
  {
    forall c: char ensures c in "KQkq" <==> c == 'K' || c == 'Q' || c == 'k' || c == 'q' {
      CastlingLetter(c);
    }
  }

  /** The en passant field: a dash, or a file letter and rank 3 or 6. */
  lemma EpMeans(text: string)
    ensures ParseEp(text).Some? <==>
            text == "-" || (|text| == 2 && 'a' <= text[0] <= 'h' && (text[1] == '3' || text[1] == '6'))
    ensures ParseEp(text).Some? && text != "-" ==>
              ParseEp(text).value == Some(text[0] as int - 'a' as int + if text[1] == '3' then 16 else 40)
  {
    SquareIndexRoundTrip(text);
    if |text| == 2 && 'a' <= text[0] <= 'h' && (text[1] == '3' || text[1] == '6') {
      var s: Square := text[0] as int - 'a' as int + if text[1] == '3' then 16 else 40;
      NameLetters(s);
      assert SquareName(s) == text;
      SquareNameRoundTrip(s);
    } else if s: Square :| SquareName(s) == text {
      NameLetters(s);
      SquareNameRoundTrip(s);
    }
  }

  /** board_to_fen */
  function FenText(p: Pos): string {
    Words([PlacementFrom(p.squares, 7), SideText(p.side), CastlingText(p.rights), EpText(p.ep),
           Decimal(p.half), Decimal(p.full)])
  }

  /** parse_fen; None stands for its ValueError. */
  ghost function ParsePos(fen: string): Option<Pos> {
    var fields := Fields(fen);
    if |fields| < 4 then None
    else FieldsPos(fields[0], fields[1], fields[2], fields[3],
                   if |fields| > 4 then fields[4] else "0", if |fields| > 5 then fields[5] else "1")
  }

  ghost function FieldsPos(placement: string, side: string, castling: string, ep: string, half: string, full: string)
    : Option<Pos>
  {
    match (ParsePlacement(placement), ParseSide(side), ParseCastling(castling), ParseEp(ep), ParseInt(half), ParseInt(full))
    case (Some(squares), Some(c), Some(r), Some(e), Some(h), Some(f)) =>
      if OneKing(squares, White) && OneKing(squares, Black) && h >= 0 && f >= 1 then Some(Pos(squares, c, r, e, h, f))
      else None
    case _ => None
  }

  /** What every parsed position satisfies, and what a position needs to survive the round trip. */
  ghost predicate FenValid(p: Pos) {
    && OneKing(p.squares, White) && OneKing(p.squares, Black)
    && (p.ep.Some? ==> RankOf(p.ep.value) == 2 || RankOf(p.ep.value) == 5)
    && p.full >= 1
  }

  lemma FenTokens(p: Pos)
    ensures AllTokens([PlacementFrom(p.squares, 7), SideText(p.side), CastlingText(p.rights), EpText(p.ep),
                       Decimal(p.half), Decimal(p.full)])
  {
    hide PlacementFrom, RightsLetters, CastlingText, Decimal, EpText;
    PlacementIsToken(p.squares, 7);
    CastlingRoundTrip(p.rights);
    EpRoundTrip(p.ep);
    IntRoundTrip(p.half);
    IntRoundTrip(p.full);
  }

  /** Parsing a written position gives it back exactly when it is FEN-valid, and fails otherwise. */
  lemma FenRoundTrip(p: Pos)
    ensures ParsePos(FenText(p)) == if FenValid(p) then Some(p) else None
  {
    hide PlacementFrom, CastlingText, Decimal, EpText, ParsePlacement, ParseCastling, ParseEp, ParseInt, Fields, Words,
         OneKing;
    FenTokens(p);
    FieldsOfWords([PlacementFrom(p.squares, 7), SideText(p.side), CastlingText(p.rights), EpText(p.ep),
                   Decimal(p.half), Decimal(p.full)]);
    PlacementRoundTrip(p.squares);
    CastlingRoundTrip(p.rights);
    EpRoundTrip(p.ep);
    IntRoundTrip(p.half);
    IntRoundTrip(p.full);
  }

  predicate AloneOn(squares: Squares, k: Square, piece: Piece) {
    forall s: Square :: squares[s] == piece <==> s == k
  }

  lemma OneKingStandsAlone(squares: Squares, c: Color)
    ensures OneKing(squares, c) <==> exists k: Square :: AloneOn(squares, k, Man(c, King))
  {
    if OneKing(squares, c) {
      var k: Square :| squares[k] == Man(c, King) && forall s: Square :: squares[s] == Man(c, King) ==> s == k;
      assert AloneOn(squares, k, Man(c, King));
    }
    if k: Square :| AloneOn(squares, k, Man(c, King)) {
      assert squares[k] == Man(c, King);
    }
  }

  /** So a position survives with one king a side, an en passant square on rank 3 or 6, if any, and a positive
      fullmove number; the six fields written for it name the side to move by its letter. */
  lemma SurvivesWhen(p: Pos)
    ensures ParsePos(FenText(p)) == Some(p) <==>
            && (exists k: Square :: AloneOn(p.squares, k, Man(White, King)))
            && (exists k: Square :: AloneOn(p.squares, k, Man(Black, King)))
            && (p.ep.Some? ==> 16 <= p.ep.value < 24 || 40 <= p.ep.value < 48)
            && p.full > 0
    ensures |Fields(FenText(p))| == 6 && Fields(FenText(p))[1] == if p.side == White then "w" else "b"
  {
    FenRoundTrip(p);
    FenTokens(p);
    FieldsOfWords([PlacementFrom(p.squares, 7), SideText(p.side), CastlingText(p.rights), EpText(p.ep),
                   Decimal(p.half), Decimal(p.full)]);
    OneKingStandsAlone(p.squares, White);
    OneKingStandsAlone(p.squares, Black);
    hide ParsePos, Fields, Words, PlacementFrom, CastlingText, EpText, Decimal, OneKing, AloneOn;
  }

  lemma ParsedIsValid(fen: string)
    requires ParsePos(fen).Some?
    ensures FenValid(ParsePos(fen).value)
  {
    hide Fields, ParsePlacement, ParseCastling, ParseInt, OneKing, SquareIndex;
  }

  lemma ParsedHasLoneKings(fen: string)
    requires ParsePos(fen).Some?
    ensures LoneKings(ParsePos(fen).value)
  {
    hide ParsePos, OneKing, LoneKing;
    ParsedIsValid(fen);
    OneKingIsLone(ParsePos(fen).value.squares, White);
    OneKingIsLone(ParsePos(fen).value.squares, Black);
  }

  /** Writing what was parsed is a normal form: parsing it again changes nothing. */
  lemma NormalForm(fen: string)
    requires ParsePos(fen).Some?
    ensures ParsePos(FenText(ParsePos(fen).value)) == ParsePos(fen)
  {
    ParsedIsValid(fen);
    FenRoundTrip(ParsePos(fen).value);
  }
}
