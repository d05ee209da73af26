/** parse_fen and board_to_fen as the repository runs them: loops over characters
    and squares, writing into and reading from a mutable board. */
module FenBoard {
  import opened ChessTypes
  import opened Rules
  import opened Movegen
  import opened Text
  import opened Fen

  // ----- reading -----------------------------------------------------------

  /** The first `file` squares of rank r read so far; the rest of the board is as it was. */
  ghost predicate RankRead(before: seq<Piece>, now: seq<Piece>, r: nat, cells: seq<Piece>)
    requires r < 8 && |before| == 64 && |now| == 64
  {
    && (forall s :: 0 <= s < 64 && !(8 * r <= s < 8 * r + 8) ==> now[s] == before[s])
    && forall s :: 8 * r <= s < 8 * r + 8 ==> now[s] == if s - 8 * r < |cells| then cells[s - 8 * r] else Empty
  }

  lemma RankReadStart(before: seq<Piece>, r: nat)
    requires r < 8 && |before| == 64
    requires forall s :: 8 * r <= s < 8 * r + 8 ==> before[s] == Empty
    ensures RankRead(before, before, r, [])
  {
  }

  lemma RankReadEmpties(before: seq<Piece>, now: seq<Piece>, r: nat, cells: seq<Piece>, n: nat)
    requires r < 8 && |before| == 64 && |now| == 64 && RankRead(before, now, r, cells)
    ensures RankRead(before, now, r, cells + Empties(n))
  {
  }

  lemma RankReadMan(before: seq<Piece>, now: seq<Piece>, r: nat, cells: seq<Piece>, piece: Piece)
    requires r < 8 && |before| == 64 && |now| == 64 && RankRead(before, now, r, cells) && |cells| < 8
    ensures RankRead(before, now[8 * r + |cells| := piece], r, cells + [piece])
  {
  }

  /** One rank string: false stands for a ValueError. */
  method ReadRank(b: Board, r: nat, text: string) returns (ok: bool)
    requires b.Valid() && r < 8
    requires forall s :: 8 * r <= s < 8 * r + 8 ==> b.squares[s] == Empty
    modifies b.squares
    ensures ok <==> Expand(text).Some? && |Expand(text).value| == 8
    ensures ok ==> RankRead(old(b.squares[..]), b.squares[..], r, Expand(text).value)
  {
    hide Expand, RankRead, CharPiece;
    ghost var before := b.squares[..];
    var file := 0;
    assert text[..0] == "";
    assert Expand("") == Some([]) by { ExpandNothing(); }
    RankReadStart(before, r);
    for i := 0 to |text|
      invariant Expand(text[..i]).Some? && |Expand(text[..i]).value| == file
      invariant RankRead(before, b.squares[..], r, Expand(text[..i]).value)
    {
      var ch := text[i];
      ExpandStep(text, i);
      ghost var cells := Expand(text[..i]).value;
      if IsDigit(ch) {
        var step := DigitValue(ch);
        if !(1 <= step <= 8) {
          NotExpanded(text, i + 1);
          return false;
        }
        RankReadEmpties(before, b.squares[..], r, cells, step);
        file := file + step;
      } else if CharPiece(ch).Some? {
        if file > 7 {
          NotEight(text, i + 1);
          return false;
        }
        RankReadMan(before, b.squares[..], r, cells, CharPiece(ch).value);
        b.squares[r * 8 + file] := CharPiece(ch).value;
        file := file + 1;
      } else {
        NotExpanded(text, i + 1);
        return false;
      }
    }
    assert text[..|text|] == text;
    return file == 8;
  }

  lemma NotExpanded(s: string, i: nat)
    requires i <= |s| && Expand(s[..i]).None?
    ensures Expand(s).None?
  {
    if Expand(s).Some? {
      ExpandPrefix(s, i);
    }
  }

  lemma NotEight(s: string, i: nat)
    requires i <= |s| && (Expand(s[..i]).None? || |Expand(s[..i]).value| > 8)
    ensures Expand(s).None? || |Expand(s).value| != 8
  {
    if Expand(s).Some? {
      ExpandPrefix(s, i);
    }
  }

  /** parse_fen: the position it builds, or ValueError. */
  method ParseFen(fen: string) returns (r: Result<Board>)
    ensures r.ValueError? <==> ParsePos(fen).None?
    ensures r.Ok? ==> r.value.Valid() && fresh(r.value) && fresh(r.value.squares)
    ensures r.Ok? ==> ParsePos(fen) == Some(r.value.Value())
  {
    hide Fields, ParsePlacement, ParseCastling, ParseEp, ParseInt, OneKing;
    var fields := Fields(fen);
    if |fields| < 4 {
      return ValueError;
    }
    var half := if |fields| > 4 then fields[4] else "0";
    var full := if |fields| > 5 then fields[5] else "1";
    var b := new Board();
    var ok := ReadPlacement(b, fields[0]);
    if !ok {
      return ValueError;
    }
    var kings := CountKings(b, White);
    if kings != 1 {
      return ValueError;
    }
    kings := CountKings(b, Black);
    if kings != 1 {
      return ValueError;
    }
    if fields[1] != "w" && fields[1] != "b" {
      return ValueError;
    }
    b.side := if fields[1] == "w" then White else Black;
    var rights := ReadCastling(fields[2]);
    if rights.None? {
      return ValueError;
    }
    b.rights := rights.value;
    var ep := ParseEp(fields[3]);
    if ep.None? {
      return ValueError;
    }
    b.ep := ep.value;
    var h, f := ParseInt(half), ParseInt(full);
    if h.None? || f.None? || h.value < 0 || f.value < 1 {
      return ValueError;
    }
    b.half, b.full := h.value, f.value;
    return Ok(b);
  }

  /** The placement field into an empty board. */
  method ReadPlacement(b: Board, text: string) returns (ok: bool)
    requires b.Valid() && forall s :: 0 <= s < 64 ==> b.squares[s] == Empty
    modifies b.squares
    ensures ok <==> ParsePlacement(text).Some?
    ensures ok ==> b.squares[..] == ParsePlacement(text).value
  {
    hide SlashParts, Expand, FileOf, RankOf;
    var ranks := SlashParts(text);
    if |ranks| != 8 {
      return false;
    }
    for i := 0 to 8
      invariant forall j :: 0 <= j < i ==> Expand(ranks[j]).Some? && |Expand(ranks[j]).value| == 8
      invariant forall s :: 0 <= s < 8 * (8 - i) ==> b.squares[s] == Empty
      invariant forall s :: 8 * (8 - i) <= s < 64 ==> b.squares[s] == Expand(ranks[7 - s / 8]).value[s % 8]
    {
      ok := ReadRank(b, 7 - i, ranks[i]);
      if !ok {
        return false;
      }
    }
    return true;
  }

  /** How many of the first n squares hold the given man. */
  ghost function Count(squares: Squares, piece: Piece, n: nat): nat
    requires n <= 64
  {
    if n == 0 then 0 else Count(squares, piece, n - 1) + if squares[n - 1] == piece then 1 else 0
  }

  lemma {:induction false} CountZero(squares: Squares, piece: Piece, n: nat)
    requires n <= 64
    ensures Count(squares, piece, n) == 0 <==> forall s: Square :: s < n ==> squares[s] != piece
  {
    if n > 0 {
      CountZero(squares, piece, n - 1);
    }
  }

  lemma {:induction false} CountOne(squares: Squares, piece: Piece, n: nat)
    requires n <= 64
    ensures Count(squares, piece, n) == 1 <==>
            exists k: Square :: k < n && squares[k] == piece && forall s: Square :: s < n && squares[s] == piece ==> s == k
  {
    if n > 0 {
      CountOne(squares, piece, n - 1);
      CountZero(squares, piece, n - 1);
    }
  }

  /** squares.count(king) */
  method CountKings(b: Board, c: Color) returns (n: nat)
    requires b.Valid()
    ensures n == 1 <==> OneKing(b.Value().squares, c)
  {
    var piece := Man(c, King);
    n := 0;
    for i := 0 to 64
      invariant n == Count(b.Value().squares, piece, i)
    {
      if b.squares[i] == piece {
        n := n + 1;
      }
    }
    CountOne(b.Value().squares, piece, 64);
  }

  /** The castling field: a loop that refuses foreign and repeated letters. */
  method ReadCastling(text: string) returns (r: Option<Rights>)
    ensures r == ParseCastling(text)
  {
    if text == "-" {
      return Some(Rights(false, false, false, false));
    }
    var seen := "";
    assert text[..0] == "";
    for i := 0 to |text|
      invariant seen == text[..i] && NoDup(seen) && forall j :: 0 <= j < i ==> text[j] in "KQkq"
    {
      if text[i] !in "KQkq" || text[i] in seen {
        return None;
      }
      seen := seen + [text[i]];
    }
    assert text[..|text|] == text;
    return Some(Rights('K' in seen, 'Q' in seen, 'k' in seen, 'q' in seen));
  }

  // ----- writing -----------------------------------------------------------

  lemma RankUpToStep(cells: seq<Piece>, n: nat)
    requires n < |cells|
    ensures RankUpTo(cells, n + 1) ==
            var (out, run) := RankUpTo(cells, n);
            if cells[n] == Empty then (out, run + 1) else (out + RunText(run) + [PieceChar(cells[n])], 0)
  {
  }

  method WriteRank(b: Board, r: nat) returns (text: string)
    requires b.Valid() && r < 8
    ensures text == RankText(Row(b.Value().squares, r))
  {
    hide RankUpTo, PieceChar;
    ghost var cells := Row(b.Value().squares, r);
    var run := 0;
    text := "";
    assert RankUpTo(cells, 0) == ("", 0) by { NoCells(cells); }
    for file := 0 to 8
      invariant (text, run) == RankUpTo(cells, file)
    {
      RankUpToStep(cells, file);
      var piece := b.squares[r * 8 + file];
      if piece == Empty {
        run := run + 1;
      } else {
        if run > 0 {
          text := text + Decimal(run);
          run := 0;
        } else {
          assert text + RunText(0) == text;
        }
        text := text + [PieceChar(piece)];
      }
    }
    if run > 0 {
      text := text + Decimal(run);
    } else {
      assert text + RunText(0) == text;
    }
  }

  lemma NoCells(cells: seq<Piece>)
    ensures RankUpTo(cells, 0) == ("", 0)
  {
  }

  /** board_to_fen */
  method BoardToFen(b: Board) returns (fen: string)
    requires b.Valid()
    ensures fen == FenText(b.Value())
  {
    hide RankText, PlacementFrom, CastlingText, EpText, Decimal;
    ghost var p := b.Value();
    var placement := "";
    var rank := 7;
    var text := WriteRank(b, 7);
    placement := text;
    PlacementStep(p.squares, 7);
    // "/".join adds the separators from the second rank on.
    while rank > 0
      invariant 0 <= rank <= 7
      invariant PlacementFrom(p.squares, 7) == placement + if rank == 0 then "" else "/" + PlacementFrom(p.squares, rank - 1)
    {
      rank := rank - 1;
      text := WriteRank(b, rank);
      PlacementStep(p.squares, rank);
      placement := placement + "/" + text;
    }
    fen := Words([placement, SideText(b.side), CastlingText(b.rights), EpText(b.ep), Decimal(b.half), Decimal(b.full)]);
  }
}
