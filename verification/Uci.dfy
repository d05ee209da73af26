/** Square names and UCI move strings. */
module Uci {
  import opened ChessTypes

  const FILES := "abcdefgh"
  const RANKS := "12345678"

  function SquareName(s: Square): string {
    [FILES[s % 8], RANKS[s / 8]]
  }

  function FileIndex(c: char): int { c as int - 'a' as int }

  function RankIndex(c: char): int { c as int - '1' as int }

  predicate IsFile(c: char) { 'a' <= c <= 'h' }

  predicate IsRank(c: char) { '1' <= c <= '8' }

  /** square_index; None stands for its ValueError. */
  function SquareIndex(name: string): Option<Square> {
    if |name| != 2 || !IsFile(name[0]) || !IsRank(name[1]) then None
    else Some(RankIndex(name[1]) * 8 + FileIndex(name[0]))
  }

  lemma SquareNameRoundTrip(s: Square)
    ensures SquareIndex(SquareName(s)) == Some(s)
    ensures |SquareName(s)| == 2
  {
    var f, r := s % 8, s / 8;
    assert FILES[f] as int == 'a' as int + f by {
      assert FILES == ['a', 'b', 'c', 'd', 'e', 'f', 'g', 'h'];
    }
    assert RANKS[r] as int == '1' as int + r by {
      assert RANKS == ['1', '2', '3', '4', '5', '6', '7', '8'];
    }
  }

  /** Names are accepted exactly when they are the name of a square. */
  lemma SquareIndexRoundTrip(name: string)
    ensures SquareIndex(name).Some? <==> exists s: Square :: SquareName(s) == name
  {
    if SquareIndex(name).Some? {
      var s := SquareIndex(name).value;
      SquareNameRoundTrip(s);
      assert SquareName(s)[0] == name[0] && SquareName(s)[1] == name[1] by {
        NameLetters(s);
      }
      assert SquareName(s) == name;
    }
    if exists s: Square :: SquareName(s) == name {
      var s: Square :| SquareName(s) == name;
      SquareNameRoundTrip(s);
    }
  }

  lemma NameLetters(s: Square)
    ensures SquareName(s)[0] as int == 'a' as int + s % 8
    ensures SquareName(s)[1] as int == '1' as int + s / 8
  {
    assert FILES == ['a', 'b', 'c', 'd', 'e', 'f', 'g', 'h'];
    assert RANKS == ['1', '2', '3', '4', '5', '6', '7', '8'];
  }

  function PromoChar(k: Promotion): char {
    match k case Queen => 'q' case Rook => 'r' case Bishop => 'b' case Knight => 'n'
  }

  /** The promotion letter after lower-casing. */
  function PromoOf(c: char): Option<Promotion> {
    if c == 'q' || c == 'Q' then Some(Queen)
    else if c == 'r' || c == 'R' then Some(Rook)
    else if c == 'b' || c == 'B' then Some(Bishop)
    else if c == 'n' || c == 'N' then Some(Knight)
    else None
  }

  function MoveText(m: Move): string {
    SquareName(m.from) + SquareName(m.to) + match m.promo case None => "" case Some(k) => [PromoChar(k)]
  }

  /** The ASCII characters that Python's split() and strip() treat as blanks. */
  predicate IsBlank(c: char) {
    c == ' ' || 9 <= c as int <= 13 || 28 <= c as int <= 31
  }

  function StripLeft(s: string): string {
    if s != [] && IsBlank(s[0]) then StripLeft(s[1..]) else s
  }

  function StripRight(s: string): string {
    if s != [] && IsBlank(s[|s| - 1]) then StripRight(s[..|s| - 1]) else s
  }

  function Strip(s: string): string { StripRight(StripLeft(s)) }

  /** Move.from_uci; None stands for its ValueError. */
  function ParseMove(text: string): Option<Move> {
    var t := Strip(text);
    if |t| != 4 && |t| != 5 then None
    else match (SquareIndex(t[0..2]), SquareIndex(t[2..4]))
         case (Some(from), Some(to)) =>
           if |t| == 4 then Some(Move(from, to, None))
           else (match PromoOf(t[4])
                 case None => None
                 case Some(k) => Some(Move(from, to, Some(k))))
         case _ => None
  }

  lemma NotBlank(s: string)
    requires s != [] && !IsBlank(s[0]) && !IsBlank(s[|s| - 1])
    ensures Strip(s) == s
  {
  }

  /** from_uci inverts uci. */
  lemma MoveRoundTrip(m: Move)
    ensures ParseMove(MoveText(m)) == Some(m)
  {
    var t := MoveText(m);
    NameLetters(m.from);
    NameLetters(m.to);
    SquareNameRoundTrip(m.from);
    SquareNameRoundTrip(m.to);
    assert t[0] == SquareName(m.from)[0];
    assert !IsBlank(t[|t| - 1]) by {
      if m.promo.None? { assert t[|t| - 1] == SquareName(m.to)[1]; }
    }
    NotBlank(t);
    assert t[0..2] == SquareName(m.from);
    assert t[2..4] == SquareName(m.to);
  }

  /** uci() is injective. */
  lemma MoveTextInjective(m: Move, n: Move)
    requires MoveText(m) == MoveText(n)
    ensures m == n
  {
    MoveRoundTrip(m);
    MoveRoundTrip(n);
  }

  /** A move's text is one blank-free token. */
  predicate IsToken(s: string) {
    s != [] && forall i :: 0 <= i < |s| ==> !IsBlank(s[i])
  }

  lemma MoveTextIsToken(m: Move)
    ensures IsToken(MoveText(m)) && |MoveText(m)| in {4, 5}
  {
    NameLetters(m.from);
    NameLetters(m.to);
    var t := MoveText(m);
    forall i | 0 <= i < |t| ensures !IsBlank(t[i]) {
      assert t[i] == if i < 2 then SquareName(m.from)[i] else if i < 4 then SquareName(m.to)[i - 2]
                     else PromoChar(m.promo.value);
    }
  }

  /** Texts as they are written on the wire. */
  lemma KnownTexts()
    ensures MoveText(Move(12, 28, None)) == "e2e4" && MoveText(Move(57, 42, None)) == "b8c6"
    ensures MoveText(Move(48, 56, Some(Queen))) == "a7a8q" && MoveText(Move(55, 62, Some(Rook))) == "h7g8r"
    ensures MoveText(Move(9, 1, Some(Bishop))) == "b2b1b" && MoveText(Move(9, 0, Some(Knight))) == "b2a1n"
  {
  }

  /** from_uci strips blanks and takes an upper-case promotion letter. */
  lemma UpperCasePromotes(t: string)
    requires Strip(t) == "a7a8Q"
    ensures ParseMove(t) == Some(Move(48, 56, Some(Queen)))
  {
    KnownTexts();
    assert Strip(t)[0..2] == SquareName(48) && Strip(t)[2..4] == SquareName(56);
    SquareNameRoundTrip(48);
    SquareNameRoundTrip(56);
  }
}
