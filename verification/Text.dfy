/** Python's split, join, int() and %d on ASCII text. */
module Text {
  import opened ChessTypes
  import opened Uci

  // ----- split on blanks ---------------------------------------------------

  /** The length of the leading run of non-blank characters. */
  function TokenLength(s: string): (n: nat)
    ensures n <= |s|
    ensures forall i :: 0 <= i < n ==> !IsBlank(s[i])
    ensures n < |s| ==> IsBlank(s[n])
  {
    if s == [] || IsBlank(s[0]) then 0 else 1 + TokenLength(s[1..])
  }

  /** s.split() */
  function Fields(s: string): seq<string>
    decreases |s|
  {
    if s == [] then []
    else if IsBlank(s[0]) then Fields(s[1..])
    else [s[..TokenLength(s)]] + Fields(s[TokenLength(s)..])
  }

  /** " ".join(tokens) */
  function Words(tokens: seq<string>): string {
    if tokens == [] then ""
    else if |tokens| == 1 then tokens[0]
    else tokens[0] + " " + Words(tokens[1..])
  }

  predicate AllTokens(tokens: seq<string>) {
    forall i :: 0 <= i < |tokens| ==> IsToken(tokens[i])
  }

  lemma FirstToken(t: string, rest: string)
    requires IsToken(t) && (rest == [] || IsBlank(rest[0]))
    ensures Fields(t + rest) == [t] + Fields(rest)
  {
    var n := TokenLength(t + rest);
    assert forall i :: 0 <= i < |t| ==> (t + rest)[i] == t[i];
    assert rest != [] ==> (t + rest)[|t|] == rest[0];
    assert n == |t|;
    assert (t + rest)[..n] == t && (t + rest)[n..] == rest;
  }

  /** Splitting a join gives the tokens back. */
  lemma {:induction false} FieldsOfWords(tokens: seq<string>)
    requires AllTokens(tokens)
    ensures Fields(Words(tokens)) == tokens
  {
    if |tokens| == 1 {
      FirstToken(tokens[0], "");
      assert tokens[0] + "" == tokens[0];
    } else if |tokens| > 1 {
      FieldsOfWords(tokens[1..]);
      var rest := " " + Words(tokens[1..]);
      FirstToken(tokens[0], rest);
      assert tokens[0] + rest == Words(tokens);
      assert rest[1..] == Words(tokens[1..]);
    }
  }

  /** Every field of a split is a token. */
  lemma {:induction false} FieldsAreTokens(s: string)
    ensures AllTokens(Fields(s))
    decreases |s|
  {
    if s != [] {
      if IsBlank(s[0]) {
        FieldsAreTokens(s[1..]);
      } else {
        FieldsAreTokens(s[TokenLength(s)..]);
      }
    }
  }

  /** A join of tokens holds no blank but the separating space. */
  lemma {:induction false} WordsBlanks(tokens: seq<string>)
    requires AllTokens(tokens)
    ensures forall i :: 0 <= i < |Words(tokens)| && IsBlank(Words(tokens)[i]) ==> Words(tokens)[i] == ' '
  {
    if |tokens| > 1 {
      WordsBlanks(tokens[1..]);
    }
  }

  lemma TokenBefore(a: string, blank: char, b: string)
    requires a != [] && !IsBlank(a[0]) && IsBlank(blank)
    ensures TokenLength(a + [blank] + b) == TokenLength(a)
  {
    var s := a + [blank] + b;
    var n := TokenLength(a);
    assert forall i :: 0 <= i < |a| ==> s[i] == a[i];
    assert s[|a|] == blank;
    assert n == |a| || IsBlank(a[n]);
  }

  /** Splitting distributes over any separating blank. */
  lemma {:induction false} FieldsAcross(a: string, blank: char, b: string)
    requires IsBlank(blank)
    ensures Fields(a + [blank] + b) == Fields(a) + Fields(b)
    decreases |a|
  {
    var s := a + [blank] + b;
    if a == [] {
      assert s[1..] == b;
    } else if IsBlank(a[0]) {
      FieldsAcross(a[1..], blank, b);
      assert s[1..] == a[1..] + [blank] + b;
    } else {
      var n := TokenLength(a);
      TokenBefore(a, blank, b);
      FieldsAcross(a[n..], blank, b);
      assert s[n..] == a[n..] + [blank] + b;
      assert s[..n] == a[..n];
    }
  }

  lemma FieldsJoin(a: string, b: string)
    ensures Fields(a + " " + b) == Fields(a) + Fields(b)
  {
    hide Fields;
    FieldsAcross(a, ' ', b);
    assert a + [' '] + b == a + " " + b;
  }

  // ----- lines -------------------------------------------------------------

  /** No character of s ends a line. */
  predicate OneLine(s: string, breaks: set<char>) {
    forall i :: 0 <= i < |s| ==> s[i] !in breaks
  }

  /** What a reader of lines gets of s first. */
  function FirstLine(s: string, breaks: set<char>): (t: string)
    ensures t <= s && OneLine(t, breaks)
    ensures |t| < |s| ==> s[|t|] in breaks
  {
    if s == [] || s[0] in breaks then [] else [s[0]] + FirstLine(s[1..], breaks)
  }

  lemma WholeLine(s: string, breaks: set<char>)
    requires OneLine(s, breaks)
    ensures FirstLine(s, breaks) == s
  {
  }

  lemma {:induction false} LineContinues(a: string, b: string, breaks: set<char>)
    requires OneLine(a, breaks)
    ensures FirstLine(a + b, breaks) == a + FirstLine(b, breaks)
  {
    if a == [] {
      assert a + b == b;
    } else {
      assert (a + b)[1..] == a[1..] + b;
      LineContinues(a[1..], b, breaks);
    }
  }

  lemma {:induction false} LineEnds(a: string, b: string, breaks: set<char>)
    requires !OneLine(a, breaks)
    ensures FirstLine(a + b, breaks) == FirstLine(a, breaks)
  {
    assert (a + b)[0] == a[0] && (a + b)[1..] == a[1..] + b;
    if a[0] !in breaks {
      LineEnds(a[1..], b, breaks);
    }
  }

  /** The fields of the first line come first. */
  lemma FirstLineFields(s: string, breaks: set<char>)
    requires forall c :: c in breaks ==> IsBlank(c)
    ensures Fields(FirstLine(s, breaks)) <= Fields(s)
  {
    hide Fields;
    var t := FirstLine(s, breaks);
    if |t| < |s| {
      FieldsAcross(t, s[|t|], s[|t| + 1..]);
      assert t + [s[|t|]] + s[|t| + 1..] == s;
    } else {
      assert t == s;
    }
  }

  /** The lines a reader gets of s, one after the other. */
  function LinesOf(s: string, breaks: set<char>): (lines: seq<string>)
    ensures lines != [] && lines[0] == FirstLine(s, breaks)
    decreases |s|
  {
    var t := FirstLine(s, breaks);
    if |t| == |s| then [t] else [t] + LinesOf(s[|t| + 1..], breaks)
  }

  lemma LinesOfOne(s: string, breaks: set<char>)
    requires OneLine(s, breaks)
    ensures LinesOf(s, breaks) == [s]
  {
    WholeLine(s, breaks);
  }

  /** Text put in front of the first break joins the first line. */
  lemma LinesInFront(a: string, b: string, breaks: set<char>)
    requires OneLine(a, breaks)
    ensures LinesOf(a + b, breaks) == [a + LinesOf(b, breaks)[0]] + LinesOf(b, breaks)[1..]
  {
    hide FirstLine, OneLine;
    LineContinues(a, b, breaks);
    var t := FirstLine(b, breaks);
    if |t| < |b| {
      SkipLine(a, b, |t| + 1);
    }
  }

  lemma SkipLine(a: string, b: string, n: nat)
    requires n <= |b|
    ensures (a + b)[|a| + n..] == b[n..]
  {
  }

  /** Text put behind the last break joins the last line. */
  lemma {:induction false} LinesBehind(a: string, b: string, breaks: set<char>)
    requires OneLine(b, breaks)
    ensures var lines := LinesOf(a, breaks);
            LinesOf(a + b, breaks) == lines[..|lines| - 1] + [lines[|lines| - 1] + b]
    decreases |a|
  {
    hide FirstLine, OneLine;
    if OneLine(a, breaks) {
      LinesOfOne(a, breaks);
      LinesInFront(a, b, breaks);
      LinesOfOne(b, breaks);
    } else {
      var t := FirstLine(a, breaks);
      LineEnds(a, b, breaks);
      assert |t| < |a| by { NotWhole(a, breaks); }
      assert (a + b)[|t| + 1..] == a[|t| + 1..] + b;
      LinesBehind(a[|t| + 1..], b, breaks);
      assert LinesOf(a, breaks) == [t] + LinesOf(a[|t| + 1..], breaks);
      assert LinesOf(a + b, breaks) == [t] + LinesOf(a[|t| + 1..] + b, breaks);
    }
  }

  lemma NotWhole(s: string, breaks: set<char>)
    requires !OneLine(s, breaks)
    ensures |FirstLine(s, breaks)| < |s|
  {
    assert FirstLine(s, breaks) <= s;
  }

  // ----- split on slashes --------------------------------------------------

  function Slash(s: string): (n: nat)
    ensures n <= |s|
    ensures forall i :: 0 <= i < n ==> s[i] != '/'
    ensures n < |s| ==> s[n] == '/'
  {
    if s == [] || s[0] == '/' then 0 else 1 + Slash(s[1..])
  }

  /** s.split("/") */
  function SlashParts(s: string): (parts: seq<string>)
    ensures parts != []
    decreases |s|
  {
    var n := Slash(s);
    if n == |s| then [s] else [s[..n]] + SlashParts(s[n + 1..])
  }

  lemma FirstPart(t: string, rest: string)
    requires '/' !in t
    ensures SlashParts(t) == [t]
    ensures SlashParts(t + "/" + rest) == [t] + SlashParts(rest)
  {
    var s := t + "/" + rest;
    var n := Slash(s);
    assert s[|t|] == '/';
    assert forall i :: 0 <= i < |t| ==> s[i] == t[i];
    assert n == |t|;
    assert s[..n] == t && s[n + 1..] == rest;
  }

  // ----- decimal numbers ---------------------------------------------------

  predicate IsDigit(c: char) { '0' <= c <= '9' }

  function DigitValue(c: char): int { c as int - '0' as int }

  function DigitChar(d: nat): char
    requires d < 10
  {
    ('0' as int + d) as char
  }

  /** "%d" % n */
  function Decimal(n: nat): (s: string)
    ensures s != [] && forall i :: 0 <= i < |s| ==> IsDigit(s[i])
  {
    if n < 10 then [DigitChar(n)] else Decimal(n / 10) + [DigitChar(n % 10)]
  }

  /** Digits, with single underscores allowed between two digits. */
  predicate IsNumeral(s: string) {
    && s != [] && IsDigit(s[0]) && IsDigit(s[|s| - 1])
    && (forall i :: 0 <= i < |s| ==> IsDigit(s[i]) || s[i] == '_')
    && (forall i :: 0 < i < |s| && s[i] == '_' ==> s[i - 1] != '_')
  }

  function NumeralValue(s: string): int {
    if s == [] then 0
    else if s[|s| - 1] == '_' then NumeralValue(s[..|s| - 1])
    else 10 * NumeralValue(s[..|s| - 1]) + DigitValue(s[|s| - 1])
  }

  /** int(s) for a string without blanks; None stands for its ValueError. */
  function ParseInt(s: string): Option<int> {
    if s != [] && (s[0] == '+' || s[0] == '-') then
      if IsNumeral(s[1..]) then Some(if s[0] == '-' then -NumeralValue(s[1..]) else NumeralValue(s[1..])) else None
    else if IsNumeral(s) then Some(NumeralValue(s))
    else None
  }

  lemma {:induction false} DecimalValue(n: nat)
    ensures NumeralValue(Decimal(n)) == n
  {
    if n >= 10 {
      DecimalValue(n / 10);
      assert Decimal(n)[..|Decimal(n)| - 1] == Decimal(n / 10);
    } else {
      assert Decimal(n)[..0] == [];
    }
  }

  /** int() reads back what %d writes. */
  lemma IntRoundTrip(n: nat)
    ensures ParseInt(Decimal(n)) == Some(n)
    ensures IsToken(Decimal(n))
  {
    DecimalValue(n);
    var s := Decimal(n);
    assert IsDigit(s[0]) && IsDigit(s[|s| - 1]);
  }

  /** int() on a few texts: signs and single underscores are allowed, blanks, lone signs and others are not. */
  lemma KnownNumbers()
    ensures ParseInt("+7") == Some(7) && ParseInt("-7") == Some(-7) && ParseInt("007") == Some(7)
    ensures ParseInt("").None? && ParseInt("-").None? && ParseInt("x").None? && ParseInt("_1").None?
    ensures ParseInt("1_").None?
  {
    assert "+7"[1..] == "7" && "-7"[1..] == "7";
    assert "7"[..0] == "" && "-"[1..] == "";
    assert "007"[..2] == "00" && "00"[..1] == "0" && "0"[..0] == "";
  }
}
