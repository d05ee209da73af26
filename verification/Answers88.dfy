/** The C++ engine at the UCI level: move texts, applying the moves of a game, and its reply. */
module Answers88 {
  import opened ChessTypes
  import opened Rules
  import opened MoveLists
  import opened Movegen
  import opened Preservation
  import opened Uci
  import opened GameLoop
  import opened Square88
  import opened Engine88
  import opened Refinement88

  function PromoLetter(kind: int): char {
    match kind case 5 => 'q' case 4 => 'r' case 3 => 'b' case _ => 'n'
  }

  /** sqName: file and rank read off an on-board 0x88 square. */
  function Name88(x: nat): string
    requires x < 128
  {
    [('a' as int + x % 8) as char, ('1' as int + x / 16) as char]
  }

  function Text88(m: Move88): string
    requires 0 <= m.from < 128 && 0 <= m.to < 128
  {
    Name88(m.from) + Name88(m.to) + if m.promo != 0 then [PromoLetter(m.promo)] else ""
  }

  lemma NameAgrees(s: Square)
    ensures 0 <= To88(s) < 128 && Name88(To88(s)) == SquareName(s)
  {
    NameLetters(s);
    assert To88(s) % 8 == FileOf(s) && To88(s) / 16 == RankOf(s);
  }

  /** The engine writes a move exactly as the oracle does. */
  lemma TextAgrees(p: Pos, m: Move)
    ensures var r := Encode(p, m);
            0 <= r.from < 128 && 0 <= r.to < 128 && Text88(r) == MoveText(m)
  {
    hide To88, SquareName, Name88, Flag;
    NameAgrees(m.from);
    NameAgrees(m.to);
  }

  /** findMoveByUci: the legal move with the given text, if any. */
  method FindMove88(b: Board88, text: string, ghost p: Pos) returns (r: Option<Move88>, ghost mv: Move)
    requires b.Represents(p) && WellFormed(p)
    ensures r.Some? ==> Legal(p, mv) && MoveText(mv) == text && r.value == Encode(p, mv)
    ensures r.None? ==> forall m :: Legal(p, m) ==> MoveText(m) != text
  {
    hide Complete, WellFormed, LegalMoves, Legal, Encode, EncodeAll, MoveText, Text88, Shows, RightsBits;
    var moves := GenLegal88(b, p);
    ghost var ms := LegalMoves(ENGINE, p);
    EncodedElements(p, ms);
    mv := Move(0, 0, None);
    for i := 0 to |moves|
      invariant forall k :: 0 <= k < i ==> MoveText(ms[k]) != text
    {
      TextAgrees(p, ms[i]);
      if Text88(moves[i]) == text {
        LegalMovesAreExact(ENGINE, p, ms[i]);
        return Some(moves[i]), ms[i];
      }
    }
    forall m | Legal(p, m) ensures MoveText(m) != text {
      LegalMovesAreExact(ENGINE, p, m);
    }
    return None, mv;
  }

  /** The position after a list of texts: the texts of legal moves are played, the others ignored. */
  ghost function Obey(p: Pos, texts: seq<string>): Pos
    decreases |texts|
  {
    if texts == [] then p
    else if m: Move :| Legal(p, m) && MoveText(m) == texts[0] then Obey(After(p, m), texts[1..])
    else Obey(p, texts[1..])
  }

  lemma ObeyMove(p: Pos, m: Move, texts: seq<string>)
    requires Legal(p, m) && texts != [] && MoveText(m) == texts[0]
    ensures Obey(p, texts) == Obey(After(p, m), texts[1..])
  {
    hide After, Legal, MoveText;
    var n: Move :| Legal(p, n) && MoveText(n) == texts[0] && Obey(p, texts) == Obey(After(p, n), texts[1..]);
    MoveTextInjective(m, n);
  }

  /** Obeying the texts of a legal line plays the line. */
  lemma {:induction false} ObeyLine(p: Pos, line: seq<Move>)
    requires LegalLine(p, line)
    ensures Obey(p, TextsOf(line)) == Play(p, line)
    decreases |line|
  {
    hide After, Legal, MoveText, Obey;
    if line != [] {
      ObeyMove(p, line[0], TextsOf(line));
      assert TextsOf(line)[1..] == TextsOf(line[1..]);
      ObeyLine(After(p, line[0]), line[1..]);
    } else {
      ObeyNothing(p);
    }
  }

  lemma ObeyNothing(p: Pos)
    ensures Obey(p, []) == p
  {
  }

  lemma ObeyUnknown(p: Pos, texts: seq<string>)
    requires texts != [] && forall m :: Legal(p, m) ==> MoveText(m) != texts[0]
    ensures Obey(p, texts) == Obey(p, texts[1..])
  {
    hide Legal, MoveText;
  }

  /** applyMoves on any texts at all: legal moves are made, everything else is skipped. */
  method ApplyMoves88(b: Board88, texts: seq<string>, ghost p: Pos)
    requires b.Represents(p) && WellFormed(p)
    modifies b, b.sq
    ensures b.Represents(Obey(p, texts))
  {
    hide WellFormed, Legal, Encode, MoveText, Shows, RightsBits, After, Obey;
    ghost var q := p;
    assert texts[0..] == texts;
    for i := 0 to |texts|
      invariant b.Represents(q) && WellFormed(q) && Obey(q, texts[i..]) == Obey(p, texts)
    {
      assert texts[i..][0] == texts[i] && texts[i..][1..] == texts[i + 1..];
      var found;
      ghost var m;
      found, m := FindMove88(b, texts[i], q);
      if found.Some? {
        ObeyMove(q, m, texts[i..]);
        LegalMovePreserves(q, m);
        LegalIsPseudo(q, m);
        MakeMove88(b, found.value, q, m);
        q := After(q, m);
      } else {
        ObeyUnknown(q, texts[i..]);
      }
    }
    assert texts[|texts|..] == [];
    ObeyNothing(q);
  }

  /** u < v for C++ strings. */
  predicate LexLess(u: string, v: string) {
    if v == "" then false
    else if u == "" then true
    else if u[0] != v[0] then u[0] < v[0]
    else LexLess(u[1..], v[1..])
  }

  lemma {:induction false} LexTotal(u: string, v: string)
    ensures u == v || LexLess(u, v) || LexLess(v, u)
    ensures !(LexLess(u, v) && LexLess(v, u))
    ensures u == v ==> !LexLess(u, v)
  {
    if u != "" && v != "" && u[0] == v[0] {
      LexTotal(u[1..], v[1..]);
      assert u == [u[0]] + u[1..] && v == [v[0]] + v[1..];
    }
  }

  lemma {:induction false} LexTransitive(u: string, v: string, w: string)
    requires LexLess(u, v) && LexLess(v, w)
    ensures LexLess(u, w)
  {
    if u != "" && u[0] == v[0] && v[0] == w[0] {
      LexTransitive(u[1..], v[1..], w[1..]);
    }
  }

  /** pickBestMove: the least text of a legal move, or "0000" when there is none. */
  method PickBestMove88(b: Board88, ghost p: Pos) returns (best: string)
    requires b.Represents(p) && WellFormed(p)
    ensures if HasLegalMove(p)
            then (exists m :: Legal(p, m) && MoveText(m) == best)
                 && forall n :: Legal(p, n) ==> !LexLess(MoveText(n), best)
            else best == "0000"
  {
    hide Complete, WellFormed, LegalMoves, Legal, Encode, EncodeAll, MoveText, Text88, Shows, RightsBits, LexLess;
    var moves := GenLegal88(b, p);
    ghost var ms := LegalMoves(ENGINE, p);
    EncodedElements(p, ms);
    forall m ensures m in ms <==> Legal(p, m) {
      LegalMovesAreExact(ENGINE, p, m);
    }
    if |moves| == 0 {
      return "0000";
    }
    best := "";
    ghost var chosen := ms[0];
    for i := 0 to |moves|
      invariant i == 0 ==> best == ""
      invariant i > 0 ==> chosen in ms && best == MoveText(chosen) && best != ""
      invariant i > 0 ==> forall k :: 0 <= k < i ==> !LexLess(MoveText(ms[k]), best)
    {
      TextAgrees(p, ms[i]);
      MoveTextIsToken(ms[i]);
      var u := Text88(moves[i]);
      LexTotal(u, u);
      if best == "" || LexLess(u, best) {
        forall k | 0 <= k < i ensures !LexLess(MoveText(ms[k]), u) {
          if LexLess(MoveText(ms[k]), u) && best != "" {
            LexTransitive(MoveText(ms[k]), u, best);
          }
        }
        best := u;
        chosen := ms[i];
      }
    }
    assert ms[0] in ms;
  }

  /** u comes before v when it is a proper prefix of v, or smaller at the first place where they differ. */
  lemma {:induction false} LexLessMeans(u: string, v: string)
    ensures LexLess(u, v) <==>
            u < v || exists i :: 0 <= i < |u| && i < |v| && u[..i] == v[..i] && u[i] < v[i]
    decreases |u|
  {
    if u != "" && v != "" {
      if u[0] == v[0] {
        LexLessMeans(u[1..], v[1..]);
        assert u == [u[0]] + u[1..] && v == [v[0]] + v[1..];
        if i :| 0 <= i < |u[1..]| && i < |v[1..]| && u[1..][..i] == v[1..][..i] && u[1..][i] < v[1..][i] {
          assert u[..i + 1] == [u[0]] + u[1..][..i] && v[..i + 1] == [v[0]] + v[1..][..i];
        }
        if i :| 0 <= i < |u| && i < |v| && u[..i] == v[..i] && u[i] < v[i] {
          assert i > 0;
          assert u[1..][..i - 1] == u[..i][1..] && v[1..][..i - 1] == v[..i][1..];
          assert u[1..][i - 1] < v[1..][i - 1];
        }
      } else {
        assert u[..0] == v[..0];
        if i :| 0 <= i < |u| && i < |v| && u[..i] == v[..i] && u[i] < v[i] {
          assert i > 0 ==> u[..i][0] == v[..i][0];
        }
      }
    }
  }
}
