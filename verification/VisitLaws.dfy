/** Adjudication in plain terms: what a third visit and insufficient material are on the boards of the game. */
module VisitLaws {
  import opened ChessTypes
  import opened Preservation
  import opened Repetition
  import opened GameRuns

  // ----- counting occurrences ------------------------------------------------

  function Times<T(==)>(s: seq<T>, x: T): nat {
    if s == [] then 0 else Times(s[..|s| - 1], x) + if s[|s| - 1] == x then 1 else 0
  }

  lemma {:induction false} TimesIsMultiplicity<T>(s: seq<T>, x: T)
    ensures multiset(s)[x] == Times(s, x)
  {
    if s != [] {
      TimesIsMultiplicity(s[..|s| - 1], x);
      assert s == s[..|s| - 1] + [s[|s| - 1]];
    }
  }

  ghost predicate OccursAt<T>(s: seq<T>, x: T, i: int) { 0 <= i < |s| && s[i] == x }

  lemma {:induction false} TimesAtLeastOne<T>(s: seq<T>, x: T)
    ensures Times(s, x) >= 1 <==> exists i :: OccursAt(s, x, i)
  {
    if s != [] {
      var n := |s| - 1;
      TimesAtLeastOne(s[..n], x);
      assert s[n] == x ==> OccursAt(s, x, n);
      forall i ensures OccursAt(s[..n], x, i) <==> OccursAt(s, x, i) && i < n {}
    }
  }

  lemma {:induction false} TimesAtLeastTwo<T>(s: seq<T>, x: T)
    ensures Times(s, x) >= 2 <==> exists i, j :: i < j && OccursAt(s, x, i) && OccursAt(s, x, j)
  {
    if s != [] {
      var n := |s| - 1;
      TimesAtLeastOne(s[..n], x);
      TimesAtLeastTwo(s[..n], x);
      forall i ensures OccursAt(s[..n], x, i) <==> OccursAt(s, x, i) && i < n {}
      if s[n] == x && Times(s[..n], x) >= 1 {
        var i :| OccursAt(s[..n], x, i);
        assert OccursAt(s, x, i) && OccursAt(s, x, n);
      }
      if i, j :| i < j && OccursAt(s, x, i) && OccursAt(s, x, j) {
        assert OccursAt(s[..n], x, i);
        assert j < n ==> OccursAt(s[..n], x, j);
      }
    }
  }

  /** The board, side to move, castling rights and en passant square after i plies are those after k plies. */
  ghost predicate SameAt(p: Pos, line: seq<Move>, i: int, k: int) {
    0 <= i <= |line| && 0 <= k <= |line| &&
    var a, b := Play(p, line[..i]), Play(p, line[..k]);
    a.squares == b.squares && a.side == b.side && a.rights == b.rights && a.ep == b.ep
  }

  /** The last position has occurred three times exactly when it also stood on the board at two earlier moments. */
  lemma ThirdVisit(p: Pos, line: seq<Move>)
    ensures Visits(p, line) >= 3 <==>
            exists i, j :: i < j < |line| && SameAt(p, line, i, |line|) && SameAt(p, line, j, |line|)
    ensures Visits(p, line) >= 1
  {
    hide Play;
    var keys, n := Keys(p, line), |line|;
    var last := RepetitionKey(Play(p, line));
    var before := keys[..n];
    assert line[..n] == line;
    assert keys == before + [last];
    TimesIsMultiplicity(keys, last);
    assert Times(keys, last) == Times(before, last) + 1;
    TimesAtLeastTwo(before, last);
    forall i ensures OccursAt(before, last, i) <==> i < n && SameAt(p, line, i, n) {
      assert 0 <= i < n ==> before[i] == RepetitionKey(Play(p, line[..i]));
    }
  }

  /** Material is insufficient when at most one man is left besides kings, and that a bishop or knight. */
  lemma InsufficientMeans(squares: Squares)
    ensures DeadDraw(squares) <==>
            exists s: Square ::
              && (squares[s] == Empty || squares[s].kind in {King, Bishop, Knight})
              && forall t: Square :: t != s ==> squares[t] == Empty || squares[t].kind == King
  {
    if DeadDraw(squares) {
      if s: Square :| IsMinor(squares[s]) {
        forall t: Square | t != s ensures squares[t] == Empty || squares[t].kind == King {
          assert IsMinor(squares[t]) ==> s == t;
        }
      } else {
        var s: Square := 0;
        assert forall t: Square :: !IsMinor(squares[t]);
        assert squares[s] == Empty || squares[s].kind == King;
      }
    }
  }
}
