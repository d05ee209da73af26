/** What a game of the internal runner is: the adjudication rules and the runs they allow. */
module GameRuns {
  import opened ChessTypes
  import opened Rules
  import opened Preservation
  import opened Movegen
  import opened Repetition
  import opened GamePotential

  datatype Reason = Checkmate | Stalemate | Threefold | InsufficientMaterial | HalfmoveDraw | MaxPlies

  /** K vs K, K+B vs K or K+N vs K: no pawn, rook or queen, and at most one minor piece. */
  ghost predicate DeadDraw(squares: Squares) {
    && (forall s: Square :: squares[s].Man? ==> squares[s].kind in {King, Bishop, Knight})
    && forall s: Square, t: Square :: IsMinor(squares[s]) && IsMinor(squares[t]) ==> s == t
  }

  predicate IsMinor(piece: Piece) {
    piece.Man? && (piece.kind == Bishop || piece.kind == Knight)
  }

  /** The runner's tests on a position, in the order it makes them. */
  ghost function Adjudicate(p: Pos, visits: nat, plies: nat, maxPlies: int, drawPlies: int): Option<Reason> {
    if !HasLegalMove(p) then Some(if InCheck(p) then Checkmate else Stalemate)
    else if visits >= 3 then Some(Threefold)
    else if DeadDraw(p.squares) then Some(InsufficientMaterial)
    else if p.half >= drawPlies then Some(HalfmoveDraw)
    else if plies >= maxPlies then Some(MaxPlies)
    else None
  }

  /** The repetition keys of every position on the line, the first and the last included. */
  function Keys(p: Pos, line: seq<Move>): seq<Key> {
    seq(|line| + 1, i requires 0 <= i <= |line| => RepetitionKey(Play(p, line[..i])))
  }

  /** How often the last position of the line has occurred on it. */
  function Visits(p: Pos, line: seq<Move>): nat {
    multiset(Keys(p, line))[RepetitionKey(Play(p, line))]
  }

  /** A legal line on which no earlier position was adjudicated. */
  ghost predicate Unadjudicated(p: Pos, line: seq<Move>, maxPlies: int, drawPlies: int) {
    && LegalLine(p, line)
    && forall i :: 0 <= i < |line| ==>
         Adjudicate(Play(p, line[..i]), Visits(p, line[..i]), i, maxPlies, drawPlies) == None
  }

  // ----- extending a run ---------------------------------------------------

  lemma KeysAppend(p: Pos, line: seq<Move>, m: Move)
    ensures Keys(p, line + [m]) == Keys(p, line) + [RepetitionKey(Play(p, line + [m]))]
  {
    hide RepetitionKey, After;
    assert forall i :: 0 <= i <= |line| ==> (line + [m])[..i] == line[..i];
    assert (line + [m])[..|line| + 1] == line + [m];
  }

  lemma RunAppend(p: Pos, line: seq<Move>, m: Move, maxPlies: int, drawPlies: int)
    requires Unadjudicated(p, line, maxPlies, drawPlies) && Legal(Play(p, line), m)
    requires Adjudicate(Play(p, line), Visits(p, line), |line|, maxPlies, drawPlies) == None
    ensures Unadjudicated(p, line + [m], maxPlies, drawPlies)
  {
    hide Adjudicate, Legal, Visits, Play;
    LineAppend(p, line, m);
    assert forall i :: 0 <= i <= |line| ==> (line + [m])[..i] == line[..i];
    assert line[..|line|] == line;
  }

  lemma RunPrefix(p: Pos, line: seq<Move>, maxPlies: int, drawPlies: int)
    requires Unadjudicated(p, line, maxPlies, drawPlies) && line != []
    ensures var init := line[..|line| - 1];
            Unadjudicated(p, init, maxPlies, drawPlies)
            && line == init + [line[|line| - 1]] && Legal(Play(p, init), line[|line| - 1])
            && Adjudicate(Play(p, init), Visits(p, init), |init|, maxPlies, drawPlies) == None
  {
    hide Adjudicate, Legal, Visits, Play;
    var init := line[..|line| - 1];
    assert line == init + [line[|line| - 1]];
    LineAppend(p, init, line[|line| - 1]);
    assert forall i :: 0 <= i <= |init| ==> init[..i] == line[..i];
  }

  // ----- what every run satisfies ------------------------------------------

  /** No position occurs more than three times, and only the last one can occur three times. */
  lemma {:induction false} AtMostThreefold(p: Pos, line: seq<Move>, maxPlies: int, drawPlies: int, k: Key)
    requires Unadjudicated(p, line, maxPlies, drawPlies)
    ensures multiset(Keys(p, line))[k] <= 3
    ensures multiset(Keys(p, line))[k] == 3 ==> k == RepetitionKey(Play(p, line))
    decreases |line|
  {
    hide LegalLine, HasLegalMove, InCheck, DeadDraw, RepetitionKey, After, Legal;
    if line == [] {
      assert Keys(p, line) == [RepetitionKey(p)];
    } else {
      var init, m := line[..|line| - 1], line[|line| - 1];
      RunPrefix(p, line, maxPlies, drawPlies);
      AtMostThreefold(p, init, maxPlies, drawPlies, k);
      KeysAppend(p, init, m);
    }
  }

  /** Whatever the cap on plies, the halfmove threshold alone bounds every run. */
  lemma {:induction false} RunIsBounded(p: Pos, line: seq<Move>, maxPlies: int, drawPlies: nat)
    requires Unadjudicated(p, line, maxPlies, drawPlies)
    ensures |line| + MovesLeft(Play(p, line), drawPlies) <= MovesLeft(p, drawPlies)
    ensures |line| <= drawPlies * (Potential(p.squares) + 1)
    decreases |line|
  {
    hide LegalLine, HasLegalMove, InCheck, DeadDraw, RepetitionKey, After, MovesLeft, Visits, Potential;
    MovesLeftBound(p, drawPlies);
    if line != [] {
      var init, m := line[..|line| - 1], line[|line| - 1];
      RunPrefix(p, line, maxPlies, drawPlies);
      RunIsBounded(p, init, maxPlies, drawPlies);
      LineAppend(p, init, m);
      assert PseudoLegal(Play(p, init), m) by { LegalIsPseudo(Play(p, init), m); }
      MovesLeftFalls(Play(p, init), m, drawPlies);
    }
  }

  /** A run from a well-formed start never meets a checkmate or stalemate before its last position,
      and its last position is well formed. */
  lemma RunStaysWellFormed(p: Pos, line: seq<Move>, maxPlies: int, drawPlies: int)
    requires WellFormed(p) && Unadjudicated(p, line, maxPlies, drawPlies)
    ensures WellFormed(Play(p, line))
    ensures forall i :: 0 <= i < |line| ==> HasLegalMove(Play(p, line[..i]))
  {
    hide WellFormed, LegalLine, InCheck, DeadDraw, Visits, Play, HasLegalMove;
    RunPreserves(p, line);
  }
}
