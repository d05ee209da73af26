/** The internal match runner's game loop. */
module GameLoop {
  import opened ChessTypes
  import opened Rules
  import opened MoveLists
  import opened Preservation
  import opened Movegen
  import opened Repetition
  import opened Uci
  import opened Fen
  import opened FenBoard
  import opened GamePotential
  import opened GameRuns

  datatype FaultKind = IllegalMove | TimedOut | Crashed

  /** What a side's engine process does when asked to move. */
  datatype Reply = BestMove(text: string) | NoAnswerInTime | ProcessDied

  /** What the two engine processes do in one game: whether they come up, and the reply to the request made
      after so many plies. */
  datatype Session = Session(whiteStarts: bool, blackStarts: bool, replies: nat -> Reply)

  datatype Outcome = WhiteWins | BlackWins | Drawn

  datatype Ending = Adjudicated(reason: Reason) | Faulted | FailedToStart

  datatype Fault = Fault(side: Color, kind: FaultKind)

  datatype Record = Record(moves: seq<string>, result: Outcome, ending: Ending, fault: Option<Fault>,
                           finalFen: Option<string>, plies: nat)

  function LossFor(c: Color): Outcome { if c.White? then BlackWins else WhiteWins }

  // ----- adjudication helpers ----------------------------------------------

  /** The men that keep a draw from being dead. */
  predicate Heavy(piece: Piece) {
    piece.Man? && piece.kind in {Pawn, Rook, Queen}
  }

  method IsInsufficientMaterial(b: Board) returns (r: bool)
    requires b.Valid()
    ensures r <==> DeadDraw(b.Value().squares)
  {
    ghost var sq: Squares := b.Value().squares;
    var minors: seq<Piece> := [];
    ghost var at: seq<Square> := [];
    for i := 0 to 64
      invariant |at| == |minors| && NoDup(at)
      invariant forall s: Square :: s in at <==> s < i && IsMinor(sq[s])
      invariant forall s: Square :: s < i ==> !Heavy(sq[s])
    {
      var piece := b.squares[i];
      if piece == Empty || piece.kind == King {
        continue;
      }
      if piece.kind == Bishop || piece.kind == Knight {
        minors := minors + [piece];
        at := at + [i];
      } else {
        assert Heavy(sq[i]);
        return false;
      }
    }
    MinorsAt(sq, at);
    return |minors| <= 1;
  }

  lemma MinorsAt(squares: Squares, at: seq<Square>)
    requires NoDup(at) && forall s: Square :: s in at <==> IsMinor(squares[s])
    ensures |at| <= 1 <==> forall s: Square, t: Square :: IsMinor(squares[s]) && IsMinor(squares[t]) ==> s == t
  {
    if |at| >= 2 {
      assert at[0] in at && at[1] in at;
    }
  }

  /** {m.uci(): m for m in generate_legal(board)} */
  method LegalByText(b: Board) returns (legal: map<string, Move>)
    requires b.Valid()
    ensures forall t :: t in legal ==> Legal(b.Value(), legal[t]) && MoveText(legal[t]) == t
    ensures forall m :: Legal(b.Value(), m) ==> MoveText(m) in legal && legal[MoveText(m)] == m
  {
    hide Complete, LegalMoves, Legal, MoveText;
    ghost var p := b.Value();
    var moves := GenerateLegal(b);
    legal := map[];
    for i := 0 to |moves|
      invariant forall t :: t in legal ==> legal[t] in moves[..i] && MoveText(legal[t]) == t
      invariant forall m :: m in moves[..i] ==> MoveText(m) in legal && legal[MoveText(m)] == m
    {
      assert moves[..i + 1] == moves[..i] + [moves[i]];
      forall m | MoveText(m) == MoveText(moves[i]) ensures m == moves[i] {
        MoveTextInjective(m, moves[i]);
      }
      legal := legal[MoveText(moves[i]) := moves[i]];
    }
    assert moves[..|moves|] == moves;
    forall m ensures m in moves <==> Legal(p, m) {
      LegalMovesAreExact(ORACLE, p, m);
    }
  }

  // ----- the record --------------------------------------------------------

  /** The moves a list of UCI texts stands for. */
  ghost function MovesOf(texts: seq<string>): seq<Move>
    requires forall i :: 0 <= i < |texts| ==> ParseMove(texts[i]).Some?
  {
    seq(|texts|, i requires 0 <= i < |texts| => ParseMove(texts[i]).value)
  }

  ghost predicate AllParse(texts: seq<string>) {
    forall i :: 0 <= i < |texts| ==> ParseMove(texts[i]).Some?
  }

  function TextsOf(line: seq<Move>): seq<string> {
    seq(|line|, i requires 0 <= i < |line| => MoveText(line[i]))
  }

  /** Reading the texts of a line back gives the line. */
  lemma MovesOfTexts(line: seq<Move>)
    ensures AllParse(TextsOf(line)) && MovesOf(TextsOf(line)) == line
  {
    forall i | 0 <= i < |line| ensures ParseMove(TextsOf(line)[i]) == Some(line[i]) {
      MoveRoundTrip(line[i]);
    }
  }

  /** The record tells the truth about the game started at p: its moves replay legally to its final
      position, no earlier position called for adjudication, and the ending fits the final position. */
  ghost predicate Truthful(rec: Record, p: Pos, maxPlies: int, drawPlies: int) {
    && AllParse(rec.moves)
    && rec.plies == |rec.moves|
    && var line := MovesOf(rec.moves);
       var last := Play(p, line);
       var verdict := Adjudicate(last, Visits(p, line), |line|, maxPlies, drawPlies);
       && Unadjudicated(p, line, maxPlies, drawPlies)
       && rec.finalFen == Some(FenText(last))
       && match rec.ending
          case Adjudicated(reason) =>
            && rec.fault.None? && verdict == Some(reason)
            && rec.result == (if reason == Checkmate then LossFor(last.side) else Drawn)
          case Faulted =>
            && verdict.None?
            && rec.fault.Some? && rec.fault.value.side == last.side && rec.result == LossFor(last.side)
          case FailedToStart => false
  }

  /** None of the tests before the halfmove clock's calls for an end: a legal move exists, the position has not
      occurred three times and the material can still mate. */
  ghost predicate GoesOn(p: Pos, line: seq<Move>) {
    HasLegalMove(Play(p, line)) && Visits(p, line) < 3 && !DeadDraw(Play(p, line).squares)
  }

  /** A played game ends by checkmate exactly when its final position is checkmate, likewise for every other
      reason; a side loses exactly by being mated or by its own fault. */
  lemma EndingFits(rec: Record, p: Pos, maxPlies: int, drawPlies: int)
    requires Truthful(rec, p, maxPlies, drawPlies)
    ensures var line := MovesOf(rec.moves);
            var last := Play(p, line);
            && (rec.ending == Adjudicated(Checkmate) <==> InCheck(last) && !HasLegalMove(last))
            && (rec.ending == Adjudicated(Stalemate) <==> !InCheck(last) && !HasLegalMove(last))
            && (rec.ending == Adjudicated(Threefold) <==> HasLegalMove(last) && Visits(p, line) == 3)
            && (rec.ending == Adjudicated(InsufficientMaterial) <==>
                  HasLegalMove(last) && Visits(p, line) < 3 && DeadDraw(last.squares))
            && (rec.ending == Adjudicated(HalfmoveDraw) <==> GoesOn(p, line) && last.half >= drawPlies)
            && (rec.ending == Adjudicated(MaxPlies) <==>
                  GoesOn(p, line) && last.half < drawPlies && rec.plies >= maxPlies)
            && (rec.ending == Faulted <==> GoesOn(p, line) && last.half < drawPlies && rec.plies < maxPlies)
            && (rec.result == Drawn <==> rec.ending.Adjudicated? && rec.ending.reason != Checkmate)
            && (rec.result == WhiteWins <==> last.side == Black && rec.ending in {Adjudicated(Checkmate), Faulted})
            && (rec.result == BlackWins <==> last.side == White && rec.ending in {Adjudicated(Checkmate), Faulted})
  {
    hide Unadjudicated, MovesOf, Play, HasLegalMove, InCheck, DeadDraw, FenText;
    var line := MovesOf(rec.moves);
    MovesOfLength(rec.moves);
    AtMostThreefold(p, line, maxPlies, drawPlies, RepetitionKey(Play(p, line)));
  }

  /** No game runs past its cap, and none past a position that calls for an end. */
  lemma PliesWithinCap(rec: Record, p: Pos, maxPlies: int, drawPlies: int)
    requires Truthful(rec, p, maxPlies, drawPlies)
    ensures rec.plies <= if maxPlies < 0 then 0 else maxPlies
    ensures var line := MovesOf(rec.moves);
            forall i :: 0 <= i < rec.plies ==>
              GoesOn(p, line[..i]) && Play(p, line[..i]).half < drawPlies && i < maxPlies
  {
    hide MovesOf, Play, HasLegalMove, InCheck, DeadDraw, FenText, Visits, LegalLine;
    var line := MovesOf(rec.moves);
    assert |line| == rec.plies by { MovesOfLength(rec.moves); }
    forall i | 0 <= i < rec.plies
      ensures GoesOn(p, line[..i]) && Play(p, line[..i]).half < drawPlies && i < maxPlies
    {
      assert Adjudicate(Play(p, line[..i]), Visits(p, line[..i]), i, maxPlies, drawPlies) == None;
    }
    if rec.plies > 0 {
      assert GoesOn(p, line[..rec.plies - 1]);
    }
  }

  lemma MovesOfLength(texts: seq<string>)
    requires AllParse(texts)
    ensures |MovesOf(texts)| == |texts|
  {
  }

  /** The record of a game whose engine never came up. */
  ghost predicate NeverPlayed(rec: Record) {
    && rec.ending == FailedToStart && rec.moves == [] && rec.plies == 0 && rec.finalFen.None?
    && rec.fault.Some? && rec.fault.value.kind == Crashed && rec.result == LossFor(rec.fault.value.side)
  }

  /** The fault a reply amounts to when it is not the text of a legal move. */
  function FaultOf(reply: Reply): FaultKind {
    match reply case BestMove(_) => IllegalMove case NoAnswerInTime => TimedOut case ProcessDied => Crashed
  }

  /** The record follows the engines: it fails to start exactly when one of them does, its moves are their
      answers in turn, and a fault is the first reply that is no legal move, filed as what it was. */
  ghost predicate Follows(rec: Record, p: Pos, s: Session) {
    && (rec.ending == FailedToStart <==> !s.whiteStarts || !s.blackStarts)
    && (rec.ending == FailedToStart ==> rec.fault == Some(Fault(if s.whiteStarts then Black else White, Crashed)))
    && (rec.ending != FailedToStart ==>
          && AllParse(rec.moves)
          && (forall i :: 0 <= i < |rec.moves| ==> s.replies(i) == BestMove(rec.moves[i]))
          && (rec.ending == Faulted ==>
                var reply := s.replies(|rec.moves|);
                && rec.fault.Some? && rec.fault.value.kind == FaultOf(reply)
                && (reply.BestMove? ==> forall m :: Legal(Play(p, MovesOf(rec.moves)), m) ==> MoveText(m) != reply.text)))
  }

  lemma FollowsEnd(rec: Record, p: Pos, s: Session, line: seq<Move>)
    requires s.whiteStarts && s.blackStarts && rec.ending != FailedToStart && rec.moves == TextsOf(line)
    requires forall i :: 0 <= i < |rec.moves| ==> s.replies(i) == BestMove(rec.moves[i])
    requires rec.ending == Faulted ==>
               var reply := s.replies(|rec.moves|);
               && rec.fault.Some? && rec.fault.value.kind == FaultOf(reply)
               && (reply.BestMove? ==> forall m :: Legal(Play(p, line), m) ==> MoveText(m) != reply.text)
    ensures Follows(rec, p, s)
  {
    hide TextsOf, MovesOf, Legal, Play, MoveText;
    MovesOfTexts(line);
  }

  /** The tests at the head of the loop, as the loop makes them. */
  method Verdict(b: Board, legalEmpty: bool, visits: nat, plies: nat, maxPlies: int, drawPlies: int)
    returns (v: Option<Reason>)
    requires b.Valid() && legalEmpty == !HasLegalMove(b.Value())
    ensures v == Adjudicate(b.Value(), visits, plies, maxPlies, drawPlies)
  {
    hide HasLegalMove, DeadDraw, InCheck;
    if legalEmpty {
      var check := IsInCheck(b);
      return Some(if check then Checkmate else Stalemate);
    }
    if visits >= 3 {
      return Some(Threefold);
    }
    var dead := IsInsufficientMaterial(b);
    if dead {
      return Some(InsufficientMaterial);
    }
    if b.half >= drawPlies {
      return Some(HalfmoveDraw);
    }
    if plies >= maxPlies {
      return Some(MaxPlies);
    }
    return None;
  }

  /** The table of positions seen is a recount of the history. */
  ghost predicate Recounts(seen: map<Key, nat>, keys: seq<Key>) {
    forall k :: (k in seen <==> k in keys) && (k in seen ==> seen[k] == multiset(keys)[k])
  }

  lemma RecountAppend(seen: map<Key, nat>, keys: seq<Key>, k: Key)
    requires Recounts(seen, keys)
    ensures Recounts(seen[k := (if k in seen then seen[k] else 0) + 1], keys + [k])
  {
  }

  lemma FirstRecount(p: Pos)
    ensures Keys(p, []) == [RepetitionKey(p)]
    ensures Recounts(map[RepetitionKey(p) := 1], Keys(p, []))
  {
  }

  lemma LastKey(p: Pos, line: seq<Move>)
    ensures RepetitionKey(Play(p, line)) in Keys(p, line)
  {
    assert line[..|line|] == line;
    assert Keys(p, line)[|line|] == RepetitionKey(Play(p, line));
  }

  lemma NoLegalText(p: Pos, legal: map<string, Move>)
    requires forall t :: t in legal ==> Legal(p, legal[t])
    requires forall m :: Legal(p, m) ==> MoveText(m) in legal
    ensures |legal| == 0 <==> !HasLegalMove(p)
  {
    hide Legal, MoveText;
    if |legal| > 0 {
      var t :| t in legal;
      assert Legal(p, legal[t]);
    }
  }

  lemma SeenIsVisits(seen: map<Key, nat>, p: Pos, line: seq<Move>)
    requires Recounts(seen, Keys(p, line))
    ensures RepetitionKey(Play(p, line)) in seen && seen[RepetitionKey(Play(p, line))] == Visits(p, line)
  {
    hide RepetitionKey, Play;
    LastKey(p, line);
  }

  method KeyOf(b: Board) returns (k: Key)
    requires b.Valid()
    ensures k == RepetitionKey(b.Value())
  {
    k := Key(b.squares[..], b.side, b.rights, b.ep);
  }

  lemma NothingPlayed(p: Pos, maxPlies: int, drawPlies: int)
    ensures Unadjudicated(p, [], maxPlies, drawPlies)
  {
  }

  lemma NoTexts()
    ensures TextsOf([]) == []
  {
  }

  lemma TextsAppend(line: seq<Move>, m: Move)
    ensures TextsOf(line + [m]) == TextsOf(line) + [MoveText(m)] && |TextsOf(line)| == |line|
  {
  }

  /** A game going on has its clock below the threshold. */
  lemma BelowThreshold(p: Pos, visits: nat, plies: nat, maxPlies: int, drawPlies: int)
    requires Adjudicate(p, visits, plies, maxPlies, drawPlies) == None
    ensures p.half < drawPlies
  {
  }

  lemma TruthfulEnd(rec: Record, p: Pos, line: seq<Move>, maxPlies: int, drawPlies: int)
    requires Unadjudicated(p, line, maxPlies, drawPlies)
    requires rec.moves == TextsOf(line) && rec.plies == |rec.moves| && rec.finalFen == Some(FenText(Play(p, line)))
    requires var last := Play(p, line);
             var verdict := Adjudicate(last, Visits(p, line), |line|, maxPlies, drawPlies);
             match rec.ending
             case Adjudicated(reason) =>
               && rec.fault.None? && verdict == Some(reason)
               && rec.result == (if reason == Checkmate then LossFor(last.side) else Drawn)
             case Faulted =>
               && verdict.None? && rec.fault.Some? && rec.fault.value.side == last.side && rec.result == LossFor(last.side)
             case FailedToStart => false
    ensures Truthful(rec, p, maxPlies, drawPlies)
  {
    hide Unadjudicated, Adjudicate, Visits, Play, FenText, TextsOf, MovesOf;
    MovesOfTexts(line);
  }

  /** Play one game between two engines; ValueError when the start FEN is malformed. */
  method PlayGame(startFen: string, maxPlies: int, drawPlies: int, s: Session) returns (r: Result<Record>)
    ensures r.ValueError? <==> ParsePos(startFen).None?
    ensures r.Ok? ==> Follows(r.value, ParsePos(startFen).value, s)
    ensures r.Ok? ==> NeverPlayed(r.value) || Truthful(r.value, ParsePos(startFen).value, maxPlies, drawPlies)
  {
    hide Play, Truthful, Unadjudicated, Adjudicate, ParsePos, FenText, HasLegalMove, MovesLeft, Recounts, Keys,
         Legal, MoveText, After, MovesOf, AllParse, RepetitionKey, TextsOf, PseudoLegal, Visits;
    var parsed := ParseFen(startFen);
    if parsed.ValueError? {
      return ValueError;
    }
    if !s.whiteStarts {
      return Ok(Record([], LossFor(White), FailedToStart, Some(Fault(White, Crashed)), None, 0));
    }
    if !s.blackStarts {
      return Ok(Record([], LossFor(Black), FailedToStart, Some(Fault(Black, Crashed)), None, 0));
    }
    var board := parsed.value;
    ghost var p := board.Value();
    ghost var h: nat := if drawPlies < 0 then 0 else drawPlies;
    ghost var line: seq<Move> := [];
    var moves: seq<string> := [];
    var key := KeyOf(board);
    var seen := map[key := 1];
    FirstRecount(p);
    PlayNothing(p);
    NothingPlayed(p, maxPlies, drawPlies);
    assert TextsOf([]) == [] by { NoTexts(); }
    while true
      invariant board.Valid() && board.Value() == Play(p, line)
      invariant moves == TextsOf(line) && forall i :: 0 <= i < |moves| ==> s.replies(i) == BestMove(moves[i])
      invariant Unadjudicated(p, line, maxPlies, drawPlies)
      invariant Recounts(seen, Keys(p, line)) && key == RepetitionKey(board.Value())
      decreases MovesLeft(Play(p, line), h)
    {
      ghost var now := board.Value();
      ghost var before := Keys(p, line);
      var legal := LegalByText(board);
      NoLegalText(now, legal);
      SeenIsVisits(seen, p, line);
      TextsLength(line);
      var verdict := Verdict(board, |legal| == 0, seen[key], |moves|, maxPlies, drawPlies);
      if verdict.Some? {
        var fen := BoardToFen(board);
        var result := if verdict.value == Checkmate then LossFor(board.side) else Drawn;
        var rec := Record(moves, result, Adjudicated(verdict.value), None, Some(fen), |moves|);
        TruthfulEnd(rec, p, line, maxPlies, drawPlies);
        FollowsEnd(rec, p, s, line);
        return Ok(rec);
      }
      var reply := s.replies(|moves|);
      if !reply.BestMove? || reply.text !in legal {
        var kind := FaultOf(reply);
        var fen := BoardToFen(board);
        var rec := Record(moves, LossFor(board.side), Faulted, Some(Fault(board.side, kind)), Some(fen), |moves|);
        TruthfulEnd(rec, p, line, maxPlies, drawPlies);
        FollowsEnd(rec, p, s, line);
        return Ok(rec);
      }
      var m := legal[reply.text];
      LegalIsPseudo(now, m);
      BelowThreshold(now, seen[key], |moves|, maxPlies, drawPlies);
      MovesLeftFalls(now, m, h);
      RunAppend(p, line, m, maxPlies, drawPlies);
      LineAppend(p, line, m);
      KeysAppend(p, line, m);
      TextsAppend(line, m);
      var next := MakeMove(board, m);
      board := next.value;
      line := line + [m];
      moves := moves + [reply.text];
      key := KeyOf(board);
      RecountAppend(seen, before, key);
      seen := seen[key := (if key in seen then seen[key] else 0) + 1];
    }
  }

  lemma TextsLength(line: seq<Move>)
    ensures |TextsOf(line)| == |line|
  {
  }
}
