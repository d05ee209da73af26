/** The repetition key identifies positions up to everything legality depends on. */
module Repetition {
  import opened ChessTypes
  import opened Geometry
  import opened Rules
  import opened MoveLists
  import opened PerftTree

  /** Placement, side to move, castling rights and en passant square; no clocks. */
  datatype Key = Key(squares: Squares, side: Color, rights: Rights, ep: Option<EpSquare>)

  function RepetitionKey(p: Pos): Key {
    Key(p.squares, p.side, p.rights, p.ep)
  }

  predicate SameKey(p: Pos, q: Pos) {
    RepetitionKey(p) == RepetitionKey(q)
  }

  /** Two positions have the same key exactly when men, side to move, castling rights and en passant square agree. */
  lemma SameKeyMeans(p: Pos, q: Pos)
    ensures SameKey(p, q) <==> p == q.(half := p.half, full := p.full)
  {
  }

  lemma {:induction false} SameTakes(p: Pos, q: Pos, s: Square, fs: seq<int>, n: nat)
    requires SameKey(p, q) && n <= |fs|
    ensures PawnTakes(p, s, fs, n) == PawnTakes(q, s, fs, n)
  {
    if n > 0 {
      SameTakes(p, q, s, fs, n - 1);
    }
  }

  lemma SameManMoves(o: Order, p: Pos, q: Pos, s: Square)
    requires Complete(o) && SameKey(p, q)
    ensures ManMoves(o, p, s) == ManMoves(o, q, s)
  {
    hide FileOf, RankOf, Shift;
    SameTakes(p, q, s, o.pawn, |o.pawn|);
  }

  lemma {:induction false} SamePseudo(o: Order, p: Pos, q: Pos, n: nat)
    requires Complete(o) && SameKey(p, q) && n <= 64
    ensures PseudoUpTo(o, p, n) == PseudoUpTo(o, q, n)
  {
    hide Complete, ManMoves;
    if n > 0 {
      SamePseudo(o, p, q, n - 1);
      SameManMoves(o, p, q, n - 1);
    }
  }

  /** Equal keys have successors with equal keys. */
  lemma SameAfter(p: Pos, q: Pos, m: Move)
    requires SameKey(p, q)
    ensures SameKey(After(p, m), After(q, m))
  {
  }

  lemma {:induction false} SameSafe(p: Pos, q: Pos, ms: seq<Move>)
    requires SameKey(p, q)
    ensures SafeMoves(p, ms) == SafeMoves(q, ms)
  {
    hide After, KingSafe;
    if ms != [] {
      SameSafe(p, q, ms[..|ms| - 1]);
      SameAfter(p, q, ms[|ms| - 1]);
    }
  }

  /** Equal keys have the same legal moves in the same order, and check each other's check. */
  lemma SameLegal(o: Order, p: Pos, q: Pos)
    requires Complete(o) && SameKey(p, q)
    ensures LegalMoves(o, p) == LegalMoves(o, q)
    ensures InCheck(p) == InCheck(q)
  {
    hide Complete, SafeMoves, PseudoUpTo;
    SamePseudo(o, p, q, 64);
    SameSafe(p, q, PseudoMoves(o, p));
  }

  /** Equal keys have equal perft at every depth, whatever the clocks. */
  lemma {:induction false} SamePerft(o: Order, p: Pos, q: Pos, depth: nat)
    requires Complete(o) && SameKey(p, q)
    ensures Perft(o, p, depth) == Perft(o, q, depth)
    decreases depth, 0, 0
  {
    hide Complete, LegalMoves, RepetitionKey;
    if depth > 0 {
      SameLegal(o, p, q);
      SamePerftOver(o, p, q, LegalMoves(o, p), depth);
    }
  }

  lemma {:induction false} SamePerftOver(o: Order, p: Pos, q: Pos, ms: seq<Move>, depth: nat)
    requires Complete(o) && SameKey(p, q) && depth > 0
    ensures PerftOver(o, p, ms, depth) == PerftOver(o, q, ms, depth)
    decreases depth - 1, 1, |ms|
  {
    hide Complete, After, RepetitionKey;
    if ms != [] {
      SamePerftOver(o, p, q, ms[..|ms| - 1], depth);
      SameAfter(p, q, ms[|ms| - 1]);
      SamePerft(o, After(p, ms[|ms| - 1]), After(q, ms[|ms| - 1]), depth - 1);
    }
  }
}
