/** The oracle: a mutable 64-square board, attack detection, move generation and
    copy-make move application, each proved against the declarative rules. */
module Movegen {
  import opened ChessTypes
  import opened Geometry
  import opened Rules
  import opened MoveLists
  import opened AttackScan

  const KNIGHT_DELTAS: seq<Delta> :=
    [Delta(1, 2), Delta(2, 1), Delta(2, -1), Delta(1, -2), Delta(-1, -2), Delta(-2, -1), Delta(-2, 1), Delta(-1, 2)]
  const KING_DELTAS: seq<Delta> :=
    [Delta(1, 0), Delta(1, 1), Delta(0, 1), Delta(-1, 1), Delta(-1, 0), Delta(-1, -1), Delta(0, -1), Delta(1, -1)]
  const BISHOP_DIRS: seq<Delta> := [Delta(1, 1), Delta(1, -1), Delta(-1, 1), Delta(-1, -1)]
  const ROOK_DIRS: seq<Delta> := [Delta(1, 0), Delta(-1, 0), Delta(0, 1), Delta(0, -1)]
  const QUEEN_DIRS: seq<Delta> :=
    [Delta(1, 0), Delta(-1, 0), Delta(0, 1), Delta(0, -1), Delta(1, 1), Delta(1, -1), Delta(-1, 1), Delta(-1, -1)]
  const PAWN_FILES: seq<int> := [-1, 1]

  const ORACLE: Order := Order(KNIGHT_DELTAS, KING_DELTAS, ROOK_DIRS, BISHOP_DIRS, QUEEN_DIRS, PAWN_FILES)

  lemma KnightTable(d: Delta)
    ensures d in KNIGHT_DELTAS <==> IsKnightDelta(d)
  {
    InEight(KNIGHT_DELTAS, d);
  }

  lemma KingTable(d: Delta)
    ensures d in KING_DELTAS <==> IsKingDelta(d)
  {
    InEight(KING_DELTAS, d);
  }

  lemma SliderTables(d: Delta)
    ensures d in ROOK_DIRS <==> IsRookDir(d)
    ensures d in BISHOP_DIRS <==> IsBishopDir(d)
    ensures d in QUEEN_DIRS <==> IsKingDelta(d)
  {
    InFour(ROOK_DIRS, d);
    InFour(BISHOP_DIRS, d);
    InEight(QUEEN_DIRS, d);
  }

  lemma OracleTablesDistinct()
    ensures NoDup(KNIGHT_DELTAS) && NoDup(KING_DELTAS) && NoDup(ROOK_DIRS) && NoDup(BISHOP_DIRS)
    ensures NoDup(QUEEN_DIRS) && NoDup(PAWN_FILES)
  {
  }

  /** The oracle's tables list every offset of their kind exactly once. */
  lemma OracleComplete()
    ensures Complete(ORACLE)
  {
    forall d
      ensures d in KNIGHT_DELTAS <==> IsKnightDelta(d)
      ensures d in KING_DELTAS <==> IsKingDelta(d)
      ensures d in ROOK_DIRS <==> IsRookDir(d)
      ensures d in BISHOP_DIRS <==> IsBishopDir(d)
      ensures d in QUEEN_DIRS <==> IsKingDelta(d)
    {
      hide *;
      KnightTable(d);
      KingTable(d);
      SliderTables(d);
    }
    OracleTablesDistinct();
    hide NoDup;
  }

  /** A Python call that may raise ValueError. */
  datatype Result<+T> = Ok(value: T) | ValueError

  class Board {
    const squares: array<Piece>
    var side: Color
    var rights: Rights
    var ep: Option<EpSquare>
    var half: nat
    var full: nat

    ghost predicate Valid() {
      squares.Length == 64
    }

    /** The position this board holds. */
    ghost function Value(): Pos
      requires Valid()
      reads this, squares
    {
      Pos(squares[..], side, rights, ep, half, full)
    }

    /** The empty board, White to move. */
    constructor ()
      ensures Valid() && fresh(squares)
      ensures Value() == Pos(seq(64, _ => Empty), White, Rights(false, false, false, false), None, 0, 1)
    {
      squares := new Piece[64](_ => Empty);
      side, rights, ep, half, full := White, Rights(false, false, false, false), None, 0, 1;
    }

    constructor Duplicate(b: Board)
      requires b.Valid()
      ensures Valid() && fresh(squares) && Value() == b.Value()
    {
      squares := new Piece[64](i requires 0 <= i < 64 reads b.squares => b.squares[i]);
      side, rights, ep, half, full := b.side, b.rights, b.ep, b.half, b.full;
      new;
      assert squares[..] == b.squares[..];
    }

    method Copy() returns (b: Board)
      requires Valid()
      ensures b.Valid() && fresh(b) && fresh(b.squares) && b.Value() == Value()
    {
      b := new Board.Duplicate(this);
    }

    /** The first square holding the king of colour c. */
    method FindsKing(c: Color) returns (r: Option<Square>)
      requires Valid()
      ensures r == KingSquare(Value().squares, c)
    {
      for i := 0 to 64
        invariant KingSquare(Value().squares, c) == FindKing(Value().squares, c, i)
      {
        if squares[i] == Man(c, King) {
          return Some(i);
        }
      }
      return None;
    }
  }

  // ----- attack detection --------------------------------------------------

  /** One of the leaper loops: does an offset of ds lead from t to the given man? */
  method LeaperLoop(b: Board, t: Square, ds: seq<Delta>, piece: Piece) returns (hit: bool)
    requires b.Valid()
    ensures hit <==> !LeaperFree(b.Value().squares, t, ds, |ds|, piece)
  {
    hide Shift;
    for i := 0 to |ds|
      invariant LeaperFree(b.Value().squares, t, ds, i, piece)
    {
      var s := Shift(t, ds[i]);
      if s.Some? && b.squares[s.value] == piece {
        return true;
      }
    }
    return false;
  }

  /** One of the slider loops: does a ray of ds end at a slider of kind k or a queen? */
  method SliderLoop(b: Board, t: Square, ds: seq<Delta>, c: Color, k: Kind) returns (hit: bool)
    requires b.Valid() && AllKingDeltas(ds)
    ensures hit <==> !SliderFree(b.Value().squares, t, ds, |ds|, c, k)
  {
    hide FileOf, RankOf, Shift, StepsLeft, IsKingDelta;
    ghost var sq: Squares := b.Value().squares;
    for i := 0 to |ds|
      invariant SliderFree(sq, t, ds, i, c, k)
    {
      var d := ds[i];
      var s := Shift(t, d);
      while s.Some?
        invariant RayEnd(sq, t, d) == Ahead(sq, s, d)
        decreases WalkLeft(s, d)
      {
        var piece := b.squares[s.value];
        if piece != Empty {
          if piece == Man(c, k) || piece == Man(c, Queen) {
            return true;
          }
          break;
        }
        WalkShrinks(s.value, d);
        s := Shift(s.value, d);
      }
    }
    return false;
  }

  /** The scan finds an attacker exactly when one exists. */
  method IsSquareAttacked(b: Board, t: Square, c: Color) returns (r: bool)
    requires b.Valid()
    ensures r <==> Attacked(b.Value().squares, t, c)
  {
    hide Complete, Attacked, LeaperFree, SliderFree;
    OracleComplete();
    ScanIsAttack(ORACLE, b.Value().squares, t, c);
    var back := if c.White? then -1 else 1;
    r := LeaperLoop(b, t, [Delta(-1, back), Delta(1, back)], Man(c, Pawn));
    assert [Delta(-1, back), Delta(1, back)] == PawnOrigins(c);
    if r { return; }
    r := LeaperLoop(b, t, KNIGHT_DELTAS, Man(c, Knight));
    if r { return; }
    r := LeaperLoop(b, t, KING_DELTAS, Man(c, King));
    if r { return; }
    TablesAreKingDeltas(ORACLE);
    r := SliderLoop(b, t, ROOK_DIRS, c, Rook);
    if r { return; }
    r := SliderLoop(b, t, BISHOP_DIRS, c, Bishop);
  }

  lemma TablesAreKingDeltas(o: Order)
    requires Complete(o)
    ensures AllKingDeltas(o.rook) && AllKingDeltas(o.bishop) && AllKingDeltas(o.queen)
  {
  }

  method IsInCheck(b: Board) returns (r: bool)
    requires b.Valid()
    ensures r <==> InCheck(b.Value())
  {
    var k := b.FindsKing(b.side);
    if k.None? {
      return false;
    }
    r := IsSquareAttacked(b, k.value, b.side.Other());
  }

  // ----- pseudo-legal generation -------------------------------------------

  method AddPawnMove(from: Square, to: Square, c: Color, moves: seq<Move>) returns (out: seq<Move>)
    ensures out == moves + PawnMove(c, from, to)
  {
    var last := if c.White? then 7 else 0;
    if RankOf(to) == last {
      var promotions: seq<Promotion> := [Queen, Rook, Bishop, Knight];
      out := moves;
      for i := 0 to 4
        invariant out == moves + PawnMove(c, from, to)[..i]
      {
        out := out + [Move(from, to, Some(promotions[i]))];
      }
    } else {
      out := moves + [Move(from, to, None)];
    }
  }

  method PawnPushesInto(b: Board, s: Square, moves: seq<Move>) returns (out: seq<Move>)
    requires b.Valid()
    ensures out == moves + PawnPushes(b.Value(), s)
  {
    hide FileOf, Shift, PawnMove;
    out := moves;
    var step := if b.side.White? then 1 else -1;
    var one := Shift(s, Delta(0, step));
    if one.Some? && b.squares[one.value] == Empty {
      out := AddPawnMove(s, one.value, b.side, out);
      if RankOf(s) == (if b.side.White? then 1 else 6) {
        var two := Shift(s, Delta(0, 2 * step));
        if two.Some? && b.squares[two.value] == Empty {
          out := out + [Move(s, two.value, None)];
        }
      }
    }
  }

  method PawnTakesInto(b: Board, s: Square, moves: seq<Move>) returns (out: seq<Move>)
    requires b.Valid()
    ensures out == moves + PawnTakes(b.Value(), s, PAWN_FILES, |PAWN_FILES|)
  {
    hide FileOf, RankOf, Shift, PawnMove;
    out := moves;
    var step := if b.side.White? then 1 else -1;
    for i := 0 to |PAWN_FILES|
      invariant out == moves + PawnTakes(b.Value(), s, PAWN_FILES, i)
    {
      var target := Shift(s, Delta(PAWN_FILES[i], step));
      if target.None? {
        continue;
      }
      if b.squares[target.value].Is(b.side.Other()) {
        out := AddPawnMove(s, target.value, b.side, out);
      } else if b.ep.Some? && target.value == b.ep.value {
        out := out + [Move(s, target.value, None)];
      }
    }
  }

  /** The shared loop of knights and kings. */
  method StepMovesInto(b: Board, s: Square, ds: seq<Delta>, moves: seq<Move>) returns (out: seq<Move>)
    requires b.Valid()
    ensures out == moves + StepMoves(b.Value().squares, b.side, s, ds, |ds|)
  {
    hide FileOf, RankOf, Shift;
    out := moves;
    for i := 0 to |ds|
      invariant out == moves + StepMoves(b.Value().squares, b.side, s, ds, i)
    {
      var t := Shift(s, ds[i]);
      if t.Some? && (b.squares[t.value] == Empty || b.squares[t.value].Is(b.side.Other())) {
        out := out + [Move(s, t.value, None)];
      }
    }
  }

  method SlideMovesInto(b: Board, s: Square, ds: seq<Delta>, moves: seq<Move>) returns (out: seq<Move>)
    requires b.Valid() && AllKingDeltas(ds)
    ensures out == moves + SlideMoves(b.Value().squares, b.side, s, ds, |ds|)
  {
    hide FileOf, RankOf, Shift, StepsLeft, IsKingDelta;
    ghost var sq: Squares := b.Value().squares;
    out := moves;
    for i := 0 to |ds|
      invariant out == moves + SlideMoves(sq, b.side, s, ds, i)
    {
      var d := ds[i];
      ghost var start := out;
      var t := Shift(s, d);
      while t.Some?
        invariant out + StillToAdd(sq, b.side, s, t, d) == start + RayMoves(sq, b.side, s, s, d)
        decreases WalkLeft(t, d)
      {
        var target := b.squares[t.value];
        if target == Empty {
          out := out + [Move(s, t.value, None)];
        } else {
          if target.Is(b.side.Other()) {
            out := out + [Move(s, t.value, None)];
          }
          break;
        }
        WalkShrinks(t.value, d);
        t := Shift(t.value, d);
      }
      assert out == start + RayMoves(sq, b.side, s, s, d);
      assert out == moves + (SlideMoves(sq, b.side, s, ds, i) + RayMoves(sq, b.side, s, s, d));
    }
  }

  /** Are all three squares free from attack by the side not to move? */
  method PathSafe(b: Board, s1: Square, s2: Square, s3: Square) returns (safe: bool)
    requires b.Valid()
    ensures safe <==> (var sq := b.Value().squares; var e := b.side.Other();
                       !Attacked(sq, s1, e) && !Attacked(sq, s2, e) && !Attacked(sq, s3, e))
  {
    hide Attacked;
    var hit := IsSquareAttacked(b, s1, b.side.Other());
    if hit { return false; }
    hit := IsSquareAttacked(b, s2, b.side.Other());
    if hit { return false; }
    hit := IsSquareAttacked(b, s3, b.side.Other());
    return !hit;
  }

  method CastlingMovesInto(b: Board, s: Square, moves: seq<Move>) returns (out: seq<Move>)
    requires b.Valid()
    ensures out == moves + CastleMoves(b.Value(), s)
  {
    hide Attacked;
    ghost var p := b.Value();
    out := moves;
    if b.side.White? {
      if s != 4 {
        return;
      }
      var safe := PathSafe(b, 4, 5, 6);
      if b.rights.wk && b.squares[5] == Empty && b.squares[6] == Empty && b.squares[7] == Man(White, Rook) && safe {
        out := out + [Move(4, 6, None)];
      }
      assert out == moves + if CastleOpen(p, true) then [Move(s, s + 2, None)] else [];
      safe := PathSafe(b, 4, 3, 2);
      if b.rights.wq && b.squares[3] == Empty && b.squares[2] == Empty && b.squares[1] == Empty
         && b.squares[0] == Man(White, Rook) && safe {
        out := out + [Move(4, 2, None)];
      }
    } else {
      if s != 60 {
        return;
      }
      var safe := PathSafe(b, 60, 61, 62);
      if b.rights.bk && b.squares[61] == Empty && b.squares[62] == Empty && b.squares[63] == Man(Black, Rook) && safe {
        out := out + [Move(60, 62, None)];
      }
      assert out == moves + if CastleOpen(p, true) then [Move(s, s + 2, None)] else [];
      safe := PathSafe(b, 60, 59, 58);
      if b.rights.bq && b.squares[59] == Empty && b.squares[58] == Empty && b.squares[57] == Empty
         && b.squares[56] == Man(Black, Rook) && safe {
        out := out + [Move(60, 58, None)];
      }
    }
  }

  method ManMovesInto(b: Board, s: Square, moves: seq<Move>) returns (out: seq<Move>)
    requires b.Valid() && Complete(ORACLE)
    ensures out == moves + ManMoves(ORACLE, b.Value(), s)
  {
    hide StepMoves, SlideMoves, PawnPushes, PawnTakes, CastleMoves, IsKingDelta, IsRookDir, IsBishopDir;
    out := moves;
    var piece := b.squares[s];
    if piece == Empty || !piece.Is(b.side) {
      return;
    }
    TablesAreKingDeltas(ORACLE);
    match piece.kind {
      case Pawn =>
        out := PawnPushesInto(b, s, out);
        out := PawnTakesInto(b, s, out);
      case Knight =>
        out := StepMovesInto(b, s, KNIGHT_DELTAS, out);
      case King =>
        out := StepMovesInto(b, s, KING_DELTAS, out);
        out := CastlingMovesInto(b, s, out);
      case k =>
        var dirs := if k == Rook then ROOK_DIRS else if k == Bishop then BISHOP_DIRS else QUEEN_DIRS;
        out := SlideMovesInto(b, s, dirs, out);
    }
  }

  /** The pseudo-legal list, in the oracle's order. */
  method GeneratePseudoLegal(b: Board) returns (moves: seq<Move>)
    requires b.Valid()
    ensures Complete(ORACLE) && moves == PseudoMoves(ORACLE, b.Value())
  {
    hide Complete, ManMoves;
    OracleComplete();
    moves := [];
    for s := 0 to 64
      invariant moves == PseudoUpTo(ORACLE, b.Value(), s)
    {
      moves := ManMovesInto(b, s, moves);
    }
  }

  // ----- making a move -----------------------------------------------------

  /** The writes to `squares` of make_move: en passant victim, mover, castling rook. */
  method MoveMen(nb: Board, m: Move) returns (isCapture: bool)
    requires nb.Valid() && nb.squares[m.from] != Empty
    modifies nb.squares
    ensures nb.Value() == old(nb.Value()).(squares := SquaresAfter(old(nb.Value()), m))
    ensures isCapture <==> old(nb.squares[m.to]) != Empty || TakesEnPassant(old(nb.Value()), m)
  {
    hide FileOf, RankOf;
    var piece := nb.squares[m.from];
    var target := nb.squares[m.to];
    isCapture := target != Empty;
    if piece.kind == Pawn && nb.ep.Some? && m.to == nb.ep.value && FileOf(m.to) != FileOf(m.from) && target == Empty {
      var victim := if piece == Man(White, Pawn) then m.to - 8 else m.to + 8;
      nb.squares[victim] := Empty;
      isCapture := true;
    }
    nb.squares[m.from] := Empty;
    var placed := piece;
    if m.promo.Some? {
      placed := Man(if piece == Man(White, Pawn) then White else Black, m.promo.value);
    }
    nb.squares[m.to] := placed;
    if piece == Man(White, King) && m.from == 4 {
      if m.to == 6 {
        nb.squares[7] := Empty;
        nb.squares[5] := Man(White, Rook);
      } else if m.to == 2 {
        nb.squares[0] := Empty;
        nb.squares[3] := Man(White, Rook);
      }
    } else if piece == Man(Black, King) && m.from == 60 {
      if m.to == 62 {
        nb.squares[63] := Empty;
        nb.squares[61] := Man(Black, Rook);
      } else if m.to == 58 {
        nb.squares[56] := Empty;
        nb.squares[59] := Man(Black, Rook);
      }
    }
  }

  /** The castling rights left after the man `piece` makes move m. */
  method LoseRights(before: Rights, piece: Piece, m: Move) returns (rights: Rights)
    ensures forall p: Pos :: p.rights == before && p.squares[m.from] == piece ==> rights == RightsAfter(p, m)
  {
    rights := before;
    if piece == Man(White, King) {
      rights := rights.(wk := false, wq := false);
    } else if piece == Man(Black, King) {
      rights := rights.(bk := false, bq := false);
    }
    var touched := [m.from, m.to];
    for i := 0 to 2
      invariant rights.wk == (before.wk && piece != Man(White, King) && 7 !in touched[..i])
      invariant rights.wq == (before.wq && piece != Man(White, King) && 0 !in touched[..i])
      invariant rights.bk == (before.bk && piece != Man(Black, King) && 63 !in touched[..i])
      invariant rights.bq == (before.bq && piece != Man(Black, King) && 56 !in touched[..i])
    {
      rights := match touched[i]
                case 0 => rights.(wq := false)
                case 7 => rights.(wk := false)
                case 56 => rights.(bq := false)
                case 63 => rights.(bk := false)
                case _ => rights;
    }
    assert touched[..2] == [m.from, m.to];
  }

  /** Copy-make: the original board is untouched. */
  method MakeMove(b: Board, m: Move) returns (r: Result<Board>)
    requires b.Valid()
    ensures r.ValueError? <==> b.Value().squares[m.from] == Empty
    ensures r.Ok? ==> r.value.Valid() && fresh(r.value) && fresh(r.value.squares)
    ensures r.Ok? ==> r.value.Value() == After(b.Value(), m)
  {
    hide FileOf, RankOf, SquaresAfter, RightsAfter;
    var nb := b.Copy();
    var piece := nb.squares[m.from];
    if piece == Empty {
      return ValueError;
    }
    var isPawn := piece.kind == Pawn;
    var isCapture := MoveMen(nb, m);
    nb.rights := LoseRights(nb.rights, piece, m);
    nb.ep := None;
    if isPawn && Abs(m.to - m.from) == 16 {
      nb.ep := Some((m.from + m.to) / 2);
    }
    nb.half := if isPawn || isCapture then 0 else b.half + 1;
    if b.side == Black {
      nb.full := b.full + 1;
    }
    nb.side := if b.side == White then Black else White;
    return Ok(nb);
  }

  // ----- legal moves -------------------------------------------------------

  /** The legal moves, in the oracle's order. */
  method GenerateLegal(b: Board) returns (legal: seq<Move>)
    requires b.Valid()
    ensures Complete(ORACLE) && legal == LegalMoves(ORACLE, b.Value())
  {
    hide FileOf, RankOf, Complete, PseudoMoves, After;
    ghost var p := b.Value();
    var moves := GeneratePseudoLegal(b);
    legal := [];
    for i := 0 to |moves|
      invariant legal == SafeMoves(p, moves[..i])
    {
      assert moves[..i + 1] == moves[..i] + [moves[i]];
      PseudoMovesAreExact(ORACLE, p, moves[i]);
      var nb := MakeMove(b, moves[i]);
      var k := nb.value.FindsKing(b.side);
      if k.Some? {
        var hit := IsSquareAttacked(nb.value, k.value, b.side.Other());
        if !hit {
          legal := legal + [moves[i]];
        }
      }
    }
    assert moves[..|moves|] == moves;
  }

  ghost predicate HasLegalMove(p: Pos) {
    exists m :: Legal(p, m)
  }

  lemma EmptyMeansStuck(p: Pos)
    requires Complete(ORACLE)
    ensures LegalMoves(ORACLE, p) == [] <==> !HasLegalMove(p)
  {
    hide Complete, LegalMoves, Legal;
    forall m ensures m in LegalMoves(ORACLE, p) <==> Legal(p, m) {
      LegalMovesAreExact(ORACLE, p, m);
    }
    if LegalMoves(ORACLE, p) != [] {
      assert LegalMoves(ORACLE, p)[0] in LegalMoves(ORACLE, p);
    }
  }

  method IsCheckmate(b: Board) returns (r: bool)
    requires b.Valid()
    ensures r <==> InCheck(b.Value()) && !HasLegalMove(b.Value())
  {
    r := IsInCheck(b);
    if r {
      var legal := GenerateLegal(b);
      EmptyMeansStuck(b.Value());
      r := legal == [];
    }
  }

  method IsStalemate(b: Board) returns (r: bool)
    requires b.Valid()
    ensures r <==> !InCheck(b.Value()) && !HasLegalMove(b.Value())
  {
    var check := IsInCheck(b);
    if check {
      return false;
    }
    var legal := GenerateLegal(b);
    EmptyMeansStuck(b.Value());
    r := legal == [];
  }
}
