/** The C++ engine on its 0x88 board, proved to refine the oracle's rules: each
    method is specified by the position its board represents. */
module Engine88 {
  import opened ChessTypes
  import opened Geometry
  import opened Rules
  import opened MoveLists
  import opened AttackScan
  import opened Preservation
  import opened Square88

  const KNIGHT_OFFS: seq<int> := [33, 31, 18, 14, -33, -31, -18, -14]
  const KING_OFFS: seq<int> := [16, -16, 1, -1, 17, 15, -15, -17]
  const BISHOP_OFFS: seq<int> := [17, 15, -15, -17]
  const ROOK_OFFS: seq<int> := [16, -16, 1, -1]

  /** The same tables in files and ranks. */
  const KNIGHT_STEPS: seq<Delta> :=
    [Delta(1, 2), Delta(-1, 2), Delta(2, 1), Delta(-2, 1), Delta(-1, -2), Delta(1, -2), Delta(-2, -1), Delta(2, -1)]
  const KING_STEPS: seq<Delta> :=
    [Delta(0, 1), Delta(0, -1), Delta(1, 0), Delta(-1, 0), Delta(1, 1), Delta(-1, 1), Delta(1, -1), Delta(-1, -1)]
  const BISHOP_STEPS: seq<Delta> := [Delta(1, 1), Delta(-1, 1), Delta(1, -1), Delta(-1, -1)]
  const ROOK_STEPS: seq<Delta> := [Delta(0, 1), Delta(0, -1), Delta(1, 0), Delta(-1, 0)]
  const CAPTURE_FILES: seq<int> := [1, -1]

  const ENGINE: Order := Order(KNIGHT_STEPS, KING_STEPS, ROOK_STEPS, BISHOP_STEPS, KING_STEPS, CAPTURE_FILES)

  /** offs holds the 0x88 offsets of the steps ds. */
  ghost predicate SameSteps(offs: seq<int>, ds: seq<Delta>) {
    && |offs| == |ds|
    && forall i :: 0 <= i < |ds| ==>
         offs[i] == OffsetOf(ds[i]) && -2 <= ds[i].df <= 2 && -2 <= ds[i].dr <= 2
  }

  lemma TablesSame()
    ensures SameSteps(KNIGHT_OFFS, KNIGHT_STEPS) && SameSteps(KING_OFFS, KING_STEPS)
    ensures SameSteps(BISHOP_OFFS, BISHOP_STEPS) && SameSteps(ROOK_OFFS, ROOK_STEPS)
  {
  }

  lemma EngineKnights(d: Delta)
    ensures d in KNIGHT_STEPS <==> IsKnightDelta(d)
  {
    InEight(KNIGHT_STEPS, d);
  }

  lemma EngineKings(d: Delta)
    ensures d in KING_STEPS <==> IsKingDelta(d)
  {
    InEight(KING_STEPS, d);
  }

  lemma EngineSliders(d: Delta)
    ensures d in ROOK_STEPS <==> IsRookDir(d)
    ensures d in BISHOP_STEPS <==> IsBishopDir(d)
  {
    InFour(ROOK_STEPS, d);
    InFour(BISHOP_STEPS, d);
  }

  lemma EngineDistinct()
    ensures NoDup(KNIGHT_STEPS) && NoDup(KING_STEPS) && NoDup(ROOK_STEPS) && NoDup(BISHOP_STEPS)
    ensures NoDup(CAPTURE_FILES)
  {
  }

  /** The engine's tables list every offset of their kind exactly once. */
  lemma EngineComplete()
    ensures Complete(ENGINE)
  {
    forall d
      ensures d in KNIGHT_STEPS <==> IsKnightDelta(d)
      ensures d in KING_STEPS <==> IsKingDelta(d)
      ensures d in ROOK_STEPS <==> IsRookDir(d)
      ensures d in BISHOP_STEPS <==> IsBishopDir(d)
    {
      hide *;
      EngineKnights(d);
      EngineKings(d);
      EngineSliders(d);
    }
    EngineDistinct();
    hide NoDup;
  }

  function Side(white: bool): Color { if white then White else Black }

  function Ep88(ep: Option<EpSquare>): int {
    match ep case None => -1 case Some(e) => To88(e)
  }

  /** a shows the men of squares on its on-board entries. */
  ghost predicate Shows(a: seq<int>, squares: Squares) {
    |a| == 128 && forall s: Square :: a[To88(s)] == Code(squares[s])
  }

  /** An en passant target matters on an empty square only: there the engine's is the position's. */
  ghost predicate EpStands(ep: int, p: Pos) {
    forall s: Square :: p.squares[s] == Empty ==> (ep == To88(s) <==> p.ep == Some(s))
  }

  lemma EpStandsExact(p: Pos)
    ensures EpStands(Ep88(p.ep), p)
  {
    forall s: Square ensures Ep88(p.ep) == To88(s) <==> p.ep == Some(s) {
      EpHere(p.ep, s);
    }
  }

  lemma EpHere(ep: Option<EpSquare>, t: Square)
    ensures Ep88(ep) == To88(t) <==> ep == Some(t)
    ensures To88(t) >= 0
  {
    if ep.Some? {
      To88Injective(ep.value, t);
    }
  }

  /** The position as the engine plays it: an occupied en passant square is no target for it. */
  function View(p: Pos): (v: Pos)
    ensures EpEmpty(v)
  {
    if EpEmpty(p) then p else p.(ep := None)
  }

  /** No man stands on the en passant square. */
  predicate EpEmpty(p: Pos) {
    p.ep.Some? ==> p.squares[p.ep.value] == Empty
  }

  class Board88 {
    const sq: array<int>
    var whiteToMove: bool
    var castling: nat
    var ep: int

    /** This board stands for p, whose clocks it does not keep. */
    ghost predicate Represents(p: Pos)
      reads this, sq
    {
      && Shows(sq[..], p.squares)
      && whiteToMove == p.side.White?
      && castling == RightsBits(p.rights)
      && EpStands(ep, p)
    }

    constructor Duplicate(b: Board88)
      requires b.sq.Length == 128
      ensures fresh(sq) && sq[..] == b.sq[..]
      ensures whiteToMove == b.whiteToMove && castling == b.castling && ep == b.ep
    {
      sq := new int[128](i requires 0 <= i < 128 reads b.sq => b.sq[i]);
      whiteToMove, castling, ep := b.whiteToMove, b.castling, b.ep;
      new;
      assert sq[..] == b.sq[..];
    }
  }

  /** Writing one on-board entry writes one square. */
  lemma ShowsWrite(a: seq<int>, squares: Squares, s: Square, piece: Piece)
    requires Shows(a, squares)
    ensures 0 <= To88(s) < 128 && Shows(a[To88(s) := Code(piece)], squares[s := piece])
  {
    hide To88, Code;
    forall t: Square ensures 0 <= To88(t) < 128 && (To88(s) == To88(t) ==> s == t) {
      To88Injective(s, t);
      To88Injective(t, t);
    }
  }

  /** What an on-board entry holds. */
  lemma CodeOf(a: seq<int>, squares: Squares, s: Square)
    requires Shows(a, squares)
    ensures 0 <= To88(s) < |a| && a[To88(s)] == Code(squares[s])
  {
    To88Injective(s, s);
  }

  lemma CodeIff(a: Piece, b: Piece)
    ensures Code(a) == Code(b) <==> a == b
  {
  }

  // ----- attack detection --------------------------------------------------

  method LeaperLoop88(b: Board88, sq: int, offs: seq<int>, want: int,
                      ghost p: Pos, ghost t: Square, ghost ds: seq<Delta>, ghost piece: Piece) returns (hit: bool)
    requires b.Represents(p) && sq == To88(t) && SameSteps(offs, ds) && want == Code(piece)
    ensures hit <==> !LeaperFree(p.squares, t, ds, |ds|, piece)
  {
    hide To88, Code, Decode, Off, Shift, OffsetOf;
    for i := 0 to |offs|
      invariant LeaperFree(p.squares, t, ds, i, piece)
    {
      var s := sq + offs[i];
      StepOff(t, ds[i]);
      if !Off(s) {
        To88Injective(Shift(t, ds[i]).value, t);
        CodeIff(p.squares[Shift(t, ds[i]).value], piece);
        if b.sq[s] == want {
          return true;
        }
      }
    }
    return false;
  }

  /** Where a walk at t stands: on the square cur, or off the board. */
  ghost predicate Standing(t: int, cur: Option<Square>) {
    (Off(t) <==> cur.None?) && (cur.Some? ==> t == To88(cur.value) && 0 <= t < 128)
  }

  /** Adding a king offset to an on-board walk moves it by the same step. */
  lemma StandingStep(s: Square, d: Delta)
    requires -2 <= d.df <= 2 && -2 <= d.dr <= 2
    ensures Standing(To88(s) + OffsetOf(d), Shift(s, d))
  {
    hide To88, Off, Shift, OffsetOf;
    StepOff(s, d);
    if Shift(s, d).Some? {
      To88Injective(Shift(s, d).value, s);
    }
  }

  method SliderLoop88(b: Board88, sq: int, offs: seq<int>, want: int, wantQ: int,
                      ghost p: Pos, ghost t: Square, ghost ds: seq<Delta>, ghost c: Color, ghost k: Kind)
    returns (hit: bool)
    requires b.Represents(p) && sq == To88(t) && SameSteps(offs, ds) && AllKingDeltas(ds)
    requires want == Code(Man(c, k)) && wantQ == Code(Man(c, Queen))
    ensures hit <==> !SliderFree(p.squares, t, ds, |ds|, c, k)
  {
    hide To88, Code, Off, Shift, OffsetOf, StepsLeft, IsKingDelta;
    for i := 0 to |offs|
      invariant SliderFree(p.squares, t, ds, i, c, k)
    {
      var u := sq + offs[i];
      ghost var d := ds[i];
      ghost var cur := Shift(t, d);
      StandingStep(t, d);
      while !Off(u)
        invariant Standing(u, cur)
        invariant RayEnd(p.squares, t, d) == Ahead(p.squares, cur, d)
        decreases WalkLeft(cur, d)
      {
        var code := b.sq[u];
        CodeIff(p.squares[cur.value], Empty);
        CodeIff(p.squares[cur.value], Man(c, k));
        CodeIff(p.squares[cur.value], Man(c, Queen));
        EmptyCode();
        if code != 0 {
          if code == want || code == wantQ {
            return true;
          }
          break;
        }
        StandingStep(cur.value, d);
        WalkShrinks(cur.value, d);
        u, cur := u + offs[i], Shift(cur.value, d);
      }
    }
    return false;
  }

  lemma EmptyCode()
    ensures Code(Empty) == 0
  {
  }

  function ColorBits(white: bool): int { if white then 0 else COLOR_BIT }

  lemma WantedCodes(white: bool)
    ensures forall k: Kind :: Code(Man(Side(white), k)) == ColorBits(white) + TypeCode(k)
  {
  }

  lemma PawnTable(white: bool)
    ensures SameSteps(if white then [-15, -17] else [17, 15],
                      [Delta(1, -Forward(Side(white))), Delta(-1, -Forward(Side(white)))])
  {
  }

  method IsSquareAttacked88(b: Board88, sq: int, byWhite: bool, ghost p: Pos, ghost t: Square) returns (r: bool)
    requires b.Represents(p) && sq == To88(t)
    ensures r <==> Attacked(p.squares, t, Side(byWhite))
  {
    hide To88, Code, Complete, Attacked, LeaperFree, SliderFree, Side, SameSteps, AllKingDeltas, PawnOrigins,
         ColorBits, Shows;
    ghost var c := Side(byWhite);
    var w := ColorBits(byWhite);
    WantedCodes(byWhite);
    PawnTable(byWhite);
    EngineComplete();
    TablesSame();
    ScanIsAttack(ENGINE, p.squares, t, c);
    var origins := if byWhite then [-15, -17] else [17, 15];
    ghost var steps := [Delta(1, -Forward(c)), Delta(-1, -Forward(c))];
    PawnOriginsEither(p.squares, t, c);
    r := LeaperLoop88(b, sq, origins, w + 1, p, t, steps, Man(c, Pawn));
    if r { return; }
    r := LeaperLoop88(b, sq, KNIGHT_OFFS, w + 2, p, t, KNIGHT_STEPS, Man(c, Knight));
    if r { return; }
    r := LeaperLoop88(b, sq, KING_OFFS, w + 6, p, t, KING_STEPS, Man(c, King));
    if r { return; }
    SlidersAreKingDeltas();
    r := SliderLoop88(b, sq, BISHOP_OFFS, w + 3, w + 5, p, t, BISHOP_STEPS, c, Bishop);
    if r { return; }
    r := SliderLoop88(b, sq, ROOK_OFFS, w + 4, w + 5, p, t, ROOK_STEPS, c, Rook);
  }

  lemma SlidersAreKingDeltas()
    ensures AllKingDeltas(BISHOP_STEPS) && AllKingDeltas(ROOK_STEPS) && AllKingDeltas(KING_STEPS)
  {
  }

  /** The engine tries the two pawn squares in the other order. */
  lemma PawnOriginsEither(squares: Squares, t: Square, c: Color)
    ensures LeaperFree(squares, t, [Delta(1, -Forward(c)), Delta(-1, -Forward(c))], 2, Man(c, Pawn)) <==>
            LeaperFree(squares, t, PawnOrigins(c), |PawnOrigins(c)|, Man(c, Pawn))
  {
    var a := [Delta(1, -Forward(c)), Delta(-1, -Forward(c))];
    var b := PawnOrigins(c);
    assert a[0] == b[1] && a[1] == b[0];
    hide Shift;
  }

  lemma To88At(f: int, r: int)
    requires 0 <= f < 8 && 0 <= r < 8
    ensures To88(8 * r + f) == r * 16 + f && FileOf(8 * r + f) == f && RankOf(8 * r + f) == r
  {
  }

  method FindKing88(b: Board88, white: bool, ghost p: Pos) returns (k: int)
    requires b.Represents(p)
    ensures match KingSquare(p.squares, Side(white))
            case None => k == -1
            case Some(s) => k == To88(s) && k >= 0
  {
    hide Code, To88, FileOf, RankOf, Side, Shows, ColorBits;
    ghost var c := Side(white);
    var want := ColorBits(white) + 6;
    WantedCodes(white);
    for r := 0 to 8
      invariant KingSquare(p.squares, c) == FindKing(p.squares, c, 8 * r)
    {
      for f := 0 to 8
        invariant KingSquare(p.squares, c) == FindKing(p.squares, c, 8 * r + f)
      {
        var s := r * 16 + f;
        To88At(f, r);
        CodeOf(b.sq[..], p.squares, 8 * r + f);
        CodeIff(p.squares[8 * r + f], Man(c, King));
        if b.sq[s] == want {
          return s;
        }
      }
    }
    return -1;
  }

  method InCheck88(b: Board88, white: bool, ghost p: Pos) returns (r: bool)
    requires b.Represents(p)
    ensures var k := KingSquare(p.squares, Side(white));
            r <==> k.Some? && Attacked(p.squares, k.value, Side(white).Other())
  {
    hide Attacked, KingSquare, To88, Shows;
    var k := FindKing88(b, white, p);
    ghost var s := KingSquare(p.squares, Side(white));
    if k < 0 {
      return false;
    }
    r := IsSquareAttacked88(b, k, !white, p, s.value);
  }

  // ----- pseudo-legal generation -------------------------------------------

  const FLAG_NORMAL := 0
  const FLAG_DOUBLE := 1
  const FLAG_EP := 2
  const FLAG_CASTLE := 3

  datatype Move88 = Move88(from: int, to: int, promo: int, flag: int)

  function PromoCode(promo: Option<Promotion>): int {
    match promo case None => 0 case Some(k) => TypeCode(k)
  }

  function Flag(p: Pos, m: Move): int {
    if IsPawn(p.squares[m.from]) then
      if TakesEnPassant(p, m) then FLAG_EP
      else if Abs(RankOf(m.to) - RankOf(m.from)) == 2 then FLAG_DOUBLE
      else FLAG_NORMAL
    else if IsCastling(p, m) then FLAG_CASTLE
    else FLAG_NORMAL
  }

  /** The engine's record of the oracle move m. */
  function Encode(p: Pos, m: Move): Move88 {
    Move88(To88(m.from), To88(m.to), PromoCode(m.promo), Flag(p, m))
  }

  function EncodeAll(p: Pos, ms: seq<Move>): seq<Move88> {
    seq(|ms|, i requires 0 <= i < |ms| => Encode(p, ms[i]))
  }

  lemma EncodeAppend(p: Pos, a: seq<Move>, b: seq<Move>)
    ensures EncodeAll(p, a + b) == EncodeAll(p, a) + EncodeAll(p, b)
  {
  }

  /** Distinct oracle moves have distinct records. */
  lemma EncodeInjective(p: Pos, m: Move, n: Move)
    requires Encode(p, m) == Encode(p, n)
    ensures m == n
  {
    To88Injective(m.from, n.from);
    To88Injective(m.to, n.to);
  }

  method AddPawnMove88(out: seq<Move88>, from: int, to: int, flag: int, promo: bool,
                       ghost p: Pos, ghost s: Square, ghost t: Square) returns (r: seq<Move88>)
    requires from == To88(s) && to == To88(t) && promo == (RankOf(t) == LastRank(p.side))
    requires forall k: Option<Promotion> :: flag == Flag(p, Move(s, t, k))
    ensures r == out + EncodeAll(p, PawnMove(p.side, s, t))
  {
    hide To88, FileOf, RankOf, Flag;
    if promo {
      r := out + [Move88(from, to, 5, flag), Move88(from, to, 4, flag),
                  Move88(from, to, 3, flag), Move88(from, to, 2, flag)];
    } else {
      r := out + [Move88(from, to, 0, flag)];
    }
  }

  /** rankOf of an on-board 0x88 square: sq >> 4. */
  lemma RankOf88(s: Square)
    ensures To88(s) / 16 == RankOf(s)
  {
  }

  method PawnPushes88(b: Board88, from: int, out: seq<Move88>, ghost p: Pos, ghost s: Square) returns (r: seq<Move88>)
    requires b.Represents(p) && from == To88(s) && p.squares[s] == Man(p.side, Pawn)
    ensures r == out + EncodeAll(p, PawnPushes(p, s))
  {
    hide To88, FileOf, RankOf, Off, Code, Shift, OffsetOf, PawnMove;
    r := out;
    var white := b.whiteToMove;
    var fwd := if white then 16 else -16;
    var one := from + fwd;
    ghost var d := Delta(0, Forward(p.side));
    assert OffsetOf(d) == fwd by { ForwardOffset(p.side); }
    StandingStep(s, d);
    ghost var u := Shift(s, d);
    if u.Some? {
      CodeIff(p.squares[u.value], Empty);
      EmptyCode();
      RankOf88(u.value);
    }
    RankOf88(s);
    if !Off(one) && b.sq[one] == 0 {
      forall k: Option<Promotion> ensures Flag(p, Move(s, u.value, k)) == FLAG_NORMAL {
      }
      r := AddPawnMove88(r, from, one, FLAG_NORMAL, one / 16 == (if white then 7 else 0), p, s, u.value);
      if from / 16 == (if white then 1 else 6) {
        var two := one + fwd;
        DoubleStep88(s, p.side);
        ghost var v := Shift(s, Delta(0, 2 * Forward(p.side)));
        if v.Some? {
          CodeIff(p.squares[v.value], Empty);
        }
        if !Off(two) && b.sq[two] == 0 {
          assert Flag(p, Move(s, v.value, None)) == FLAG_DOUBLE;
          r := r + [Move88(from, two, 0, FLAG_DOUBLE)];
          assert EncodeAll(p, [Move(s, v.value, None)]) == [Move88(from, two, 0, FLAG_DOUBLE)];
          EncodeAppend(p, PawnMove(p.side, s, u.value), [Move(s, v.value, None)]);
        }
      }
    }
  }

  lemma ForwardOffset(c: Color)
    ensures OffsetOf(Delta(0, Forward(c))) == if c.White? then 16 else -16
  {
  }

  lemma DoubleStep88(s: Square, c: Color)
    ensures Standing(To88(s) + (if c.White? then 32 else -32), Shift(s, Delta(0, 2 * Forward(c))))
  {
    StandingStep(s, Delta(0, 2 * Forward(c)));
    hide To88, Off, Shift;
  }

  /** The engine's test for an enemy man. */
  lemma EnemyCode(piece: Piece, white: bool)
    ensures (if white then IsBlack(Code(piece)) else IsWhite(Code(piece))) == piece.Is(Side(white).Other())
    ensures Code(piece) != 0 && !(if white then IsWhite(Code(piece)) else IsBlack(Code(piece))) <==>
            piece.Is(Side(white).Other())
  {
    hide IsWhite, IsBlack;
    CodeBits(piece);
  }

  /** The engine's tests on a destination square: is it empty, does an enemy stand there? */
  method Inspect(b: Board88, to: int, ghost p: Pos, ghost u: Square) returns (empty: bool, enemy: bool)
    requires b.Represents(p) && to == To88(u)
    ensures empty == (p.squares[u] == Empty) && enemy == p.squares[u].Is(p.side.Other())
  {
    hide To88, Code, IsWhite, IsBlack, Shows, RightsBits, Ep88;
    CodeOf(b.sq[..], p.squares, u);
    EmptyCode();
    CodeIff(p.squares[u], Empty);
    EnemyCode(p.squares[u], b.whiteToMove);
    var target := b.sq[to];
    empty := target == 0;
    enemy := if b.whiteToMove then IsBlack(target) else IsWhite(target);
  }

  lemma CaptureOffset(white: bool, f: int)
    requires f == 1 || f == -1
    ensures OffsetOf(Delta(f, Forward(Side(white)))) == (if white then 16 else -16) + f
  {
  }

  lemma TakeFlags(p: Pos, s: Square, t: Square, f: int)
    requires p.squares[s] == Man(p.side, Pawn) && (f == 1 || f == -1)
    requires Shift(s, Delta(f, Forward(p.side))) == Some(t)
    ensures p.squares[t] != Empty ==> forall k: Option<Promotion> :: Flag(p, Move(s, t, k)) == FLAG_NORMAL
    ensures p.squares[t] == Empty && p.ep == Some(t) ==> Flag(p, Move(s, t, None)) == FLAG_EP
  {
    hide Shift;
  }

  method PawnTakes88(b: Board88, from: int, out: seq<Move88>, ghost p: Pos, ghost s: Square) returns (r: seq<Move88>)
    requires b.Represents(p) && from == To88(s) && p.squares[s] == Man(p.side, Pawn) && EpEmpty(p)
    ensures r == out + EncodeAll(p, PawnTakes(p, s, CAPTURE_FILES, 2))
  {
    hide To88, FileOf, RankOf, Off, Code, Shift, OffsetOf, PawnMove, IsWhite, IsBlack, Flag, Shows;
    r := out;
    var white := b.whiteToMove;
    var offs := if white then [17, 15] else [-15, -17];
    for i := 0 to 2
      invariant r == out + EncodeAll(p, PawnTakes(p, s, CAPTURE_FILES, i))
    {
      var to := from + offs[i];
      ghost var f := CAPTURE_FILES[i];
      ghost var u := Shift(s, Delta(f, Forward(p.side)));
      CaptureOffset(white, f);
      StandingStep(s, Delta(f, Forward(p.side)));
      ghost var before := PawnTakes(p, s, CAPTURE_FILES, i);
      if Off(to) {
        assert PawnTakes(p, s, CAPTURE_FILES, i + 1) == before;
        continue;
      }
      var empty, enemy := Inspect(b, to, p, u.value);
      TakeFlags(p, s, u.value, f);
      assert empty ==> (b.ep == To88(u.value) <==> p.ep == u);
      To88Injective(u.value, u.value);
      RankOf88(u.value);
      if !empty {
        if enemy {
          r := AddPawnMove88(r, from, to, FLAG_NORMAL, to / 16 == (if white then 7 else 0), p, s, u.value);
          EncodeAppend(p, before, PawnMove(p.side, s, u.value));
        } else {
          assert PawnTakes(p, s, CAPTURE_FILES, i + 1) == before;
        }
      } else if to == b.ep && b.ep >= 0 {
        r := r + [Move88(from, to, 0, FLAG_EP)];
        assert EncodeAll(p, [Move(s, u.value, None)]) == [Move88(from, to, 0, FLAG_EP)];
        EncodeAppend(p, before, [Move(s, u.value, None)]);
      }
    }
  }

  /** A knight, a slider, or a king making a single step: never flagged. */
  predicate Unflagged(p: Pos, s: Square) {
    p.squares[s].Is(p.side) && p.squares[s].kind != Pawn && p.squares[s].kind != King
  }

  lemma UnflaggedMove(p: Pos, s: Square, t: Square)
    requires p.squares[s].Man? && p.squares[s].kind != Pawn
    requires p.squares[s].kind == King ==> -1 <= FileOf(t) - FileOf(s) <= 1
    ensures Encode(p, Move(s, t, None)) == Move88(To88(s), To88(t), 0, FLAG_NORMAL)
  {
  }

  method StepMoves88(b: Board88, from: int, offs: seq<int>, out: seq<Move88>,
                     ghost p: Pos, ghost s: Square, ghost ds: seq<Delta>) returns (r: seq<Move88>)
    requires b.Represents(p) && from == To88(s) && SameSteps(offs, ds)
    requires p.squares[s].Is(p.side) && p.squares[s].kind in {Knight, King}
    requires p.squares[s].kind == King ==> AllKingDeltas(ds)
    ensures r == out + EncodeAll(p, StepMoves(p.squares, p.side, s, ds, |ds|))
  {
    hide To88, FileOf, RankOf, Off, Code, Shift, OffsetOf, IsWhite, IsBlack, Encode;
    r := out;
    var white := b.whiteToMove;
    for i := 0 to |offs|
      invariant r == out + EncodeAll(p, StepMoves(p.squares, p.side, s, ds, i))
    {
      var to := from + offs[i];
      ghost var u := Shift(s, ds[i]);
      StandingStep(s, ds[i]);
      ghost var before := StepMoves(p.squares, p.side, s, ds, i);
      if Off(to) {
        assert StepMoves(p.squares, p.side, s, ds, i + 1) == before;
        continue;
      }
      var empty, enemy := Inspect(b, to, p, u.value);
      if empty || enemy {
        r := r + [Move88(from, to, 0, FLAG_NORMAL)];
        assert ds[i] in ds;
        UnflaggedMove(p, s, u.value);
        assert EncodeAll(p, [Move(s, u.value, None)]) == [Move88(from, to, 0, FLAG_NORMAL)];
        EncodeAppend(p, before, [Move(s, u.value, None)]);
      } else {
        assert StepMoves(p.squares, p.side, s, ds, i + 1) == before;
      }
    }
  }

  /** What one step of the walk adds, in the engine's records. */
  lemma StillToAddStep(p: Pos, s: Square, u: Square, d: Delta)
    requires IsKingDelta(d) && Unflagged(p, s)
    ensures var here := [Move88(To88(s), To88(u), 0, FLAG_NORMAL)];
            var all := EncodeAll(p, StillToAdd(p.squares, p.side, s, Some(u), d));
            if p.squares[u] == Empty then all == here + EncodeAll(p, StillToAdd(p.squares, p.side, s, Shift(u, d), d))
            else all == if p.squares[u].Is(p.side.Other()) then here else []
  {
    hide To88, FileOf, RankOf, Shift, Encode, IsKingDelta;
    UnflaggedMove(p, s, u);
    assert EncodeAll(p, [Move(s, u, None)]) == [Move88(To88(s), To88(u), 0, FLAG_NORMAL)];
    EncodeAppend(p, [Move(s, u, None)], RayMoves(p.squares, p.side, s, u, d));
  }

  method RayMoves88(b: Board88, from: int, off: int, out: seq<Move88>,
                    ghost p: Pos, ghost s: Square, ghost d: Delta) returns (r: seq<Move88>)
    requires b.Represents(p) && from == To88(s) && off == OffsetOf(d) && IsKingDelta(d)
    requires Unflagged(p, s)
    ensures r == out + EncodeAll(p, RayMoves(p.squares, p.side, s, s, d))
  {
    hide *;
    r := out;
    var to := from + off;
    ghost var cur := Shift(s, d);
    RayStarts(p, s, d, to);
    ghost var rest := ToAdd(p, s, cur, d);
    ghost var goal := out + rest;
    while !Off(to)
      invariant Standing(to, cur) && rest == ToAdd(p, s, cur, d) && r + rest == goal
      decreases WalkLeft(cur, d)
    {
      StandingMeans(to, cur);
      ghost var u := cur.value;
      var empty, enemy := Inspect(b, to, p, u);
      var here := [Move88(from, to, 0, FLAG_NORMAL)];
      ToAddStep(p, s, u, d, to + off);
      if !empty {
        return r + if enemy then here else [];
      }
      rest := ToAdd(p, s, Shift(u, d), d);
      Regroup(r, here, rest);
      r := r + here;
      to, cur := to + off, Shift(u, d);
    }
    StandingMeans(to, cur);
    ToAddEnds(p, s, cur, d);
    EmptyRest(r, rest);
  }

  /** The records a walk standing on cur still has to add. */
  ghost function ToAdd(p: Pos, s: Square, cur: Option<Square>, d: Delta): seq<Move88>
    requires IsKingDelta(d)
  {
    EncodeAll(p, StillToAdd(p.squares, p.side, s, cur, d))
  }

  lemma RayStarts(p: Pos, s: Square, d: Delta, to: int)
    requires IsKingDelta(d) && to == To88(s) + OffsetOf(d)
    ensures Standing(to, Shift(s, d))
    ensures ToAdd(p, s, Shift(s, d), d) == EncodeAll(p, RayMoves(p.squares, p.side, s, s, d))
  {
    KingStepSmall(d);
    hide *;
    StandingStep(s, d);
    StillToAddStart(p, s, d);
    ToAddIs(p, s, Shift(s, d), d);
  }

  lemma ToAddIs(p: Pos, s: Square, cur: Option<Square>, d: Delta)
    requires IsKingDelta(d)
    ensures ToAdd(p, s, cur, d) == EncodeAll(p, StillToAdd(p.squares, p.side, s, cur, d))
  {
  }

  lemma ToAddStep(p: Pos, s: Square, u: Square, d: Delta, next: int)
    requires IsKingDelta(d) && Unflagged(p, s) && next == To88(u) + OffsetOf(d)
    ensures var here := [Move88(To88(s), To88(u), 0, FLAG_NORMAL)];
            var all := ToAdd(p, s, Some(u), d);
            if p.squares[u] == Empty then all == here + ToAdd(p, s, Shift(u, d), d)
            else all == if p.squares[u].Is(p.side.Other()) then here else []
    ensures Standing(next, Shift(u, d)) && WalkLeft(Shift(u, d), d) < WalkLeft(Some(u), d)
  {
    KingStepSmall(d);
    hide *;
    ToAddIs(p, s, Some(u), d);
    ToAddIs(p, s, Shift(u, d), d);
    StillToAddStep(p, s, u, d);
    StandingStep(u, d);
    WalkShrinks(u, d);
  }

  lemma ToAddEnds(p: Pos, s: Square, cur: Option<Square>, d: Delta)
    requires IsKingDelta(d) && cur.None?
    ensures ToAdd(p, s, cur, d) == []
  {
    NothingAhead(p, s, d);
  }

  lemma KingStepSmall(d: Delta)
    requires IsKingDelta(d)
    ensures -2 <= d.df <= 2 && -2 <= d.dr <= 2
  {
  }

  lemma StandingMeans(t: int, cur: Option<Square>)
    requires Standing(t, cur)
    ensures (Off(t) <==> cur.None?) && (cur.Some? ==> t == To88(cur.value) && 0 <= t < 128)
  {
    hide Off, To88;
  }

  lemma EmptyRest<T>(a: seq<T>, b: seq<T>)
    requires b == []
    ensures a + b == a
  {
  }

  lemma Regroup<T>(a: seq<T>, b: seq<T>, c: seq<T>)
    ensures a + (b + c) == a + b + c
  {
  }

  lemma StillToAddStart(p: Pos, s: Square, d: Delta)
    requires IsKingDelta(d)
    ensures StillToAdd(p.squares, p.side, s, Shift(s, d), d) == RayMoves(p.squares, p.side, s, s, d)
  {
  }

  lemma NothingAhead(p: Pos, s: Square, d: Delta)
    requires IsKingDelta(d)
    ensures EncodeAll(p, StillToAdd(p.squares, p.side, s, None, d)) == []
  {
  }

  method SlideMoves88(b: Board88, from: int, offs: seq<int>, out: seq<Move88>,
                      ghost p: Pos, ghost s: Square, ghost ds: seq<Delta>) returns (r: seq<Move88>)
    requires b.Represents(p) && from == To88(s) && SameSteps(offs, ds) && AllKingDeltas(ds)
    requires Unflagged(p, s)
    ensures r == out + EncodeAll(p, SlideMoves(p.squares, p.side, s, ds, |ds|))
  {
    hide To88, Encode, OffsetOf, RayMoves;
    r := out;
    for i := 0 to |offs|
      invariant r == out + EncodeAll(p, SlideMoves(p.squares, p.side, s, ds, i))
    {
      r := RayMoves88(b, from, offs[i], r, p, s, ds[i]);
      EncodeAppend(p, SlideMoves(p.squares, p.side, s, ds, i), RayMoves(p.squares, p.side, s, s, ds[i]));
    }
  }

  /** Are three squares of the king's path free from attack? */
  method PathSafe88(b: Board88, x: int, y: int, z: int, ghost p: Pos, ghost sx: Square, ghost sy: Square, ghost sz: Square)
    returns (safe: bool)
    requires b.Represents(p) && x == To88(sx) && y == To88(sy) && z == To88(sz)
    ensures safe <==> (var e := p.side.Other();
                       !Attacked(p.squares, sx, e) && !Attacked(p.squares, sy, e) && !Attacked(p.squares, sz, e))
  {
    hide Attacked, To88, Shows;
    var hit := IsSquareAttacked88(b, x, !b.whiteToMove, p, sx);
    if hit { return false; }
    hit := IsSquareAttacked88(b, y, !b.whiteToMove, p, sy);
    if hit { return false; }
    hit := IsSquareAttacked88(b, z, !b.whiteToMove, p, sz);
    return !hit;
  }

  /** Along the back rank both numberings count alike. */
  lemma HomeIndex(c: Color, i: int)
    requires -4 <= i <= 3
    ensures To88(Home(c) + i) == To88(Home(c)) + i
    ensures To88(Home(c)) == if c.White? then 4 else 116
  {
  }

  /** What the engine reads on a square is what stands there. */
  lemma CodeAt(a: seq<int>, squares: Squares, s: Square)
    requires Shows(a, squares)
    ensures 0 <= To88(s) < |a|
    ensures a[To88(s)] == 0 <==> squares[s] == Empty
    ensures a[To88(s)] == 4 <==> squares[s] == Man(White, Rook)
    ensures a[To88(s)] == 12 <==> squares[s] == Man(Black, Rook)
  {
    To88Injective(s, s);
    EmptyCode();
    CodeIff(squares[s], Empty);
    CodeIff(squares[s], Man(White, Rook));
    CodeIff(squares[s], Man(Black, Rook));
  }

  /** The same for the square i files from home. */
  lemma CodeNearHome(a: seq<int>, squares: Squares, c: Color, i: int)
    requires Shows(a, squares) && -4 <= i <= 3
    ensures var x := To88(Home(c)) + i;
            var piece := squares[Home(c) + i];
            0 <= x < |a|
            && (a[x] == 0 <==> piece == Empty)
            && (a[x] == 4 <==> piece == Man(White, Rook))
            && (a[x] == 12 <==> piece == Man(Black, Rook))
  {
    hide To88, Shows;
    HomeIndex(c, i);
    CodeAt(a, squares, Home(c) + i);
  }

  lemma CastleRecord(p: Pos, kingSide: bool)
    requires p.squares[Home(p.side)] == Man(p.side, King)
    ensures var h := Home(p.side);
            Encode(p, Move(h, if kingSide then h + 2 else h - 2, None)) ==
            Move88(To88(h), if kingSide then To88(h) + 2 else To88(h) - 2, 0, FLAG_CASTLE)
  {
    hide To88, TakesEnPassant;
    HomeIndex(p.side, 2);
    HomeIndex(p.side, -2);
  }

  method CastleMoves88(b: Board88, from: int, out: seq<Move88>, ghost p: Pos, ghost s: Square) returns (r: seq<Move88>)
    requires b.Represents(p) && from == To88(s) && p.squares[s] == Man(p.side, King)
    ensures r == out + EncodeAll(p, CastleMoves(p, s))
  {
    hide To88, Code, Shows, RightsBits;
    r := out;
    To88Injective(s, Home(p.side));
    HomeIndex(p.side, 0);
    EmptyRecord(p);
    if b.whiteToMove && from == 4 {
      r := CastleWing88(b, from, CR_WK, CR_WQ, 4, r, p, s);
    } else if !b.whiteToMove && from == 116 {
      r := CastleWing88(b, from, CR_BK, CR_BQ, 12, r, p, s);
    }
  }

  /** The two castling tests of the king standing at home on `from`. */
  method CastleWing88(b: Board88, from: int, crKing: nat, crQueen: nat, rook: int, out: seq<Move88>,
                      ghost p: Pos, ghost s: Square) returns (r: seq<Move88>)
    requires b.Represents(p) && from == To88(s) && p.squares[s] == Man(p.side, King)
    requires s == Home(p.side) && (if p.side.White? then from == 4 else from == 116)
    requires if p.side.White? then crKing == CR_WK && crQueen == CR_WQ && rook == 4
             else crKing == CR_BK && crQueen == CR_BQ && rook == 12
    ensures r == out + EncodeAll(p, CastleMoves(p, s))
  {
    hide To88, Code, Attacked, Encode, And, Shows;
    ghost var a := b.sq[..];
    ghost var c := p.side;
    CodeNearHome(a, p.squares, c, 1); CodeNearHome(a, p.squares, c, 2); CodeNearHome(a, p.squares, c, 3);
    CodeNearHome(a, p.squares, c, -1); CodeNearHome(a, p.squares, c, -2); CodeNearHome(a, p.squares, c, -3);
    CodeNearHome(a, p.squares, c, -4);
    HomeIndex(c, 0); HomeIndex(c, 1); HomeIndex(c, 2); HomeIndex(c, -1); HomeIndex(c, -2);
    RightsBit(p.rights);
    CastleRecord(p, true);
    CastleRecord(p, false);
    r := out;
    var safe := PathSafe88(b, from, from + 1, from + 2, p, s, s + 1, s + 2);
    if And(b.castling, crKing) != 0 && b.sq[from + 1] == 0 && b.sq[from + 2] == 0 && b.sq[from + 3] == rook && safe {
      r := r + [Move88(from, from + 2, 0, FLAG_CASTLE)];
    }
    ghost var ks := if CastleOpen(p, true) then [Move(s, s + 2, None)] else [];
    assert r == out + EncodeAll(p, ks);
    safe := PathSafe88(b, from, from - 1, from - 2, p, s, s - 1, s - 2);
    if And(b.castling, crQueen) != 0 && b.sq[from - 1] == 0 && b.sq[from - 2] == 0 && b.sq[from - 3] == 0
       && b.sq[from - 4] == rook && safe {
      r := r + [Move88(from, from - 2, 0, FLAG_CASTLE)];
    }
    ghost var qs := if CastleOpen(p, false) then [Move(s, s - 2, None)] else [];
    assert r == out + EncodeAll(p, ks) + EncodeAll(p, qs);
    EncodeAppend(p, ks, qs);
  }

  /** The moves of the man on `from`. */
  method ManMoves88(b: Board88, from: int, out: seq<Move88>, ghost p: Pos, ghost s: Square) returns (r: seq<Move88>)
    requires b.Represents(p) && from == To88(s) && EpEmpty(p) && Complete(ENGINE)
    ensures r == out + EncodeAll(p, ManMoves(ENGINE, p, s))
  {
    hide To88, Code, And, IsWhite, IsBlack, Complete, StepMoves, SlideMoves, PawnPushes, PawnTakes, CastleMoves,
         EncodeAll, SameSteps, AllKingDeltas, PieceType;
    r := out;
    CodeAt(b.sq[..], p.squares, s);
    var code := b.sq[from];
    var white := b.whiteToMove;
    ghost var piece := p.squares[s];
    CodeBits(piece);
    EmptyRecord(p);
    if code == 0 { return; }
    if white && !IsWhite(code) { return; }
    if !white && !IsBlack(code) { return; }
    TablesSame();
    SlidersAreKingDeltas();
    var kind := PieceType(code);
    if kind == 1 {
      r := PawnPushes88(b, from, r, p, s);
      r := PawnTakes88(b, from, r, p, s);
      EncodeAppend(p, PawnPushes(p, s), PawnTakes(p, s, CAPTURE_FILES, 2));
    } else if kind == 2 {
      r := StepMoves88(b, from, KNIGHT_OFFS, r, p, s, KNIGHT_STEPS);
    } else if kind == 6 {
      r := StepMoves88(b, from, KING_OFFS, r, p, s, KING_STEPS);
      r := CastleMoves88(b, from, r, p, s);
      EncodeAppend(p, StepMoves(p.squares, p.side, s, KING_STEPS, |KING_STEPS|), CastleMoves(p, s));
    } else if kind == 3 {
      r := SlideMoves88(b, from, BISHOP_OFFS, r, p, s, BISHOP_STEPS);
    } else if kind == 4 {
      r := SlideMoves88(b, from, ROOK_OFFS, r, p, s, ROOK_STEPS);
    } else {
      r := SlideMoves88(b, from, KING_OFFS, r, p, s, KING_STEPS);
    }
  }

  lemma EmptyRecord(p: Pos)
    ensures EncodeAll(p, []) == []
  {
  }

  /** A board stands for a position and for the engine's view of it alike. */
  lemma ViewStands(b: Board88, p: Pos)
    requires b.Represents(p)
    ensures b.Represents(View(p))
  {
    hide To88, Shows, RightsBits;
  }

  /** On every board the engine lists the pseudo-legal moves of its view of the position, in its own order. */
  method GenPseudoLegal88(b: Board88, ghost p: Pos) returns (out: seq<Move88>)
    requires b.Represents(p)
    ensures Complete(ENGINE) && out == EncodeAll(View(p), PseudoMoves(ENGINE, View(p)))
  {
    hide To88, Complete, ManMoves, EncodeAll, EpEmpty, Shows, EpStands, View;
    EngineComplete();
    ViewStands(b, p);
    ghost var v := View(p);
    EmptyRecord(v);
    out := [];
    for r := 0 to 8
      invariant out == EncodeAll(v, PseudoUpTo(ENGINE, v, 8 * r))
    {
      for f := 0 to 8
        invariant out == EncodeAll(v, PseudoUpTo(ENGINE, v, 8 * r + f))
      {
        To88At(f, r);
        out := ManMoves88(b, r * 16 + f, out, v, 8 * r + f);
        EncodeAppend(v, PseudoUpTo(ENGINE, v, 8 * r + f), ManMoves(ENGINE, v, 8 * r + f));
      }
    }
  }
}
