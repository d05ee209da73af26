/** The 0x88 board of the C++ engine: square numbering, off-board test and piece codes. */
module Square88 {
  import opened ChessTypes
  import opened Geometry

  /** Bitwise and of a two's complement integer with a non-negative mask. */
  function And(a: int, mask: nat): nat
    decreases mask
  {
    if mask == 0 then 0
    else (if a % 2 == 1 && mask % 2 == 1 then 1 else 0) + 2 * And(a / 2, mask / 2)
  }

  const OFFBOARD := 0x88

  predicate Off(t: int) { And(t, OFFBOARD) != 0 }

  function Bit(a: int, m: nat, w: nat): nat { if a % 2 == 1 && m % 2 == 1 then w else 0 }

  lemma AndStep(a: int, m: nat)
    ensures And(a, m) == Bit(a, m, 1) + 2 * And(a / 2, m / 2)
  {
  }

  /** And with a four-bit mask, bit by bit. */
  lemma And4(a: int, m: nat)
    requires m < 16
    ensures And(a, m) == Bit(a, m, 1) + Bit(a / 2, m / 2, 2) + Bit(a / 4, m / 4, 4) + Bit(a / 8, m / 8, 8)
  {
    hide And;
    assert a / 2 / 2 == a / 4 && a / 4 / 2 == a / 8 && m / 2 / 2 == m / 4 && m / 4 / 2 == m / 8 && m / 8 / 2 == 0;
    AndStep(a, m);
    AndStep(a / 2, m / 2);
    AndStep(a / 4, m / 4);
    AndStep(a / 8, m / 8);
    AndZero(a / 8 / 2);
  }

  lemma AndZero(a: int)
    ensures And(a, 0) == 0
  {
  }

  /** The off-board test looks at bits 3 and 7 alone, also on negative numbers. */
  lemma OffBits(t: int)
    ensures Off(t) <==> (t / 8) % 2 == 1 || (t / 128) % 2 == 1
  {
    hide And;
    var u := t / 8;
    assert t / 2 / 2 / 2 == u && u / 2 / 8 == t / 128;
    AndStep(t, 136);
    AndStep(t / 2, 68);
    AndStep(t / 2 / 2, 34);
    AndStep(u, 17);
    And4(u / 2, 8);
  }

  /** rank * 16 + file. */
  function To88(s: Square): int { RankOf(s) * 16 + FileOf(s) }

  function OffsetOf(d: Delta): int { 16 * d.dr + d.df }

  /** Adding a knight or king offset leaves the 0x88 board exactly when the step leaves the real one. */
  lemma StepOff(s: Square, d: Delta)
    requires -2 <= d.df <= 2 && -2 <= d.dr <= 2
    ensures Off(To88(s) + OffsetOf(d)) <==> Shift(s, d) == None
    ensures Shift(s, d).Some? ==> To88(Shift(s, d).value) == To88(s) + OffsetOf(d)
  {
    var f, r := FileOf(s) + d.df, RankOf(s) + d.dr;
    assert 0 <= FileOf(s) < 8 && 0 <= RankOf(s) < 8;
    Coordinates(f, r);
    hide FileOf, RankOf;
    OffBits(To88(s) + OffsetOf(d));
    assert To88(s) + OffsetOf(d) == 16 * r + f;
  }

  lemma Coordinates(f: int, r: int)
    requires -2 <= f < 10 && -2 <= r < 10
    ensures ((16 * r + f) / 8) % 2 == 1 || ((16 * r + f) / 128) % 2 == 1 <==> !(0 <= f < 8 && 0 <= r < 8)
  {
  }

  lemma To88Injective(s: Square, t: Square)
    ensures To88(s) == To88(t) ==> s == t
    ensures 0 <= To88(s) < 128
  {
  }

  // ----- piece codes -------------------------------------------------------

  const COLOR_BIT := 0x08
  const TYPE_MASK := 0x07

  function TypeCode(k: Kind): int {
    match k case Pawn => 1 case Knight => 2 case Bishop => 3 case Rook => 4 case Queen => 5 case King => 6
  }

  function Code(piece: Piece): int {
    match piece
    case Empty => 0
    case Man(White, k) => TypeCode(k)
    case Man(Black, k) => 8 + TypeCode(k)
  }

  /** The piece a code stands for; codes outside the enumeration are not pieces. */
  function Decode(code: int): Option<Piece> {
    match code
    case 0 => Some(Empty)
    case 1 => Some(Man(White, Pawn))
    case 2 => Some(Man(White, Knight))
    case 3 => Some(Man(White, Bishop))
    case 4 => Some(Man(White, Rook))
    case 5 => Some(Man(White, Queen))
    case 6 => Some(Man(White, King))
    case 9 => Some(Man(Black, Pawn))
    case 10 => Some(Man(Black, Knight))
    case 11 => Some(Man(Black, Bishop))
    case 12 => Some(Man(Black, Rook))
    case 13 => Some(Man(Black, Queen))
    case 14 => Some(Man(Black, King))
    case _ => None
  }

  predicate IsWhite(code: int) { code != 0 && And(code, COLOR_BIT) == 0 }

  predicate IsBlack(code: int) { And(code, COLOR_BIT) != 0 }

  function PieceType(code: int): int { And(code, TYPE_MASK) }

  /** The colour bit and the type mask read a code the way the piece enumeration means it. */
  lemma CodeBits(piece: Piece)
    ensures Decode(Code(piece)) == Some(piece)
    ensures IsWhite(Code(piece)) == piece.Is(White) && IsBlack(Code(piece)) == piece.Is(Black)
    ensures piece.Man? ==> PieceType(Code(piece)) == TypeCode(piece.kind)
  {
    hide And;
    And4(Code(piece), COLOR_BIT);
    And4(Code(piece), TYPE_MASK);
  }

  // ----- castling bits -----------------------------------------------------

  const CR_WK := 1
  const CR_WQ := 2
  const CR_BK := 4
  const CR_BQ := 8

  function RightsBits(r: Rights): nat {
    (if r.wk then 1 else 0) + (if r.wq then 2 else 0) + (if r.bk then 4 else 0) + (if r.bq then 8 else 0)
  }

  /** Bitwise or. */
  function Or(a: nat, b: nat): nat
    decreases a
  {
    if a == 0 then b else (if a % 2 == 1 || b % 2 == 1 then 1 else 0) + 2 * Or(a / 2, b / 2)
  }

  lemma OrStep(a: nat, b: nat)
    ensures Or(a, b) == (if a % 2 == 1 || b % 2 == 1 then 1 else 0) + 2 * Or(a / 2, b / 2)
  {
  }

  /** Setting a bit grants that right and no other. */
  lemma GrantRight(r: Rights)
    ensures Or(RightsBits(r), CR_WK) == RightsBits(r.(wk := true))
    ensures Or(RightsBits(r), CR_WQ) == RightsBits(r.(wq := true))
    ensures Or(RightsBits(r), CR_BK) == RightsBits(r.(bk := true))
    ensures Or(RightsBits(r), CR_BQ) == RightsBits(r.(bq := true))
  {
    OrBits(r, 1);
    OrBits(r, 2);
    OrBits(r, 4);
    OrBits(r, 8);
    hide Or;
  }

  lemma OrBits(r: Rights, mask: nat)
    requires mask < 16
    ensures Or(RightsBits(r), mask) ==
            RightsBits(Rights(r.wk || mask % 2 == 1, r.wq || mask / 2 % 2 == 1,
                              r.bk || mask / 4 % 2 == 1, r.bq || mask / 8 % 2 == 1))
  {
    hide Or;
    var b := RightsBits(r);
    OrStep(b, mask);
    OrStep(b / 2, mask / 2);
    OrStep(b / 2 / 2, mask / 2 / 2);
    OrStep(b / 2 / 2 / 2, mask / 2 / 2 / 2);
    assert b / 2 / 2 / 2 / 2 == 0 && mask / 2 / 2 / 2 / 2 == 0;
    OrZero();
    assert b % 2 == (if r.wk then 1 else 0) && b / 2 % 2 == (if r.wq then 1 else 0);
    assert b / 2 / 2 % 2 == (if r.bk then 1 else 0) && b / 2 / 2 / 2 % 2 == (if r.bq then 1 else 0);
    assert mask / 2 / 2 == mask / 4 && mask / 2 / 2 / 2 == mask / 8;
  }

  lemma OrZero()
    ensures Or(0, 0) == 0
  {
  }

  /** castling & ~mask. */
  function MaskOff(castling: nat, mask: int): nat { And(-1 - mask, castling) }

  lemma RightsBit(r: Rights)
    ensures And(RightsBits(r), CR_WK) != 0 <==> r.wk
    ensures And(RightsBits(r), CR_WQ) != 0 <==> r.wq
    ensures And(RightsBits(r), CR_BK) != 0 <==> r.bk
    ensures And(RightsBits(r), CR_BQ) != 0 <==> r.bq
  {
    var b := RightsBits(r);
    hide And;
    And4(b, 1);
    And4(b, 2);
    And4(b, 4);
    And4(b, 8);
  }

  lemma RightsBitsAre(r: Rights)
    ensures var b := RightsBits(r);
            && b % 2 == (if r.wk then 1 else 0) && b / 2 % 2 == (if r.wq then 1 else 0)
            && b / 4 % 2 == (if r.bk then 1 else 0) && b / 8 % 2 == (if r.bq then 1 else 0)
  {
  }

  lemma ComplementBits(mask: nat)
    ensures (-1 - mask) % 2 == 1 - mask % 2 && (-1 - mask) / 2 == -1 - mask / 2
  {
  }

  /** Bits of a mask complement: -1 - mask has the bits mask lacks. */
  lemma ClearBits(r: Rights, mask: nat)
    requires mask < 16
    ensures MaskOff(RightsBits(r), mask) ==
            RightsBits(Rights(r.wk && mask % 2 == 0, r.wq && mask / 2 % 2 == 0,
                              r.bk && mask / 4 % 2 == 0, r.bq && mask / 8 % 2 == 0))
  {
    hide And;
    var b, c := RightsBits(r), -1 - mask;
    And4(c, b);
    RightsBitsAre(r);
    ComplementBits(mask);
    ComplementBits(mask / 2);
    ComplementBits(mask / 2 / 2);
    ComplementBits(mask / 2 / 2 / 2);
    assert c / 4 == c / 2 / 2 && c / 8 == c / 2 / 2 / 2 && mask / 4 == mask / 2 / 2 && mask / 8 == mask / 2 / 2 / 2;
  }

  /** Masking rights away clears those rights and no other. */
  lemma ClearRight(r: Rights)
    ensures MaskOff(RightsBits(r), CR_WK) == RightsBits(r.(wk := false))
    ensures MaskOff(RightsBits(r), CR_WQ) == RightsBits(r.(wq := false))
    ensures MaskOff(RightsBits(r), CR_BK) == RightsBits(r.(bk := false))
    ensures MaskOff(RightsBits(r), CR_BQ) == RightsBits(r.(bq := false))
    ensures MaskOff(RightsBits(r), CR_WK + CR_WQ) == RightsBits(r.(wk := false, wq := false))
    ensures MaskOff(RightsBits(r), CR_BK + CR_BQ) == RightsBits(r.(bk := false, bq := false))
  {
    hide MaskOff;
    ClearBits(r, CR_WK);
    ClearBits(r, CR_WQ);
    ClearBits(r, CR_BK);
    ClearBits(r, CR_BQ);
    ClearBits(r, CR_WK + CR_WQ);
    ClearBits(r, CR_BK + CR_BQ);
  }
}
