/** Values shared by every chess module: colours, pieces, squares, moves and positions. */
module ChessTypes {

  datatype Option<+T> = None | Some(value: T)

  datatype Color = White | Black {
    function Other(): Color {
      if White? then Black else White
    }
  }

  datatype Kind = Pawn | Knight | Bishop | Rook | Queen | King

  /** The kinds a pawn may turn into: the letters of PROMOTION_PIECES. */
  type Promotion = k: Kind | k != Pawn && k != King witness Queen

  datatype Piece = Empty | Man(color: Color, kind: Kind) {
    /** is_white_piece or is_black_piece. */
    predicate Is(c: Color) {
      Man? && color == c
    }
  }

  /** Index 0 is a1 and 63 is h8. */
  type Square = s: int | 0 <= s < 64

  /** Squares an en passant target can take: rank 3 or 6 when read from a FEN, and
      the midpoint of two squares sixteen apart when set by a pawn move. */
  type EpSquare = s: int | 8 <= s < 56 witness 16

  type Squares = s: seq<Piece> | |s| == 64 witness seq(64, _ => Empty)

  /** The castling field, one flag for each letter of "KQkq". */
  datatype Rights = Rights(wk: bool, wq: bool, bk: bool, bq: bool)

  datatype Move = Move(from: Square, to: Square, promo: Option<Promotion>)

  /** A position as a value: everything a Board object holds. */
  datatype Pos = Pos(squares: Squares, side: Color, rights: Rights, ep: Option<EpSquare>, half: nat, full: nat)

  /** An offset in files and ranks. */
  datatype Delta = Delta(df: int, dr: int)

  function FileOf(s: int): int { s % 8 }

  function RankOf(s: int): int { s / 8 }

  /** The rank direction in which a colour's pawns advance. */
  function Forward(c: Color): int {
    if c.White? then 1 else -1
  }

  function Abs(x: int): nat { if x < 0 then -x else x }

  function Sign(x: int): int { if x < 0 then -1 else if x == 0 then 0 else 1 }

  predicate NoDup<T(==)>(s: seq<T>) {
    forall i, j :: 0 <= i < j < |s| ==> s[i] != s[j]
  }

  predicate Disjoint<T(==)>(a: seq<T>, b: seq<T>) {
    forall x :: x in a ==> x !in b
  }

  lemma NoDupAppend<T>(a: seq<T>, b: seq<T>)
    requires NoDup(a) && NoDup(b) && Disjoint(a, b)
    ensures NoDup(a + b)
  {
    forall i, j | 0 <= i < j < |a + b| ensures (a + b)[i] != (a + b)[j] {
      if i < |a| <= j {
        assert (a + b)[i] in a && (a + b)[j] in b;
      }
    }
  }
}
