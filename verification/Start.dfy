/** The initial position: its text is START_FEN, and it is well formed. */
module Start {
  import opened ChessTypes
  import opened Geometry
  import opened Rules
  import opened Text
  import opened Fen

  const START_FEN := "rnbqkbnr/pppppppp/8/8/8/8/PPPPPPPP/RNBQKBNR w KQkq - 0 1"

  const BACK_RANK: seq<Kind> := [Rook, Knight, Bishop, Queen, King, Bishop, Knight, Rook]

  function StartPiece(s: Square): Piece {
    if RankOf(s) == 0 then Man(White, BACK_RANK[FileOf(s)])
    else if RankOf(s) == 1 then Man(White, Pawn)
    else if RankOf(s) == 6 then Man(Black, Pawn)
    else if RankOf(s) == 7 then Man(Black, BACK_RANK[FileOf(s)])
    else Empty
  }

  function StartSquares(): Squares {
    seq(64, i requires 0 <= i < 64 => StartPiece(i))
  }

  const START: Pos := Pos(StartSquares(), White, Rights(true, true, true, true), None, 0, 1)

  // ----- text --------------------------------------------------------------

  /** A rank without gaps is written letter by letter. */
  lemma {:induction false} FullRank(cells: seq<Piece>, n: nat)
    requires n <= |cells| && forall i :: 0 <= i < |cells| ==> cells[i] != Empty
    ensures RankUpTo(cells, n).1 == 0
    ensures |RankUpTo(cells, n).0| == n
    ensures forall i :: 0 <= i < n ==> RankUpTo(cells, n).0[i] == PieceChar(cells[i])
  {
    if n > 0 {
      FullRank(cells, n - 1);
    }
  }

  lemma {:induction false} EmptyRank(cells: seq<Piece>, n: nat)
    requires n <= |cells| && forall i :: 0 <= i < |cells| ==> cells[i] == Empty
    ensures RankUpTo(cells, n) == ("", n)
  {
    if n > 0 {
      EmptyRank(cells, n - 1);
    }
  }

  lemma FullRankText(cells: seq<Piece>, text: string)
    requires |text| == |cells|
    requires forall i :: 0 <= i < |cells| ==> cells[i] != Empty && text[i] == PieceChar(cells[i])
    ensures RankText(cells) == text
  {
    FullRank(cells, |cells|);
  }

  lemma EmptyRankText(cells: seq<Piece>)
    requires |cells| == 8 && forall i :: 0 <= i < |cells| ==> cells[i] == Empty
    ensures RankText(cells) == "8"
  {
    EmptyRank(cells, 8);
    assert Decimal(8) == "8";
  }

  lemma StartRow(r: nat, i: nat)
    requires r < 8 && i < 8
    ensures Row(START.squares, r)[i] ==
            if r == 0 then Man(White, BACK_RANK[i]) else if r == 1 then Man(White, Pawn)
            else if r == 6 then Man(Black, Pawn) else if r == 7 then Man(Black, BACK_RANK[i]) else Empty
  {
    assert FileOf(8 * r + i) == i && RankOf(8 * r + i) == r;
  }

  function StartRankText(r: nat): string {
    if r == 0 then "RNBQKBNR" else if r == 1 then "PPPPPPPP" else if r == 6 then "pppppppp"
    else if r == 7 then "rnbqkbnr" else "8"
  }

  lemma Letters(i: nat)
    requires i < 8
    ensures "RNBQKBNR"[i] == PieceChar(Man(White, BACK_RANK[i]))
    ensures "rnbqkbnr"[i] == PieceChar(Man(Black, BACK_RANK[i]))
    ensures "PPPPPPPP"[i] == 'P' && "pppppppp"[i] == 'p'
  {
  }

  lemma StartLetter(r: nat, i: nat)
    requires i < 8 && (r == 0 || r == 1 || r == 6 || r == 7)
    ensures |StartRankText(r)| == 8
    ensures StartRankText(r)[i] == PieceChar(Row(START.squares, r)[i]) && Row(START.squares, r)[i] != Empty
  {
    hide Row;
    StartRow(r, i);
    Letters(i);
  }

  lemma StartRanks(r: nat)
    requires r < 8
    ensures RankText(Row(START.squares, r)) == StartRankText(r)
  {
    var cells := Row(START.squares, r);
    assert |cells| == 8;
    hide RankText, Row, PieceChar, StartRankText;
    if 2 <= r < 6 {
      forall i: nat | i < 8 ensures cells[i] == Empty { StartRow(r, i); }
      EmptyRankText(cells);
      assert StartRankText(r) == "8" by { EmptyText(r); }
    } else {
      StartLetter(r, 0);
      forall i: nat | i < 8 ensures StartRankText(r)[i] == PieceChar(cells[i]) && cells[i] != Empty { StartLetter(r, i); }
      FullRankText(cells, StartRankText(r));
    }
  }

  lemma EmptyText(r: nat)
    requires 2 <= r < 6
    ensures StartRankText(r) == "8"
  {
  }

  lemma StartRankTexts()
    ensures StartRankText(0) == "RNBQKBNR" && StartRankText(1) == "PPPPPPPP" && StartRankText(6) == "pppppppp"
    ensures StartRankText(7) == "rnbqkbnr" && StartRankText(2) == "8" && StartRankText(3) == "8"
    ensures StartRankText(4) == "8" && StartRankText(5) == "8"
  {
  }

  // The placement text, rank by rank.
  lemma StartPlacement1()
    ensures PlacementFrom(START.squares, 1) == "PPPPPPPP/RNBQKBNR"
  {
    hide PlacementFrom, RankText, Row, StartRankText;
    StartRankTexts();
    PlacementStep(START.squares, 1);
    StartRanks(1);
    StartRanks(0);
    assert "PPPPPPPP" + "/" + "RNBQKBNR" == "PPPPPPPP/RNBQKBNR";
  }

  lemma StartPlacement2()
    ensures PlacementFrom(START.squares, 2) == "8/PPPPPPPP/RNBQKBNR"
  {
    hide PlacementFrom, RankText, Row, StartRankText;
    StartRankTexts();
    PlacementStep(START.squares, 2);
    StartRanks(2);
    StartPlacement1();
    assert "8" + "/" + "PPPPPPPP/RNBQKBNR" == "8/PPPPPPPP/RNBQKBNR";
  }

  lemma StartPlacement3()
    ensures PlacementFrom(START.squares, 3) == "8/8/PPPPPPPP/RNBQKBNR"
  {
    hide PlacementFrom, RankText, Row, StartRankText;
    StartRankTexts();
    PlacementStep(START.squares, 3);
    StartRanks(3);
    StartPlacement2();
    assert "8" + "/" + "8/PPPPPPPP/RNBQKBNR" == "8/8/PPPPPPPP/RNBQKBNR";
  }

  lemma StartPlacement4()
    ensures PlacementFrom(START.squares, 4) == "8/8/8/PPPPPPPP/RNBQKBNR"
  {
    hide PlacementFrom, RankText, Row, StartRankText;
    StartRankTexts();
    PlacementStep(START.squares, 4);
    StartRanks(4);
    StartPlacement3();
    assert "8" + "/" + "8/8/PPPPPPPP/RNBQKBNR" == "8/8/8/PPPPPPPP/RNBQKBNR";
  }

  lemma StartPlacement5()
    ensures PlacementFrom(START.squares, 5) == "8/8/8/8/PPPPPPPP/RNBQKBNR"
  {
    hide PlacementFrom, RankText, Row, StartRankText;
    StartRankTexts();
    PlacementStep(START.squares, 5);
    StartRanks(5);
    StartPlacement4();
    assert "8" + "/" + "8/8/8/PPPPPPPP/RNBQKBNR" == "8/8/8/8/PPPPPPPP/RNBQKBNR";
  }

  lemma StartPlacement6()
    ensures PlacementFrom(START.squares, 6) == "pppppppp/8/8/8/8/PPPPPPPP/RNBQKBNR"
  {
    hide PlacementFrom, RankText, Row, StartRankText;
    StartRankTexts();
    PlacementStep(START.squares, 6);
    StartRanks(6);
    StartPlacement5();
    assert "pppppppp" + "/" == "pppppppp/";
    assert "pppppppp/" + "8/8/8/8/PPPPPPPP/RNBQKBNR" == "pppppppp/8/8/8/8/PPPPPPPP/RNBQKBNR";
    assert "pppppppp" + "/" + "8/8/8/8/PPPPPPPP/RNBQKBNR" == "pppppppp/8/8/8/8/PPPPPPPP/RNBQKBNR";
  }

  lemma StartPlacement7()
    ensures PlacementFrom(START.squares, 7) == "rnbqkbnr/pppppppp/8/8/8/8/PPPPPPPP/RNBQKBNR"
  {
    hide PlacementFrom, RankText, Row, StartRankText;
    StartRankTexts();
    PlacementStep(START.squares, 7);
    StartRanks(7);
    StartPlacement6();
    TopRanks();
  }

  lemma TopRanks()
    ensures "rnbqkbnr" + "/" + "pppppppp/8/8/8/8/PPPPPPPP/RNBQKBNR" == "rnbqkbnr/pppppppp/8/8/8/8/PPPPPPPP/RNBQKBNR"
  {
    assert "rnbqkbnr" + "/" == "rnbqkbnr/";
  }

  /** START_FEN is the text of the initial position. */
  lemma StartText()
    ensures FenText(START) == START_FEN
  {
    hide PlacementFrom, CastlingText, Decimal, Words;
    StartPlacement7();
    StartFields();
    StartWords();
  }

  lemma StartFields()
    ensures Decimal(0) == "0" && Decimal(1) == "1" && CastlingText(START.rights) == "KQkq"
  {
  }

  lemma StartWords()
    ensures Words(["rnbqkbnr/pppppppp/8/8/8/8/PPPPPPPP/RNBQKBNR", "w", "KQkq", "-", "0", "1"]) == START_FEN
  {
    var tail := Words(["w", "KQkq", "-", "0", "1"]);
    assert tail == "w KQkq - 0 1";
    var placement := "rnbqkbnr/pppppppp/8/8/8/8/PPPPPPPP/RNBQKBNR";
    assert placement + " " + "w KQkq - 0 1" == START_FEN;
  }

  // ----- well-formedness ---------------------------------------------------

  lemma KingFile(i: nat)
    requires i < 8
    ensures BACK_RANK[i] == King <==> i == 4
  {
  }

  lemma StartKing(s: Square, c: Color)
    ensures START.squares[s] == Man(c, King) <==> s == if c.White? then 4 else 60
  {
    KingFile(FileOf(s));
    var home: Square := if c.White? then 4 else 60;
    if FileOf(s) == FileOf(home) && RankOf(s) == RankOf(home) {
      SameSquare(s, home);
    }
  }

  lemma OnlyKing(squares: Squares, c: Color, k: Square)
    requires forall s: Square :: squares[s] == Man(c, King) <==> s == k
    ensures OneKing(squares, c) && KingSquare(squares, c) == Some(k)
  {
    assert squares[k] == Man(c, King);
  }

  lemma StartKings()
    ensures OneKing(START.squares, White) && OneKing(START.squares, Black)
    ensures KingSquare(START.squares, Black) == Some(60)
  {
    hide *;
    forall s: Square ensures START.squares[s] == Man(White, King) <==> s == 4 { StartKing(s, White); }
    forall s: Square ensures START.squares[s] == Man(Black, King) <==> s == 60 { StartKing(s, Black); }
    OnlyKing(START.squares, White, 4);
    OnlyKing(START.squares, Black, 60);
  }

  /** No white man attacks Black's king in the initial position. */
  lemma StartKingSafe()
    ensures !Attacked(START.squares, 60, White)
  {
    hide Attacks;
    forall s: Square | Holds(START.squares, s, White) ensures !Attacks(START.squares, s, 60) {
      if RankOf(s) == 1 {
        PawnIsFar(s);
      } else {
        BackRankIsFar(s);
      }
    }
  }

  lemma PawnIsFar(s: Square)
    requires RankOf(s) == 1
    ensures !Attacks(START.squares, s, 60)
  {
    assert START.squares[s] == Man(White, Pawn);
    hide StartSquares, Clear;
  }

  lemma BackRankMan(s: Square)
    requires RankOf(s) == 0
    ensures s < 8 && START.squares[s] == Man(White, BACK_RANK[s]) && Offset(s, 60) == Delta(4 - s, 7)
  {
  }

  lemma BackRankIsFar(s: Square)
    requires RankOf(s) == 0
    ensures !Attacks(START.squares, s, 60)
  {
    hide StartSquares, Clear, Offset, FileOf, RankOf;
    BackRankMan(s);
    KingFile(s);
    NoPawnInBack(s);
  }

  lemma NoPawnInBack(i: nat)
    requires i < 8
    ensures BACK_RANK[i] != Pawn
  {
  }

  /** The initial position is well formed. */
  lemma StartWellFormed()
    ensures WellFormed(START)
  {
    StartKings();
    StartKingSafe();
    hide Attacked;
  }

  /** Parsing START_FEN gives the initial position. */
  lemma StartParses()
    ensures ParsePos(START_FEN) == Some(START)
  {
    hide ParsePos, FenText;
    StartText();
    FenRoundTrip(START);
    StartKings();
  }
}
