# Verified model of a chess-engine benchmark

This project models, in Dafny, the parts of a chess-engine benchmark that decide results: the rule
oracle (move generation, attack detection, move application, perft, FEN), the benchmark opponents'
search, the internal match runner, a second move generator written in C++ on a 0x88 board, and the
hosted job queue with its leaderboard and staged publication. It proves that they do what their
documentation and their callers rely on.

The rules are those of the FIDE Laws of Chess, article 3 (moves), 9.2 (repetition) and 9.3 (fifty
moves); FEN is section 16.1 of the PGN Specification.

## How it is organised

`dafny verify dfyconfig.toml` checks everything.

- `ChessTypes`, `Geometry`, `Rules`: values, board geometry, and the rules stated declaratively: who
  attacks what, which moves are pseudo-legal, what a move does, when a position is well formed.
- `Laws`, `Clocks`: the same rules and the counters told a second time, in square numbers and on boards alone.
- `MoveLists`, `Distinct`, `AttackScan`: the move lists and the reverse attack scan as functions, shared
  by both generators through an `Order` of offset tables, and related to the rules.
- `Movegen`: the oracle as imperative code on a mutable `Board` (loops, appends, copy-make).
- `Preservation`, `Symmetry`, `Repetition`, `Perft`, `PerftDivision`, `PerftSymmetry`: well-formedness of
  every run, colour symmetry, the repetition key, perft as a count of lines.
- `Square88`, `Engine88`, `Refinement88`, `Answers88`, `Fen88`, `Shell88`, `SelfCapture`: the C++ engine, as
  methods that mutate its 0x88 board, each specified by the oracle position the board represents; its own FEN
  reader, its handling of the position command, its main loop and its reply.
- `Search`, `MateSearch`, `SearchSymmetry`: evaluation, alpha-beta against plain minimax, iterative deepening, what
  minimax values mean.
- `Uci`, `Text`, `Fen`, `FenBoard`, `Start`: move texts, FEN text, parsing and printing, START_FEN.
- `GamePotential`, `GameRuns`, `VisitLaws`, `GameLoop`, `MatchRunner`: termination, adjudication, the game loop, match totals.
- `UciShell`, `Opponents`, `Openings`: the position command, the opponents' answers, opening rows.
- `JobQueue`, `QueueRuns`, `Leaderboard`, `Publication`: claims, fencing and results under every interleaving, who is
  served when; the ranking; the leak scan in front of promotion.
- `Elo`: the rating estimate and its interval over exact reals, with log10 and the square root as parameters.

A `Board` object is a class whose `Value()` is the position it holds; methods are proved against functions
and predicates of that value. Engines, clocks and random choices are arbitrary: an engine may give
any answer or none, and a clock may show anything at each of its readings, so a deadline may fire at any search node,
but a search gives up only on a reading that is late.

## Main results

- Both generators list exactly the legal moves, each once; the 0x88 engine's move application and perft
  agree with the oracle's from every well-formed position, at every depth (modulo its 64-bit counter).
- Every run of legal moves from a well-formed position stays well formed, and START_FEN is well formed.
- Alpha-beta keeps the fail-soft promise for every window and deadline, so the root search returns exactly
  the moves of maximal minimax value. That value is a mate score exactly when a mate can be forced, or cannot be
  avoided, within the depth; the leaves count material.
- Each benchmark opponent, asked by the runner, plays its own strategy's choice in the runner's position: a capture of
  greatest worth, or a best move of the deepest iteration completed, which is the last one unless a reading of the
  clock was late.
- The moves of the model are those of the rules in square numbers. The halfmove clock is the number of plies since a
  pawn moved or a man was taken, over every legal line, and the fullmove number counts Black's.
- Flipping colours maps legal moves, lines, perft and minimax values onto each other, from every position with
  at most one king a side, well formed or not; every parsed FEN is such a position.
- Equal repetition keys have equal legal moves, successors, perft and minimax values.
- Every game ends within threshold * (potential + 1) plies, and within its ply cap; its record replays legally and
  follows the engines' replies, faults included, and each reason it can end for is given exactly when the final
  position calls for it.
- FEN text survives the round trip for exactly the FEN-valid positions.
- Over a whole game an opponent rebuilds the runner's position from the position command for exactly those start
  FENs that are one line without a field "moves", as long as no later line of the start FEN is itself a command;
  see `UciShell.GameRoundTrip`. Both conditions bite: `parse_fen` ignores a seventh field and takes a line break for
  a blank, but an opponent takes `<six fields> moves` for the start of the move list, and a line break ends the
  command; see `UciShell.StrayMovesFail` and `UciShell.LineBreakFails`. A start FEN of several lines whose last has
  no word "moves" works exactly when that line is a position command for the same position and none before it is
  "quit"; see `UciShell.LastLineDecides` and `UciShell.RepeatedCommandArrives`.
- The C++ engine reads every FEN the oracle accepts as the oracle's position, unless the text holds one of the
  separators 28 to 31, which Python's split takes for blanks and a C++ stream does not; see
  `Shell88.SeparatorsFail`. From start FENs free of those, well formed but for a man on the en passant square, it
  follows the runner over a whole game exactly when the start FEN is one line of six fields (or its seventh field is
  "moves" and no later one the text of a legal move) and no legal move is an en passant capture onto a man of the
  mover's own, which the oracle lists and the engine does not; see `Shell88.EngineKeepsUp` and
  `SelfCapture.SelfCaptureFails`. From any start FEN of four or five fields, which `parse_fen` also accepts, it
  drops the move list; see `Shell88.TooFewFields`.
- The FENs the oracle writes for well-formed positions meet all these conditions, so no game from an accepted
  opening fails this way, and the engine's reply is always a legal move of the runner's position.
- Under every interleaving a job gets at most one result, at most one claim passes the fence, and a claim is
  lost only by the job being claimed again, which no one can do before its lease runs out.
- Waiting jobs are handed out, the oldest first, and what is recorded under a claim that was not lost is filed as it
  was recorded.
- A clean leak scan promotes exactly the staged artifacts, and nothing newly public holds a secret exactly when
  no staged artifact is unreadable: the scan skips those, promotion does not; see `Publication.PublishedIsScanned`.
- The Elo interval is ordered, bounded, mirrored by swapping sides, and better results never rate lower.

## Model

| member | source | states |
|---|---|---|
| `Geometry.Shift` | bench/ceb/chess/movegen.py:26-32 | the result has the shifted file and rank, and exists exactly when they are on the board |
| `Geometry.RayIsSees` | bench/ceb/chess/movegen.py:60-68 | a ray walk visits exactly the squares aligned in its direction with nothing between |
| `AttackScan.ScanIsAttack` | bench/ceb/chess/movegen.py:35-69 | the reverse scan with complete tables finds nothing exactly when no man attacks the square under the declarative attack relation |
| `Movegen.IsSquareAttacked` | bench/ceb/chess/movegen.py:35-69 | the loop implementation answers the declarative attack relation, on every board |
| `Preservation.AttackedIffCapturable` | bench/ceb/chess/movegen.py:35-179 | reverse scan and forward generation agree: an enemy man is attacked if and only if some pseudo-legal move lands on it |
| `MoveLists.PseudoMovesAreExact` | bench/ceb/chess/movegen.py:139-179 | the list holds exactly the pseudo-legal moves of the rules |
| `MoveLists.LegalMovesAreExact` | bench/ceb/chess/movegen.py:260-269 | the list holds exactly the legal moves: pseudo-legal and leaving an own king unattacked |
| `Distinct.LegalMovesDistinct` | bench/ceb/chess/movegen.py:260-269 | no legal move is listed twice |
| `Movegen.OracleComplete` | bench/ceb/chess/movegen.py:15-19 | the offset tables list every knight, king, rook, bishop and queen direction exactly once |
| `Movegen.Board.Copy` | bench/ceb/chess/board.py:56-64 | a copy is fresh and holds the same position |
| `Movegen.Board.FindsKing` | bench/ceb/chess/board.py:69-75 | the first square holding the king, if any |
| `Movegen.GeneratePseudoLegal` | bench/ceb/chess/movegen.py:139-179 | the loops build the pseudo-legal list in the oracle's order |
| `Movegen.CastlingMovesInto` | bench/ceb/chess/movegen.py:105-136 | castling moves are appended exactly when the wing is open |
| `Movegen.MakeMove` | bench/ceb/chess/movegen.py:182-248 | ValueError exactly on an empty origin; otherwise a fresh board holding the position after the move, the original untouched |
| `Movegen.MoveMen` | bench/ceb/chess/movegen.py:188-226 | the writes to squares: en passant victim, mover or promoted man, castling rook |
| `Movegen.LoseRights` | bench/ceb/chess/movegen.py:228-238 | rights lost by king moves and by touched rook home squares |
| `Movegen.GenerateLegal` | bench/ceb/chess/movegen.py:260-269 | the filter over copy-made boards yields the legal list in order |
| `Movegen.IsCheckmate` | bench/ceb/chess/movegen.py:272-273 | in check and no legal move exists |
| `Movegen.IsStalemate` | bench/ceb/chess/movegen.py:276-277 | not in check and no legal move exists |
| `Preservation.KingNotCaptured` | bench/ceb/chess/movegen.py:182-269 | from a well-formed position no pseudo-legal move takes a king |
| `Preservation.KingsStay` | bench/ceb/chess/movegen.py:182-226 | after a move each king stands where it stood, or where it moved, and nowhere else |
| `Preservation.RightsPreserved` | bench/ceb/chess/movegen.py:228-238 | castling rights stay backed by king and rook at home |
| `Preservation.EpPreserved` | bench/ceb/chess/movegen.py:240-243 | an en passant square is empty and backed by the just-pushed pawn |
| `Preservation.PassedSquaresEmpty` | bench/ceb/chess/movegen.py:240-243 | after a double push from any position the passed square and the pawn's origin are empty and the pawn stands in front |
| `Preservation.PawnRanksPreserved` | bench/ceb/chess/movegen.py:72-103 | no pawn ever stands on a back rank |
| `Preservation.LegalMovePreserves` | bench/ceb/chess/movegen.py:182-269 | one legal move keeps every conjunct of well-formedness, the waiting side's king included |
| `Preservation.RunPreserves` | bench/ceb/chess/movegen.py:182-269 | every run of legal moves keeps well-formedness |
| `Preservation.Shapes` | bench/ceb/chess/movegen.py:188-226 | a pseudo-legal move is an en passant capture, a castle, or an ordinary move, with the stated placement |
| `Laws.StepLaws` | bench/ceb/chess/movegen.py:15-19 | knights attack at distance root five, kings at one or root two, pawns one square diagonally ahead |
| `Laws.SliderLaws` | bench/ceb/chess/movegen.py:60-68 | rooks attack along ranks and files, bishops along diagonals, queens along both, as far as the squares inside are empty |
| `Laws.WhitePawnLaw` | bench/ceb/chess/movegen.py:80-103 | White's pawn moves in square numbers, Black's being their mirror images (`Symmetry.FlipPseudoLegal`): pushes, double pushes, captures, en passant, and a promotion exactly on the last rank |
| `Laws.WhiteCastlingLaw` | bench/ceb/chess/movegen.py:105-136 | White castles e1g1 and e1c1 exactly with the right, the rook, the empty squares and the unattacked squares they need |
| `Laws.PieceLaw` | bench/ceb/chess/movegen.py:139-179 | any other man moves where it attacks, unless an own man stands there |
| `Laws.CheckLaw` | bench/ceb/chess/movegen.py:251-257 | a side with at most one king is in check exactly when an enemy man attacks its king |
| `Laws.LegalLaw` | bench/ceb/chess/movegen.py:260-269 | with at most one king, legal means pseudo-legal and a king that no enemy man attacks afterwards |
| `Laws.WhiteBoardLaw` | bench/ceb/chess/movegen.py:188-226 | the man on every square after a move of White's: promotion, en passant victim and castling rook included |
| `Laws.RightsLaw` | bench/ceb/chess/movegen.py:228-238 | from a well-formed position a right lasts exactly as long as its king and rook stand at home |
| `Laws.WhiteEpLaw` | bench/ceb/chess/movegen.py:240-243 | an en passant square appears exactly behind a white pawn pushed from the second rank to the fourth |
| `Clocks.ClockAfter` | bench/ceb/chess/movegen.py:244 | the halfmove clock restarts exactly when other squares hold pawns or men are gone, and goes on by one otherwise |
| `Clocks.ClockOverLine` | bench/ceb/chess/movegen.py:244 | over any legal line it is the number of plies since the last such move, counted from the start without one |
| `Clocks.NumberOverLine` | bench/ceb/chess/movegen.py:245-248 | the fullmove number grows by Black's plies and the sides alternate |
| `Start.StartWellFormed` | bench/ceb/chess/board.py:17 | the initial position is well formed |
| `Start.StartParses` | bench/ceb/chess/board.py:17 | START_FEN parses to the initial position |
| `Symmetry.FlipPseudoLegal` | bench/ceb/chess/movegen.py:80-179 | colour flipping maps pseudo-legal moves onto pseudo-legal moves, on every board |
| `Symmetry.FlipAfter` | bench/ceb/chess/movegen.py:182-248 | make_move commutes with colour flipping in everything but the fullmove number |
| `Symmetry.FlipLegal` | bench/ceb/chess/movegen.py:260-269 | colour flipping maps legal moves onto legal moves wherever the mover has at most one king |
| `Symmetry.FlipInCheck` | bench/ceb/chess/movegen.py:251-257 | and checks onto checks |
| `Symmetry.LoneKingsStay` | bench/ceb/chess/movegen.py:182-226 | no pseudo-legal move gives a side a second king |
| `Fen.ParsedHasLoneKings` | bench/ceb/chess/fen.py:49-52 | every parsed position has at most one king a side |
| `Symmetry.FlipWellFormed` | bench/ceb/chess/movegen.py:182-269 | colour flipping keeps well-formedness |
| `Symmetry.FlipTwice` | bench/ceb/chess/movegen.py:35-269 | flipping is its own inverse |
| `PerftSymmetry.FlipPerft` | bench/ceb/chess/perft.py:6-16 | a position with at most one king a side and its flipped image have the same perft at every depth |
| `PerftTree.PerftCountsLines` | bench/ceb/chess/perft.py:6-16 | perft equals the length of the list of legal lines |
| `PerftTree.LinesAreExact` | bench/ceb/chess/perft.py:6-16 | that list holds exactly the legal lines of its length |
| `PerftTree.LinesDistinct` | bench/ceb/chess/perft.py:6-16 | and holds each of them once |
| `PerftTree.PerftIgnoresOrder` | bench/ceb/chess/perft.py:6-16 | perft does not depend on the order in which a generator tries its offsets |
| `PerftTree.DepthOneIsLength` | bench/ceb/chess/perft.py:11-12 | the depth-1 shortcut is the general recursion |
| `PerftTree.PerftCount` | bench/ceb/chess/perft.py:6-16 | the recursive loop computes perft, with 1 for depth zero and below |
| `PerftDivision.TotalIsPerft` | bench/ceb/chess/perft.py:19-24 | the values filed under the root moves add up to perft |
| `PerftDivision.PerftDivide` | bench/ceb/chess/perft.py:19-24 | one entry for each legal move, no key collision, and for depth at least 1 the values sum to perft |
| `Uci.MoveRoundTrip` | bench/ceb/chess/move.py:22-38 | from_uci inverts uci |
| `Uci.MoveTextInjective` | bench/ceb/chess/move.py:22-23 | uci is injective |
| `Uci.KnownTexts` | bench/ceb/chess/move.py:22-23 | e2e4, b8c6 and the four promotion letters as written |
| `Uci.UpperCasePromotes` | bench/ceb/chess/move.py:28-37 | blanks around the text and an upper-case promotion letter are accepted |
| `Uci.SquareIndexRoundTrip` | bench/ceb/chess/board.py:20-31 | square_index accepts exactly the names square_name produces |
| `Repetition.SameLegal` | bench/ceb/chess/movegen.py:297-301 | equal repetition keys have the same legal moves in the same order and the same check status |
| `Repetition.SameAfter` | bench/ceb/chess/movegen.py:297-301 | successors of positions with equal keys have equal keys |
| `Repetition.SamePerft` | bench/ceb/chess/movegen.py:297-301 | equal keys have equal perft at every depth, whatever the clocks |
| `Repetition.SameKeyMeans` | bench/ceb/chess/movegen.py:297-301 | keys agree exactly when men, side to move, rights and en passant square do |
| `Square88.StepOff` | examples/submissions/minimal_uci_engine_cpp/engine.cpp:22-23 | a knight or king offset leaves the 0x88 board exactly when the step leaves the real board, negative results included; otherwise the squares correspond |
| `Square88.OffBits` | examples/submissions/minimal_uci_engine_cpp/engine.cpp:22-23 | the off-board test reads bits 3 and 7 of the two's complement square |
| `Square88.CodeBits` | examples/submissions/minimal_uci_engine_cpp/engine.cpp:25-38 | colour bit and type mask read a piece code as the enumeration means it |
| `Square88.ClearRight` | examples/submissions/minimal_uci_engine_cpp/engine.cpp:46-50 | masking with a complement clears those rights and no other |
| `Engine88.EngineComplete` | examples/submissions/minimal_uci_engine_cpp/engine.cpp:64-67 | the engine's tables list every offset of their kind exactly once |
| `Engine88.IsSquareAttacked88` | examples/submissions/minimal_uci_engine_cpp/engine.cpp:145-204 | the engine's scan answers the oracle's attack relation on the position it represents |
| `Engine88.FindKing88` | examples/submissions/minimal_uci_engine_cpp/engine.cpp:206-214 | the engine finds the oracle's king square |
| `Engine88.CastleMoves88` | examples/submissions/minimal_uci_engine_cpp/engine.cpp:300-334 | the engine castles exactly when the oracle does |
| `Engine88.GenPseudoLegal88` | examples/submissions/minimal_uci_engine_cpp/engine.cpp:237-360 | on every board the vector holds the records of the pseudo-legal moves of the position as the engine sees it (no target on an occupied en passant square), in the engine's own order, flags included |
| `Refinement88.ViewPseudo` | examples/submissions/minimal_uci_engine_cpp/engine.cpp:263-279 | those are the oracle's pseudo-legal moves but for the en passant captures onto a man of the mover's own |
| `Refinement88.ViewLegal` | examples/submissions/minimal_uci_engine_cpp/engine.cpp:263-279 | and the same for legal moves |
| `Engine88.EncodeInjective` | examples/submissions/minimal_uci_engine_cpp/engine.cpp:69-76 | distinct moves have distinct records |
| `Refinement88.MakeMove88` | examples/submissions/minimal_uci_engine_cpp/engine.cpp:378-428 | makeMove takes a board representing a well-formed position to one representing the oracle's successor |
| `Refinement88.MoveMen88` | examples/submissions/minimal_uci_engine_cpp/engine.cpp:384-412 | the four branches write exactly the oracle's placement |
| `Refinement88.RightsAgree` | examples/submissions/minimal_uci_engine_cpp/engine.cpp:414-425 | clearing rights by touched squares agrees with the oracle's king and rook rules in well-formed positions |
| `Refinement88.GenLegal88` | examples/submissions/minimal_uci_engine_cpp/engine.cpp:431-443 | genLegal lists the records of exactly the legal moves |
| `Refinement88.SameLegalMoves` | examples/submissions/minimal_uci_engine_cpp/engine.cpp:431-443 | the engine's and the oracle's order of offsets give the same legal moves, each once; `GenLegal88` ties the engine to its order in well-formed positions |
| `Refinement88.Perft88` | examples/submissions/minimal_uci_engine_cpp/engine.cpp:449-461 | the engine's perft is the oracle's, modulo 2^64, at every depth |
| `Answers88.TextAgrees` | examples/submissions/minimal_uci_engine_cpp/engine.cpp:467-488 | moveToUci writes a move as the oracle does |
| `Answers88.FindMove88` | examples/submissions/minimal_uci_engine_cpp/engine.cpp:491-498 | findMoveByUci finds the legal move with the text, or there is none |
| `Answers88.ApplyMoves88` | examples/submissions/minimal_uci_engine_cpp/engine.cpp:507-515 | on any texts at all: legal moves are made on the board, everything else is skipped |
| `Answers88.ObeyLine` | examples/submissions/minimal_uci_engine_cpp/engine.cpp:507-515 | the texts of a legal line bring the engine to the line's final position |
| `Fen88.ReadPlacement88` | examples/submissions/minimal_uci_engine_cpp/engine.cpp:107-119 | one pass over the characters puts every man of an accepted placement on its 0x88 square and nothing elsewhere |
| `Fen88.ReadCastling88` | examples/submissions/minimal_uci_engine_cpp/engine.cpp:123-134 | the bits set are those of the letters present |
| `Fen88.ParseFen88` | examples/submissions/minimal_uci_engine_cpp/engine.cpp:100-138 | a text whose first four words describe a position to the oracle is accepted and leaves a board representing it, whatever the counters; fewer than four words are refused |
| `Fen88.StreamReadsFields` | examples/submissions/minimal_uci_engine_cpp/engine.cpp:102-104 | stream reads deliver the fields Python's split gives, on texts without the separators 28 to 31 |
| `Fen88.StreamOfWords` | examples/submissions/minimal_uci_engine_cpp/engine.cpp:530-535 | reading a join gives the words back |
| `Square88.GrantRight` | examples/submissions/minimal_uci_engine_cpp/engine.cpp:127-130 | setting a castling bit grants that right and no other |
| `Shell88.HandlePosition88` | examples/submissions/minimal_uci_engine_cpp/engine.cpp:517-541 | on the line of the runner's command it is given, the board ends up representing `Reached88`: the position of up to six words, or the initial one for fewer than four, then the moves behind them |
| `Shell88.Hear88` | examples/submissions/minimal_uci_engine_cpp/engine.cpp:563-603 | the main loop on all lines of that command ends there too, when no later line is a command |
| `Shell88.EngineKeepsUp` | examples/submissions/minimal_uci_engine_cpp/engine.cpp:528-540 | without separators or commands in the start FEN, that position is the runner's throughout the game exactly when the start FEN is one line of six words describing it, or its seventh is "moves" and no later one is a legal move, and no legal move captures its own side's man; a game over before it starts needs four fields on the first line |
| `Shell88.TooFewFields` | examples/submissions/minimal_uci_engine_cpp/engine.cpp:528-540 | four or five fields on the first line leave the engine on the start position whatever is played, well formed or not |
| `Shell88.ShortFenFails` | examples/submissions/minimal_uci_engine_cpp/engine.cpp:528-540 | the four-field FEN of any FEN-valid position with counters 0 and 1 parses to it, and the engine stays there whatever is played |
| `Shell88.WrittenFenKeepsUp` | bench/ceb/chess/fen.py:86-110 | a FEN the oracle writes keeps up exactly when no legal move captures its own side's man |
| `Shell88.SeparatorsFail` | examples/submissions/minimal_uci_engine_cpp/engine.cpp:102-104 | the fields of any FEN-valid position separated by character 28 parse to it, but are one word to the engine, which stays on the initial position |
| `SelfCapture.SelfCaptureFails` | examples/submissions/minimal_uci_engine_cpp/engine.cpp:269-277 | on 4k3/8/8/8/8/4N3/3P4/4K3 w - e3 0 1 the oracle lists d2e3 onto its own knight and the engine skips it |
| `Shell88.CommandPlain` | bench/ceb/uci/protocol.py:36-41 | a start FEN without separators gives a command without them |
| `Shell88.EngineReplies88` | examples/submissions/minimal_uci_engine_cpp/engine.cpp:581-598 | asked by the runner on a start FEN that keeps up, the engine replies with a legal move of the runner's own position |
| `Answers88.PickBestMove88` | examples/submissions/minimal_uci_engine_cpp/engine.cpp:544-554 | the reply is the least text of a legal move, or 0000 when there is none |
| `Answers88.LexLessMeans` | examples/submissions/minimal_uci_engine_cpp/engine.cpp:544-554 | the order of texts: a proper prefix, or smaller at the first difference |
| `Search.Evaluate` | bench/ceb/match/opponents.py:40-54 | the loop computes the sum of signed square scores |
| `Search.ScoreBound` | bench/ceb/match/opponents.py:40-54 | the evaluation of n squares is at most 924n in size, so the whole board's stays below the mate score |
| `Search.MinimaxBound` | bench/ceb/match/opponents.py:63-81 | minimax values lie between the two mate scores |
| `Search.BestOfIsMaximum` | bench/ceb/match/opponents.py:71-81 | the best value is attained by some move and exceeded by none |
| `Search.Negamax` | bench/ceb/match/opponents.py:63-81 | fail-soft alpha-beta: exact inside the window, a bound on the right side outside it; reads the clock at least once and times out exactly at the first late reading |
| `Search.SearchStep` | bench/ceb/match/opponents.py:72-80 | one more child searched with the raised window keeps the account of the searched moves |
| `Search.SearchRoot` | bench/ceb/match/opponents.py:84-97 | the moves of maximal minimax value, in generation order, exactly when no reading of the clock is late |
| `Search.TopMovesAreBest` | bench/ceb/match/opponents.py:84-97 | those are exactly the legal moves no legal move beats |
| `MateSearch.StuckScores` | bench/ceb/match/opponents.py:67-68 | checkmate scores -100000 and stalemate 0 at every depth |
| `MateSearch.BestScores` | bench/ceb/match/opponents.py:71-81 | elsewhere a position is worth what its best move is worth to the mover |
| `MateSearch.LeafScores` | bench/ceb/match/opponents.py:57-70 | at depth 0 it is worth its evaluation for the side to move, short of the mate scores |
| `MateSearch.MateScores` | bench/ceb/match/opponents.py:63-81 | minimax is 100000 exactly when a mate can be forced within the depth, and -100000 exactly when it cannot be avoided |
| `MateSearch.TopMovesMate` | bench/ceb/match/opponents.py:84-97 | when a mate can be forced the root search keeps exactly the moves that force it |
| `MateSearch.MatesAreTop` | bench/ceb/match/opponents.py:84-97 | a move that mates is kept at every depth, and at depth 1 nothing else beside such moves |
| `MateSearch.MaterialScore` | bench/ceb/match/opponents.py:24-54 | without the square table the evaluation is 100, 320, 330, 500 and 900 times the surplus of pawns, knights, bishops, rooks and queens |
| `MateSearch.TableScore` | bench/ceb/match/opponents.py:28-53 | with it a man gains four times its distance from the edges, a pawn three times its advance |
| `Search.ChooseDepthBased` | bench/ceb/match/opponents.py:100-116 | no move exactly when there is none; otherwise legal, and optimal for the deepest completed iteration, which is the last exactly when no reading is after the deadline |
| `SearchSymmetry.SameMinimax` | bench/ceb/match/opponents.py:63-81 | equal repetition keys have equal minimax values |
| `SearchSymmetry.FlipScore` | bench/ceb/match/opponents.py:40-60 | flipping colours negates the evaluation and keeps the side-to-move score |
| `SearchSymmetry.FlipMinimax` | bench/ceb/match/opponents.py:63-81 | flipping colours keeps the minimax value at every depth, with at most one king a side |
| `Fen.FenRoundTrip` | bench/ceb/chess/fen.py:11-110 | parsing a written position gives it back exactly when it is FEN-valid, and fails otherwise |
| `Fen.SurvivesWhen` | bench/ceb/chess/fen.py:50-83 | that is with one king a side, an en passant square on rank 3 or 6 if any, and a positive fullmove number; the side is w or b |
| `Fen.NormalForm` | bench/ceb/chess/fen.py:86-110 | writing an accepted FEN and parsing it again gives the same position, split empty runs and missing counters included |
| `Fen.RankRoundTrip` | bench/ceb/chess/fen.py:34-48 | reading a written rank gives its cells |
| `Fen.RankIsRead` | bench/ceb/chess/fen.py:34-48 | a rank is read exactly when it holds the digits 1 to 8 and the letters of men only |
| `Fen.CastlingMeans` | bench/ceb/chess/fen.py:57-66 | a dash, or letters KQkq each at most once, which name the rights |
| `Fen.EpMeans` | bench/ceb/chess/fen.py:68-74 | a dash, or a square of rank 3 or 6 |
| `Text.FieldsOfWords` | bench/ceb/chess/fen.py:19 | splitting a join gives the tokens back |
| `Text.IntRoundTrip` | bench/ceb/chess/fen.py:76-78 | int() reads back what %d writes |
| `Text.KnownNumbers` | bench/ceb/chess/fen.py:76-80 | signs and leading zeros are read, blanks, lone signs and stray underscores are not |
| `FenBoard.ParseFen` | bench/ceb/chess/fen.py:11-83 | the loops build the parsed position, or ValueError exactly on malformed input |
| `FenBoard.ReadRank` | bench/ceb/chess/fen.py:31-48 | a rank string is accepted exactly when it spells out eight cells, which are written |
| `FenBoard.BoardToFen` | bench/ceb/chess/fen.py:86-110 | the loops write the FEN text |
| `GamePotential.MoveLowersPotential` | bench/ceb/chess/movegen.py:188-248 | no move raises the potential and every clock-resetting move lowers it |
| `GamePotential.MovesLeftFalls` | bench/ceb/match/internal_runner.py:103-150 | each move below the halfmove threshold uses up part of the moves left |
| `GameRuns.RunIsBounded` | bench/ceb/match/internal_runner.py:103-150 | a game has at most threshold * (potential + 1) plies, whatever the ply cap |
| `GameRuns.AtMostThreefold` | bench/ceb/match/internal_runner.py:102-115 | no position occurs more than three times and only the last one can occur three times |
| `GameRuns.RunStaysWellFormed` | bench/ceb/match/internal_runner.py:103-150 | the final position is well formed, and mates and stalemates are never played past |
| `GameLoop.IsInsufficientMaterial` | bench/ceb/chess/movegen.py:280-294 | no pawn, rook or queen and at most one minor piece |
| `GameLoop.LegalByText` | bench/ceb/match/internal_runner.py:104 | the dictionary maps exactly the texts of the legal moves to those moves |
| `GameLoop.PlayGame` | bench/ceb/match/internal_runner.py:31-158 | the record replays legally from the start FEN to its final FEN, no earlier position called for adjudication, result and reason fit the final position, and moves and fault are the engines' replies in turn; terminates without the ply cap |
| `GameLoop.EndingFits` | bench/ceb/match/internal_runner.py:105-127 | every reason is an if-and-only-if about the final position, in the order the runner tests them, the ply cap last; a side wins exactly by mating or by the fault of the side to move |
| `GameLoop.PliesWithinCap` | bench/ceb/match/internal_runner.py:103-127 | no game runs past its cap or past a position that calls for an end |
| `VisitLaws.ThirdVisit` | bench/ceb/match/internal_runner.py:102-115 | a third visit means that men, side to move, rights and en passant square were the same at two earlier moments of the game |
| `VisitLaws.InsufficientMeans` | bench/ceb/chess/movegen.py:280-294 | insufficient material means at most one man besides kings, a bishop or a knight |
| `MatchRunner.PlayMatch` | bench/ceb/match/internal_runner.py:161-240 | totals are recounts of the games and add up; faults never exceed losses and opponent faults never exceed wins; each game starts from its opening and follows its engines |
| `MatchRunner.FaultsAreLosses` | bench/ceb/match/internal_runner.py:220-230 | a side's faults are bounded by its losses |
| `MatchRunner.PairsShareOpenings` | bench/ceb/match/internal_runner.py:196-199 | games 2k and 2k+1 share an opening with colours swapped |
| `MatchRunner.OpeningsTakeTurns` | bench/ceb/match/internal_runner.py:196-199 | openings come in order, two games each, and start over when all have been used |
| `MatchRunner.PointLaw` | bench/ceb/match/internal_runner.py:220-225 | the candidate wins, draws or loses as the colour it has in that game does |
| `UciShell.CommandTokens` | bench/ceb/uci/protocol.py:36-41 | the tokens of a position command |
| `UciShell.PositionRoundTrip` | bench/ceb/match/opponents.py:163-180 | from a start FEN of one line the opponent rebuilds the runner's position if and only if the FEN survives the command |
| `UciShell.GameRoundTrip` | bench/ceb/match/opponents.py:163-235 | with no command on a later line of the start FEN: in every position of a game if and only if the start FEN is one line without a field "moves"; a game over before it starts needs the first line alone to give the position |
| `UciShell.LastLineDecides` | bench/ceb/match/opponents.py:205-235 | for several lines, the last without a word "moves": if and only if the last is a position command for the start position and none before it is "quit" |
| `UciShell.RepeatedCommandArrives` | bench/ceb/match/opponents.py:205-235 | a written FEN followed by a line with its own position command is such a start FEN |
| `UciShell.FirstLineWords` | bench/ceb/uci/client.py:76-79 | the words of the command's first line: a break in the start FEN cuts off the rest, moves included |
| `UciShell.StrayMovesFail` | bench/ceb/match/opponents.py:163-180 | a written FEN followed by "moves" parses to its position, but no move played arrives |
| `UciShell.LineBreakFails` | bench/ceb/match/opponents.py:205-206 | so does a written FEN followed by a line break |
| `UciShell.WrittenFenSurvives` | bench/ceb/chess/fen.py:86-110 | every FEN the oracle writes survives, whatever moves follow |
| `Opponents.ReadPosition` | bench/ceb/match/opponents.py:163-180 | _parse_position, with ValueError exactly on malformed input |
| `Opponents.ChooseGreedyCapture` | bench/ceb/match/opponents.py:124-139 | a legal move taking at least as much as any other legal move |
| `Opponents.GreedyTakesMost` | bench/ceb/match/opponents.py:124-139 | greedy play takes a queen when a legal move does, and so down to pawns, en passant included |
| `Opponents.PlaysBestInTime` | bench/ceb/match/opponents.py:100-116 | with no reading of the clock late, a search plays a move no legal move beats at its full depth |
| `Opponents.AnswerTurn` | bench/ceb/match/opponents.py:231-246 | a malformed position keeps the previous board; the answer is the text of a move the strategy may choose there, or 0000 when there is no legal move |
| `Opponents.RunnerAsks` | bench/ceb/match/internal_runner.py:131-142 | asked by the runner, an opponent answers with its strategy's choice among the legal moves of the runner's position whenever the start FEN survives |
| `Openings.OpeningStartFen` | bench/ceb/match/openings.py:36-60 | a row is accepted exactly when its FEN parses and its moves are the texts of a legal line; the result is the FEN of the line's end |
| `Openings.OpeningReparses` | bench/ceb/match/openings.py:36-60 | from a well-formed FEN the resulting start FEN parses to a well-formed position |
| `Openings.RowFenMeans` | bench/ceb/match/openings.py:43-45 | a missing, empty or "startpos" FEN is the initial position, any other is itself |
| `Openings.OpeningGamesArrive` | bench/ceb/match/openings.py:36-60 | in every game from such an opening the opponents and the C++ engine are on the runner's position throughout |
| `JobQueue.JobStore.EnqueueJob` | bench/ceb/hosted/db.py:199-203 | appends one queued job without attempts |
| `JobQueue.JobStore.ClaimNextJob` | bench/ceb/hosted/db.py:213-248 | hands out the first job that is queued or running under a lease that has ended, as its next attempt, and nothing exactly when there is none |
| `JobQueue.OldestIsClaimable` | bench/ceb/hosted/db.py:228-231 | the job chosen waits for a worker and every earlier one does not; none is chosen only when none waits |
| `JobQueue.JobStore.FinishIfOwned` | bench/ceb/hosted/db.py:274-294 | sets the given status and ends the lease exactly when the claim still owns the job |
| `JobQueue.JobStore.RecordIfOwned` | bench/ceb/hosted/db.py:297-325 | inserts one result and marks the job done exactly when the claim still owns it, else nothing |
| `JobQueue.InvAlways` | bench/ceb/hosted/db.py:213-325 | the invariant over every interleaving of enqueues, claims, failures and records |
| `JobQueue.OneResultPerJob` | bench/ceb/hosted/db.py:297-325 | a job has at most one result and is done exactly when it has one |
| `JobQueue.OneOwner` | bench/ceb/hosted/db.py:265-271 | at most one outstanding claim of a job passes the fence |
| `JobQueue.AttemptsCountClaims` | bench/ceb/hosted/db.py:235-239 | attempt_count is the number of claims handed out |
| `JobQueue.ResultIsByLastClaim` | bench/ceb/hosted/worker.py:102-109 | a result comes from the last claim handed out for its job |
| `JobQueue.FinalForever` | bench/ceb/hosted/db.py:228-231 | done and failed jobs never change and are never claimed again |
| `JobQueue.OwnsUntilReclaimed` | bench/ceb/hosted/worker.py:79-109 | until its holder settles it, a claim is lost only by the job being claimed again |
| `JobQueue.LeaseProtects` | bench/ceb/hosted/db.py:228-234 | over any run without a claim after its expiry, a leased claim stays with its holder until settled; without a lease for good |
| `JobQueue.LiveLeaseProtects` | bench/ceb/hosted/db.py:228-231 | a running job without an expired lease is not handed out |
| `JobQueue.OutputDirsDiffer` | bench/ceb/hosted/worker.py:72-76 | no two claims share an output directory |
| `QueueRuns.ClaimTakesFirst` | bench/ceb/hosted/db.py:213-248 | the claim of the first waiting job, field by field, and no change without one |
| `QueueRuns.FirstComeFirstServed` | bench/ceb/hosted/db.py:199-248 | after any enqueues on empty tables, claims without a lease hand out the jobs in order, each once, as first attempts |
| `QueueRuns.RecoveredAfterLease` | bench/ceb/hosted/db.py:228-239 | a job claimed for n seconds goes to the next claimant exactly after those have passed |
| `QueueRuns.ClaimedWorkIsFiled` | bench/ceb/hosted/db.py:213-325 | a worker that claims and records before anyone claims again gets its evaluation filed, whatever others do meanwhile |
| `QueueRuns.JobsAreRequests` | bench/ceb/hosted/db.py:199-203 | the jobs are the requests enqueued, in order, whatever happened since |
| `QueueRuns.ResultsAreRecorded` | bench/ceb/hosted/db.py:297-325 | every result holds the evaluation recorded under the claim that wrote it, filed under the run its job was enqueued for |
| `Leaderboard.SelectBest` | bench/ceb/hosted/db.py:348-368 | the first maximal-score verified row of the best non-empty tier, or none |
| `Leaderboard.BestIsUnique` | bench/ceb/hosted/db.py:348-368 | that row is unique |
| `Leaderboard.EligibleMeans` | bench/ceb/hosted/profiles.py:121-135 | which modes are final and which official |
| `Leaderboard.BestMeans` | bench/ceb/hosted/db.py:359-368 | the best row is the first of greatest score among the scored verified rows of a final mode, or of an official mode without those |
| `Leaderboard.UnverifiedIsIgnored` | bench/ceb/hosted/db.py:341-345 | unverified rows change nobody's best result |
| `Leaderboard.VerifiedLeaderboard` | bench/ceb/hosted/db.py:387-412 | ranked by falling score with ties in table order, one entry for each run of the track with an eligible result, each its best |
| `Leaderboard.BoardIsDetermined` | bench/ceb/hosted/db.py:387-412 | results, runs and track determine the ranking |
| `Leaderboard.BoardFalls` | bench/ceb/hosted/db.py:410 | scores fall along the board, and equal ones keep the order of the runs table |
| `Leaderboard.UnverifiedKeepsBoard` | bench/ceb/hosted/db.py:341-345 | an unverified row leaves the whole ranking as it is |
| `Publication.ArtifactTree.StagedPublicArtifacts` | bench/ceb/storage/promotion.py:52-62 | lists each staged, not yet public artifact once and nothing else |
| `Publication.ArtifactTree.PromotePublicArtifacts` | bench/ceb/storage/promotion.py:65-77 | makes exactly the staged artifacts public and changes no other entry |
| `Publication.ArtifactTree.ScanStaged` | bench/ceb/scan/leak_scan.py:143-179 | scans exactly the readable staged artifacts and reports exactly those holding a secret token |
| `Publication.ArtifactTree.Publish` | bench/ceb/hosted/official_eval.py:251-266 | promotes exactly when every staged artifact passes; otherwise nothing becomes public |
| `Publication.PublishedIsScanned` | bench/ceb/hosted/official_eval.py:255-265 | newly public artifacts are the staged ones, and all are scanned and free of secrets exactly when none is unreadable |
| `Publication.UnreadableIsPublished` | bench/ceb/scan/leak_scan.py:160-163 | a staged artifact that cannot be read is promoted without a scan |
| `Publication.ContainsMeans` | bench/ceb/scan/leak_scan.py:119-123 | a text contains a token when it is some text, the token, and more text |
| `Elo.Clamped` | bench/ceb/scoring/elo.py:20-23 | clamping lands strictly inside (0, 1), keeps order and commutes with the complement |
| `Elo.DeltaEloLaws` | bench/ceb/scoring/elo.py:26-30 | a better rate never estimates lower; the complementary rate estimates the negation |
| `Elo.IntervalLaws` | bench/ceb/scoring/elo.py:40-54 | an interval exists exactly when a game was played; lo <= mid <= hi (reversed for a negative z), all within 400 log10(2 games + 1) of zero |
| `Elo.IntervalMirror` | bench/ceb/scoring/elo.py:40-54 | swapping wins and losses negates and reverses the interval |
| `Elo.BetterResultsRateHigher` | bench/ceb/scoring/elo.py:40-54 | turning losses into draws or draws into wins never lowers the estimate |
| `Elo.LogisticMeans` | bench/ceb/scoring/elo.py:26-30 | the estimate is 400 points for each power of ten in the odds |
| `Elo.PerfectScore` | bench/ceb/scoring/elo.py:20-37 | winning every game estimates 400 log10(2 games + 1) |
| `Elo.VarianceMeans` | bench/ceb/scoring/elo.py:46-49 | the variance is the mean of the squared scores less the square of the mean score |
| `Elo.WidthMeans` | bench/ceb/scoring/elo.py:50-53 | the bounds lie z standard errors of the mean away |

## Left out

- Collecting the secret tokens of an eval pack (`collect_pack_secrets`) and hashing them: the secrets are an arbitrary set, and a leak is reported without its token.
- Floating-point rounding in the Elo estimates; log10 and the square root are used through the laws stated in `Elo` only.
- Processes, pipes, threads and timing (`bench/ceb/uci/client.py`): an engine is an arbitrary reply per turn. The `movetime` of a `go` command is a parameter of the opponents, not read from its text.
- SQLite: every transaction is one atomic step on sequences; ids are positions in the table. The unfenced `finish_job` and `add_result`, which no production caller uses, are not events of the model.
- `finish_job_if_owned` with a status other than "failed" is not an event of the interleavings: the worker passes no other.
- Free-text columns of jobs and results (details, paths, timestamps, grades) and the evaluation itself, which is an arbitrary value.
- Non-ASCII text: blanks, digits and letter case are the ASCII ones; Python's limit on the length of integers it converts is not modelled.
- `UciShell.GameRoundTrip`, `UciShell.LastLineDecides`: leave open start FENs of several lines with a command on a later line when the last line has a word "moves" or the game is over before it starts; answers to a "go" on a line of the start FEN are not modelled.
- Castling fields in an order other than "KQkq": rights are four flags, since `parse_fen` normalises the order and `make_move` keeps it.
- The output of the C++ engine's `uci`, `isready` and `go perft` commands.
- `Fen88.ParseFen88`: says nothing about texts of four or more words that describe no position to the oracle; a start FEN with separators can be one.
- `Shell88.EngineKeepsUp`: for six or more fields it asks for a start position that is well formed but for a man on the en passant square, since the engine's moves are tied to the oracle's there only; and it compares positions with their clocks, so as the moves made: the engine keeps no clocks, and words after a stray "moves" that play a loop back to the same position count as a failure.
- The order in which the C++ engine and the oracle list moves is modelled exactly, but the two orders are only compared as sets.
- `promoPiece`'s default branch in the C++ engine: no generated move reaches it.
- PGN text, opening-suite files (JSON lines), `rotate_suite`, match reports beyond their counters.
- `perft` of the engine at a negative depth, where the C++ code does not return.
