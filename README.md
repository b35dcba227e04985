# Chess engine move generator in Dafny

This project models `ChessEngine.py`, the rules core of a small chess program.
It covers:

- the `GameState` class: the 8x8 board of two-character piece codes, the side to
  move, the move log, the two recorded king squares, and the `inCheck`, `pins` and
  `checks` fields;
- the `Move` value class: its packed identity, its promotion flag and its notation.

The model keeps the engine's own structure.

- **Pieces** (`pieces.dfy`): the board as eight rows of eight cells. A cell is
  `Empty` (the engine's `"--"`) or a piece with a colour and a kind. It also has
  the start layout.
- **Moves** (`move.dfy`): the `Move` datatype built from a board snapshot. It has
  `MoveID`, `IsPawnPromotion`, the `__eq__` comparison (`Equals`), and the
  rank/file tables with `get_rank_file` and `get_chess_notation`.
- **Scanner** (`scanner.dfy`): `check_pins_checks` as a pure function `Scan`.
  Rays are cast from the king along the engine's direction table, then knight
  jumps are checked. The result is the pin and check entries, in the order the
  engine appends them.
- **Generators** (`generators.dfy`): the piece generators (`get_pawn_moves`,
  `get_rook_moves`, `get_bishop_moves`, `get_knight_moves`, `get_queen_moves`,
  `get_king_moves`) as pure functions. Each takes the board, the side to move,
  the square and the pin entry the generator looks up.
- **Legal** (`legal.dfy`): `get_all_possible_moves` as a row-major fold over the
  board that threads the move list, the pin list and the king squares.
  `get_valid_moves` is the function `ValidMoves`, which applies the check rules
  to that fold's result.
- **Engine** (`engine.dfy`): the `GameState` class itself. Its fields are updated
  in place by methods with loops, following the engine's own loops. Each method
  is proved to compute, or to leave in its fields, exactly what the pure function
  of the other modules gives. The pure functions' properties are proved as lemmas.

The engine's own behaviour is kept, including the parts a chess player would call
wrong:

- The scan's direction table lists `(0, 1)` twice and `(0, -1)` never. A rook or
  queen to the left of the king is not seen, and whatever lies to the right is
  reported twice (`Scanner.ScanNeverLeftward`, `Scanner.RightwardReportedTwice`).
- The scan does not stop a ray at an enemy piece that does not attack along it.
  It does not stop after recording a pin either.
- The knight generator tries all 16 pairs of shifts from `[-2, -1, 1, 2]`, so
  knights also jump to diagonal squares. `Generators.KnightDiagonalJump` shows
  the jump b1–d3 from the start position. Counted by hand, the start position
  therefore gives 22 moves instead of the 20 of standard chess; the model follows
  the code but does not prove that count.
- The king generator appends the move to a safe target square twice and to an
  attacked target square once (`Generators.KingFromCount`).
- While probing a square, it sets the king's recorded square to the origin
  (`r, c`), not to the previous value (`Generators.KingRecordedAt`).
- A queen's pin entry is not removed when its rook half runs, so the bishop
  half finds it again.
- The pawn, rook, bishop and knight generators remove the entry they found.
- Pruning under a single check uses `list.remove`, which drops the first entry
  that `__eq__` calls equal. `__eq__` compares identities only, and
  `Engine.RemoveFirstEqualAt` models exactly that removal.

## Model

| member | source | states |
|---|---|---|
| Pieces.SetCell | ChessEngine.py:38-39 | writing one board cell changes that cell to the new piece and every other cell stays as it was |
| Pieces.InitialKings | ChessEngine.py:12-27 | the start layout has exactly one white king, on (7, 4), and one black king, on (0, 4), where the constructor records them; no pawn stands on its far rank |
| Pieces.InitialBoard | ChessEngine.py:12-21 | defines the start layout: the black back rank, black pawns, four empty rows, white pawns, the white back rank |
| Moves.MoveIdInjective | ChessEngine.py:340 | for squares on the board, two moves have the same identity exactly when they have the same start and end squares |
| Moves.EqualsIffSameSquares | ChessEngine.py:349-351 | `__eq__` holds between two moves exactly when their start and end squares agree; the pieces are ignored |
| Moves.EqualSnapshotsIdentical | ChessEngine.py:335-351 | two moves built from the same board are `__eq__`-equal exactly when they are the same value |
| Moves.MoveIdRange | ChessEngine.py:340 | the identity of a move between squares on the board lies in 0..7777 |
| Moves.PromotionIff | ChessEngine.py:342 | the promotion flag holds exactly when the moved piece is a pawn ending on row 0 (white) or row 7 (black) |
| Moves.RankFileIsArithmetic | ChessEngine.py:328-333 | the file letter of column c is 'a' + c and the rank digit of row r is '8' - r |
| Moves.RankFileRoundTrip | ChessEngine.py:356-357 | reading a square's two characters back through `filesToCols` and `ranksToRows` gives the square |
| Moves.NotationRoundTrip | ChessEngine.py:353-354 | the notation has four characters, from which the start and the end square are read back |
| Moves.KingPawnOpening | ChessEngine.py:353-357 | the king's-pawn double step of the start position reads "e2e4" |
| Moves.NewMove | ChessEngine.py:335-339 | defines a move built from a board: its two squares and the pieces standing on them at that moment |
| Moves.Equals | ChessEngine.py:349-351 | defines `__eq__` as equality of the packed identities |
| Moves.GetRankFile | ChessEngine.py:356-357 | defines a square's name as its file letter followed by its rank digit, read from the engine's tables |
| Moves.GetChessNotation | ChessEngine.py:353-354 | defines a move's notation as the start square's name followed by the end square's name |
| Scanner.ScanRaySound | ChessEngine.py:289-312 | every check found on a ray from step i on is an enemy piece that can attack along that ray at its distance, and is found only while no candidate pin is held; every pin found is an ally piece other than the king on that ray |
| Scanner.RaysFromSound | ChessEngine.py:285-312 | every check the ray loop reports from ray j on is an attacker on one of the rays j..7, and every pin an ally piece other than the king on one of them |
| Scanner.KnightChecksSound | ChessEngine.py:313-321 | every knight check reported is an enemy knight a knight jump away from the king |
| Scanner.ScanSound | ChessEngine.py:271-322 | every check reported by the scan is an enemy knight a jump away or an enemy piece that can attack along its ray at its distance; every pin is an ally piece other than the king on one of the rays |
| Scanner.ScanOnBoard | ChessEngine.py:290-292 | every pin and check entry names a square on the board |
| Scanner.ScanNeverLeftward | ChessEngine.py:285 | no pin or check entry has direction (0, -1): the direction table never looks left |
| Scanner.RightwardRaysAgree | ChessEngine.py:285-312 | the second and the fourth entry of the direction table give the same walk |
| Scanner.RaysFromUnfolded | ChessEngine.py:285-287 | the ray loop's result is the rays cast in table order, with the rightward ray cast twice |
| Scanner.RightwardReportedTwice | ChessEngine.py:285-312 | a check or pin found to the right of the king appears at least twice in the lists the scan returns |
| Scanner.ScanRayCheckComplete | ChessEngine.py:289-308 | if every square before step n of a ray is on the board and passable and step n holds an enemy that can attack along the ray, the ray reports that check |
| Scanner.ScanRayPinConfirmed | ChessEngine.py:299-310 | once a candidate pin is held, an attacker reached over passable squares confirms it: the pin is reported |
| Scanner.ScanRayPinComplete | ChessEngine.py:294-310 | an ally piece other than the king at step n, passable squares before and after it, and an attacker at step m beyond it make the ray report the pin at step n |
| Scanner.RaysFromKeeps | ChessEngine.py:285-312 | whatever ray j reports is also reported by the ray loop started at any earlier entry of the table |
| Scanner.KnightChecksComplete | ChessEngine.py:313-321 | an enemy knight on the board at one of the jumps is reported as a knight check |
| Scanner.ScanReportsRayCheck | ChessEngine.py:285-308 | an attacker reached over passable squares along a ray of the table is among the scan's checks, so the king counts as attacked |
| Scanner.ScanReportsKnightCheck | ChessEngine.py:313-321 | an enemy knight a jump away is among the scan's checks, so the king counts as attacked |
| Scanner.ScanReportsPin | ChessEngine.py:285-310 | an ally piece shielding the king from an attacker along a ray of the table is among the scan's pins |
| Scanner.CanAttack | ChessEngine.py:301-304 | defines which enemy pieces attack along ray j at distance i: rooks on the orthogonal rays, bishops on the diagonal ones, queens on all, pawns and kings only at distance one (pawns only on their two capturing rays) |
| Scanner.ScanRay | ChessEngine.py:289-312 | defines one ray's walk: it stops off the board; an ally non-king becomes the candidate pin, a second one ends the ray; an attacking enemy is a check that ends the ray, or confirms the candidate and the walk goes on; every other square is passed |
| Scanner.RaysFrom | ChessEngine.py:285-312 | defines the ray loop as the rays from table entry j on, each ray's findings before the next ray's |
| Scanner.KnightChecksFrom | ChessEngine.py:313-321 | defines the knight loop as the knight checks from jump k on, in table order |
| Scanner.Scan | ChessEngine.py:271-322 | defines check_pins_checks: the ray findings from the king square for the side to move, then the knight checks appended to the checks |
| Generators.FindPinFound | ChessEngine.py:121-126 | the pin lookup returns an entry of the list on the given square, or none exactly when no entry is on that square |
| Generators.FindPinAppend | ChessEngine.py:121 | the backward search finds the last matching entry: one in the later part of the list beats one in the earlier part |
| Generators.FindPinRemoveOther | ChessEngine.py:125 | removing an entry of another square does not change what the lookup finds for this square |
| Generators.ConsumeKeepsOtherSquares | ChessEngine.py:123-126 | a generator's removal of its own pin entry leaves every other square's lookup unchanged |
| Generators.FindPin | ChessEngine.py:121-126 | defines the backward search of the pin list: the last entry on the given square, or none |
| Generators.ConsumePin | ChessEngine.py:123-126 | defines the removal of the entry found, skipped when the caller keeps it |
| Generators.PawnMovesIff | ChessEngine.py:118-152 | a move is among the pawn moves exactly when it is the single step onto an empty square, the double step from the home row over two empty squares, or a diagonal capture of an enemy piece on the board, each allowed only with no pin or a pin along that direction |
| Generators.PawnPinnedAlongPin | ChessEngine.py:131-151 | a pinned pawn moves one or two squares along its pin direction |
| Generators.RayMovesIff | ChessEngine.py:170-184 | a move is on a rook or bishop ray exactly when its end square is reached over empty squares and is empty or holds an enemy piece |
| Generators.RayMovesEmit | ChessEngine.py:170-184 | the ray's move list contains a move exactly when the step-by-step walk of the loop emits it |
| Generators.WalkStopReaches | ChessEngine.py:176-182 | a move the walk emits ends on a square reached over empty squares, at the step where it was emitted |
| Generators.ReachesEmits | ChessEngine.py:176-182 | a square reached over empty squares that is empty or holds an enemy piece is emitted by the walk |
| Generators.RayMovesOnLine | ChessEngine.py:171-172 | every ray move ends 1..7 steps from the piece along the ray's direction |
| Generators.SlideMovesIff | ChessEngine.py:169-184 | a move is produced by the direction loop exactly when it lies on the ray of a direction the pin allows |
| Generators.SlideMovesSound | ChessEngine.py:169-184 | every move of the direction loop lies on the ray of an allowed direction |
| Generators.SlideMovesComplete | ChessEngine.py:169-184 | every move on the ray of an allowed direction is produced by the direction loop |
| Generators.PinnedSlideStaysOnLine | ChessEngine.py:174 | a pinned rook, bishop or queen moves only along the line of its pin |
| Generators.AllowedDirectionOnPinLine | ChessEngine.py:174 | a square along a direction equal or opposite to the pin direction lies on the pin line |
| Generators.SlideMoveLine | ChessEngine.py:169-184 | every slide move ends some 1..7 steps along one of the directions the pin allows |
| Generators.RookMovesOrthogonal | ChessEngine.py:157-184 | a rook move changes exactly one of the row and the column |
| Generators.RookLine | ChessEngine.py:167 | a square along a rook direction shares exactly one coordinate with the origin |
| Generators.BishopMovesDiagonal | ChessEngine.py:189-216 | a bishop move changes the row, by as much as it changes the column |
| Generators.BishopLine | ChessEngine.py:199 | a square along a bishop direction lies on one of the two diagonals through the origin |
| Generators.KnightFromIff | ChessEngine.py:229-234 | a move is among the knight moves from shift pair (xi, yi) on exactly when the knight is not pinned and the move lands, at a later shift pair, on a square on the board that is empty or not of the knight's colour |
| Generators.PinnedKnightStays | ChessEngine.py:232 | a pinned knight has no moves |
| Generators.KnightDiagonalJump | ChessEngine.py:229-234 | from the start position the b1 knight can move to d3, two squares diagonally |
| Generators.KingFromCount | ChessEngine.py:249-269 | the king loops list the move to a target square twice when that square is safe, once when it is attacked, and never for other squares or offsets already passed |
| Generators.KingFromRowEnd | ChessEngine.py:249-250 | the count carries over from the end of one column of offsets to the start of the next |
| Generators.KingFromDone | ChessEngine.py:249 | past the last column of offsets nothing more is listed |
| Generators.KingFromStep | ChessEngine.py:250-269 | one offset adds exactly its own copies to the count |
| Generators.KingCountStep | ChessEngine.py:250-269 | the expected count splits into this offset's copies and the rest |
| Generators.KingFromTargetStep | ChessEngine.py:255-269 | at a target offset, the list gains one or two copies of that move and no copies of others |
| Generators.KingAtCount | ChessEngine.py:262-269 | one target offset lists its move twice when safe and once when attacked |
| Generators.KingMovesIff | ChessEngine.py:247-269 | a move is among the king moves exactly when it goes to an adjacent square on the board that holds no ally piece |
| Generators.KingMoveIsTarget | ChessEngine.py:247-269 | every king move goes to an adjacent square on the board without an ally piece |
| Generators.KingTargetIsListed | ChessEngine.py:269 | every adjacent square on the board without an ally piece is listed, whether attacked or not |
| Generators.RayMovesSnapshot | ChessEngine.py:177-179 | every ray move starts on the piece's square and is built from the current board |
| Generators.SlideMovesSnapshot | ChessEngine.py:169-184 | every move of the direction loop starts on the piece's square and is built from the current board |
| Generators.KnightMovesSnapshot | ChessEngine.py:234 | every knight move starts on the knight's square and is built from the current board |
| Generators.KingMovesSnapshot | ChessEngine.py:263-269 | every king move starts on the king's square and is built from the current board |
| Generators.KingAtSnapshot | ChessEngine.py:263-269 | the moves of one king offset start on the king's square and are built from the current board |
| Generators.PawnMovesSnapshot | ChessEngine.py:132-152 | every pawn move starts on the pawn's square and is built from the current board |
| Generators.PawnAdvanceSnapshot | ChessEngine.py:132-134 | the pawn's forward steps start on its square and are built from the current board |
| Generators.PawnMoves | ChessEngine.py:118-152 | defines the pawn moves: the forward steps, then the capture towards column c - 1, then the one towards column c + 1, each allowed only along the pin |
| Generators.RayMoves | ChessEngine.py:170-184 | defines one direction's walk: an empty square is listed and passed, an enemy piece is listed and ends it, an ally piece or the board's edge ends it |
| Generators.SlideMoves | ChessEngine.py:169-184 | defines the direction loop: the walks of the directions from k on that the pin allows, in table order |
| Generators.RookMoves | ChessEngine.py:157-184 | defines the rook moves as the direction loop over the four orthogonal directions |
| Generators.BishopMoves | ChessEngine.py:189-216 | defines the bishop moves as the direction loop over the four diagonal directions |
| Generators.KnightMoves | ChessEngine.py:221-235 | defines the knight moves as the landings of all 16 shift pairs onto a square on the board not of the knight's colour, none when pinned |
| Generators.KingMoves | ChessEngine.py:247-269 | defines the king moves as the outer and inner offset loops, with the scan from the target as the attack test |
| Generators.KingRecordedAt | ChessEngine.py:257-267 | defines where the king generator leaves a recorded king square: the own king's on the origin once a target was tried, otherwise unchanged |
| Legal.PinsHarmless | ChessEngine.py:106-126 | a fold that removes pin entries as it goes produces the same moves as every square looking its pin up in the list as it was before the fold |
| Legal.PinsHarmlessStep | ChessEngine.py:110-113 | one square's generator sees the pin it would see in the original list, and leaves the lookups of all later squares unchanged |
| Legal.AllPossibleMoves | ChessEngine.py:106-114 | get_all_possible_moves returns, in row-major order, each ally piece's moves under its pin entry |
| Legal.MovesWithIff | ChessEngine.py:106-114 | a move is possible exactly when it is a move of the generator for some ally square at or after the current one |
| Legal.PieceMovesSnapshot | ChessEngine.py:110-113 | every move a generator produces starts on its own square, which holds an ally piece, and is built from the current board |
| Legal.MovesWithSnapshot | ChessEngine.py:106-114 | every possible move starts on an ally piece and is built from the current board |
| Legal.AllPossibleSnapshot | ChessEngine.py:106-114 | every move get_all_possible_moves returns starts on an ally piece and is built from the current board |
| Legal.PossibleKeepsKings | ChessEngine.py:264-267 | the fold never changes the other side's king square, and it keeps the own king square when that is where the king stands |
| Legal.SquareStepKeepsKings | ChessEngine.py:264-267 | one square's generator never changes the other side's king square, and it keeps the own king square when the king stands there |
| Legal.PossibleKingsOnBoard | ChessEngine.py:258-267 | the recorded king squares stay on the board through the fold |
| Legal.PieceMoves | ChessEngine.py:110-113 | defines the dispatch from an ally piece's kind to its generator; a queen runs the rook and then the bishop generator; an empty or enemy square gives nothing |
| Legal.SquareStep | ChessEngine.py:110-113 | defines one square of the fold: the generator's moves under the current pin list, its removal of the pin entry, and its effect on the king squares |
| Legal.PossibleFrom | ChessEngine.py:108-113 | defines the row-major fold from square (r, c) on |
| Legal.AllPossible | ChessEngine.py:106-114 | defines get_all_possible_moves: the fold from (0, 0) starting with an empty move list |
| Legal.MovesWith | ChessEngine.py:106-114 | defines the reference list: each square's generator moves from (r, c) on, under its pin in a fixed list |
| Legal.Filter | ChessEngine.py:92-95 | defines the pruning: a move stays, in order, when it moves a king or ends on a valid square |
| Legal.FilterConcat | ChessEngine.py:92-95 | pruning a concatenation prunes each part |
| Legal.FilterCount | ChessEngine.py:92-95 | pruning keeps every copy of a kept move and no copy of a dropped one |
| Legal.FilterIff | ChessEngine.py:92-95 | a move survives pruning exactly when it was in the list and is a king move or ends on a valid square |
| Legal.AlongInjective | ChessEngine.py:87 | along a unit direction, distinct step counts give distinct squares |
| Legal.RayUntilSquares | ChessEngine.py:86-90 | the valid squares' loop lists the squares from the king, step by step, up to and including the checking piece |
| Legal.DirectionsAreUnit | ChessEngine.py:285 | every scan direction is a non-zero step of at most one in each coordinate |
| Legal.ValidSquaresMeaning | ChessEngine.py:82-90 | for a knight check the valid squares are the knight's own square; otherwise they are the n squares from the king to the checking piece, in order |
| Legal.CheckSquares | ChessEngine.py:82-90 | for any check entry the scan can produce, the valid squares are the checking piece's square (knight) or the line from the king to the checking piece |
| Legal.RayUntil | ChessEngine.py:86-90 | defines the line squares from step i towards the checking piece, up to and including its square |
| Legal.ValidSquares | ChessEngine.py:82-90 | defines the valid squares: the knight's square for a knight check, otherwise the line from the king to the checking piece |
| Legal.ValidMovesScan | ChessEngine.py:68-75 | get_valid_moves stores the scan's checks, and the in-check flag holds exactly when there is one |
| Legal.NotInCheckAllMoves | ChessEngine.py:98-99 | with no check, the valid moves are every ally piece's moves under its pin entry |
| Legal.SingleCheckPrunes | ChessEngine.py:76-95 | under one check, a move occurs among the valid moves exactly as often as among the possible moves if it is kept, and not at all otherwise |
| Legal.SingleCheckBlocks | ChessEngine.py:91-95 | under one check, every valid move other than a king move captures the checking piece or ends on the line between king and checking piece |
| Legal.ValidSquareOnLine | ChessEngine.py:86-90 | every valid square is the checking piece's square or lies on the line from the king up to the checking piece |
| Legal.DoubleCheckKingOnly | ChessEngine.py:96-97 | under two or more checks, the valid moves are the king's moves, the stored pins are the scan's, and the king squares stay |
| Legal.ValidMovesSnapshot | ChessEngine.py:66-101 | every valid move is built from the current board and starts on an ally piece or on the recorded king square |
| Legal.ValidMovesKeepKings | ChessEngine.py:66-101 | get_valid_moves never moves the other side's recorded king, and leaves both recorded kings when the own king stands where it is recorded |
| Legal.ValidMoves | ChessEngine.py:66-101 | defines get_valid_moves: scan from the king of the side to move; with no check all possible moves; with one check those moves pruned; with more checks the king's moves |
| Engine.MakeMoveEffects | ChessEngine.py:37-48 | after make_move the end square holds the moved piece (a queen of its colour on promotion), the start square is empty, and every other square is unchanged |
| Engine.UndoRestoresBoard | ChessEngine.py:52-61 | undoing a move built from a board restores that board exactly |
| Engine.KingRoundTrip | ChessEngine.py:42-61 | undoing a move restores the recorded king square the move changed |
| Engine.MakeMoveKeepsPawnsOnBoard | ChessEngine.py:37-48 | after make_move no pawn stands on its own far rank, given none did before |
| Engine.MakeUndoRoundTrip | ChessEngine.py:37-61 | make_move then undo_move, on a move built from the current board whose moving king starts on its recorded square, leaves the board, the turn, the log, both king squares and the check fields as they were |
| Engine.BoardAfterMove | ChessEngine.py:37-48 | defines make_move's board: the moved piece on the end square, the start square emptied, and a queen of its colour on the end square on promotion |
| Engine.BoardAfterUndo | ChessEngine.py:52-61 | defines undo_move's board: the moved piece back on its start square and the captured cell back on its end square |
| Engine.GameState.constructor | ChessEngine.py:6-32 | the start position, white to move, an empty log, kings recorded on (7, 4) and (0, 4), no check and no pins |
| Engine.GameState.MakeMove | ChessEngine.py:37-48 | the board is the board after the move, the move is appended to the log, the turn passes, and a moving king's square is recorded |
| Engine.GameState.UndoMove | ChessEngine.py:52-61 | with an empty log nothing changes; otherwise the last move is popped, its squares are restored, the turn passes back, and a moving king's square is restored |
| Engine.GameState.CheckPinsChecks | ChessEngine.py:271-322 | the returned pins and checks are the scan from the recorded king of the side to move, and the flag holds exactly when a check was found |
| Engine.GameState.CastRays | ChessEngine.py:285-312 | the ray loop returns the pins and checks of all eight rays, in table order |
| Engine.GameState.KnightChecks | ChessEngine.py:313-321 | the knight loop appends the knight checks, in jump-table order |
| Engine.GameState.CastRay | ChessEngine.py:286-312 | one ray appends exactly that ray's pins and checks |
| Engine.GameState.RayStep | ChessEngine.py:289-312 | one step of a ray appends what it finds and hands the loop the rest of the walk, or stops it |
| Engine.GameState.CheckJump | ChessEngine.py:314-321 | one knight jump appends its own check, if any |
| Engine.GameState.TakePin | ChessEngine.py:121-126 | returns the last pin entry on the square, and removes it from the pin list unless asked to keep it |
| Engine.GameState.GetPawnMoves | ChessEngine.py:118-152 | appends the pawn moves under the pin found, and removes that pin entry |
| Engine.GameState.PawnSteps | ChessEngine.py:129-146 | appends the single and double forward steps |
| Engine.GameState.PawnCaptures | ChessEngine.py:135-152 | appends the diagonal capture on the given side |
| Engine.GameState.Slide | ChessEngine.py:169-184 | appends the moves of every direction the pin allows, in table order |
| Engine.GameState.SlideRay | ChessEngine.py:170-184 | appends one direction's walk |
| Engine.GameState.SlideStep | ChessEngine.py:171-184 | one step of a walk appends its move and hands the loop the rest of the walk, or stops it |
| Engine.GameState.GetRookMoves | ChessEngine.py:157-184 | appends the rook moves under the pin found, and removes that pin entry unless the piece is a queen |
| Engine.GameState.GetBishopMoves | ChessEngine.py:189-216 | appends the bishop moves under the pin found, and removes that pin entry unless the piece is a queen |
| Engine.GameState.GetQueenMoves | ChessEngine.py:240-242 | appends the rook moves, then the bishop moves under the pin the bishop lookup finds again |
| Engine.GameState.GetKnightMoves | ChessEngine.py:221-235 | appends the knight moves, none when pinned, and removes the pin entry |
| Engine.GameState.KnightLoop | ChessEngine.py:229-234 | appends the landings of all 16 shift pairs |
| Engine.GameState.KnightColumn | ChessEngine.py:231-234 | appends the landings of one x shift |
| Engine.GameState.KnightSquare | ChessEngine.py:232-234 | appends the landing of one shift pair |
| Engine.GameState.GetKingMoves | ChessEngine.py:247-269 | appends the king moves; the own king's recorded square becomes (r, c) exactly when some target was tried; the other king is not moved |
| Engine.GameState.KingLoop | ChessEngine.py:249-269 | the outer loop appends the moves of all offsets and records the king on (r, c) once a target was tried |
| Engine.GameState.KingLoopStep | ChessEngine.py:249-269 | one column of offsets keeps the loop's invariant |
| Engine.GameState.KingColumn | ChessEngine.py:250-269 | the inner loop appends one column of offsets |
| Engine.GameState.KingColumnStep | ChessEngine.py:250-269 | one offset keeps the inner loop's invariant |
| Engine.GameState.KingSquare | ChessEngine.py:251-269 | one offset appends its copies of the move, and the king is recorded on (r, c) exactly when a target was tried |
| Engine.GameState.Probe | ChessEngine.py:257-267 | the scan with the king recorded on the target reports check exactly when the target is attacked, and the own king's recorded square is left at (r, c) |
| Engine.GameState.GetAllPossibleMoves | ChessEngine.py:106-114 | returns the fold's moves and leaves its pins and king squares; every move starts on an ally piece and is built from the current board |
| Engine.GameState.GenerateAll | ChessEngine.py:108-113 | the row loop computes the fold |
| Engine.GameState.GenerateRow | ChessEngine.py:109-113 | one row advances the fold by that row |
| Engine.GameState.GenerateAt | ChessEngine.py:110-113 | one square advances the fold by that square |
| Engine.GameState.GetValidMoves | ChessEngine.py:66-101 | the returned moves and the new in-check flag, pins, checks and king squares are exactly those of ValidMoves on the state before the call |
| Engine.GameState.StoreScan | ChessEngine.py:68 | stores the scan's flag, pins and checks in the fields, and nothing else changes |
| Engine.GameState.Respond | ChessEngine.py:75-99 | with the scan stored, leaves the outcome of the case the checks select |
| Engine.GameState.RespondNotInCheck | ChessEngine.py:98-99 | not in check: the outcome of all possible moves |
| Engine.GameState.RespondToSingleCheck | ChessEngine.py:76-95 | one check: the outcome of the pruned moves |
| Engine.GameState.RespondToDoubleCheck | ChessEngine.py:96-97 | two or more checks: the outcome of the king's moves |
| Engine.GameState.KingLocation | ChessEngine.py:69-74 | the king square of the side to move |
| Engine.GameState.NotInCheckMoves | ChessEngine.py:99 | leaves the outcome of get_all_possible_moves |
| Engine.GameState.SingleCheckMoves | ChessEngine.py:77-95 | leaves the outcome of all possible moves pruned to the valid squares |
| Engine.GameState.DoubleCheckMoves | ChessEngine.py:97 | leaves the outcome of the king generator run on the king square |
| Engine.GameState.CheckLine | ChessEngine.py:82-90 | computes the valid squares of the check |
| Engine.GameState.Prune | ChessEngine.py:92-95 | the backward removal loop leaves exactly the kept moves, in order |
| Engine.GameState.PruneStep | ChessEngine.py:93-95 | one turn of the removal loop keeps the invariant "filtered prefix up to i, untouched rest" |
| Engine.RemoveFirstEqualAt | ChessEngine.py:95 | `list.remove` of an entry equal to the one at i drops the first `__eq__`-equal entry, which is at or before i |
| Engine.PruneRemoved | ChessEngine.py:93-95 | removing a dropped move at or before i keeps the removal loop's invariant |
| Engine.PruneKept | ChessEngine.py:93-94 | passing over a kept move keeps the removal loop's invariant |
| Engine.RemoveFirstEqual | ChessEngine.py:95 | defines `list.remove` as dropping the first entry that `__eq__` calls equal to the argument |

## Left out

- ChessMain.py, the pygame front end, is not part of this model (drawing, mouse input, the game loop).
- The `staleMate`, `enpassantPossible` and `isEnpassantMove` fields are left out. The engine only initialises them; no core logic reads them.
- The `moveFunctions` dictionary is replaced by a `match` on the piece kind. The dispatch is the same.
- Piece codes are a datatype, so malformed strings on the board cannot be represented.
- `__eq__` returns `None` for an argument that is not a `Move`. Dafny's types rule that call out.
- Object identity of `Move` instances is left out. Two moves are the same value when all their fields agree; `list.remove` is modelled through `__eq__`, as the engine calls it.
- Scanner.ScanSound: states where each entry lies and which piece stands there. It does not state that the squares between the king and the entry are clear; that is visible only in the definition of `ScanRay`.
- Engine.GameState.GetPawnMoves: requires the square ahead of the pawn to be on the board. This leaves out a white pawn on row 0, where Python's `board[-1]` wraps to row 7, and a black pawn on row 7, which raises an `IndexError`. PawnsOffFarRank carries this requirement up to GetAllPossibleMoves and GetValidMoves. No move of the engine puts a pawn there, because a pawn reaching that rank is promoted (Engine.MakeMoveKeepsPawnsOnBoard).
- Engine.GameState.MakeMove: requires both squares of the move on the board. On an off-board move, Python's negative indices would wrap and large ones would raise an `IndexError`.
- Engine.GameState.GetValidMoves: requires the recorded king squares on the board (part of `Valid()`), for the same reason.
- The check's scan inside get_king_moves is passed to the king loops as a ghost attack test. It is proved equal to the scan with the king recorded on the target (Engine.GameState.Probe). The pins and checks that inner scan returns are discarded, as in the engine.
- The loops of each engine method run in helper methods, one loop per method, with the loop body in a step method. The iteration order and every branch are those of the engine.
