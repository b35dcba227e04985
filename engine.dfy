/**
 * GameState: the board, the side to move, the move log, the recorded king
 * squares and the check state, with make_move and undo_move and the move
 * generation methods, each proved to compute the function that specifies it.
 */
module Engine {
  import opened Pieces
  import opened Moves
  import opened Scanner
  import opened Generators
  import opened Legal

  // Making and taking back a move, on values.

  /**
   * The board after make_move: the moved piece written to the end square,
   * the start square emptied, and a pawn reaching the far rank replaced by a
   * queen of its colour.
   */
  function BoardAfterMove(b: Board, m: Move): Board
    requires MoveOnBoard(m)
  {
    var b1 := SetCell(b, m.end.row, m.end.col, m.pieceMoved);
    var b2 := SetCell(b1, m.start.row, m.start.col, Empty);
    if m.IsPawnPromotion() then SetCell(b2, m.end.row, m.end.col, Piece(m.pieceMoved.color, Queen)) else b2
  }

  /** The board after undo_move takes back m: the moved piece back on the start square, the captured one on the end square. */
  function BoardAfterUndo(b: Board, m: Move): Board
    requires MoveOnBoard(m)
  {
    SetCell(SetCell(b, m.start.row, m.start.col, m.pieceMoved), m.end.row, m.end.col, m.pieceCaptured)
  }

  /** The recorded square of the king of colour c after make_move: the end square if that king moved. */
  function KingAfterMove(loc: Square, m: Move, c: Color): Square
  {
    if m.pieceMoved == Piece(c, King) then m.end else loc
  }

  /** The recorded square of the king of colour c after undo_move: the start square if that king moved. */
  function KingAfterUndo(loc: Square, m: Move, c: Color): Square
  {
    if m.pieceMoved == Piece(c, King) then m.start else loc
  }

  /**
   * make_move puts the moving piece (a queen for a promoting pawn) on the end
   * square, empties the start square, and touches no other square.
   */
  lemma MakeMoveEffects(b: Board, m: Move)
    requires MoveOnBoard(m)
    ensures BoardAfterMove(b, m)[m.end.row][m.end.col] ==
      if m.IsPawnPromotion() then Piece(m.pieceMoved.color, Queen)
      else if m.start == m.end then Empty
      else m.pieceMoved
    ensures m.start != m.end ==> BoardAfterMove(b, m)[m.start.row][m.start.col] == Empty
    ensures forall r, c :: OnBoard(r, c) && Square(r, c) != m.start && Square(r, c) != m.end ==>
      BoardAfterMove(b, m)[r][c] == b[r][c]
  {
  }

  /** Taking back a move made from a board restores that board. */
  lemma UndoRestoresBoard(b: Board, m: Move)
    requires Snapshot(m, b)
    ensures BoardAfterUndo(BoardAfterMove(b, m), m) == b
  {
    var b' := BoardAfterUndo(BoardAfterMove(b, m), m);
    forall r | 0 <= r < 8
      ensures b'[r] == b[r]
    {
      forall c | 0 <= c < 8
        ensures b'[r][c] == b[r][c]
      {
      }
    }
  }

  /** The king squares come back too, provided a moving king started from its recorded square. */
  lemma KingRoundTrip(loc: Square, m: Move, c: Color)
    requires m.pieceMoved == Piece(c, King) ==> loc == m.start
    ensures KingAfterUndo(KingAfterMove(loc, m, c), m, c) == loc
  {
  }

  /** No pawn stands on the last rank of its own direction of travel. */
  predicate NoPawnOnFarRank(b: Board)
  {
    PawnsOffFarRank(b, true) && PawnsOffFarRank(b, false)
  }

  /** Promotion keeps pawns off their far rank, so the pawn generators never step off the board. */
  lemma MakeMoveKeepsPawnsOnBoard(b: Board, m: Move)
    requires MoveOnBoard(m) && NoPawnOnFarRank(b)
    ensures NoPawnOnFarRank(BoardAfterMove(b, m))
  {
    var b' := BoardAfterMove(b, m);
    forall c | 0 <= c < 8
      ensures b'[0][c] != Piece(White, Pawn) && b'[7][c] != Piece(Black, Pawn)
    {
      assert b[0][c] != Piece(White, Pawn) && b[7][c] != Piece(Black, Pawn);
    }
  }

  class GameState {
    var board: Board
    var whiteToMove: bool
    var moveLog: seq<Move>
    var whiteKingLocation: Square
    var blackKingLocation: Square
    var inCheck: bool
    var pins: seq<Ray>
    var checks: seq<Ray>

    /** The recorded king squares and the logged moves lie on the board. */
    predicate Valid()
      reads this`whiteKingLocation, this`blackKingLocation, this`moveLog
    {
      SquareOnBoard(whiteKingLocation) && SquareOnBoard(blackKingLocation) && LogOnBoard()
    }

    predicate LogOnBoard()
      reads this`moveLog
    {
      forall m :: m in moveLog ==> MoveOnBoard(m)
    }

    /** The start position, white to move, nothing logged, no check, no pins. */
    constructor()
      ensures Valid()
      ensures board == InitialBoard() && whiteToMove && moveLog == []
      ensures whiteKingLocation == Square(7, 4) && blackKingLocation == Square(0, 4)
      ensures !inCheck && pins == [] && checks == []
    {
      board := InitialBoard();
      whiteToMove := true;
      moveLog := [];
      whiteKingLocation := Square(7, 4);
      blackKingLocation := Square(0, 4);
      inCheck := false;
      pins := [];
      checks := [];
    }

    /** make_move: plays m, logs it, passes the turn and follows a moving king. */
    method MakeMove(m: Move)
      requires Valid() && MoveOnBoard(m)
      modifies this`board, this`moveLog, this`whiteToMove, this`whiteKingLocation, this`blackKingLocation
      ensures Valid()
      ensures board == BoardAfterMove(old(board), m)
      ensures moveLog == old(moveLog) + [m]
      ensures whiteToMove == !old(whiteToMove)
      ensures whiteKingLocation == KingAfterMove(old(whiteKingLocation), m, White)
      ensures blackKingLocation == KingAfterMove(old(blackKingLocation), m, Black)
    {
      board := SetCell(board, m.end.row, m.end.col, m.pieceMoved);
      board := SetCell(board, m.start.row, m.start.col, Empty);
      moveLog := moveLog + [m];
      whiteToMove := !whiteToMove;
      if m.pieceMoved == Piece(White, King) {
        whiteKingLocation := m.end;
      } else if m.pieceMoved == Piece(Black, King) {
        blackKingLocation := m.end;
      }
      if m.IsPawnPromotion() {
        board := SetCell(board, m.end.row, m.end.col, Piece(m.pieceMoved.color, Queen));
      }
    }

    /** undo_move: takes back the last logged move; with an empty log it does nothing. */
    method UndoMove()
      requires Valid()
      modifies this`board, this`moveLog, this`whiteToMove, this`whiteKingLocation, this`blackKingLocation
      ensures Valid()
      ensures old(moveLog) == [] ==>
        board == old(board) && moveLog == [] && whiteToMove == old(whiteToMove) &&
        whiteKingLocation == old(whiteKingLocation) && blackKingLocation == old(blackKingLocation)
      ensures old(moveLog) != [] ==>
        var m := old(moveLog)[|old(moveLog)| - 1];
        moveLog == old(moveLog)[..|old(moveLog)| - 1] &&
        board == BoardAfterUndo(old(board), m) &&
        whiteToMove == !old(whiteToMove) &&
        whiteKingLocation == KingAfterUndo(old(whiteKingLocation), m, White) &&
        blackKingLocation == KingAfterUndo(old(blackKingLocation), m, Black)
    {
      if |moveLog| != 0 {
        var m := moveLog[|moveLog| - 1];
        assert m in moveLog;
        moveLog := moveLog[..|moveLog| - 1];
        board := SetCell(board, m.start.row, m.start.col, m.pieceMoved);
        board := SetCell(board, m.end.row, m.end.col, m.pieceCaptured);
        whiteToMove := !whiteToMove;
        if m.pieceMoved == Piece(White, King) {
          whiteKingLocation := m.start;
        } else if m.pieceMoved == Piece(Black, King) {
          blackKingLocation := m.start;
        }
      }
    }

    /**
     * check_pins_checks: casts the rays of the direction table from the king
     * of the side to move, then the knight jumps; reports the scan.
     */
    method CheckPinsChecks() returns (inCheckNow: bool, pinsFound: seq<Ray>, checksFound: seq<Ray>)
      ensures Reports(board, whiteToMove, KingOf(whiteToMove, whiteKingLocation, blackKingLocation), pinsFound, checksFound)
      ensures inCheckNow <==> checksFound != []
    {
      var start := if whiteToMove then whiteKingLocation else blackKingLocation;
      inCheckNow, pinsFound, checksFound := CastRays(start);
      inCheckNow, checksFound := KnightChecks(start, inCheckNow, checksFound);
    }

    /** The direction loop of check_pins_checks. */
    method CastRays(start: Square) returns (inCheckNow: bool, pinsFound: seq<Ray>, checksFound: seq<Ray>)
      ensures Found(pinsFound, checksFound) == RaysFrom(board, AllyOf(whiteToMove), start, 0)
      ensures inCheckNow <==> checksFound != []
    {
      pinsFound, checksFound, inCheckNow := [], [], false;
      ghost var rays := RaysFrom(board, AllyOf(whiteToMove), start, 0);
      var j := 0;
      while j < 8
        invariant 0 <= j <= 8
        invariant Join(Found(pinsFound, checksFound), RaysFrom(board, AllyOf(whiteToMove), start, j)) == rays
        invariant inCheckNow <==> checksFound != []
      {
        ghost var before := Found(pinsFound, checksFound);
        inCheckNow, pinsFound, checksFound := CastRay(start, j, inCheckNow, pinsFound, checksFound);
        JoinAssoc(before, ScanRay(board, AllyOf(whiteToMove), start, j, 1, None), RaysFrom(board, AllyOf(whiteToMove), start, j + 1));
        j := j + 1;
      }
      JoinNone(Found(pinsFound, checksFound));
    }

    /** The knight loop of check_pins_checks, adding to the checks found along the rays. */
    method KnightChecks(start: Square, inCheckIn: bool, checksIn: seq<Ray>) returns (inCheckNow: bool, checksFound: seq<Ray>)
      requires inCheckIn <==> checksIn != []
      ensures checksFound == checksIn + KnightChecksFrom(board, AllyOf(whiteToMove), start, 0)
      ensures inCheckNow <==> checksFound != []
    {
      inCheckNow, checksFound := inCheckIn, checksIn;
      ghost var target := checksIn + KnightChecksFrom(board, AllyOf(whiteToMove), start, 0);
      var k := 0;
      while k < 8
        invariant 0 <= k <= 8
        invariant checksFound + KnightChecksFrom(board, AllyOf(whiteToMove), start, k) == target
        invariant inCheckNow <==> checksFound != []
      {
        inCheckNow, checksFound := CheckJump(start, k, inCheckNow, checksFound);
        k := k + 1;
      }
      assert checksFound + [] == checksFound;
    }

    /**
     * One ray of check_pins_checks: the walk from the king square along
     * direction j, adding the pins and checks it finds to those given.
     */
    method CastRay(start: Square, j: int, inCheckIn: bool, pinsIn: seq<Ray>, checksIn: seq<Ray>)
      returns (inCheckNow: bool, pinsFound: seq<Ray>, checksFound: seq<Ray>)
      requires 0 <= j < 8 && (inCheckIn <==> checksIn != [])
      ensures Found(pinsFound, checksFound) ==
        Join(Found(pinsIn, checksIn), ScanRay(board, AllyOf(whiteToMove), start, j, 1, None))
      ensures inCheckNow <==> checksFound != []
    {
      inCheckNow, pinsFound, checksFound := inCheckIn, pinsIn, checksIn;
      ghost var target := Join(Found(pinsIn, checksIn), ScanRay(board, AllyOf(whiteToMove), start, j, 1, None));
      var possiblePin: Option<Ray> := None;
      var i := 1;
      while i < 8
        invariant 1 <= i <= 8
        invariant Join(Found(pinsFound, checksFound), ScanRay(board, AllyOf(whiteToMove), start, j, i, possiblePin)) == target
        invariant inCheckNow <==> checksFound != []
      {
        var stop;
        stop, inCheckNow, possiblePin, pinsFound, checksFound :=
          RayStep(start, j, i, possiblePin, inCheckNow, pinsFound, checksFound);
        if stop {
          break;
        }
        i := i + 1;
      }
      JoinNone(Found(pinsFound, checksFound));
    }

    /**
     * The body of the ray loop of check_pins_checks at step i; `stop` says
     * the loop breaks there.
     */
    method RayStep(start: Square, j: int, i: int, pinIn: Option<Ray>, inCheckIn: bool, pinsIn: seq<Ray>, checksIn: seq<Ray>)
      returns (stop: bool, inCheckNow: bool, possiblePin: Option<Ray>, pinsFound: seq<Ray>, checksFound: seq<Ray>)
      requires 0 <= j < 8 && 1 <= i < 8 && (inCheckIn <==> checksIn != [])
      ensures Join(Found(pinsFound, checksFound),
                   if stop then Found([], []) else ScanRay(board, AllyOf(whiteToMove), start, j, i + 1, possiblePin)) ==
              Join(Found(pinsIn, checksIn), ScanRay(board, AllyOf(whiteToMove), start, j, i, pinIn))
      ensures inCheckNow <==> checksFound != []
    {
      var allyColor := AllyOf(whiteToMove);
      var enemyColor := Enemy(allyColor);
      stop, inCheckNow, possiblePin, pinsFound, checksFound := false, inCheckIn, pinIn, pinsIn, checksIn;
      var d := Directions[j];
      var e := Along(start, d.0, d.1, i);
      if 0 <= e.row <= 7 && 0 <= e.col <= 7 {
        var endPiece := board[e.row][e.col];
        if HasColor(endPiece, allyColor) && endPiece.kind != King {
          if possiblePin == None {
            possiblePin := Some(Ray(e.row, e.col, d.0, d.1));
          } else {
            stop := true;
            JoinNone(Found(pinsIn, checksIn));
          }
        } else if HasColor(endPiece, enemyColor) {
          if CanAttack(j, i, endPiece.kind, enemyColor) {
            if possiblePin == None {
              inCheckNow := true;
              checksFound := checksFound + [Ray(e.row, e.col, d.0, d.1)];
              stop := true;
              JoinNone(Found(pinsFound, checksFound));
              assert pinsIn + [] == pinsIn;
            } else {
              JoinAssoc(Found(pinsIn, checksIn), Found([possiblePin.value], []),
                        ScanRay(board, allyColor, start, j, i + 1, possiblePin));
              assert checksIn + [] == checksIn;
              pinsFound := pinsFound + [possiblePin.value];
            }
          }
        }
      } else {
        stop := true;
        JoinNone(Found(pinsIn, checksIn));
      }
    }

    /** One jump of the knight loop of check_pins_checks. */
    method CheckJump(start: Square, k: int, inCheckIn: bool, checksIn: seq<Ray>) returns (inCheckNow: bool, checksFound: seq<Ray>)
      requires 0 <= k < 8 && (inCheckIn <==> checksIn != [])
      ensures checksFound + KnightChecksFrom(board, AllyOf(whiteToMove), start, k + 1) ==
        checksIn + KnightChecksFrom(board, AllyOf(whiteToMove), start, k)
      ensures inCheckNow <==> checksFound != []
    {
      var enemyColor := Enemy(AllyOf(whiteToMove));
      inCheckNow, checksFound := inCheckIn, checksIn;
      var m := KnightJumps[k];
      var endRow, endCol := start.row + m.0, start.col + m.1;
      if 0 <= endRow < 8 && 0 <= endCol < 8 {
        var endPiece := board[endRow][endCol];
        if HasColor(endPiece, enemyColor) && endPiece.kind == Knight {
          inCheckNow := true;
          checksFound := checksFound + [Ray(endRow, endCol, m.0, m.1)];
        }
      }
      assert checksFound == checksIn + KnightCheckAt(board, AllyOf(whiteToMove), start, k);
      ConcatAssoc(checksIn, KnightCheckAt(board, AllyOf(whiteToMove), start, k),
                  KnightChecksFrom(board, AllyOf(whiteToMove), start, k + 1));
    }

    /**
     * The backward search of the pin list that opens the pawn, rook, bishop
     * and knight generators: the last entry for (r, c), removed from the
     * list unless keep holds.
     */
    method TakePin(r: int, c: int, keep: bool) returns (pin: Option<Ray>)
      modifies this`pins
      ensures pin == FindPin(old(pins), r, c)
      ensures pins == ConsumePin(old(pins), r, c, keep)
    {
      pin := None;
      var i := |pins| - 1;
      while i >= 0
        invariant -1 <= i < |pins|
        invariant pins == old(pins)
        invariant FindPin(pins[i + 1..], r, c) == None
      {
        assert pins[i..][1..] == pins[i + 1..];
        if pins[i].row == r && pins[i].col == c {
          pin := Some(pins[i]);
          assert pins == pins[..i] + pins[i..];
          FindPinAppend(pins[..i], pins[i..], r, c);
          if !keep {
            pins := RemoveFirst(pins, pins[i]);
          }
          return;
        }
        i := i - 1;
      }
      assert pins[0..] == pins;
    }

    /** get_pawn_moves: appends the pawn's moves to `moves`, consuming its pin entry. */
    method GetPawnMoves(r: int, c: int, moves: seq<Move>) returns (res: seq<Move>)
      requires OnBoard(r, c) && OnBoard(r + Forward(whiteToMove), c)
      modifies this`pins
      ensures res == moves + PawnMoves(board, whiteToMove, Square(r, c), PinDirection(FindPin(old(pins), r, c)))
      ensures pins == ConsumePin(old(pins), r, c, false)
    {
      var pin := TakePin(r, c, false);
      var piecePinned := pin.Some?;
      var pinDirection := if pin.Some? then (pin.value.dRow, pin.value.dCol) else (0, 0);
      ghost var from, dir := Square(r, c), PinDirection(pin);
      assert dir == if piecePinned then Some(pinDirection) else None;
      res := PawnSteps(r, c, piecePinned, pinDirection, moves);
      res := PawnCaptures(r, c, -1, piecePinned, pinDirection, res);
      res := PawnCaptures(r, c, 1, piecePinned, pinDirection, res);
      ConcatAssoc(moves, PawnAdvance(board, whiteToMove, from, dir) + PawnTake(board, whiteToMove, from, dir, -1),
                  PawnTake(board, whiteToMove, from, dir, 1));
      ConcatAssoc(moves, PawnAdvance(board, whiteToMove, from, dir), PawnTake(board, whiteToMove, from, dir, -1));
    }

    /** The forward steps of get_pawn_moves, written once for both colours. */
    method PawnSteps(r: int, c: int, piecePinned: bool, pinDirection: (int, int), moves: seq<Move>) returns (res: seq<Move>)
      requires OnBoard(r, c) && OnBoard(r + Forward(whiteToMove), c)
      ensures res == moves + PawnAdvance(board, whiteToMove, Square(r, c), if piecePinned then Some(pinDirection) else None)
    {
      var dr := if whiteToMove then -1 else 1;
      var home := if whiteToMove then 6 else 1;
      res := moves;
      if board[r + dr][c] == Empty {
        if !piecePinned || pinDirection == (dr, 0) {
          res := res + [NewMove(Square(r, c), Square(r + dr, c), board)];
          if r == home && board[r + 2 * dr][c] == Empty {
            res := res + [NewMove(Square(r, c), Square(r + 2 * dr, c), board)];
          }
        }
      }
    }

    /** One diagonal capture of get_pawn_moves, towards column c + dc, written once for both colours. */
    method PawnCaptures(r: int, c: int, dc: int, piecePinned: bool, pinDirection: (int, int), moves: seq<Move>)
      returns (res: seq<Move>)
      requires OnBoard(r, c) && OnBoard(r + Forward(whiteToMove), c)
      ensures res == moves + PawnTake(board, whiteToMove, Square(r, c), if piecePinned then Some(pinDirection) else None, dc)
    {
      var dr := if whiteToMove then -1 else 1;
      var enemyColor := if whiteToMove then Black else White;
      res := moves;
      if 0 <= c + dc <= 7 && HasColor(board[r + dr][c + dc], enemyColor) {
        if !piecePinned || pinDirection == (dr, dc) {
          res := res + [NewMove(Square(r, c), Square(r + dr, c + dc), board)];
        }
      }
    }

    /** The direction loop shared by get_rook_moves and get_bishop_moves. */
    method Slide(r: int, c: int, directions: seq<(int, int)>, pinDirection: Option<(int, int)>, moves: seq<Move>)
      returns (res: seq<Move>)
      requires OnBoard(r, c)
      ensures res == moves + SlideMoves(board, Square(r, c), directions, 0, Enemy(AllyOf(whiteToMove)), pinDirection)
    {
      ghost var from, enemyColor := Square(r, c), Enemy(AllyOf(whiteToMove));
      ghost var target := moves + SlideMoves(board, from, directions, 0, enemyColor, pinDirection);
      res := moves;
      var k := 0;
      while k < |directions|
        invariant 0 <= k <= |directions|
        invariant res + SlideMoves(board, from, directions, k, enemyColor, pinDirection) == target
      {
        ghost var before := res;
        res := SlideRay(r, c, directions[k], pinDirection, res);
        ConcatAssoc(before, Walk(board, from, directions[k], enemyColor, pinDirection, 1),
                    SlideMoves(board, from, directions, k + 1, enemyColor, pinDirection));
        k := k + 1;
      }
      assert res + [] == res;
    }

    /** The inner loop of the rook and bishop generators: the walk from (r, c) along d, if the pin allows it. */
    method SlideRay(r: int, c: int, d: (int, int), pinDirection: Option<(int, int)>, moves: seq<Move>) returns (res: seq<Move>)
      requires OnBoard(r, c)
      ensures res == moves + Walk(board, Square(r, c), d, Enemy(AllyOf(whiteToMove)), pinDirection, 1)
    {
      ghost var from, enemyColor := Square(r, c), Enemy(AllyOf(whiteToMove));
      ghost var target := moves + Walk(board, from, d, enemyColor, pinDirection, 1);
      res := moves;
      var i := 1;
      while i < 8
        invariant 1 <= i <= 8
        invariant res + Walk(board, from, d, enemyColor, pinDirection, i) == target
      {
        var stop;
        stop, res := SlideStep(r, c, d, i, pinDirection, res);
        if stop {
          break;
        }
        i := i + 1;
      }
      assert res + [] == res;
    }

    /** The body of the inner rook and bishop loop at step i; `stop` says the loop breaks there. */
    method SlideStep(r: int, c: int, d: (int, int), i: int, pinDirection: Option<(int, int)>, moves: seq<Move>)
      returns (stop: bool, res: seq<Move>)
      requires OnBoard(r, c) && 1 <= i < 8
      ensures res + (if stop then [] else Walk(board, Square(r, c), d, Enemy(AllyOf(whiteToMove)), pinDirection, i + 1)) ==
        moves + Walk(board, Square(r, c), d, Enemy(AllyOf(whiteToMove)), pinDirection, i)
    {
      var enemyColor := Enemy(AllyOf(whiteToMove));
      var from := Square(r, c);
      stop, res := false, moves;
      var e := Along(from, d.0, d.1, i);
      if 0 <= e.row < 8 && 0 <= e.col < 8 {
        if pinDirection.None? || pinDirection.value == d || pinDirection.value == (-d.0, -d.1) {
          var endPiece := board[e.row][e.col];
          if endPiece == Empty {
            ConcatAssoc(moves, [NewMove(from, e, board)], RayMoves(board, from, d, enemyColor, i + 1));
            res := res + [NewMove(from, e, board)];
          } else if HasColor(endPiece, enemyColor) {
            res := res + [NewMove(from, e, board)];
            stop := true;
          } else {
            stop := true;
          }
        }
      } else {
        stop := true;
      }
    }

    /** Whether the generators keep the pin entry of (r, c): they do when the piece there is a queen. */
    function KeepsPin(r: int, c: int): bool
      requires OnBoard(r, c)
      reads this
    {
      board[r][c].Piece? && board[r][c].kind == Queen
    }

    /** get_rook_moves. */
    method GetRookMoves(r: int, c: int, moves: seq<Move>) returns (res: seq<Move>)
      requires OnBoard(r, c)
      modifies this`pins
      ensures res == moves + RookMoves(board, whiteToMove, Square(r, c), PinDirection(FindPin(old(pins), r, c)))
      ensures pins == ConsumePin(old(pins), r, c, KeepsPin(r, c))
    {
      var pin := TakePin(r, c, KeepsPin(r, c));
      res := Slide(r, c, RookDirections, PinDirection(pin), moves);
    }

    /** get_bishop_moves. */
    method GetBishopMoves(r: int, c: int, moves: seq<Move>) returns (res: seq<Move>)
      requires OnBoard(r, c)
      modifies this`pins
      ensures res == moves + BishopMoves(board, whiteToMove, Square(r, c), PinDirection(FindPin(old(pins), r, c)))
      ensures pins == ConsumePin(old(pins), r, c, KeepsPin(r, c))
    {
      var pin := TakePin(r, c, KeepsPin(r, c));
      res := Slide(r, c, BishopDirections, PinDirection(pin), moves);
    }

    /** get_queen_moves: the rook moves, then the bishop moves; a queen keeps its pin entry for both. */
    method GetQueenMoves(r: int, c: int, moves: seq<Move>) returns (res: seq<Move>)
      requires OnBoard(r, c)
      modifies this`pins
      ensures var afterRook := ConsumePin(old(pins), r, c, KeepsPin(r, c));
        res == moves + RookMoves(board, whiteToMove, Square(r, c), PinDirection(FindPin(old(pins), r, c)))
                     + BishopMoves(board, whiteToMove, Square(r, c), PinDirection(FindPin(afterRook, r, c))) &&
        pins == ConsumePin(afterRook, r, c, KeepsPin(r, c))
    {
      res := GetRookMoves(r, c, moves);
      res := GetBishopMoves(r, c, res);
    }

    /** get_knight_moves: every shift pair, nothing when pinned. */
    method GetKnightMoves(r: int, c: int, moves: seq<Move>) returns (res: seq<Move>)
      requires OnBoard(r, c)
      modifies this`pins
      ensures res == moves + KnightMoves(board, Square(r, c), FindPin(old(pins), r, c).Some?)
      ensures pins == ConsumePin(old(pins), r, c, KeepsPin(r, c))
    {
      var pin := TakePin(r, c, KeepsPin(r, c));
      res := KnightLoop(r, c, pin.Some?, moves);
    }

    /** The outer loop of get_knight_moves: the column shifts. */
    method KnightLoop(r: int, c: int, piecePinned: bool, moves: seq<Move>) returns (res: seq<Move>)
      requires OnBoard(r, c)
      ensures res == moves + KnightMoves(board, Square(r, c), piecePinned)
    {
      ghost var target := moves + KnightFrom(board, Square(r, c), piecePinned, 0, 0);
      res := moves;
      var xi := 0;
      while xi < 4
        invariant 0 <= xi <= 4
        invariant res + KnightFrom(board, Square(r, c), piecePinned, xi, 0) == target
      {
        res := KnightColumn(r, c, xi, piecePinned, res);
        xi := xi + 1;
      }
      assert res + [] == res;
    }

    /** The inner loop of get_knight_moves: the row shifts for the column shift KnightShifts[xi]. */
    method KnightColumn(r: int, c: int, xi: int, piecePinned: bool, moves: seq<Move>) returns (res: seq<Move>)
      requires OnBoard(r, c) && 0 <= xi < 4
      ensures res + KnightFrom(board, Square(r, c), piecePinned, xi + 1, 0) ==
        moves + KnightFrom(board, Square(r, c), piecePinned, xi, 0)
    {
      ghost var target := moves + KnightFrom(board, Square(r, c), piecePinned, xi, 0);
      res := moves;
      var yi := 0;
      while yi < 4
        invariant 0 <= yi <= 4
        invariant res + KnightFrom(board, Square(r, c), piecePinned, xi, yi) == target
      {
        ghost var before := res;
        res := KnightSquare(r, c, xi, yi, piecePinned, res);
        ConcatAssoc(before, KnightAt(board, Square(r, c), piecePinned, xi, yi), KnightFrom(board, Square(r, c), piecePinned, xi, yi + 1));
        yi := yi + 1;
      }
    }

    /** The body of the knight loops for one shift pair. */
    method KnightSquare(r: int, c: int, xi: int, yi: int, piecePinned: bool, moves: seq<Move>) returns (res: seq<Move>)
      requires OnBoard(r, c) && 0 <= xi < 4 && 0 <= yi < 4
      ensures res == moves + KnightAt(board, Square(r, c), piecePinned, xi, yi)
    {
      var x, y := KnightShifts[xi], KnightShifts[yi];
      var from := Square(r, c);
      res := moves;
      if 0 <= r + y < 8 && 0 <= c + x < 8 && !piecePinned {
        if board[r + y][c + x] == Empty || !SameColor(board[r + y][c + x], board[r][c]) {
          res := res + [NewMove(from, Square(r + y, c + x), board)];
        }
      }
    }

    /**
     * get_king_moves: for each adjacent square on the board not holding an
     * ally piece, the scan with the king recorded there; a move when it finds
     * no check, then the recorded square set to (r, c) and the move again.
     */
    method GetKingMoves(r: int, c: int, moves: seq<Move>) returns (res: seq<Move>)
      requires OnBoard(r, c)
      modifies this`whiteKingLocation, this`blackKingLocation
      ensures res == moves + KingMoves(board, whiteToMove, Square(r, c))
      ensures whiteKingLocation ==
        KingRecordedAt(true, whiteToMove, KingMoves(board, whiteToMove, Square(r, c)) != [], Square(r, c), old(whiteKingLocation))
      ensures blackKingLocation ==
        KingRecordedAt(false, whiteToMove, KingMoves(board, whiteToMove, Square(r, c)) != [], Square(r, c), old(blackKingLocation))
      ensures whiteKingLocation in {old(whiteKingLocation), Square(r, c)}
      ensures blackKingLocation in {old(blackKingLocation), Square(r, c)}
      ensures old(Valid()) ==> Valid()
    {
      AttackTestIsScan(board, whiteToMove);
      res := KingLoop(r, c, KingAttackTest(board, whiteToMove), moves);
      assert |res| > |moves| <==> KingMoves(board, whiteToMove, Square(r, c)) != [];
    }

    /**
     * The king squares the king loops leave: the king of the side to move is
     * recorded at `from` once a target square has been tried, the other king
     * is never moved.
     */
    ghost predicate KingRecorded(tried: bool, from: Square, whiteKing: Square, blackKing: Square)
      reads this`whiteToMove, this`whiteKingLocation, this`blackKingLocation
    {
      whiteKingLocation == (if whiteToMove && tried then from else whiteKing) &&
      blackKingLocation == (if !whiteToMove && tried then from else blackKing)
    }

    /**
     * The outer loop of get_king_moves, over the column offsets, with the
     * scan of check_pins_checks standing behind `attacked`.
     */
    method KingLoop(r: int, c: int, ghost attacked: Square -> bool, moves: seq<Move>) returns (res: seq<Move>)
      requires OnBoard(r, c) && IsAttackTest(board, whiteToMove, attacked)
      modifies this`whiteKingLocation, this`blackKingLocation
      ensures res == moves + KingFrom(board, whiteToMove, Square(r, c), attacked, -1, -1)
      ensures KingRecorded(|res| > |moves|, Square(r, c), old(whiteKingLocation), old(blackKingLocation))
    {
      ghost var target := moves + KingFrom(board, whiteToMove, Square(r, c), attacked, -1, -1);
      ghost var touched := false;
      res := moves;
      var x := -1;
      while x < 2
        invariant -1 <= x <= 2
        invariant res + KingFrom(board, whiteToMove, Square(r, c), attacked, x, -1) == target
        invariant touched <==> |res| > |moves|
        invariant |res| >= |moves|
        invariant KingRecorded(touched, Square(r, c), old(whiteKingLocation), old(blackKingLocation))
      {
        res, touched := KingLoopStep(r, c, x, attacked, moves, res, touched, target,
                                     old(whiteKingLocation), old(blackKingLocation));
        x := x + 1;
      }
      ConcatEmpty(res);
    }

    /** One turn of the outer king loop, from the loop state at column offset x to the one at x + 1. */
    method KingLoopStep(r: int, c: int, x: int, ghost attacked: Square -> bool, ghost moves: seq<Move>,
                        acc: seq<Move>, ghost touched: bool, ghost target: seq<Move>,
                        ghost whiteKing: Square, ghost blackKing: Square)
      returns (res: seq<Move>, ghost touched': bool)
      requires OnBoard(r, c) && -1 <= x < 2 && IsAttackTest(board, whiteToMove, attacked)
      requires acc + KingFrom(board, whiteToMove, Square(r, c), attacked, x, -1) == target
      requires (touched <==> |acc| > |moves|) && |acc| >= |moves|
      requires KingRecorded(touched, Square(r, c), whiteKing, blackKing)
      modifies this`whiteKingLocation, this`blackKingLocation
      ensures res + KingFrom(board, whiteToMove, Square(r, c), attacked, x + 1, -1) == target
      ensures (touched' <==> |res| > |moves|) && |res| >= |moves|
      ensures KingRecorded(touched', Square(r, c), whiteKing, blackKing)
    {
      res := KingColumn(r, c, x, attacked, acc);
      touched' := touched || |res| > |acc|;
    }

    /** The inner loop of get_king_moves: the row offsets for column offset x. */
    method KingColumn(r: int, c: int, x: int, ghost attacked: Square -> bool, moves: seq<Move>) returns (res: seq<Move>)
      requires OnBoard(r, c) && -1 <= x < 2 && IsAttackTest(board, whiteToMove, attacked)
      modifies this`whiteKingLocation, this`blackKingLocation
      ensures res + KingFrom(board, whiteToMove, Square(r, c), attacked, x + 1, -1) ==
        moves + KingFrom(board, whiteToMove, Square(r, c), attacked, x, -1)
      ensures |res| >= |moves|
      ensures KingRecorded(|res| > |moves|, Square(r, c), old(whiteKingLocation), old(blackKingLocation))
    {
      ghost var target := moves + KingFrom(board, whiteToMove, Square(r, c), attacked, x, -1);
      ghost var touched := false;
      res := moves;
      var y := -1;
      while y < 2
        invariant -1 <= y <= 2
        invariant res + KingFrom(board, whiteToMove, Square(r, c), attacked, x, y) == target
        invariant touched <==> |res| > |moves|
        invariant |res| >= |moves|
        invariant KingRecorded(touched, Square(r, c), old(whiteKingLocation), old(blackKingLocation))
      {
        res, touched := KingColumnStep(r, c, x, y, attacked, moves, res, touched, target,
                                       old(whiteKingLocation), old(blackKingLocation));
        y := y + 1;
      }
    }

    /** One turn of the inner king loop, from the loop state at row offset y to the one at y + 1. */
    method KingColumnStep(r: int, c: int, x: int, y: int, ghost attacked: Square -> bool, ghost moves: seq<Move>,
                          acc: seq<Move>, ghost touched: bool, ghost target: seq<Move>,
                          ghost whiteKing: Square, ghost blackKing: Square)
      returns (res: seq<Move>, ghost touched': bool)
      requires OnBoard(r, c) && -1 <= x < 2 && -1 <= y < 2 && IsAttackTest(board, whiteToMove, attacked)
      requires acc + KingFrom(board, whiteToMove, Square(r, c), attacked, x, y) == target
      requires (touched <==> |acc| > |moves|) && |acc| >= |moves|
      requires KingRecorded(touched, Square(r, c), whiteKing, blackKing)
      modifies this`whiteKingLocation, this`blackKingLocation
      ensures res + KingFrom(board, whiteToMove, Square(r, c), attacked, x, y + 1) == target
      ensures (touched' <==> |res| > |moves|) && |res| >= |moves|
      ensures KingRecorded(touched', Square(r, c), whiteKing, blackKing)
    {
      res := KingSquare(r, c, x, y, attacked, acc);
      touched' := touched || |res| > |acc|;
      ConcatAssoc(acc, KingAt(board, whiteToMove, Square(r, c), attacked, x, y),
                  KingFrom(board, whiteToMove, Square(r, c), attacked, x, y + 1));
    }

    /** The body of the king loops for the offset (x, y). */
    method KingSquare(r: int, c: int, x: int, y: int, ghost attacked: Square -> bool, moves: seq<Move>) returns (res: seq<Move>)
      requires OnBoard(r, c) && -1 <= x < 2 && -1 <= y < 2 && IsAttackTest(board, whiteToMove, attacked)
      modifies this`whiteKingLocation, this`blackKingLocation
      ensures res == moves + KingAt(board, whiteToMove, Square(r, c), attacked, x, y)
      ensures KingRecorded(|res| > |moves|, Square(r, c), old(whiteKingLocation), old(blackKingLocation))
    {
      var allyColor := AllyOf(whiteToMove);
      var from := Square(r, c);
      res := moves;
      if 0 <= r + y < 8 && 0 <= c + x < 8 {
        var endRow, endCol := r + y, c + x;
        var endPiece := board[endRow][endCol];
        if !HasColor(endPiece, allyColor) {
          var inCheckThere := Probe(r, c, endRow, endCol, attacked);
          ghost var m := NewMove(from, Square(endRow, endCol), board);
          ghost var first: seq<Move> := if !inCheckThere then [m] else [];
          if !inCheckThere {
            res := res + [NewMove(from, Square(endRow, endCol), board)];
          }
          res := res + [NewMove(from, Square(r + y, c + x), board)];
          assert res == moves + first + [m];
          ConcatAssoc(moves, first, [m]);
        } else {
          assert moves + [] == moves;
        }
      } else {
        assert moves + [] == moves;
      }
    }

    /**
     * The scan get_king_moves runs for a target square: the king of the side
     * to move recorded on (endRow, endCol), check_pins_checks, then the
     * recorded square set to (r, c).
     */
    method Probe(r: int, c: int, endRow: int, endCol: int, ghost attacked: Square -> bool) returns (inCheckThere: bool)
      requires OnBoard(r, c) && OnBoard(endRow, endCol) && IsAttackTest(board, whiteToMove, attacked)
      modifies this`whiteKingLocation, this`blackKingLocation
      ensures inCheckThere == attacked(Square(endRow, endCol))
      ensures whiteKingLocation == if whiteToMove then Square(r, c) else old(whiteKingLocation)
      ensures blackKingLocation == if !whiteToMove then Square(r, c) else old(blackKingLocation)
    {
      if whiteToMove {
        whiteKingLocation := Square(endRow, endCol);
      } else {
        blackKingLocation := Square(endRow, endCol);
      }
      var pinsThere, checksThere;
      inCheckThere, pinsThere, checksThere := CheckPinsChecks();
      assert inCheckThere == Attacked(board, whiteToMove, Square(endRow, endCol));
      if whiteToMove {
        whiteKingLocation := Square(r, c);
      } else {
        blackKingLocation := Square(r, c);
      }
    }

    /**
     * get_all_possible_moves: every square in row-major order; a piece of the
     * side to move runs the generator for its kind.
     */
    method GetAllPossibleMoves() returns (moves: seq<Move>)
      requires PawnsOffFarRank(board, whiteToMove)
      modifies this`pins, this`whiteKingLocation, this`blackKingLocation
      ensures var g := AllPossible(board, whiteToMove, old(pins), old(whiteKingLocation), old(blackKingLocation));
        moves == g.moves && pins == g.pins &&
        whiteKingLocation == g.whiteKing && blackKingLocation == g.blackKing
      ensures forall m :: m in moves ==> Snapshot(m, board) && HasColor(At(board, m.start), AllyOf(whiteToMove))
    {
      AllPossibleSnapshot(board, whiteToMove, pins, whiteKingLocation, blackKingLocation);
      moves := GenerateAll();
    }

    /** The outer loop of get_all_possible_moves: the rows. */
    method GenerateAll() returns (moves: seq<Move>)
      requires PawnsOffFarRank(board, whiteToMove)
      modifies this`pins, this`whiteKingLocation, this`blackKingLocation
      ensures var g := AllPossible(board, whiteToMove, old(pins), old(whiteKingLocation), old(blackKingLocation));
        moves == g.moves && pins == g.pins &&
        whiteKingLocation == g.whiteKing && blackKingLocation == g.blackKing
    {
      ghost var target := AllPossible(board, whiteToMove, pins, whiteKingLocation, blackKingLocation);
      moves := [];
      var r := 0;
      while r < 8
        invariant 0 <= r <= 8
        invariant PossibleFrom(board, whiteToMove, r, 0, GenState(moves, pins, whiteKingLocation, blackKingLocation)) == target
      {
        moves := GenerateRow(r, moves);
        r := r + 1;
      }
    }

    /** The inner loop of get_all_possible_moves: the columns of row r. */
    method GenerateRow(r: int, moves: seq<Move>) returns (res: seq<Move>)
      requires 0 <= r < 8 && PawnsOffFarRank(board, whiteToMove)
      modifies this`pins, this`whiteKingLocation, this`blackKingLocation
      ensures PossibleFrom(board, whiteToMove, r + 1, 0, GenState(res, pins, whiteKingLocation, blackKingLocation)) ==
        PossibleFrom(board, whiteToMove, r, 0, GenState(moves, old(pins), old(whiteKingLocation), old(blackKingLocation)))
    {
      ghost var target := PossibleFrom(board, whiteToMove, r, 0, GenState(moves, pins, whiteKingLocation, blackKingLocation));
      res := moves;
      var c := 0;
      while c < 8
        invariant 0 <= c <= 8
        invariant PossibleFrom(board, whiteToMove, r, c, GenState(res, pins, whiteKingLocation, blackKingLocation)) == target
      {
        res := GenerateAt(r, c, res);
        c := c + 1;
      }
    }

    /** The body of get_all_possible_moves at (r, c): the generator for the kind of an ally piece there. */
    method GenerateAt(r: int, c: int, moves: seq<Move>) returns (res: seq<Move>)
      requires OnBoard(r, c) && PawnsOffFarRank(board, whiteToMove)
      modifies this`pins, this`whiteKingLocation, this`blackKingLocation
      ensures GenState(res, pins, whiteKingLocation, blackKingLocation) ==
        SquareStep(board, whiteToMove, r, c, GenState(moves, old(pins), old(whiteKingLocation), old(blackKingLocation)))
    {
      res := moves;
      var p := board[r][c];
      if HasColor(p, AllyOf(whiteToMove)) {
        match p.kind
        case Pawn =>
          assert OnBoard(r + Forward(whiteToMove), c) by {
            assert whiteToMove ==> board[0][c] != Piece(White, Pawn);
            assert !whiteToMove ==> board[7][c] != Piece(Black, Pawn);
          }
          res := GetPawnMoves(r, c, res);
        case Rook => res := GetRookMoves(r, c, res);
        case Knight => res := GetKnightMoves(r, c, res);
        case Bishop => res := GetBishopMoves(r, c, res);
        case Queen =>
          ghost var dir := PinDirection(FindPin(pins, r, c));
          res := GetQueenMoves(r, c, res);
          ConcatAssoc(moves, RookMoves(board, whiteToMove, Square(r, c), dir), BishopMoves(board, whiteToMove, Square(r, c), dir));
        case King => res := GetKingMoves(r, c, res);
      } else {
        assert moves + [] == moves;
      }
    }

    /**
     * get_valid_moves: the scan stored in inCheck, pins and checks; then all
     * possible moves pruned to the check line when checked once, only the
     * king's moves when checked twice.
     */
    method GetValidMoves() returns (moves: seq<Move>)
      requires Valid() && PawnsOffFarRank(board, whiteToMove)
      modifies this`inCheck, this`pins, this`checks, this`whiteKingLocation, this`blackKingLocation
      ensures Valid()
      ensures old(ValidMoves(board, whiteToMove, whiteKingLocation, blackKingLocation)) ==
        Outcome(moves, inCheck, pins, checks, whiteKingLocation, blackKingLocation)
    {
      ghost var outcome := ValidMoves(board, whiteToMove, whiteKingLocation, blackKingLocation);
      StoreScan();
      moves := Respond(outcome);
    }

    /** The first step of get_valid_moves: check_pins_checks, its results stored in the fields. */
    method StoreScan()
      requires Valid() && PawnsOffFarRank(board, whiteToMove)
      modifies this`inCheck, this`pins, this`checks
      ensures Scanned()
      ensures board == old(board) && whiteToMove == old(whiteToMove) && moveLog == old(moveLog)
      ensures whiteKingLocation == old(whiteKingLocation) && blackKingLocation == old(blackKingLocation)
    {
      ghost var b, w, whiteKing, blackKing := board, whiteToMove, whiteKingLocation, blackKingLocation;
      var inCheckNow, pinsNow, checksNow := CheckPinsChecks();
      inCheck, pins, checks := inCheckNow, pinsNow, checksNow;
      assert board == b && whiteToMove == w && whiteKingLocation == whiteKing && blackKingLocation == blackKing;
    }

    /** The rest of get_valid_moves once the scan is stored: the moves for no, one or several checks. */
    method Respond(ghost outcome: Outcome) returns (moves: seq<Move>)
      requires Responding(outcome)
      modifies this`pins, this`whiteKingLocation, this`blackKingLocation
      ensures Valid()
      ensures outcome == Outcome(moves, inCheck, pins, checks, whiteKingLocation, blackKingLocation)
    {
      if inCheck {
        if |checks| == 1 {
          moves := RespondToSingleCheck(outcome);
        } else {
          moves := RespondToDoubleCheck(outcome);
        }
      } else {
        moves := RespondNotInCheck(outcome);
      }
    }

    /** The fields check_pins_checks has just set, from the king of the side to move. */
    ghost predicate Scanned()
      reads this`board, this`whiteToMove, this`whiteKingLocation, this`blackKingLocation
      reads this`inCheck, this`pins, this`checks
    {
      Reports(board, whiteToMove, KingOf(whiteToMove, whiteKingLocation, blackKingLocation), pins, checks) &&
      inCheck == (checks != [])
    }

    /** The state get_valid_moves is in once the scan is stored, about to reach `outcome`. */
    ghost predicate Responding(outcome: Outcome)
      reads this
    {
      Valid() && PawnsOffFarRank(board, whiteToMove) && Scanned() &&
      outcome == ValidMoves(board, whiteToMove, whiteKingLocation, blackKingLocation)
    }

    /** The rest of get_valid_moves when the scan found no check. */
    method RespondNotInCheck(ghost outcome: Outcome) returns (moves: seq<Move>)
      requires Responding(outcome) && !inCheck
      modifies this`pins, this`whiteKingLocation, this`blackKingLocation
      ensures Valid()
      ensures outcome == Outcome(moves, inCheck, pins, checks, whiteKingLocation, blackKingLocation)
    {
      ValidMovesNotInCheck(board, whiteToMove, whiteKingLocation, blackKingLocation);
      moves := NotInCheckMoves(outcome);
    }

    /** The rest of get_valid_moves when the scan found one check. */
    method RespondToSingleCheck(ghost outcome: Outcome) returns (moves: seq<Move>)
      requires Responding(outcome) && |checks| == 1
      modifies this`pins, this`whiteKingLocation, this`blackKingLocation
      ensures Valid()
      ensures outcome == Outcome(moves, inCheck, pins, checks, whiteKingLocation, blackKingLocation)
    {
      var kingRow, kingCol := KingLocation();
      ValidMovesSingleCheck(board, whiteToMove, whiteKingLocation, blackKingLocation);
      moves := SingleCheckMoves(Square(kingRow, kingCol), outcome);
    }

    /** The rest of get_valid_moves when the scan found two or more checks. */
    method RespondToDoubleCheck(ghost outcome: Outcome) returns (moves: seq<Move>)
      requires Responding(outcome) && |checks| > 1
      modifies this`whiteKingLocation, this`blackKingLocation
      ensures Valid()
      ensures outcome == Outcome(moves, inCheck, pins, checks, whiteKingLocation, blackKingLocation)
    {
      var kingRow, kingCol := KingLocation();
      ValidMovesDoubleCheck(board, whiteToMove, whiteKingLocation, blackKingLocation);
      moves := DoubleCheckMoves(kingRow, kingCol, outcome);
    }

    /** The recorded square of the king of the side to move. */
    method KingLocation() returns (kingRow: int, kingCol: int)
      ensures Square(kingRow, kingCol) == KingOf(whiteToMove, whiteKingLocation, blackKingLocation)
    {
      if whiteToMove {
        kingRow, kingCol := whiteKingLocation.row, whiteKingLocation.col;
      } else {
        kingRow, kingCol := blackKingLocation.row, blackKingLocation.col;
      }
    }

    /** get_valid_moves when not in check, reaching `outcome`: every possible move. */
    method NotInCheckMoves(ghost outcome: Outcome) returns (moves: seq<Move>)
      requires Valid() && PawnsOffFarRank(board, whiteToMove) && !inCheck && checks == []
      requires var g := AllPossible(board, whiteToMove, pins, whiteKingLocation, blackKingLocation);
        outcome == Outcome(g.moves, false, g.pins, [], g.whiteKing, g.blackKing)
      modifies this`pins, this`whiteKingLocation, this`blackKingLocation
      ensures Valid()
      ensures outcome == Outcome(moves, inCheck, pins, checks, whiteKingLocation, blackKingLocation)
    {
      PossibleKingsOnBoard(board, whiteToMove, 0, 0, GenState([], pins, whiteKingLocation, blackKingLocation));
      moves := GetAllPossibleMoves();
    }

    /**
     * get_valid_moves under a single check, reaching `outcome`: every possible
     * move, then the pruning loop with the squares of the check line.
     */
    method SingleCheckMoves(king: Square, ghost outcome: Outcome) returns (moves: seq<Move>)
      requires Valid() && PawnsOffFarRank(board, whiteToMove) && inCheck
      requires |checks| == 1 && OnBoard(checks[0].row, checks[0].col)
      requires var g := AllPossible(board, whiteToMove, pins, whiteKingLocation, blackKingLocation);
        outcome == Outcome(Filter(g.moves, ValidSquares(board, king, checks[0])), true, g.pins, checks, g.whiteKing, g.blackKing)
      modifies this`pins, this`whiteKingLocation, this`blackKingLocation
      ensures Valid()
      ensures outcome == Outcome(moves, inCheck, pins, checks, whiteKingLocation, blackKingLocation)
    {
      PossibleKingsOnBoard(board, whiteToMove, 0, 0, GenState([], pins, whiteKingLocation, blackKingLocation));
      var all := GetAllPossibleMoves();
      var validSquares := CheckLine(king, checks[0]);
      moves := Prune(all, validSquares);
    }

    /** get_valid_moves under a double check, reaching `outcome`: only the king's own moves. */
    method DoubleCheckMoves(kingRow: int, kingCol: int, ghost outcome: Outcome) returns (moves: seq<Move>)
      requires OnBoard(kingRow, kingCol) && Valid() && inCheck
      requires var ms := KingMoves(board, whiteToMove, Square(kingRow, kingCol));
        outcome == Outcome(ms, true, pins, checks,
                           KingRecordedAt(true, whiteToMove, ms != [], Square(kingRow, kingCol), whiteKingLocation),
                           KingRecordedAt(false, whiteToMove, ms != [], Square(kingRow, kingCol), blackKingLocation))
      modifies this`whiteKingLocation, this`blackKingLocation
      ensures Valid()
      ensures outcome == Outcome(moves, inCheck, pins, checks, whiteKingLocation, blackKingLocation)
    {
      ConcatEmpty(KingMoves(board, whiteToMove, Square(kingRow, kingCol)));
      moves := GetKingMoves(kingRow, kingCol, []);
    }

    /**
     * The valid squares of get_valid_moves under a single check: the checking
     * knight's square, or the squares from the king along the check direction
     * up to and including the checking piece.
     */
    method CheckLine(king: Square, check: Ray) returns (validSquares: seq<Square>)
      requires OnBoard(check.row, check.col)
      ensures validSquares == ValidSquares(board, king, check)
    {
      var checkRow, checkCol := check.row, check.col;
      var pieceChecking := board[checkRow][checkCol];
      validSquares := [];
      if pieceChecking.Piece? && pieceChecking.kind == Knight {
        validSquares := [Square(checkRow, checkCol)];
      } else {
        var i := 1;
        while i < 8
          invariant 1 <= i <= 8
          invariant validSquares + RayUntil(king, check, i) == RayUntil(king, check, 1)
        {
          var validSquare := Along(king, check.dRow, check.dCol, i);
          ConcatAssoc(validSquares, [validSquare],
                      if validSquare == Square(checkRow, checkCol) then [] else RayUntil(king, check, i + 1));
          validSquares := validSquares + [validSquare];
          if validSquare.row == checkRow && validSquare.col == checkCol {
            break;
          }
          i := i + 1;
        }
        assert validSquares + [] == validSquares;
      }
    }

    /**
     * The backward pruning loop of get_valid_moves: a move that is not a king
     * move and does not end on a valid square is removed with list.remove.
     */
    method Prune(all: seq<Move>, validSquares: seq<Square>) returns (moves: seq<Move>)
      requires forall m :: m in all ==> Snapshot(m, board)
      ensures moves == Filter(all, validSquares)
    {
      moves := all;
      var i := |moves| - 1;
      assert moves[..i + 1] == moves;
      assert moves[i + 1..] == [];
      assert Filter(all, validSquares) + [] == Filter(all, validSquares);
      while i >= 0
        invariant -1 <= i < |moves|
        invariant Filter(moves[..i + 1], validSquares) + moves[i + 1..] == Filter(all, validSquares)
        invariant forall m :: m in moves ==> Snapshot(m, board)
      {
        moves := PruneStep(moves, i, validSquares);
        i := i - 1;
      }
      assert moves[..0] == [];
      assert moves[0..] == moves;
    }

    /** The body of the pruning loop at index i. */
    method PruneStep(movesIn: seq<Move>, i: int, validSquares: seq<Square>) returns (moves: seq<Move>)
      requires 0 <= i < |movesIn|
      requires forall m :: m in movesIn ==> Snapshot(m, board)
      ensures i - 1 < |moves|
      ensures Filter(moves[..i], validSquares) + moves[i..] == Filter(movesIn[..i + 1], validSquares) + movesIn[i + 1..]
      ensures forall m :: m in moves ==> Snapshot(m, board)
    {
      moves := movesIn;
      if !(moves[i].pieceMoved.Piece? && moves[i].pieceMoved.kind == King) && !(moves[i].end in validSquares) {
        var j := RemoveFirstEqualAt(moves, moves[i], i);
        EqualSnapshotsIdentical(moves[j], moves[i], board);
        PruneRemoved(moves, i, j, validSquares);
        moves := RemoveFirstEqual(moves, moves[i]);
        assert forall m :: m in moves ==> m in movesIn;
      } else {
        PruneKept(moves, i, validSquares);
      }
    }
  }

  /**
   * make_move followed by undo_move leaves the game as it was, for a move
   * built from the current board whose moving king (if any) starts on its
   * recorded square.
   */
  method MakeUndoRoundTrip(gs: GameState, m: Move)
    requires gs.Valid() && Snapshot(m, gs.board)
    requires m.pieceMoved == Piece(White, King) ==> gs.whiteKingLocation == m.start
    requires m.pieceMoved == Piece(Black, King) ==> gs.blackKingLocation == m.start
    modifies gs
    ensures gs.Valid()
    ensures gs.board == old(gs.board) && gs.whiteToMove == old(gs.whiteToMove) && gs.moveLog == old(gs.moveLog)
    ensures gs.whiteKingLocation == old(gs.whiteKingLocation) && gs.blackKingLocation == old(gs.blackKingLocation)
    ensures gs.inCheck == old(gs.inCheck) && gs.pins == old(gs.pins) && gs.checks == old(gs.checks)
  {
    UndoRestoresBoard(gs.board, m);
    KingRoundTrip(gs.whiteKingLocation, m, White);
    KingRoundTrip(gs.blackKingLocation, m, Black);
    gs.MakeMove(m);
    gs.UndoMove();
  }

  /** Python's list.remove on a move list: drops the first entry the engine calls equal to x. */
  function RemoveFirstEqual(s: seq<Move>, x: Move): seq<Move>
  {
    if s == [] then []
    else if Equals(s[0], x) then s[1..]
    else [s[0]] + RemoveFirstEqual(s[1..], x)
  }

  /** When s[i] equals x, list.remove drops the entry at some j <= i, the first one equal to x. */
  lemma {:induction false} RemoveFirstEqualAt(s: seq<Move>, x: Move, i: int) returns (j: int)
    requires 0 <= i < |s| && Equals(s[i], x)
    ensures 0 <= j <= i && Equals(s[j], x)
    ensures forall k :: 0 <= k < j ==> !Equals(s[k], x)
    ensures RemoveFirstEqual(s, x) == s[..j] + s[j + 1..]
  {
    if Equals(s[0], x) {
      j := 0;
    } else {
      var j' := RemoveFirstEqualAt(s[1..], x, i - 1);
      j := j' + 1;
      assert s[..j] == [s[0]] + s[1..][..j'];
      assert s[j + 1..] == s[1..][j' + 1..];
    }
  }

  /** Removing an entry that is not kept, at or before position i, leaves the loop's invariant in step. */
  lemma PruneRemoved(s: seq<Move>, i: int, j: int, squares: seq<Square>)
    requires 0 <= j <= i < |s| && !KeepMove(s[j], squares)
    ensures var t := s[..j] + s[j + 1..];
      Filter(t[..i], squares) + t[i..] == Filter(s[..i + 1], squares) + s[i + 1..]
  {
    var t := s[..j] + s[j + 1..];
    assert t[..i] == s[..j] + s[j + 1..i + 1];
    assert t[i..] == s[i + 1..];
    assert s[..i + 1] == s[..j] + [s[j]] + s[j + 1..i + 1];
    FilterConcat(s[..j] + [s[j]], s[j + 1..i + 1], squares);
    FilterConcat(s[..j], [s[j]], squares);
    FilterConcat(s[..j], s[j + 1..i + 1], squares);
    assert Filter([s[j]], squares) == [];
  }

  /** Keeping entry i moves it from the unfiltered tail to the filtered prefix. */
  lemma PruneKept(s: seq<Move>, i: int, squares: seq<Square>)
    requires 0 <= i < |s| && KeepMove(s[i], squares)
    ensures Filter(s[..i], squares) + s[i..] == Filter(s[..i + 1], squares) + s[i + 1..]
  {
    assert s[..i + 1] == s[..i] + [s[i]];
    FilterConcat(s[..i], [s[i]], squares);
    assert Filter([s[i]], squares) == [s[i]];
    assert s[i..] == [s[i]] + s[i + 1..];
  }
}
