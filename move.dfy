/**
 * The engine's Move value: start and end squares and the pieces read from
 * the board snapshot it was built from, with its packed identity, its
 * promotion flag and its coordinate notation.
 */
module Moves {
  import opened Pieces

  datatype Move = Move(start: Square, end: Square, pieceMoved: Cell, pieceCaptured: Cell)
  {
    /** The packed identity the engine compares moves by. */
    function MoveID(): int
    {
      1000 * start.row + 100 * start.col + 10 * end.row + end.col
    }

    /** A white pawn reaching row 0 or a black pawn reaching row 7. */
    predicate IsPawnPromotion()
    {
      (pieceMoved == Piece(White, Pawn) && end.row == 0) ||
      (pieceMoved == Piece(Black, Pawn) && end.row == 7)
    }
  }

  predicate MoveOnBoard(m: Move)
  {
    SquareOnBoard(m.start) && SquareOnBoard(m.end)
  }

  /** Move.__init__: the moved and captured pieces are read from the board given. */
  function NewMove(start: Square, end: Square, b: Board): Move
    requires SquareOnBoard(start) && SquareOnBoard(end)
  {
    Move(start, end, At(b, start), At(b, end))
  }

  /** The move was built by NewMove from board b. */
  predicate Snapshot(m: Move, b: Board)
  {
    MoveOnBoard(m) && m == NewMove(m.start, m.end, b)
  }

  /** Move.__eq__: two moves are equal when their identities are. */
  predicate Equals(a: Move, b: Move)
  {
    a.MoveID() == b.MoveID()
  }

  /** The identity loses nothing: it determines both squares. */
  lemma MoveIdInjective(a: Move, b: Move)
    requires MoveOnBoard(a) && MoveOnBoard(b)
    ensures a.MoveID() == b.MoveID() <==> a.start == b.start && a.end == b.end
  {
    if a.MoveID() == b.MoveID() {
      var d0, d1, d2, d3 := a.start.row - b.start.row, a.start.col - b.start.col,
                            a.end.row - b.end.row, a.end.col - b.end.col;
      assert 1000 * d0 + 100 * d1 + 10 * d2 + d3 == 0;
      assert d0 == 0;
      assert d1 == 0;
      assert d2 == 0;
    }
  }

  /** Equality of moves ignores the pieces: only the two squares matter. */
  lemma EqualsIffSameSquares(a: Move, b: Move)
    requires MoveOnBoard(a) && MoveOnBoard(b)
    ensures Equals(a, b) <==> a.start == b.start && a.end == b.end
  {
    MoveIdInjective(a, b);
  }

  /** Two snapshots of one board that the engine calls equal are the same value. */
  lemma EqualSnapshotsIdentical(a: Move, b: Move, bd: Board)
    requires Snapshot(a, bd) && Snapshot(b, bd)
    ensures Equals(a, b) <==> a == b
  {
    MoveIdInjective(a, b);
  }

  /** The identity of a move between squares on the board is one of 0..7777. */
  lemma MoveIdRange(m: Move)
    requires MoveOnBoard(m)
    ensures 0 <= m.MoveID() <= 7777
  {
  }

  /**
   * The promotion flag holds exactly for a pawn reaching the far rank of its
   * colour. What promotion then does to the board, and that it keeps every
   * pawn off its far rank, is stated by Engine.MakeMoveEffects and
   * Engine.MakeMoveKeepsPawnsOnBoard.
   */
  lemma PromotionIff(m: Move)
    ensures m.IsPawnPromotion() <==>
      m.pieceMoved.Piece? && m.pieceMoved.kind == Pawn &&
      m.end.row == (if m.pieceMoved.color == White then 0 else 7)
  {
  }

  // Notation tables of the Move class (ChessEngine.py:328-333).

  const RanksToRows: map<char, int> :=
    map['1' := 7, '2' := 6, '3' := 5, '4' := 4, '5' := 3, '6' := 2, '7' := 1, '8' := 0]
  const RowsToRanks: map<int, char> :=
    map[7 := '1', 6 := '2', 5 := '3', 4 := '4', 3 := '5', 2 := '6', 1 := '7', 0 := '8']
  const FilesToCols: map<char, int> :=
    map['a' := 0, 'b' := 1, 'c' := 2, 'd' := 3, 'e' := 4, 'f' := 5, 'g' := 6, 'h' := 7]
  const ColsToFiles: map<int, char> :=
    map[0 := 'a', 1 := 'b', 2 := 'c', 3 := 'd', 4 := 'e', 5 := 'f', 6 := 'g', 7 := 'h']

  /** Move.get_rank_file: a file letter followed by a rank digit. */
  function GetRankFile(row: int, col: int): string
    requires OnBoard(row, col)
  {
    [ColsToFiles[col], RowsToRanks[row]]
  }

  /** Move.get_chess_notation: both squares, start first. */
  function GetChessNotation(m: Move): string
    requires MoveOnBoard(m)
  {
    GetRankFile(m.start.row, m.start.col) + GetRankFile(m.end.row, m.end.col)
  }

  /** Reading a square back from its two characters, through the two given tables. */
  function ParseSquare(s: string): Option<Square>
  {
    if |s| == 2 && s[0] in FilesToCols && s[1] in RanksToRows
    then Some(Square(RanksToRows[s[1]], FilesToCols[s[0]]))
    else None
  }

  /** Column c is the letter 'a' + c and row r the digit '8' - r. */
  lemma {:induction false} RankFileIsArithmetic(row: int, col: int)
    requires OnBoard(row, col)
    ensures GetRankFile(row, col) == [('a' as int + col) as char, ('8' as int - row) as char]
  {
    assert row in {0, 1, 2, 3, 4, 5, 6, 7} && col in {0, 1, 2, 3, 4, 5, 6, 7};
  }

  /** Reading back a square's two characters through the given tables yields the square. */
  lemma {:induction false} RankFileRoundTrip(row: int, col: int)
    requires OnBoard(row, col)
    ensures ParseSquare(GetRankFile(row, col)) == Some(Square(row, col))
  {
    RankFileIsArithmetic(row, col);
    assert row in {0, 1, 2, 3, 4, 5, 6, 7} && col in {0, 1, 2, 3, 4, 5, 6, 7};
  }

  /** The notation is four characters from which both squares can be read back. */
  lemma NotationRoundTrip(m: Move)
    requires MoveOnBoard(m)
    ensures |GetChessNotation(m)| == 4
    ensures ParseSquare(GetChessNotation(m)[..2]) == Some(m.start)
    ensures ParseSquare(GetChessNotation(m)[2..]) == Some(m.end)
  {
    var s := GetChessNotation(m);
    assert s[..2] == GetRankFile(m.start.row, m.start.col);
    assert s[2..] == GetRankFile(m.end.row, m.end.col);
    RankFileRoundTrip(m.start.row, m.start.col);
    RankFileRoundTrip(m.end.row, m.end.col);
  }

  /** The pawn move from row 6, column 4 to row 4, column 4 of the start position reads "e2e4". */
  lemma KingPawnOpening()
    ensures GetChessNotation(NewMove(Square(6, 4), Square(4, 4), InitialBoard())) == "e2e4"
  {
  }
}
