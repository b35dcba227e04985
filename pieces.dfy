/**
 * The board of the chess engine: an 8x8 grid of cells, each either empty
 * (the engine's "--") or a piece given by its colour and kind (the engine's
 * two-character codes such as "wK" or "bP").
 */
module Pieces {

  datatype Option<T> = None | Some(value: T)

  datatype Color = White | Black

  datatype Kind = Pawn | Knight | Bishop | Rook | Queen | King

  /** One cell of the board: "--" or a colour letter followed by a kind letter. */
  datatype Cell = Empty | Piece(color: Color, kind: Kind)

  /** A (row, column) pair; row 0 is black's back rank, column 0 the a-file. */
  datatype Square = Square(row: int, col: int)

  /** Eight rows of eight cells each. */
  type Board = b: seq<seq<Cell>> | |b| == 8 && forall r :: 0 <= r < 8 ==> |b[r]| == 8
    witness seq(8, _ => seq(8, _ => Empty))

  predicate OnBoard(r: int, c: int)
  {
    0 <= r < 8 && 0 <= c < 8
  }

  predicate SquareOnBoard(s: Square)
  {
    OnBoard(s.row, s.col)
  }

  /** The square n steps from s in direction (dr, dc). */
  function Along(s: Square, dr: int, dc: int, n: int): Square
  {
    Square(s.row + dr * n, s.col + dc * n)
  }

  /** The colour of the side to move, from the engine's whiteToMove flag. */
  function AllyOf(whiteToMove: bool): Color
  {
    if whiteToMove then White else Black
  }

  function Enemy(c: Color): Color
  {
    if c == White then Black else White
  }

  /** The engine's test `cell[0] == colour`: false for an empty cell. */
  predicate HasColor(p: Cell, c: Color)
  {
    p.Piece? && p.color == c
  }

  /** The engine's test `p[0] == q[0]` on two cells. */
  predicate SameColor(p: Cell, q: Cell)
  {
    p.Piece? && q.Piece? && p.color == q.color
  }

  function At(b: Board, s: Square): Cell
    requires SquareOnBoard(s)
  {
    b[s.row][s.col]
  }

  /** The board with the one cell at (r, c) overwritten. */
  function SetCell(b: Board, r: int, c: int, p: Cell): (b': Board)
    requires OnBoard(r, c)
    ensures b'[r][c] == p
    ensures forall r', c' :: OnBoard(r', c') && (r', c') != (r, c) ==> b'[r'][c'] == b[r'][c']
  {
    b[r := b[r][c := p]]
  }

  function BackRank(c: Color): seq<Cell>
  {
    [Piece(c, Rook), Piece(c, Knight), Piece(c, Bishop), Piece(c, Queen),
     Piece(c, King), Piece(c, Bishop), Piece(c, Knight), Piece(c, Rook)]
  }

  /** The layout the game starts from (ChessEngine.py:12-21). */
  function InitialBoard(): Board
  {
    [BackRank(Black),
     seq(8, _ => Piece(Black, Pawn)),
     seq(8, _ => Empty),
     seq(8, _ => Empty),
     seq(8, _ => Empty),
     seq(8, _ => Empty),
     seq(8, _ => Piece(White, Pawn)),
     BackRank(White)]
  }

  /**
   * The pawns of the given side can be stepped forward without leaving the
   * board: a white pawn is never on row 0 and a black pawn never on row 7.
   */
  predicate PawnsOffFarRank(b: Board, whiteToMove: bool)
  {
    forall c :: 0 <= c < 8 ==>
      (whiteToMove ==> b[0][c] != Piece(White, Pawn)) &&
      (!whiteToMove ==> b[7][c] != Piece(Black, Pawn))
  }

  /** The start layout has exactly one king of each colour, where the engine records them. */
  lemma InitialKings()
    ensures forall r, c :: OnBoard(r, c) && InitialBoard()[r][c] == Piece(White, King) ==> (r, c) == (7, 4)
    ensures forall r, c :: OnBoard(r, c) && InitialBoard()[r][c] == Piece(Black, King) ==> (r, c) == (0, 4)
    ensures InitialBoard()[7][4] == Piece(White, King) && InitialBoard()[0][4] == Piece(Black, King)
    ensures PawnsOffFarRank(InitialBoard(), true) && PawnsOffFarRank(InitialBoard(), false)
  {
  }
}
