/**
 * The move list of GameState.get_all_possible_moves and get_valid_moves as
 * functions of the board, the side to move, the pin list and the recorded
 * king squares: a fold over the board in row-major order, then the check
 * rules applied to its result.
 */
module Legal {
  import opened Pieces
  import opened Moves
  import opened Scanner
  import opened Generators

  // The fold of get_all_possible_moves.

  /** What the generators change as they run: the move list, the pin list and the king squares. */
  datatype GenState = GenState(moves: seq<Move>, pins: seq<Ray>, whiteKing: Square, blackKing: Square)

  /**
   * The moves the generator for the piece at (r, c) emits when its pin
   * lookup found `pin`; nothing for an empty square or an enemy piece. A
   * queen runs the rook generator and then the bishop generator.
   */
  function PieceMoves(b: Board, whiteToMove: bool, r: int, c: int, pin: Option<Ray>): seq<Move>
    requires OnBoard(r, c) && PawnsOffFarRank(b, whiteToMove)
  {
    var p := b[r][c];
    var from := Square(r, c);
    var dir := PinDirection(pin);
    if !HasColor(p, AllyOf(whiteToMove)) then []
    else
      match p.kind
      case Pawn =>
        assert OnBoard(r + Forward(whiteToMove), c) by {
          assert whiteToMove ==> b[0][c] != Piece(White, Pawn);
          assert !whiteToMove ==> b[7][c] != Piece(Black, Pawn);
        }
        PawnMoves(b, whiteToMove, from, dir)
      case Rook => RookMoves(b, whiteToMove, from, dir)
      case Bishop => BishopMoves(b, whiteToMove, from, dir)
      case Knight => KnightMoves(b, from, pin.Some?)
      case Queen => RookMoves(b, whiteToMove, from, dir) + BishopMoves(b, whiteToMove, from, dir)
      case King => KingMoves(b, whiteToMove, from)
  }

  /** The pawn, rook, bishop and knight generators remove the pin entry they found; queens and kings do not. */
  predicate ConsumesPin(p: Cell, whiteToMove: bool)
  {
    HasColor(p, AllyOf(whiteToMove)) && p.kind != Queen && p.kind != King
  }

  /**
   * The king square of colour `white` after the generator for (r, c): the
   * king generator leaves the king of the side to move recorded at (r, c)
   * once it has tried a target square.
   */
  function RelocatedKing(b: Board, whiteToMove: bool, r: int, c: int, white: bool, loc: Square): Square
    requires OnBoard(r, c)
  {
    if white == whiteToMove && HasColor(b[r][c], AllyOf(whiteToMove)) && b[r][c].kind == King &&
       KingMoves(b, whiteToMove, Square(r, c)) != []
    then Square(r, c)
    else loc
  }

  /** One square of the double loop of get_all_possible_moves. */
  function SquareStep(b: Board, whiteToMove: bool, r: int, c: int, g: GenState): GenState
    requires OnBoard(r, c) && PawnsOffFarRank(b, whiteToMove)
  {
    GenState(g.moves + PieceMoves(b, whiteToMove, r, c, FindPin(g.pins, r, c)),
             ConsumePin(g.pins, r, c, !ConsumesPin(b[r][c], whiteToMove)),
             RelocatedKing(b, whiteToMove, r, c, true, g.whiteKing),
             RelocatedKing(b, whiteToMove, r, c, false, g.blackKing))
  }

  /** The double loop from square (r, c) on, in row-major order. */
  function PossibleFrom(b: Board, whiteToMove: bool, r: int, c: int, g: GenState): GenState
    requires 0 <= r <= 8 && 0 <= c <= 8 && PawnsOffFarRank(b, whiteToMove)
    decreases 8 - r, 8 - c
  {
    if r == 8 then g
    else if c == 8 then PossibleFrom(b, whiteToMove, r + 1, 0, g)
    else PossibleFrom(b, whiteToMove, r, c + 1, SquareStep(b, whiteToMove, r, c, g))
  }

  /** get_all_possible_moves, started with an empty move list. */
  function AllPossible(b: Board, whiteToMove: bool, pins: seq<Ray>, whiteKing: Square, blackKing: Square): GenState
    requires PawnsOffFarRank(b, whiteToMove)
  {
    PossibleFrom(b, whiteToMove, 0, 0, GenState([], pins, whiteKing, blackKing))
  }

  // The same moves without the side effect on the pin list.

  /** Square (r', c') is visited at or after (r, c) in row-major order. */
  predicate Later(r: int, c: int, r': int, c': int)
  {
    r < r' || (r == r' && c <= c')
  }

  /** The moves of every square from (r, c) on, each looking its pin up in the fixed list pins0. */
  function MovesWith(b: Board, whiteToMove: bool, pins0: seq<Ray>, r: int, c: int): seq<Move>
    requires 0 <= r <= 8 && 0 <= c <= 8 && PawnsOffFarRank(b, whiteToMove)
    decreases 8 - r, 8 - c
  {
    if r == 8 then []
    else if c == 8 then MovesWith(b, whiteToMove, pins0, r + 1, 0)
    else PieceMoves(b, whiteToMove, r, c, FindPin(pins0, r, c)) + MovesWith(b, whiteToMove, pins0, r, c + 1)
  }

  /**
   * Removing pin entries as the generators go does not change the moves:
   * every square finds the entry it would find in the list as it was before
   * the loop, because only a square's own lookup consumes its entry.
   */
  lemma {:induction false} PinsHarmless(b: Board, whiteToMove: bool, pins0: seq<Ray>, r: int, c: int, g: GenState)
    requires 0 <= r <= 8 && 0 <= c <= 8 && PawnsOffFarRank(b, whiteToMove)
    requires forall r', c' :: Later(r, c, r', c') ==> FindPin(g.pins, r', c') == FindPin(pins0, r', c')
    ensures PossibleFrom(b, whiteToMove, r, c, g).moves == g.moves + MovesWith(b, whiteToMove, pins0, r, c)
    decreases 8 - r, 8 - c
  {
    if r == 8 {
    } else if c == 8 {
      assert forall r', c' :: Later(r + 1, 0, r', c') ==> Later(r, c, r', c');
      PinsHarmless(b, whiteToMove, pins0, r + 1, 0, g);
    } else {
      var g' := SquareStep(b, whiteToMove, r, c, g);
      PinsHarmlessStep(b, whiteToMove, pins0, r, c, g);
      PinsHarmless(b, whiteToMove, pins0, r, c + 1, g');
      ConcatAssoc(g.moves, PieceMoves(b, whiteToMove, r, c, FindPin(pins0, r, c)), MovesWith(b, whiteToMove, pins0, r, c + 1));
    }
  }

  /** One square of PinsHarmless: the square finds its entry, and the pin entries of later squares survive. */
  lemma PinsHarmlessStep(b: Board, whiteToMove: bool, pins0: seq<Ray>, r: int, c: int, g: GenState)
    requires 0 <= r < 8 && 0 <= c < 8 && PawnsOffFarRank(b, whiteToMove)
    requires forall r', c' :: Later(r, c, r', c') ==> FindPin(g.pins, r', c') == FindPin(pins0, r', c')
    ensures SquareStep(b, whiteToMove, r, c, g).moves == g.moves + PieceMoves(b, whiteToMove, r, c, FindPin(pins0, r, c))
    ensures forall r', c' :: Later(r, c + 1, r', c') ==>
      FindPin(SquareStep(b, whiteToMove, r, c, g).pins, r', c') == FindPin(pins0, r', c')
  {
    var pins' := ConsumePin(g.pins, r, c, !ConsumesPin(b[r][c], whiteToMove));
    assert Later(r, c, r, c);
    forall r', c' | Later(r, c + 1, r', c')
      ensures FindPin(pins', r', c') == FindPin(pins0, r', c')
    {
      assert Later(r, c, r', c');
      ConsumeKeepsOtherSquares(g.pins, r, c, !ConsumesPin(b[r][c], whiteToMove), r', c');
    }
  }

  /** The moves of get_all_possible_moves are those of the lookup version, over the pin list it started with. */
  lemma AllPossibleMoves(b: Board, whiteToMove: bool, pins: seq<Ray>, whiteKing: Square, blackKing: Square)
    requires PawnsOffFarRank(b, whiteToMove)
    ensures AllPossible(b, whiteToMove, pins, whiteKing, blackKing).moves == MovesWith(b, whiteToMove, pins, 0, 0)
  {
    PinsHarmless(b, whiteToMove, pins, 0, 0, GenState([], pins, whiteKing, blackKing));
  }

  /** A move is listed exactly when the generator of some square from (r, c) on emits it. */
  lemma {:induction false} MovesWithIff(b: Board, whiteToMove: bool, pins0: seq<Ray>, r: int, c: int, m: Move)
    requires 0 <= r <= 8 && 0 <= c <= 8 && PawnsOffFarRank(b, whiteToMove)
    ensures m in MovesWith(b, whiteToMove, pins0, r, c) <==>
      exists r', c' :: Later(r, c, r', c') && OnBoard(r', c') &&
        m in PieceMoves(b, whiteToMove, r', c', FindPin(pins0, r', c'))
    decreases 8 - r, 8 - c
  {
    if r == 8 {
    } else if c == 8 {
      MovesWithIff(b, whiteToMove, pins0, r + 1, 0, m);
      if exists r', c' :: Later(r, c, r', c') && OnBoard(r', c') &&
          m in PieceMoves(b, whiteToMove, r', c', FindPin(pins0, r', c')) {
        var r', c' :| Later(r, c, r', c') && OnBoard(r', c') &&
          m in PieceMoves(b, whiteToMove, r', c', FindPin(pins0, r', c'));
        assert Later(r + 1, 0, r', c');
      }
    } else {
      MovesWithIff(b, whiteToMove, pins0, r, c + 1, m);
      var here := PieceMoves(b, whiteToMove, r, c, FindPin(pins0, r, c));
      InConcat(here, MovesWith(b, whiteToMove, pins0, r, c + 1), m);
      if m in here {
        assert Later(r, c, r, c);
      }
      if exists r', c' :: Later(r, c, r', c') && OnBoard(r', c') &&
          m in PieceMoves(b, whiteToMove, r', c', FindPin(pins0, r', c')) {
        var r', c' :| Later(r, c, r', c') && OnBoard(r', c') &&
          m in PieceMoves(b, whiteToMove, r', c', FindPin(pins0, r', c'));
        if (r', c') != (r, c) {
          assert Later(r, c + 1, r', c');
        }
      }
    }
  }

  /** Every move a generator emits was built from the board and starts at a piece of the side to move. */
  lemma PieceMovesSnapshot(b: Board, whiteToMove: bool, r: int, c: int, pin: Option<Ray>)
    requires OnBoard(r, c) && PawnsOffFarRank(b, whiteToMove)
    ensures forall m :: m in PieceMoves(b, whiteToMove, r, c, pin) ==>
      Snapshot(m, b) && m.start == Square(r, c) && HasColor(At(b, m.start), AllyOf(whiteToMove))
  {
    var p := b[r][c];
    var from := Square(r, c);
    var dir := PinDirection(pin);
    var enemy := Enemy(AllyOf(whiteToMove));
    if HasColor(p, AllyOf(whiteToMove)) {
      match p.kind
      case Pawn =>
        assert whiteToMove ==> b[0][c] != Piece(White, Pawn);
        assert !whiteToMove ==> b[7][c] != Piece(Black, Pawn);
        PawnMovesSnapshot(b, whiteToMove, from, dir);
      case Rook => SlideMovesSnapshot(b, from, RookDirections, 0, enemy, dir);
      case Bishop => SlideMovesSnapshot(b, from, BishopDirections, 0, enemy, dir);
      case Knight => KnightMovesSnapshot(b, from, pin.Some?, 0, 0);
      case Queen =>
        SlideMovesSnapshot(b, from, RookDirections, 0, enemy, dir);
        SlideMovesSnapshot(b, from, BishopDirections, 0, enemy, dir);
      case King => KingMovesSnapshot(b, whiteToMove, from, KingAttackTest(b, whiteToMove), -1, -1);
    }
  }

  /** Every listed move is a snapshot of the board starting at a piece of the side to move. */
  lemma MovesWithSnapshot(b: Board, whiteToMove: bool, pins0: seq<Ray>, m: Move)
    requires PawnsOffFarRank(b, whiteToMove)
    requires m in MovesWith(b, whiteToMove, pins0, 0, 0)
    ensures Snapshot(m, b) && HasColor(At(b, m.start), AllyOf(whiteToMove))
  {
    MovesWithIff(b, whiteToMove, pins0, 0, 0, m);
    var r', c' :| Later(0, 0, r', c') && OnBoard(r', c') &&
      m in PieceMoves(b, whiteToMove, r', c', FindPin(pins0, r', c'));
    PieceMovesSnapshot(b, whiteToMove, r', c', FindPin(pins0, r', c'));
  }

  /** Every move get_all_possible_moves lists is a snapshot of the board starting at a piece of the side to move. */
  lemma AllPossibleSnapshot(b: Board, whiteToMove: bool, pins: seq<Ray>, whiteKing: Square, blackKing: Square)
    requires PawnsOffFarRank(b, whiteToMove)
    ensures forall m :: m in AllPossible(b, whiteToMove, pins, whiteKing, blackKing).moves ==>
      Snapshot(m, b) && HasColor(At(b, m.start), AllyOf(whiteToMove))
  {
    AllPossibleMoves(b, whiteToMove, pins, whiteKing, blackKing);
    forall m | m in MovesWith(b, whiteToMove, pins, 0, 0)
      ensures Snapshot(m, b) && HasColor(At(b, m.start), AllyOf(whiteToMove))
    {
      MovesWithSnapshot(b, whiteToMove, pins, m);
    }
  }

  /** Every king of the side to move on the board stands on k. */
  predicate AllyKingsAt(b: Board, whiteToMove: bool, k: Square)
  {
    forall r, c :: 0 <= r < 8 && 0 <= c < 8 && b[r][c] == Piece(AllyOf(whiteToMove), King) ==> Square(r, c) == k
  }

  /**
   * The loop leaves the enemy's king square alone, and the side to move's
   * too when its only king stands where it is recorded.
   */
  lemma {:induction false} PossibleKeepsKings(b: Board, whiteToMove: bool, r: int, c: int, g: GenState)
    requires 0 <= r <= 8 && 0 <= c <= 8 && PawnsOffFarRank(b, whiteToMove)
    ensures var g' := PossibleFrom(b, whiteToMove, r, c, g);
      if whiteToMove then g'.blackKing == g.blackKing else g'.whiteKing == g.whiteKing
    ensures var g' := PossibleFrom(b, whiteToMove, r, c, g);
      AllyKingsAt(b, whiteToMove, if whiteToMove then g.whiteKing else g.blackKing) ==>
        g'.whiteKing == g.whiteKing && g'.blackKing == g.blackKing
    decreases 8 - r, 8 - c
  {
    if r == 8 {
    } else if c == 8 {
      PossibleKeepsKings(b, whiteToMove, r + 1, 0, g);
    } else {
      var g' := SquareStep(b, whiteToMove, r, c, g);
      SquareStepKeepsKings(b, whiteToMove, r, c, g);
      PossibleKeepsKings(b, whiteToMove, r, c + 1, g');
    }
  }

  /** One square of PossibleKeepsKings. */
  lemma SquareStepKeepsKings(b: Board, whiteToMove: bool, r: int, c: int, g: GenState)
    requires OnBoard(r, c) && PawnsOffFarRank(b, whiteToMove)
    ensures var g' := SquareStep(b, whiteToMove, r, c, g);
      if whiteToMove then g'.blackKing == g.blackKing else g'.whiteKing == g.whiteKing
    ensures var g' := SquareStep(b, whiteToMove, r, c, g);
      AllyKingsAt(b, whiteToMove, if whiteToMove then g.whiteKing else g.blackKing) ==>
        g'.whiteKing == g.whiteKing && g'.blackKing == g.blackKing
  {
    if AllyKingsAt(b, whiteToMove, if whiteToMove then g.whiteKing else g.blackKing) {
      assert b[r][c] == Piece(AllyOf(whiteToMove), King) ==>
        Square(r, c) == if whiteToMove then g.whiteKing else g.blackKing;
    }
  }

  /** The king squares the loop records stay on the board. */
  lemma {:induction false} PossibleKingsOnBoard(b: Board, whiteToMove: bool, r: int, c: int, g: GenState)
    requires 0 <= r <= 8 && 0 <= c <= 8 && PawnsOffFarRank(b, whiteToMove)
    requires SquareOnBoard(g.whiteKing) && SquareOnBoard(g.blackKing)
    ensures SquareOnBoard(PossibleFrom(b, whiteToMove, r, c, g).whiteKing)
    ensures SquareOnBoard(PossibleFrom(b, whiteToMove, r, c, g).blackKing)
    decreases 8 - r, 8 - c
  {
    if r == 8 {
    } else if c == 8 {
      PossibleKingsOnBoard(b, whiteToMove, r + 1, 0, g);
    } else {
      PossibleKingsOnBoard(b, whiteToMove, r, c + 1, SquareStep(b, whiteToMove, r, c, g));
    }
  }

  // The check rules of get_valid_moves.

  /** The squares from the king along the check direction, step i on, up to and including the checking piece. */
  function RayUntil(king: Square, check: Ray, i: int): seq<Square>
    requires 1 <= i <= 8
    decreases 8 - i
  {
    if i == 8 then []
    else
      var s := Along(king, check.dRow, check.dCol, i);
      [s] + if s == Square(check.row, check.col) then [] else RayUntil(king, check, i + 1)
  }

  /** The squares a move other than a king move must end on: the knight's own square, or the check line. */
  function ValidSquares(b: Board, king: Square, check: Ray): seq<Square>
    requires OnBoard(check.row, check.col)
  {
    var p := b[check.row][check.col];
    if p.Piece? && p.kind == Knight then [Square(check.row, check.col)]
    else RayUntil(king, check, 1)
  }

  /** Whether the pruning loop keeps move m: it moves a king or ends on a valid square. */
  predicate KeepMove(m: Move, squares: seq<Square>)
  {
    (m.pieceMoved.Piece? && m.pieceMoved.kind == King) || m.end in squares
  }

  /** The moves the pruning loop keeps, in order. */
  function Filter(ms: seq<Move>, squares: seq<Square>): seq<Move>
  {
    if ms == [] then []
    else (if KeepMove(ms[0], squares) then [ms[0]] else []) + Filter(ms[1..], squares)
  }

  /** The outcome of get_valid_moves: the moves returned and the fields it leaves set. */
  datatype Outcome = Outcome(moves: seq<Move>, inCheck: bool, pins: seq<Ray>, checks: seq<Ray>,
                             whiteKing: Square, blackKing: Square)

  function KingOf(whiteToMove: bool, whiteKing: Square, blackKing: Square): Square
  {
    if whiteToMove then whiteKing else blackKing
  }

  /**
   * get_valid_moves: scan from the king of the side to move; not in check,
   * all possible moves; checked by one piece, those moves pruned to king
   * moves and moves onto the check line; checked by two, the king's moves.
   */
  function ValidMoves(b: Board, whiteToMove: bool, whiteKing: Square, blackKing: Square): Outcome
    requires PawnsOffFarRank(b, whiteToMove) && SquareOnBoard(whiteKing) && SquareOnBoard(blackKing)
  {
    var king := KingOf(whiteToMove, whiteKing, blackKing);
    var scan := Scan(b, whiteToMove, king);
    if scan.checks == [] then
      var g := AllPossible(b, whiteToMove, scan.pins, whiteKing, blackKing);
      Outcome(g.moves, false, g.pins, scan.checks, g.whiteKing, g.blackKing)
    else if |scan.checks| == 1 then
      var g := AllPossible(b, whiteToMove, scan.pins, whiteKing, blackKing);
      ScanOnBoard(b, whiteToMove, king);
      assert scan.checks[0] in scan.checks;
      var squares := ValidSquares(b, king, scan.checks[0]);
      Outcome(Filter(g.moves, squares), true, g.pins, scan.checks, g.whiteKing, g.blackKing)
    else
      var ms := KingMoves(b, whiteToMove, king);
      Outcome(ms, true, scan.pins, scan.checks,
              KingRecordedAt(true, whiteToMove, ms != [], king, whiteKing),
              KingRecordedAt(false, whiteToMove, ms != [], king, blackKing))
  }

  /** Not in check, get_valid_moves returns every possible move. */
  lemma ValidMovesNotInCheck(b: Board, whiteToMove: bool, whiteKing: Square, blackKing: Square)
    requires PawnsOffFarRank(b, whiteToMove) && SquareOnBoard(whiteKing) && SquareOnBoard(blackKing)
    requires Scan(b, whiteToMove, KingOf(whiteToMove, whiteKing, blackKing)).checks == []
    ensures var scan := Scan(b, whiteToMove, KingOf(whiteToMove, whiteKing, blackKing));
      var g := AllPossible(b, whiteToMove, scan.pins, whiteKing, blackKing);
      ValidMoves(b, whiteToMove, whiteKing, blackKing) == Outcome(g.moves, false, g.pins, [], g.whiteKing, g.blackKing)
  {
  }

  /** Checked by one piece, get_valid_moves prunes the possible moves to the check line. */
  lemma ValidMovesSingleCheck(b: Board, whiteToMove: bool, whiteKing: Square, blackKing: Square)
    requires PawnsOffFarRank(b, whiteToMove) && SquareOnBoard(whiteKing) && SquareOnBoard(blackKing)
    requires |Scan(b, whiteToMove, KingOf(whiteToMove, whiteKing, blackKing)).checks| == 1
    ensures var king := KingOf(whiteToMove, whiteKing, blackKing);
      var scan := Scan(b, whiteToMove, king);
      var g := AllPossible(b, whiteToMove, scan.pins, whiteKing, blackKing);
      OnBoard(scan.checks[0].row, scan.checks[0].col) &&
      ValidMoves(b, whiteToMove, whiteKing, blackKing) ==
        Outcome(Filter(g.moves, ValidSquares(b, king, scan.checks[0])), true, g.pins, scan.checks, g.whiteKing, g.blackKing)
  {
    var king := KingOf(whiteToMove, whiteKing, blackKing);
    ScanOnBoard(b, whiteToMove, king);
    assert Scan(b, whiteToMove, king).checks[0] in Scan(b, whiteToMove, king).checks;
  }

  /** Checked by two pieces, get_valid_moves returns the king's moves. */
  lemma ValidMovesDoubleCheck(b: Board, whiteToMove: bool, whiteKing: Square, blackKing: Square)
    requires PawnsOffFarRank(b, whiteToMove) && SquareOnBoard(whiteKing) && SquareOnBoard(blackKing)
    requires |Scan(b, whiteToMove, KingOf(whiteToMove, whiteKing, blackKing)).checks| > 1
    ensures var king := KingOf(whiteToMove, whiteKing, blackKing);
      var scan := Scan(b, whiteToMove, king);
      var ms := KingMoves(b, whiteToMove, king);
      ValidMoves(b, whiteToMove, whiteKing, blackKing) ==
        Outcome(ms, true, scan.pins, scan.checks,
                KingRecordedAt(true, whiteToMove, ms != [], king, whiteKing),
                KingRecordedAt(false, whiteToMove, ms != [], king, blackKing))
  {
  }

  // What the check rules mean.

  lemma {:induction false} FilterConcat(a: seq<Move>, c: seq<Move>, squares: seq<Square>)
    ensures Filter(a + c, squares) == Filter(a, squares) + Filter(c, squares)
  {
    if a != [] {
      assert (a + c)[1..] == a[1..] + c;
      FilterConcat(a[1..], c, squares);
    } else {
      assert a + c == c;
    }
  }

  /** The pruning keeps every copy of a kept move and drops every copy of the others. */
  lemma {:induction false} FilterCount(ms: seq<Move>, squares: seq<Square>, m: Move)
    ensures multiset(Filter(ms, squares))[m] == if KeepMove(m, squares) then multiset(ms)[m] else 0
  {
    if ms != [] {
      FilterCount(ms[1..], squares, m);
      assert ms == [ms[0]] + ms[1..];
      var head := if KeepMove(ms[0], squares) then [ms[0]] else [];
      assert multiset(head + Filter(ms[1..], squares)) == multiset(head) + multiset(Filter(ms[1..], squares));
    }
  }

  lemma FilterIff(ms: seq<Move>, squares: seq<Square>, m: Move)
    ensures m in Filter(ms, squares) <==> m in ms && KeepMove(m, squares)
  {
    FilterCount(ms, squares, m);
    InMultisetCount(ms, m);
    InMultisetCount(Filter(ms, squares), m);
  }

  /** A unit step in a direction other than (0, 0) never revisits a square. */
  lemma AlongInjective(king: Square, dr: int, dc: int, i: int, n: int)
    requires -1 <= dr <= 1 && -1 <= dc <= 1 && (dr, dc) != (0, 0)
    requires Along(king, dr, dc, i) == Along(king, dr, dc, n)
    ensures i == n
  {
  }

  /**
   * Walking from step i, the check line is every square from step i up to the
   * checking piece n steps away, in order, and nothing beyond it.
   */
  lemma {:induction false} RayUntilSquares(king: Square, check: Ray, i: int, n: int)
    requires 1 <= i <= n < 8
    requires -1 <= check.dRow <= 1 && -1 <= check.dCol <= 1 && (check.dRow, check.dCol) != (0, 0)
    requires Square(check.row, check.col) == Along(king, check.dRow, check.dCol, n)
    ensures |RayUntil(king, check, i)| == n - i + 1
    ensures forall k :: 0 <= k < |RayUntil(king, check, i)| ==>
      RayUntil(king, check, i)[k] == Along(king, check.dRow, check.dCol, i + k)
    decreases 8 - i
  {
    var s := Along(king, check.dRow, check.dCol, i);
    if i < n {
      if s == Square(check.row, check.col) {
        AlongInjective(king, check.dRow, check.dCol, i, n);
      }
      RayUntilSquares(king, check, i + 1, n);
      var rest := RayUntil(king, check, i + 1);
      assert RayUntil(king, check, i) == [s] + rest;
      forall k | 0 <= k < n - i + 1
        ensures RayUntil(king, check, i)[k] == Along(king, check.dRow, check.dCol, i + k)
      {
        if k > 0 {
          assert RayUntil(king, check, i)[k] == rest[k - 1];
        }
      }
    } else {
      assert RayUntil(king, check, i) == [s];
    }
  }

  /** The scan's directions are unit steps other than (0, 0). */
  lemma DirectionsAreUnit(j: int)
    requires 0 <= j < 8
    ensures -1 <= Directions[j].0 <= 1 && -1 <= Directions[j].1 <= 1 && Directions[j] != (0, 0)
  {
  }

  /**
   * The valid squares under a single check: the checking knight's square,
   * or every square from the king up to and including the checking piece (n steps
   * away) along the direction the check was found in.
   */
  lemma ValidSquaresMeaning(b: Board, whiteToMove: bool, king: Square, check: Ray)
    requires check in Scan(b, whiteToMove, king).checks
    ensures OnBoard(check.row, check.col)
    ensures b[check.row][check.col].Piece? && b[check.row][check.col].kind == Knight ==>
      ValidSquares(b, king, check) == [Square(check.row, check.col)]
    ensures !(b[check.row][check.col].Piece? && b[check.row][check.col].kind == Knight) ==>
      exists n :: 1 <= n < 8 && Square(check.row, check.col) == Along(king, check.dRow, check.dCol, n) &&
        |ValidSquares(b, king, check)| == n &&
        forall k :: 0 <= k < n ==> ValidSquares(b, king, check)[k] == Along(king, check.dRow, check.dCol, k + 1)
  {
    ScanSound(b, whiteToMove, king);
    CheckSquares(b, AllyOf(whiteToMove), king, check);
  }

  /** ValidSquaresMeaning for one entry that is a knight check or a check along a ray of the table. */
  lemma CheckSquares(b: Board, ally: Color, king: Square, check: Ray)
    requires KnightCheck(b, ally, king, check) || exists j, n :: 0 <= j < 8 && CheckAlong(b, ally, king, j, n, check)
    ensures OnBoard(check.row, check.col)
    ensures b[check.row][check.col].Piece? && b[check.row][check.col].kind == Knight ==>
      ValidSquares(b, king, check) == [Square(check.row, check.col)]
    ensures !(b[check.row][check.col].Piece? && b[check.row][check.col].kind == Knight) ==>
      exists n :: 1 <= n < 8 && Square(check.row, check.col) == Along(king, check.dRow, check.dCol, n) &&
        |ValidSquares(b, king, check)| == n &&
        forall k :: 0 <= k < n ==> ValidSquares(b, king, check)[k] == Along(king, check.dRow, check.dCol, k + 1)
  {
    if !KnightCheck(b, ally, king, check) {
      var j, n :| 0 <= j < 8 && CheckAlong(b, ally, king, j, n, check);
      var p := b[check.row][check.col];
      if !(p.Piece? && p.kind == Knight) {
        DirectionsAreUnit(j);
        RayUntilSquares(king, check, 1, n);
      }
    }
  }

  // What get_valid_moves promises.

  /** The check flag and list are the scan's, from the recorded king square of the side to move. */
  lemma ValidMovesScan(b: Board, whiteToMove: bool, whiteKing: Square, blackKing: Square)
    requires PawnsOffFarRank(b, whiteToMove) && SquareOnBoard(whiteKing) && SquareOnBoard(blackKing)
    ensures var o := ValidMoves(b, whiteToMove, whiteKing, blackKing);
      o.checks == Scan(b, whiteToMove, KingOf(whiteToMove, whiteKing, blackKing)).checks &&
      (o.inCheck <==> o.checks != [])
  {
  }

  /** Not in check: every move every generator emits, each piece seeing the pins the scan found. */
  lemma NotInCheckAllMoves(b: Board, whiteToMove: bool, whiteKing: Square, blackKing: Square)
    requires PawnsOffFarRank(b, whiteToMove) && SquareOnBoard(whiteKing) && SquareOnBoard(blackKing)
    requires Scan(b, whiteToMove, KingOf(whiteToMove, whiteKing, blackKing)).checks == []
    ensures ValidMoves(b, whiteToMove, whiteKing, blackKing).moves ==
      MovesWith(b, whiteToMove, Scan(b, whiteToMove, KingOf(whiteToMove, whiteKing, blackKing)).pins, 0, 0)
  {
    var king := KingOf(whiteToMove, whiteKing, blackKing);
    AllPossibleMoves(b, whiteToMove, Scan(b, whiteToMove, king).pins, whiteKing, blackKing);
  }

  /**
   * Checked by one piece: exactly the possible moves that move a king or end
   * on a valid square, each with as many copies as before.
   */
  lemma SingleCheckPrunes(b: Board, whiteToMove: bool, whiteKing: Square, blackKing: Square, m: Move)
    requires PawnsOffFarRank(b, whiteToMove) && SquareOnBoard(whiteKing) && SquareOnBoard(blackKing)
    requires |Scan(b, whiteToMove, KingOf(whiteToMove, whiteKing, blackKing)).checks| == 1
    ensures var king := KingOf(whiteToMove, whiteKing, blackKing);
      var scan := Scan(b, whiteToMove, king);
      OnBoard(scan.checks[0].row, scan.checks[0].col) &&
      multiset(ValidMoves(b, whiteToMove, whiteKing, blackKing).moves)[m] ==
        if KeepMove(m, ValidSquares(b, king, scan.checks[0]))
        then multiset(MovesWith(b, whiteToMove, scan.pins, 0, 0))[m]
        else 0
  {
    var king := KingOf(whiteToMove, whiteKing, blackKing);
    var scan := Scan(b, whiteToMove, king);
    ScanOnBoard(b, whiteToMove, king);
    assert scan.checks[0] in scan.checks;
    AllPossibleMoves(b, whiteToMove, scan.pins, whiteKing, blackKing);
    FilterCount(AllPossible(b, whiteToMove, scan.pins, whiteKing, blackKing).moves,
                ValidSquares(b, king, scan.checks[0]), m);
  }

  /**
   * Checked by one piece, every move other than a king move captures the
   * checking knight, or ends on the line from the king to the checking piece,
   * the checking piece's square included.
   */
  lemma SingleCheckBlocks(b: Board, whiteToMove: bool, whiteKing: Square, blackKing: Square, m: Move)
    requires PawnsOffFarRank(b, whiteToMove) && SquareOnBoard(whiteKing) && SquareOnBoard(blackKing)
    requires |Scan(b, whiteToMove, KingOf(whiteToMove, whiteKing, blackKing)).checks| == 1
    requires m in ValidMoves(b, whiteToMove, whiteKing, blackKing).moves
    requires !(m.pieceMoved.Piece? && m.pieceMoved.kind == King)
    ensures var king := KingOf(whiteToMove, whiteKing, blackKing);
      var check := Scan(b, whiteToMove, king).checks[0];
      m.end == Square(check.row, check.col) ||
      exists n :: 1 <= n < 8 && m.end == Along(king, check.dRow, check.dCol, n) &&
        forall k :: 1 <= k < n ==> Along(king, check.dRow, check.dCol, k) != Square(check.row, check.col)
  {
    var king := KingOf(whiteToMove, whiteKing, blackKing);
    var scan := Scan(b, whiteToMove, king);
    var check := scan.checks[0];
    assert check in scan.checks;
    ValidMovesSingleCheck(b, whiteToMove, whiteKing, blackKing);
    FilterIff(AllPossible(b, whiteToMove, scan.pins, whiteKing, blackKing).moves, ValidSquares(b, king, check), m);
    ValidSquareOnLine(b, whiteToMove, king, check, m.end);
  }

  /** A valid square under a single check is the checking piece's, or on the line from the king before it. */
  lemma ValidSquareOnLine(b: Board, whiteToMove: bool, king: Square, check: Ray, e: Square)
    requires check in Scan(b, whiteToMove, king).checks && OnBoard(check.row, check.col)
    requires e in ValidSquares(b, king, check)
    ensures e == Square(check.row, check.col) ||
      exists n :: 1 <= n < 8 && e == Along(king, check.dRow, check.dCol, n) &&
        forall k :: 1 <= k < n ==> Along(king, check.dRow, check.dCol, k) != Square(check.row, check.col)
  {
    ValidSquaresMeaning(b, whiteToMove, king, check);
    var squares := ValidSquares(b, king, check);
    var p := b[check.row][check.col];
    if !(p.Piece? && p.kind == Knight) {
      var n :| 1 <= n < 8 && Square(check.row, check.col) == Along(king, check.dRow, check.dCol, n) &&
        |squares| == n && forall k :: 0 <= k < n ==> squares[k] == Along(king, check.dRow, check.dCol, k + 1);
      var k :| 0 <= k < n && squares[k] == e;
      forall k' | 1 <= k' < k + 1
        ensures Along(king, check.dRow, check.dCol, k') != Square(check.row, check.col)
      {
        assert squares[k' - 1] == Along(king, check.dRow, check.dCol, k');
        if Along(king, check.dRow, check.dCol, k') == Square(check.row, check.col) {
          ScanSound(b, whiteToMove, king);
          assert !KnightCheck(b, AllyOf(whiteToMove), king, check);
          var j, n' :| 0 <= j < 8 && CheckAlong(b, AllyOf(whiteToMove), king, j, n', check);
          DirectionsAreUnit(j);
          AlongInjective(king, check.dRow, check.dCol, k', n);
        }
      }
    }
  }

  /** Checked by two pieces: only the king's moves, and the pins and king squares stay as they were. */
  lemma DoubleCheckKingOnly(b: Board, whiteToMove: bool, whiteKing: Square, blackKing: Square)
    requires PawnsOffFarRank(b, whiteToMove) && SquareOnBoard(whiteKing) && SquareOnBoard(blackKing)
    requires |Scan(b, whiteToMove, KingOf(whiteToMove, whiteKing, blackKing)).checks| >= 2
    ensures var o := ValidMoves(b, whiteToMove, whiteKing, blackKing);
      var king := KingOf(whiteToMove, whiteKing, blackKing);
      o.moves == KingMoves(b, whiteToMove, king) &&
      o.pins == Scan(b, whiteToMove, king).pins &&
      o.whiteKing == whiteKing && o.blackKing == blackKing
  {
  }

  /**
   * Every valid move was built from the board and starts at a piece of the
   * side to move, or, under double check, at the recorded king square.
   */
  lemma ValidMovesSnapshot(b: Board, whiteToMove: bool, whiteKing: Square, blackKing: Square, m: Move)
    requires PawnsOffFarRank(b, whiteToMove) && SquareOnBoard(whiteKing) && SquareOnBoard(blackKing)
    requires m in ValidMoves(b, whiteToMove, whiteKing, blackKing).moves
    ensures Snapshot(m, b)
    ensures HasColor(At(b, m.start), AllyOf(whiteToMove)) || m.start == KingOf(whiteToMove, whiteKing, blackKing)
  {
    var king := KingOf(whiteToMove, whiteKing, blackKing);
    var scan := Scan(b, whiteToMove, king);
    AllPossibleMoves(b, whiteToMove, scan.pins, whiteKing, blackKing);
    var all := AllPossible(b, whiteToMove, scan.pins, whiteKing, blackKing).moves;
    if scan.checks == [] {
      MovesWithSnapshot(b, whiteToMove, scan.pins, m);
    } else if |scan.checks| == 1 {
      ScanOnBoard(b, whiteToMove, king);
      assert scan.checks[0] in scan.checks;
      FilterIff(all, ValidSquares(b, king, scan.checks[0]), m);
      MovesWithSnapshot(b, whiteToMove, scan.pins, m);
    } else {
      KingMovesSnapshot(b, whiteToMove, king, KingAttackTest(b, whiteToMove), -1, -1);
    }
  }

  /**
   * The recorded square of the enemy king never changes, and neither does
   * that of the side to move when its only king stands where it is recorded.
   */
  lemma ValidMovesKeepKings(b: Board, whiteToMove: bool, whiteKing: Square, blackKing: Square)
    requires PawnsOffFarRank(b, whiteToMove) && SquareOnBoard(whiteKing) && SquareOnBoard(blackKing)
    ensures var o := ValidMoves(b, whiteToMove, whiteKing, blackKing);
      if whiteToMove then o.blackKing == blackKing else o.whiteKing == whiteKing
    ensures var o := ValidMoves(b, whiteToMove, whiteKing, blackKing);
      AllyKingsAt(b, whiteToMove, KingOf(whiteToMove, whiteKing, blackKing)) ==>
        o.whiteKing == whiteKing && o.blackKing == blackKing
  {
    var king := KingOf(whiteToMove, whiteKing, blackKing);
    var scan := Scan(b, whiteToMove, king);
    if |scan.checks| <= 1 {
      PossibleKeepsKings(b, whiteToMove, 0, 0, GenState([], scan.pins, whiteKing, blackKing));
      AfterLoopKings(b, whiteToMove, whiteKing, blackKing);
    }
  }

  lemma AfterLoopKings(b: Board, whiteToMove: bool, whiteKing: Square, blackKing: Square)
    requires PawnsOffFarRank(b, whiteToMove) && SquareOnBoard(whiteKing) && SquareOnBoard(blackKing)
    requires |Scan(b, whiteToMove, KingOf(whiteToMove, whiteKing, blackKing)).checks| <= 1
    ensures var o := ValidMoves(b, whiteToMove, whiteKing, blackKing);
      var g := AllPossible(b, whiteToMove, Scan(b, whiteToMove, KingOf(whiteToMove, whiteKing, blackKing)).pins,
                           whiteKing, blackKing);
      o.whiteKing == g.whiteKing && o.blackKing == g.blackKing
  {
  }
}
