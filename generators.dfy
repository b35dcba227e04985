/**
 * The per-piece move generators of GameState (get_pawn_moves ... get_king_moves)
 * as functions of the board, the side to move, the square and the pin the
 * generator found for that square, and the pin list they look the pin up in.
 */
module Generators {
  import opened Pieces
  import opened Moves
  import opened Scanner

  // The pin list.

  /**
   * The entry for square (r, c) that the generators' backward search over the
   * pin list stops at: the last one in the list.
   */
  function FindPin(pins: seq<Ray>, r: int, c: int): Option<Ray>
  {
    if pins == [] then None
    else
      var later := FindPin(pins[1..], r, c);
      if later.Some? then later
      else if pins[0].row == r && pins[0].col == c then Some(pins[0])
      else None
  }

  /** Python's list.remove on the pin list: drops the first entry equal to x. */
  function RemoveFirst(s: seq<Ray>, x: Ray): seq<Ray>
  {
    if s == [] then []
    else if s[0] == x then s[1..]
    else [s[0]] + RemoveFirst(s[1..], x)
  }

  /**
   * The pin list after a generator's lookup at (r, c): the entry found is
   * removed, unless keep holds (the rook, bishop and knight generators keep
   * it when the piece at (r, c) is a queen).
   */
  function ConsumePin(pins: seq<Ray>, r: int, c: int, keep: bool): seq<Ray>
  {
    match FindPin(pins, r, c)
    case None => pins
    case Some(p) => if keep then pins else RemoveFirst(pins, p)
  }

  /** The pin direction a generator works with, if the piece is pinned. */
  function PinDirection(pin: Option<Ray>): Option<(int, int)>
  {
    match pin
    case None => None
    case Some(p) => Some((p.dRow, p.dCol))
  }

  lemma {:induction false} FindPinFound(pins: seq<Ray>, r: int, c: int)
    ensures FindPin(pins, r, c).Some? ==>
      FindPin(pins, r, c).value in pins &&
      FindPin(pins, r, c).value.row == r && FindPin(pins, r, c).value.col == c
    ensures FindPin(pins, r, c).None? ==> forall p :: p in pins ==> (p.row, p.col) != (r, c)
  {
    if pins != [] {
      FindPinFound(pins[1..], r, c);
    }
  }

  /** The search runs from the back: what a later part of the list holds wins. */
  lemma {:induction false} FindPinAppend(a: seq<Ray>, t: seq<Ray>, r: int, c: int)
    ensures FindPin(a + t, r, c) == if FindPin(t, r, c).Some? then FindPin(t, r, c) else FindPin(a, r, c)
  {
    if a != [] {
      assert (a + t)[1..] == a[1..] + t;
      FindPinAppend(a[1..], t, r, c);
    } else {
      assert a + t == t;
    }
  }

  /** Removing an entry for another square leaves the lookup of (r, c) alone. */
  lemma {:induction false} FindPinRemoveOther(s: seq<Ray>, x: Ray, r: int, c: int)
    requires (x.row, x.col) != (r, c)
    ensures FindPin(RemoveFirst(s, x), r, c) == FindPin(s, r, c)
  {
    if s != [] && s[0] != x {
      FindPinRemoveOther(s[1..], x, r, c);
      assert ([s[0]] + RemoveFirst(s[1..], x))[1..] == RemoveFirst(s[1..], x);
    }
  }

  /**
   * The side effect of a lookup is harmless: only the lookup of the square
   * itself can change, so every other square finds the same pin as before.
   */
  lemma ConsumeKeepsOtherSquares(pins: seq<Ray>, r: int, c: int, keep: bool, r': int, c': int)
    requires (r', c') != (r, c)
    ensures FindPin(ConsumePin(pins, r, c, keep), r', c') == FindPin(pins, r', c')
  {
    FindPinFound(pins, r, c);
    match FindPin(pins, r, c)
    case None =>
    case Some(p) =>
      if !keep {
        FindPinRemoveOther(pins, p, r', c');
      }
  }

  // Pawns.

  /** A pawn's forward step: row -1 for white, +1 for black. */
  function Forward(whiteToMove: bool): int
  {
    if whiteToMove then -1 else 1
  }

  /** The row a pawn of the side to move starts on. */
  function HomeRow(whiteToMove: bool): int
  {
    if whiteToMove then 6 else 1
  }

  /**
   * get_pawn_moves: the forward steps, then the capture towards column c - 1,
   * then the capture towards column c + 1.
   */
  function PawnMoves(b: Board, whiteToMove: bool, from: Square, pin: Option<(int, int)>): seq<Move>
    requires SquareOnBoard(from) && OnBoard(from.row + Forward(whiteToMove), from.col)
  {
    PawnAdvance(b, whiteToMove, from, pin) + PawnTake(b, whiteToMove, from, pin, -1) + PawnTake(b, whiteToMove, from, pin, 1)
  }

  /**
   * The step forward onto an empty square, and from the home row the double
   * step, which is only reached when the single step was emitted; a pinned
   * pawn takes them only when the pin runs along its file.
   */
  function PawnAdvance(b: Board, whiteToMove: bool, from: Square, pin: Option<(int, int)>): seq<Move>
    requires SquareOnBoard(from) && OnBoard(from.row + Forward(whiteToMove), from.col)
  {
    var dr := Forward(whiteToMove);
    var r, c := from.row, from.col;
    if b[r + dr][c] == Empty && (pin.None? || pin.value == (dr, 0)) then
      [NewMove(from, Square(r + dr, c), b)] +
      (if r == HomeRow(whiteToMove) && b[r + 2 * dr][c] == Empty then [NewMove(from, Square(r + 2 * dr, c), b)] else [])
    else []
  }

  /** The diagonal step towards column offset dc onto an enemy piece; a pinned pawn only in its pin direction. */
  function PawnTake(b: Board, whiteToMove: bool, from: Square, pin: Option<(int, int)>, dc: int): seq<Move>
    requires SquareOnBoard(from) && OnBoard(from.row + Forward(whiteToMove), from.col)
  {
    var dr := Forward(whiteToMove);
    var r, c := from.row, from.col;
    if 0 <= c + dc <= 7 && HasColor(b[r + dr][c + dc], Enemy(AllyOf(whiteToMove))) && (pin.None? || pin.value == (dr, dc))
    then [NewMove(from, Square(r + dr, c + dc), b)] else []
  }

  /** The pawn at `from` captures diagonally towards column offset dc onto an enemy piece. */
  predicate PawnCapture(b: Board, whiteToMove: bool, from: Square, pin: Option<(int, int)>, dc: int, m: Move)
  {
    var dr := Forward(whiteToMove);
    SquareOnBoard(from) && OnBoard(from.row + dr, from.col + dc) &&
    HasColor(b[from.row + dr][from.col + dc], Enemy(AllyOf(whiteToMove))) &&
    (pin.None? || pin.value == (dr, dc)) &&
    m == NewMove(from, Square(from.row + dr, from.col + dc), b)
  }

  /**
   * The pawn's moves, completely: one step onto an empty square, two steps
   * from the home row over two empty squares, a diagonal step onto an enemy
   * piece; each only in the pin direction when the pawn is pinned.
   */
  lemma PawnMovesIff(b: Board, whiteToMove: bool, from: Square, pin: Option<(int, int)>, m: Move)
    requires SquareOnBoard(from) && OnBoard(from.row + Forward(whiteToMove), from.col)
    ensures m in PawnMoves(b, whiteToMove, from, pin) <==>
      var dr := Forward(whiteToMove);
      var one := Square(from.row + dr, from.col);
      (m == NewMove(from, one, b) && At(b, one) == Empty && (pin.None? || pin.value == (dr, 0))) ||
      (from.row == HomeRow(whiteToMove) && At(b, one) == Empty && (pin.None? || pin.value == (dr, 0)) &&
       b[from.row + 2 * dr][from.col] == Empty && m == NewMove(from, Square(from.row + 2 * dr, from.col), b)) ||
      PawnCapture(b, whiteToMove, from, pin, -1, m) || PawnCapture(b, whiteToMove, from, pin, 1, m)
  {
    var ahead := PawnAdvance(b, whiteToMove, from, pin);
    var left := PawnTake(b, whiteToMove, from, pin, -1);
    var right := PawnTake(b, whiteToMove, from, pin, 1);
    InConcat(ahead + left, right, m);
    InConcat(ahead, left, m);
    assert m in left <==> PawnCapture(b, whiteToMove, from, pin, -1, m);
    assert m in right <==> PawnCapture(b, whiteToMove, from, pin, 1, m);
  }

  /** A pinned pawn only moves in its pin direction: one step, or two for the double step. */
  lemma PawnPinnedAlongPin(b: Board, whiteToMove: bool, from: Square, p: (int, int), m: Move)
    requires SquareOnBoard(from) && OnBoard(from.row + Forward(whiteToMove), from.col)
    requires m in PawnMoves(b, whiteToMove, from, Some(p))
    ensures m.end == Along(from, p.0, p.1, 1) || m.end == Along(from, p.0, p.1, 2)
  {
    var dr := Forward(whiteToMove);
    PawnMovesIff(b, whiteToMove, from, Some(p), m);
    assert Along(from, p.0, p.1, 1) == Square(from.row + p.0, from.col + p.1);
    if PawnCapture(b, whiteToMove, from, Some(p), -1, m) || PawnCapture(b, whiteToMove, from, Some(p), 1, m) {
    } else if m == NewMove(from, Square(from.row + dr, from.col), b) {
      assert p == (dr, 0);
    } else {
      assert p == (dr, 0);
      assert Along(from, p.0, p.1, 2) == Square(from.row + 2 * dr, from.col);
    }
  }

  lemma InConcat<T>(a: seq<T>, b: seq<T>, x: T)
    ensures x in a + b <==> x in a || x in b
  {
  }

  lemma ConcatAssoc<T>(a: seq<T>, b: seq<T>, c: seq<T>)
    ensures a + (b + c) == a + b + c
  {
  }

  lemma ConcatEmpty<T>(a: seq<T>)
    ensures [] + a == a && a + [] == a
  {
  }

  // Rooks, bishops and queens.

  const RookDirections: seq<(int, int)> := [(-1, 0), (0, -1), (1, 0), (0, 1)]

  const BishopDirections: seq<(int, int)> := [(-1, -1), (1, 1), (1, -1), (-1, 1)]

  /** The generators walk direction d only if unpinned or d is the pin direction or its opposite. */
  predicate AlongPin(pin: Option<(int, int)>, d: (int, int))
  {
    pin.None? || pin.value == d || pin.value == (-d.0, -d.1)
  }

  /** The walk from step i on: each empty square, then the first occupied one if it holds an enemy. */
  function RayMoves(b: Board, from: Square, d: (int, int), enemy: Color, i: nat): seq<Move>
    requires SquareOnBoard(from) && 1 <= i <= 8
    decreases 8 - i
  {
    if i == 8 then []
    else
      var e := Along(from, d.0, d.1, i);
      if !SquareOnBoard(e) then []
      else if At(b, e) == Empty then [NewMove(from, e, b)] + RayMoves(b, from, d, enemy, i + 1)
      else if HasColor(At(b, e), enemy) then [NewMove(from, e, b)]
      else []
  }

  /** The walks in dirs[k..], skipping the directions a pin forbids. */
  function SlideMoves(b: Board, from: Square, dirs: seq<(int, int)>, k: nat, enemy: Color, pin: Option<(int, int)>): seq<Move>
    requires SquareOnBoard(from) && k <= |dirs|
    decreases |dirs| - k
  {
    if k == |dirs| then []
    else
      (if AlongPin(pin, dirs[k]) then RayMoves(b, from, dirs[k], enemy, 1) else [])
      + SlideMoves(b, from, dirs, k + 1, enemy, pin)
  }

  /** The walk along d from step i on, when the pin lets the piece move along d at all. */
  function Walk(b: Board, from: Square, d: (int, int), enemy: Color, pin: Option<(int, int)>, i: nat): seq<Move>
    requires SquareOnBoard(from) && 1 <= i <= 8
  {
    if AlongPin(pin, d) then RayMoves(b, from, d, enemy, i) else []
  }

  /** get_rook_moves. */
  function RookMoves(b: Board, whiteToMove: bool, from: Square, pin: Option<(int, int)>): seq<Move>
    requires SquareOnBoard(from)
  {
    SlideMoves(b, from, RookDirections, 0, Enemy(AllyOf(whiteToMove)), pin)
  }

  /** get_bishop_moves. */
  function BishopMoves(b: Board, whiteToMove: bool, from: Square, pin: Option<(int, int)>): seq<Move>
    requires SquareOnBoard(from)
  {
    SlideMoves(b, from, BishopDirections, 0, Enemy(AllyOf(whiteToMove)), pin)
  }

  /** Square n of the walk is reached: it and every square before it from step i on are on the board,
      those before it are empty, and it is empty or holds an enemy. */
  predicate Reaches(b: Board, from: Square, d: (int, int), enemy: Color, i: int, n: int)
  {
    i <= n < 8 &&
    (forall k :: i <= k <= n ==> SquareOnBoard(Along(from, d.0, d.1, k))) &&
    (forall k :: i <= k < n ==> At(b, Along(from, d.0, d.1, k)) == Empty) &&
    (At(b, Along(from, d.0, d.1, n)) == Empty || HasColor(At(b, Along(from, d.0, d.1, n)), enemy))
  }

  /**
   * A walk emits exactly the squares it reaches: every empty square up to the
   * first occupied one, and that one if and only if it holds an enemy piece.
   */
  lemma RayMovesIff(b: Board, from: Square, d: (int, int), enemy: Color, i: nat, m: Move)
    requires SquareOnBoard(from) && 1 <= i <= 8
    ensures m in RayMoves(b, from, d, enemy, i) <==>
      exists n :: Reaches(b, from, d, enemy, i, n) && m == NewMove(from, Along(from, d.0, d.1, n), b)
  {
    RayMovesEmit(b, from, d, enemy, i, m);
    if WalkEmits(b, from, d, enemy, i, m) {
      WalkStopReaches(b, from, d, enemy, i, m);
    }
    if exists n :: Reaches(b, from, d, enemy, i, n) && m == NewMove(from, Along(from, d.0, d.1, n), b) {
      var n :| Reaches(b, from, d, enemy, i, n) && m == NewMove(from, Along(from, d.0, d.1, n), b);
      ReachesEmits(b, from, d, enemy, i, n, m);
    }
  }

  /**
   * The walk from step i on emits m, square by square: m is the move to the
   * square at step i and that square is empty or holds an enemy, or the square
   * is empty and the walk from step i + 1 emits m.
   */
  predicate WalkEmits(b: Board, from: Square, d: (int, int), enemy: Color, i: nat, m: Move)
    requires SquareOnBoard(from)
    decreases 8 - i
  {
    var e := Along(from, d.0, d.1, i);
    i < 8 && SquareOnBoard(e) &&
    ((m == NewMove(from, e, b) && (At(b, e) == Empty || HasColor(At(b, e), enemy))) ||
     (At(b, e) == Empty && WalkEmits(b, from, d, enemy, i + 1, m)))
  }

  lemma {:induction false} RayMovesEmit(b: Board, from: Square, d: (int, int), enemy: Color, i: nat, m: Move)
    requires SquareOnBoard(from) && 1 <= i <= 8
    ensures m in RayMoves(b, from, d, enemy, i) <==> WalkEmits(b, from, d, enemy, i, m)
    decreases 8 - i
  {
    if i < 8 {
      var e := Along(from, d.0, d.1, i);
      if SquareOnBoard(e) && At(b, e) == Empty {
        RayMovesEmit(b, from, d, enemy, i + 1, m);
        InConcat([NewMove(from, e, b)], RayMoves(b, from, d, enemy, i + 1), m);
      }
    }
  }

  /** The step at which the walk from step i emits m. */
  function WalkStop(b: Board, from: Square, d: (int, int), enemy: Color, i: nat, m: Move): nat
    requires SquareOnBoard(from) && WalkEmits(b, from, d, enemy, i, m)
    decreases 8 - i
  {
    var e := Along(from, d.0, d.1, i);
    if m == NewMove(from, e, b) && (At(b, e) == Empty || HasColor(At(b, e), enemy)) then i
    else WalkStop(b, from, d, enemy, i + 1, m)
  }

  /** What the walk emits, it emits at a square it reaches. */
  lemma {:induction false} WalkStopReaches(b: Board, from: Square, d: (int, int), enemy: Color, i: nat, m: Move)
    requires SquareOnBoard(from) && WalkEmits(b, from, d, enemy, i, m)
    ensures Reaches(b, from, d, enemy, i, WalkStop(b, from, d, enemy, i, m))
    ensures m == NewMove(from, Along(from, d.0, d.1, WalkStop(b, from, d, enemy, i, m)), b)
    decreases 8 - i
  {
    var e := Along(from, d.0, d.1, i);
    if m == NewMove(from, e, b) && (At(b, e) == Empty || HasColor(At(b, e), enemy)) {
      assert Reaches(b, from, d, enemy, i, i);
    } else {
      WalkStopReaches(b, from, d, enemy, i + 1, m);
      ReachesExtend(b, from, d, enemy, i, WalkStop(b, from, d, enemy, i + 1, m));
    }
  }

  /** The walk emits the move to every square it reaches. */
  lemma {:induction false} ReachesEmits(b: Board, from: Square, d: (int, int), enemy: Color, i: nat, n: int, m: Move)
    requires SquareOnBoard(from) && Reaches(b, from, d, enemy, i, n)
    requires m == NewMove(from, Along(from, d.0, d.1, n), b)
    ensures WalkEmits(b, from, d, enemy, i, m)
    decreases n - i
  {
    if n > i {
      ReachesShrink(b, from, d, enemy, i, n);
      ReachesEmits(b, from, d, enemy, i + 1, n, m);
      ReachesFirstEmpty(b, from, d, enemy, i, n);
    }
  }

  lemma ReachesFirstEmpty(b: Board, from: Square, d: (int, int), enemy: Color, i: int, n: int)
    requires Reaches(b, from, d, enemy, i, n) && n > i
    ensures SquareOnBoard(Along(from, d.0, d.1, i)) && At(b, Along(from, d.0, d.1, i)) == Empty
  {
  }

  lemma ReachesExtend(b: Board, from: Square, d: (int, int), enemy: Color, i: int, n: int)
    requires SquareOnBoard(Along(from, d.0, d.1, i)) && At(b, Along(from, d.0, d.1, i)) == Empty
    requires Reaches(b, from, d, enemy, i + 1, n)
    ensures Reaches(b, from, d, enemy, i, n)
  {
  }

  lemma ReachesShrink(b: Board, from: Square, d: (int, int), enemy: Color, i: int, n: int)
    requires Reaches(b, from, d, enemy, i, n) && n > i
    ensures Reaches(b, from, d, enemy, i + 1, n)
  {
  }

  /** Every move of a walk ends on the walk's line, in direction d. */
  lemma {:induction false} RayMovesOnLine(b: Board, from: Square, d: (int, int), enemy: Color, i: nat, m: Move)
    requires SquareOnBoard(from) && 1 <= i <= 8
    requires m in RayMoves(b, from, d, enemy, i)
    ensures exists n :: i <= n < 8 && m.end == Along(from, d.0, d.1, n)
  {
    RayMovesIff(b, from, d, enemy, i, m);
  }

  /** The slide emits exactly the moves of the walks in the directions the pin allows. */
  lemma SlideMovesIff(b: Board, from: Square, dirs: seq<(int, int)>, k: nat, enemy: Color,
                      pin: Option<(int, int)>, m: Move)
    requires SquareOnBoard(from) && k <= |dirs|
    ensures m in SlideMoves(b, from, dirs, k, enemy, pin) <==>
      exists kk :: k <= kk < |dirs| && AlongPin(pin, dirs[kk]) && m in RayMoves(b, from, dirs[kk], enemy, 1)
  {
    if m in SlideMoves(b, from, dirs, k, enemy, pin) {
      SlideMovesSound(b, from, dirs, k, enemy, pin, m);
    }
    if exists kk :: k <= kk < |dirs| && AlongPin(pin, dirs[kk]) && m in RayMoves(b, from, dirs[kk], enemy, 1) {
      var kk :| k <= kk < |dirs| && AlongPin(pin, dirs[kk]) && m in RayMoves(b, from, dirs[kk], enemy, 1);
      assert InWalk(b, from, dirs[kk], enemy, pin, m);
      SlideMovesComplete(b, from, dirs, k, enemy, pin, kk, m);
    }
  }

  /** Every move of the slide comes from the walk in one of the directions the pin allows. */
  lemma {:induction false} SlideMovesSound(b: Board, from: Square, dirs: seq<(int, int)>, k: nat, enemy: Color,
                                           pin: Option<(int, int)>, m: Move)
    requires SquareOnBoard(from) && k <= |dirs| && m in SlideMoves(b, from, dirs, k, enemy, pin)
    ensures exists kk :: k <= kk < |dirs| && AlongPin(pin, dirs[kk]) && m in RayMoves(b, from, dirs[kk], enemy, 1)
    decreases |dirs| - k
  {
    SlideMovesStep(b, from, dirs, k, enemy, pin, m);
    if AlongPin(pin, dirs[k]) && m in RayMoves(b, from, dirs[k], enemy, 1) {
      assert k <= k < |dirs|;
    } else {
      SlideMovesSound(b, from, dirs, k + 1, enemy, pin, m);
    }
  }

  /** The slide lists every move of the walk in each direction the pin allows. */
  lemma {:induction false} SlideMovesComplete(b: Board, from: Square, dirs: seq<(int, int)>, k: nat, enemy: Color,
                                              pin: Option<(int, int)>, kk: nat, m: Move)
    requires SquareOnBoard(from) && k <= kk < |dirs| && InWalk(b, from, dirs[kk], enemy, pin, m)
    ensures m in SlideMoves(b, from, dirs, k, enemy, pin)
    decreases kk - k
  {
    SlideMovesStep(b, from, dirs, k, enemy, pin, m);
    if kk > k {
      SlideMovesComplete(b, from, dirs, k + 1, enemy, pin, kk, m);
    }
  }

  /** m is a move of the walk in direction d, and the pin lets the piece walk along d. */
  predicate InWalk(b: Board, from: Square, d: (int, int), enemy: Color, pin: Option<(int, int)>, m: Move)
    requires SquareOnBoard(from)
  {
    AlongPin(pin, d) && m in RayMoves(b, from, d, enemy, 1)
  }

  /** One step of the loop over directions: the walk in dirs[k] and then the rest. */
  lemma SlideMovesStep(b: Board, from: Square, dirs: seq<(int, int)>, k: nat, enemy: Color,
                       pin: Option<(int, int)>, m: Move)
    requires SquareOnBoard(from) && k < |dirs|
    ensures m in SlideMoves(b, from, dirs, k, enemy, pin) <==>
      (AlongPin(pin, dirs[k]) && m in RayMoves(b, from, dirs[k], enemy, 1)) || m in SlideMoves(b, from, dirs, k + 1, enemy, pin)
  {
    var head := if AlongPin(pin, dirs[k]) then RayMoves(b, from, dirs[k], enemy, 1) else [];
    var rest := SlideMoves(b, from, dirs, k + 1, enemy, pin);
    assert SlideMoves(b, from, dirs, k, enemy, pin) == head + rest;
    InConcat(head, rest, m);
  }

  /** The square is n steps from `from` along p or along its opposite. */
  predicate OnPinLine(from: Square, p: (int, int), e: Square)
  {
    exists n :: 1 <= n < 8 && (e == Along(from, p.0, p.1, n) || e == Along(from, -p.0, -p.1, n))
  }

  /** A pinned slider moves only along the pin direction or its exact opposite. */
  lemma PinnedSlideStaysOnLine(b: Board, from: Square, dirs: seq<(int, int)>, enemy: Color, p: (int, int), m: Move)
    requires SquareOnBoard(from)
    requires m in SlideMoves(b, from, dirs, 0, enemy, Some(p))
    ensures OnPinLine(from, p, m.end)
  {
    SlideMovesIff(b, from, dirs, 0, enemy, Some(p), m);
    var kk :| 0 <= kk < |dirs| && AlongPin(Some(p), dirs[kk]) && m in RayMoves(b, from, dirs[kk], enemy, 1);
    RayMovesOnLine(b, from, dirs[kk], enemy, 1, m);
    var n :| 1 <= n < 8 && m.end == Along(from, dirs[kk].0, dirs[kk].1, n);
    AllowedDirectionOnPinLine(from, p, dirs[kk], n, m.end);
  }

  lemma AllowedDirectionOnPinLine(from: Square, p: (int, int), d: (int, int), n: int, e: Square)
    requires AlongPin(Some(p), d) && 1 <= n < 8 && e == Along(from, d.0, d.1, n)
    ensures OnPinLine(from, p, e)
  {
    if d == p {
      assert e == Along(from, p.0, p.1, n);
    } else {
      assert d == (-p.0, -p.1);
      assert e == Along(from, -p.0, -p.1, n);
    }
    assert 1 <= n < 8 && (e == Along(from, p.0, p.1, n) || e == Along(from, -p.0, -p.1, n));
  }

  /** A move of a slide lies on the walk of an allowed direction, n steps out. */
  lemma SlideMoveLine(b: Board, from: Square, dirs: seq<(int, int)>, enemy: Color, pin: Option<(int, int)>, m: Move)
    returns (kk: nat, n: int)
    requires SquareOnBoard(from)
    requires m in SlideMoves(b, from, dirs, 0, enemy, pin)
    ensures kk < |dirs| && AlongPin(pin, dirs[kk]) && 1 <= n < 8 && m.end == Along(from, dirs[kk].0, dirs[kk].1, n)
  {
    SlideMovesIff(b, from, dirs, 0, enemy, pin, m);
    kk :| 0 <= kk < |dirs| && AlongPin(pin, dirs[kk]) && m in RayMoves(b, from, dirs[kk], enemy, 1);
    RayMovesOnLine(b, from, dirs[kk], enemy, 1, m);
    n :| 1 <= n < 8 && m.end == Along(from, dirs[kk].0, dirs[kk].1, n);
  }

  /** A rook moves along its rank and file: every end square differs in exactly one coordinate. */
  lemma RookMovesOrthogonal(b: Board, whiteToMove: bool, from: Square, pin: Option<(int, int)>, m: Move)
    requires SquareOnBoard(from)
    requires m in RookMoves(b, whiteToMove, from, pin)
    ensures (m.end.row == from.row) != (m.end.col == from.col)
  {
    var kk, n := SlideMoveLine(b, from, RookDirections, Enemy(AllyOf(whiteToMove)), pin, m);
    RookLine(from, kk, n);
  }

  lemma RookLine(from: Square, kk: nat, n: int)
    requires kk < 4 && 1 <= n
    ensures var e := Along(from, RookDirections[kk].0, RookDirections[kk].1, n);
      (e.row == from.row) != (e.col == from.col)
  {
  }

  /** A bishop moves along its diagonals: both coordinates change by the same amount. */
  lemma BishopMovesDiagonal(b: Board, whiteToMove: bool, from: Square, pin: Option<(int, int)>, m: Move)
    requires SquareOnBoard(from)
    requires m in BishopMoves(b, whiteToMove, from, pin)
    ensures m.end.row != from.row
    ensures m.end.row - from.row == m.end.col - from.col || m.end.row - from.row == from.col - m.end.col
  {
    var kk, n := SlideMoveLine(b, from, BishopDirections, Enemy(AllyOf(whiteToMove)), pin, m);
    BishopLine(from, kk, n);
  }

  lemma BishopLine(from: Square, kk: nat, n: int)
    requires kk < 4 && 1 <= n
    ensures var e := Along(from, BishopDirections[kk].0, BishopDirections[kk].1, n);
      e.row != from.row && (e.row - from.row == e.col - from.col || e.row - from.row == from.col - e.col)
  {
  }

  // Knights.

  const KnightShifts: seq<int> := [-2, -1, 1, 2]

  /**
   * get_knight_moves from shift indices (xi, yi) on: every pair of shifts
   * (x, y), not only the L-shaped ones, landing on the board on a cell whose
   * colour code differs from the knight's; nothing at all when pinned.
   */
  function KnightFrom(b: Board, from: Square, pinned: bool, xi: nat, yi: nat): seq<Move>
    requires SquareOnBoard(from) && xi <= 4 && yi <= 4
    decreases 4 - xi, 4 - yi
  {
    if xi == 4 then []
    else if yi == 4 then KnightFrom(b, from, pinned, xi + 1, 0)
    else KnightAt(b, from, pinned, xi, yi) + KnightFrom(b, from, pinned, xi, yi + 1)
  }

  /** The move of get_knight_moves for the shift pair (KnightShifts[xi], KnightShifts[yi]), if any. */
  function KnightAt(b: Board, from: Square, pinned: bool, xi: nat, yi: nat): seq<Move>
    requires SquareOnBoard(from) && xi < 4 && yi < 4
  {
    var e := Square(from.row + KnightShifts[yi], from.col + KnightShifts[xi]);
    if SquareOnBoard(e) && !pinned && (At(b, e) == Empty || !SameColor(At(b, e), At(b, from)))
    then [NewMove(from, e, b)] else []
  }

  function KnightMoves(b: Board, from: Square, pinned: bool): seq<Move>
    requires SquareOnBoard(from)
  {
    KnightFrom(b, from, pinned, 0, 0)
  }

  /** The shift pair (x, y) is still to come when the loops stand at indices (xi, yi). */
  predicate ShiftPending(xi: int, yi: int, x: int, y: int)
  {
    xi < x || (xi == x && yi <= y)
  }

  /** Shifts x, y (indices into KnightShifts) take the knight at `from` onto a square not of its colour, by move m. */
  predicate KnightLands(b: Board, from: Square, x: int, y: int, m: Move)
  {
    0 <= x < 4 && 0 <= y < 4 && SquareOnBoard(from) &&
    var e := Square(from.row + KnightShifts[y], from.col + KnightShifts[x]);
    SquareOnBoard(e) && !SameColor(At(b, e), At(b, from)) && m == NewMove(from, e, b)
  }

  /**
   * The knight's moves, completely: a move to (row + y, col + x) for every pair
   * of shifts x, y in {-2, -1, 1, 2} that lands on the board on a cell not of
   * the knight's colour, and none when the knight is pinned.
   */
  lemma {:induction false} KnightFromIff(b: Board, from: Square, pinned: bool, xi: nat, yi: nat, m: Move)
    requires SquareOnBoard(from) && xi <= 4 && yi <= 4
    ensures m in KnightFrom(b, from, pinned, xi, yi) <==>
      !pinned && exists x, y :: ShiftPending(xi, yi, x, y) && KnightLands(b, from, x, y, m)
    decreases 4 - xi, 4 - yi
  {
    if xi < 4 {
      if yi == 4 {
        KnightFromIff(b, from, pinned, xi + 1, 0, m);
        if exists x, y :: ShiftPending(xi, yi, x, y) && KnightLands(b, from, x, y, m) {
          var x, y :| ShiftPending(xi, yi, x, y) && KnightLands(b, from, x, y, m);
          assert ShiftPending(xi + 1, 0, x, y);
        }
      } else {
        KnightFromIff(b, from, pinned, xi, yi + 1, m);
        KnightFromStep(b, from, pinned, xi, yi, m);
        if !pinned && KnightLands(b, from, xi, yi, m) {
          assert ShiftPending(xi, yi, xi, yi);
        }
        if exists x, y :: ShiftPending(xi, yi, x, y) && KnightLands(b, from, x, y, m) {
          var x, y :| ShiftPending(xi, yi, x, y) && KnightLands(b, from, x, y, m);
          if (x, y) != (xi, yi) {
            assert ShiftPending(xi, yi + 1, x, y);
          }
        }
      }
    }
  }

  /** One step of the inner loop: the shift pair at (xi, yi) and then the rest. */
  lemma KnightFromStep(b: Board, from: Square, pinned: bool, xi: nat, yi: nat, m: Move)
    requires SquareOnBoard(from) && xi < 4 && yi < 4
    ensures m in KnightFrom(b, from, pinned, xi, yi) <==>
      (!pinned && KnightLands(b, from, xi, yi, m)) || m in KnightFrom(b, from, pinned, xi, yi + 1)
  {
    var head := KnightAt(b, from, pinned, xi, yi);
    var rest := KnightFrom(b, from, pinned, xi, yi + 1);
    assert m in head <==> !pinned && KnightLands(b, from, xi, yi, m);
    InConcat(head, rest, m);
  }

  /** A pinned knight generates nothing. */
  lemma PinnedKnightStays(b: Board, from: Square)
    requires SquareOnBoard(from)
    ensures KnightMoves(b, from, true) == []
  {
    if KnightMoves(b, from, true) != [] {
      KnightFromIff(b, from, true, 0, 0, KnightMoves(b, from, true)[0]);
    }
  }

  /**
   * The shifts include the diagonal (2, -2): from the start position the
   * knight on b1 (row 7, column 1) may jump to d3 (row 5, column 3).
   */
  lemma KnightDiagonalJump()
    ensures NewMove(Square(7, 1), Square(5, 3), InitialBoard()) in KnightMoves(InitialBoard(), Square(7, 1), false)
  {
    var m := NewMove(Square(7, 1), Square(5, 3), InitialBoard());
    KnightFromIff(InitialBoard(), Square(7, 1), false, 0, 0, m);
    assert ShiftPending(0, 0, 3, 0) && KnightLands(InitialBoard(), Square(7, 1), 3, 0, m);
  }

  // Kings.

  /**
   * get_king_moves from offsets (x, y) on: every adjacent square on the board
   * not holding an ally piece gets a move appended, and a second copy before
   * it when the scan from that square reports no check.
   */
  function KingFrom(b: Board, whiteToMove: bool, from: Square, attacked: Square -> bool, x: int, y: int): seq<Move>
    requires SquareOnBoard(from) && -1 <= x <= 2 && -1 <= y <= 2
    decreases 2 - x, 2 - y
  {
    if x == 2 then []
    else if y == 2 then KingFrom(b, whiteToMove, from, attacked, x + 1, -1)
    else KingAt(b, whiteToMove, from, attacked, x, y) + KingFrom(b, whiteToMove, from, attacked, x, y + 1)
  }

  /** The moves of get_king_moves for the offset (x, y): twice when the target is safe, once when attacked. */
  function KingAt(b: Board, whiteToMove: bool, from: Square, attacked: Square -> bool, x: int, y: int): seq<Move>
    requires SquareOnBoard(from)
  {
    var e := Square(from.row + y, from.col + x);
    if SquareOnBoard(e) && !HasColor(At(b, e), AllyOf(whiteToMove)) then
      var m := NewMove(from, e, b);
      (if !attacked(e) then [m] else []) + [m]
    else []
  }

  function KingMoves(b: Board, whiteToMove: bool, from: Square): seq<Move>
    requires SquareOnBoard(from)
  {
    KingFrom(b, whiteToMove, from, KingAttackTest(b, whiteToMove), -1, -1)
  }

  /**
   * The square recorded for the white (isWhite) or black king once
   * get_king_moves ran from `from`: the generator leaves the king of the side
   * to move at `from` when it tried a target square (tried), and never
   * touches the other king.
   */
  function KingRecordedAt(isWhite: bool, whiteToMove: bool, tried: bool, from: Square, loc: Square): Square
  {
    if isWhite == whiteToMove && tried then from else loc
  }

  /** The test get_king_moves runs for each target: the scan with the king placed there. */
  function KingAttackTest(b: Board, whiteToMove: bool): Square -> bool
  {
    e => Attacked(b, whiteToMove, e)
  }

  /**
   * attacked answers, for every square, whether the scan from that square
   * reports a check; it is KingAttackTest, as AttackTestIsScan shows.
   */
  ghost predicate IsAttackTest(b: Board, whiteToMove: bool, attacked: Square -> bool)
  {
    forall e {:trigger Attacked(b, whiteToMove, e)} :: attacked(e) == Attacked(b, whiteToMove, e)
  }

  lemma AttackTestIsScan(b: Board, whiteToMove: bool)
    ensures IsAttackTest(b, whiteToMove, KingAttackTest(b, whiteToMove))
  {
  }

  /** The square e is one the king generator appends a move to. */
  predicate KingTarget(b: Board, whiteToMove: bool, from: Square, e: Square)
  {
    -1 <= e.row - from.row <= 1 && -1 <= e.col - from.col <= 1 &&
    SquareOnBoard(e) && !HasColor(At(b, e), AllyOf(whiteToMove))
  }

  /** The offset (x, y) is still to come when the loops stand at (x0, y0). */
  predicate OffsetPending(x0: int, y0: int, x: int, y: int)
  {
    x0 < x || (x0 == x && y0 <= y)
  }

  /** The king loops from offset (x, y) on list the move to e exactly KingCount times. */
  lemma {:induction false} KingFromCount(b: Board, whiteToMove: bool, from: Square, attacked: Square -> bool,
                                         x: int, y: int, e: Square)
    requires SquareOnBoard(from) && SquareOnBoard(e) && -1 <= x <= 2 && -1 <= y <= 2
    ensures multiset(KingFrom(b, whiteToMove, from, attacked, x, y))[NewMove(from, e, b)] ==
      KingCount(b, whiteToMove, from, attacked, x, y, e)
    decreases 2 - x, 2 - y, 1
  {
    if x < 2 {
      if y == 2 {
        KingFromRowEnd(b, whiteToMove, from, attacked, x, e);
      } else {
        KingFromStep(b, whiteToMove, from, attacked, x, y, e);
      }
    } else {
      KingFromDone(b, whiteToMove, from, attacked, y, e);
    }
  }

  /**
   * How often the generator, from offsets (x, y) on, lists the move to e:
   * twice when the scan from there reports no check, once when it does (the
   * unconditional append keeps checked squares in the list), and never for
   * squares that are not targets or whose offset has passed.
   */
  function KingCount(b: Board, whiteToMove: bool, from: Square, attacked: Square -> bool, x: int, y: int, e: Square): nat
  {
    if KingTarget(b, whiteToMove, from, e) && OffsetPending(x, y, e.col - from.col, e.row - from.row)
    then (if attacked(e) then 1 else 2)
    else 0
  }

  /** The end of the inner loop: the count carries over to the next column of offsets. */
  lemma {:induction false} KingFromRowEnd(b: Board, whiteToMove: bool, from: Square, attacked: Square -> bool,
                                          x: int, e: Square)
    requires SquareOnBoard(from) && SquareOnBoard(e) && -1 <= x < 2
    ensures multiset(KingFrom(b, whiteToMove, from, attacked, x, 2))[NewMove(from, e, b)] ==
      KingCount(b, whiteToMove, from, attacked, x, 2, e)
    decreases 2 - x, 0, 0
  {
    KingFromCount(b, whiteToMove, from, attacked, x + 1, -1, e);
    assert KingFrom(b, whiteToMove, from, attacked, x, 2) == KingFrom(b, whiteToMove, from, attacked, x + 1, -1);
  }

  /** Past the last column of offsets nothing more is listed. */
  lemma KingFromDone(b: Board, whiteToMove: bool, from: Square, attacked: Square -> bool, y: int, e: Square)
    requires SquareOnBoard(from) && SquareOnBoard(e) && -1 <= y <= 2
    ensures multiset(KingFrom(b, whiteToMove, from, attacked, 2, y))[NewMove(from, e, b)] ==
      KingCount(b, whiteToMove, from, attacked, 2, y, e)
  {
  }

  /** One step of the inner loop: the copies of the move to e added at offset (x, y). */
  lemma {:induction false} KingFromStep(b: Board, whiteToMove: bool, from: Square, attacked: Square -> bool,
                                        x: int, y: int, e: Square)
    requires SquareOnBoard(from) && SquareOnBoard(e) && -1 <= x < 2 && -1 <= y < 2
    ensures multiset(KingFrom(b, whiteToMove, from, attacked, x, y))[NewMove(from, e, b)] ==
      KingCount(b, whiteToMove, from, attacked, x, y, e)
    decreases 2 - x, 2 - y, 0
  {
    KingFromCount(b, whiteToMove, from, attacked, x, y + 1, e);
    KingCountStep(b, whiteToMove, from, attacked, x, y, e);
    if KingTarget(b, whiteToMove, from, Square(from.row + y, from.col + x)) {
      KingFromTargetStep(b, whiteToMove, from, attacked, x, y, e);
    } else {
      KingFromSkipStep(b, whiteToMove, from, attacked, x, y);
    }
  }

  /** Passing offset (x, y) takes off the copies of the move to e when e is that offset's target square. */
  lemma KingCountStep(b: Board, whiteToMove: bool, from: Square, attacked: Square -> bool, x: int, y: int, e: Square)
    requires -1 <= x < 2 && -1 <= y < 2
    ensures KingCount(b, whiteToMove, from, attacked, x, y, e) ==
      KingCount(b, whiteToMove, from, attacked, x, y + 1, e) +
      if e == Square(from.row + y, from.col + x) && KingTarget(b, whiteToMove, from, e)
      then (if attacked(e) then 1 else 2) else 0
  {
    assert e == Square(from.row + y, from.col + x) <==> e.col - from.col == x && e.row - from.row == y;
  }

  lemma KingFromTargetStep(b: Board, whiteToMove: bool, from: Square, attacked: Square -> bool, x: int, y: int, e: Square)
    requires SquareOnBoard(from) && SquareOnBoard(e) && -1 <= x < 2 && -1 <= y < 2
    requires KingTarget(b, whiteToMove, from, Square(from.row + y, from.col + x))
    ensures multiset(KingFrom(b, whiteToMove, from, attacked, x, y))[NewMove(from, e, b)] ==
      multiset(KingFrom(b, whiteToMove, from, attacked, x, y + 1))[NewMove(from, e, b)] +
      if e == Square(from.row + y, from.col + x) then (if attacked(e) then 1 else 2) else 0
  {
    var head := KingAt(b, whiteToMove, from, attacked, x, y);
    var rest := KingFrom(b, whiteToMove, from, attacked, x, y + 1);
    assert KingFrom(b, whiteToMove, from, attacked, x, y) == head + rest;
    assert multiset(head + rest) == multiset(head) + multiset(rest);
    KingAtCount(b, whiteToMove, from, attacked, x, y, e);
  }

  /** The copies of the move to e that the offset (x, y) of a target square adds. */
  lemma KingAtCount(b: Board, whiteToMove: bool, from: Square, attacked: Square -> bool, x: int, y: int, e: Square)
    requires SquareOnBoard(from) && SquareOnBoard(e) && -1 <= x < 2 && -1 <= y < 2
    requires KingTarget(b, whiteToMove, from, Square(from.row + y, from.col + x))
    ensures multiset(KingAt(b, whiteToMove, from, attacked, x, y))[NewMove(from, e, b)] ==
      if e == Square(from.row + y, from.col + x) then (if attacked(e) then 1 else 2) else 0
  {
    var e' := Square(from.row + y, from.col + x);
    var m' := NewMove(from, e', b);
    assert NewMove(from, e, b) == m' <==> e == e';
    if attacked(e') {
      assert KingAt(b, whiteToMove, from, attacked, x, y) == [m'];
    } else {
      assert KingAt(b, whiteToMove, from, attacked, x, y) == [m', m'];
    }
  }

  lemma KingFromSkipStep(b: Board, whiteToMove: bool, from: Square, attacked: Square -> bool, x: int, y: int)
    requires SquareOnBoard(from) && -1 <= x < 2 && -1 <= y < 2
    requires !KingTarget(b, whiteToMove, from, Square(from.row + y, from.col + x))
    ensures KingFrom(b, whiteToMove, from, attacked, x, y) == KingFrom(b, whiteToMove, from, attacked, x, y + 1)
  {
    assert [] + KingFrom(b, whiteToMove, from, attacked, x, y + 1) == KingFrom(b, whiteToMove, from, attacked, x, y + 1);
  }

  /** Every move to a target square is listed, whatever the scan says; nothing else is. */
  lemma KingMovesIff(b: Board, whiteToMove: bool, from: Square, attacked: Square -> bool, m: Move)
    requires SquareOnBoard(from)
    ensures m in KingFrom(b, whiteToMove, from, attacked, -1, -1) <==>
      SquareOnBoard(m.end) && KingTarget(b, whiteToMove, from, m.end) && m == NewMove(from, m.end, b)
  {
    if m in KingFrom(b, whiteToMove, from, attacked, -1, -1) {
      KingMoveIsTarget(b, whiteToMove, from, attacked, m);
    }
    if SquareOnBoard(m.end) && KingTarget(b, whiteToMove, from, m.end) && m == NewMove(from, m.end, b) {
      KingTargetIsListed(b, whiteToMove, from, attacked, m);
    }
  }

  lemma KingMoveIsTarget(b: Board, whiteToMove: bool, from: Square, attacked: Square -> bool, m: Move)
    requires SquareOnBoard(from)
    requires m in KingFrom(b, whiteToMove, from, attacked, -1, -1)
    ensures SquareOnBoard(m.end) && KingTarget(b, whiteToMove, from, m.end) && m == NewMove(from, m.end, b)
  {
    var ms := KingFrom(b, whiteToMove, from, attacked, -1, -1);
    KingMovesSnapshot(b, whiteToMove, from, attacked, -1, -1);
    assert Snapshot(m, b) && m.start == from;
    InMultisetCount(ms, m);
    KingFromCount(b, whiteToMove, from, attacked, -1, -1, m.end);
  }

  lemma KingTargetIsListed(b: Board, whiteToMove: bool, from: Square, attacked: Square -> bool, m: Move)
    requires SquareOnBoard(from)
    requires SquareOnBoard(m.end) && KingTarget(b, whiteToMove, from, m.end) && m == NewMove(from, m.end, b)
    ensures m in KingFrom(b, whiteToMove, from, attacked, -1, -1)
  {
    var ms := KingFrom(b, whiteToMove, from, attacked, -1, -1);
    KingFromCount(b, whiteToMove, from, attacked, -1, -1, m.end);
    assert KingCount(b, whiteToMove, from, attacked, -1, -1, m.end) > 0;
    InMultisetCount(ms, m);
  }

  lemma InMultisetCount<T>(s: seq<T>, x: T)
    ensures x in s <==> multiset(s)[x] > 0
  {
  }

  // Every generated move is a snapshot of the board taken at its start square.

  /** Every move in ms was built from board b and starts at `from`. */
  predicate AllFrom(ms: seq<Move>, b: Board, from: Square)
  {
    forall m :: m in ms ==> Snapshot(m, b) && m.start == from
  }

  lemma {:induction false} RayMovesSnapshot(b: Board, from: Square, d: (int, int), enemy: Color, i: nat)
    requires SquareOnBoard(from) && 1 <= i <= 8
    ensures AllFrom(RayMoves(b, from, d, enemy, i), b, from)
    decreases 8 - i
  {
    if i < 8 {
      RayMovesSnapshot(b, from, d, enemy, i + 1);
    }
  }

  lemma {:induction false} SlideMovesSnapshot(b: Board, from: Square, dirs: seq<(int, int)>, k: nat, enemy: Color,
                                              pin: Option<(int, int)>)
    requires SquareOnBoard(from) && k <= |dirs|
    ensures AllFrom(SlideMoves(b, from, dirs, k, enemy, pin), b, from)
    decreases |dirs| - k
  {
    if k < |dirs| {
      RayMovesSnapshot(b, from, dirs[k], enemy, 1);
      SlideMovesSnapshot(b, from, dirs, k + 1, enemy, pin);
    }
  }

  lemma {:induction false} KnightMovesSnapshot(b: Board, from: Square, pinned: bool, xi: nat, yi: nat)
    requires SquareOnBoard(from) && xi <= 4 && yi <= 4
    ensures AllFrom(KnightFrom(b, from, pinned, xi, yi), b, from)
    decreases 4 - xi, 4 - yi
  {
    if xi < 4 {
      if yi == 4 {
        KnightMovesSnapshot(b, from, pinned, xi + 1, 0);
      } else {
        KnightMovesSnapshot(b, from, pinned, xi, yi + 1);
      }
    }
  }

  lemma {:induction false} KingMovesSnapshot(b: Board, whiteToMove: bool, from: Square, attacked: Square -> bool,
                                             x: int, y: int)
    requires SquareOnBoard(from) && -1 <= x <= 2 && -1 <= y <= 2
    ensures AllFrom(KingFrom(b, whiteToMove, from, attacked, x, y), b, from)
    decreases 2 - x, 2 - y
  {
    if x < 2 {
      if y == 2 {
        KingMovesSnapshot(b, whiteToMove, from, attacked, x + 1, -1);
      } else {
        KingMovesSnapshot(b, whiteToMove, from, attacked, x, y + 1);
        KingAtSnapshot(b, whiteToMove, from, attacked, x, y);
        AllFromConcat(KingAt(b, whiteToMove, from, attacked, x, y), KingFrom(b, whiteToMove, from, attacked, x, y + 1), b, from);
      }
    }
  }

  lemma KingAtSnapshot(b: Board, whiteToMove: bool, from: Square, attacked: Square -> bool, x: int, y: int)
    requires SquareOnBoard(from)
    ensures AllFrom(KingAt(b, whiteToMove, from, attacked, x, y), b, from)
  {
  }

  lemma AllFromConcat(a: seq<Move>, c: seq<Move>, b: Board, from: Square)
    requires AllFrom(a, b, from) && AllFrom(c, b, from)
    ensures AllFrom(a + c, b, from)
  {
  }

  lemma PawnMovesSnapshot(b: Board, whiteToMove: bool, from: Square, pin: Option<(int, int)>)
    requires SquareOnBoard(from) && OnBoard(from.row + Forward(whiteToMove), from.col)
    ensures AllFrom(PawnMoves(b, whiteToMove, from, pin), b, from)
  {
    var ahead := PawnAdvance(b, whiteToMove, from, pin);
    var left := PawnTake(b, whiteToMove, from, pin, -1);
    var right := PawnTake(b, whiteToMove, from, pin, 1);
    PawnAdvanceSnapshot(b, whiteToMove, from, pin);
    assert AllFrom(left, b, from);
    assert AllFrom(right, b, from);
    AllFromConcat(ahead, left, b, from);
    AllFromConcat(ahead + left, right, b, from);
  }

  lemma PawnAdvanceSnapshot(b: Board, whiteToMove: bool, from: Square, pin: Option<(int, int)>)
    requires SquareOnBoard(from) && OnBoard(from.row + Forward(whiteToMove), from.col)
    ensures AllFrom(PawnAdvance(b, whiteToMove, from, pin), b, from)
  {
  }
}
