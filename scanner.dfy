/**
 * The attack and pin scanner (GameState.check_pins_checks): rays cast from
 * the king of the side to move along the engine's direction table, then the
 * knight jumps, collecting pin and check entries (row, col, dRow, dCol).
 */
module Scanner {
  import opened Pieces

  /** A pin or check entry: the square found and the direction it was found in. */
  datatype Ray = Ray(row: int, col: int, dRow: int, dCol: int)

  /** The pins and checks found so far, in the order the engine appends them. */
  datatype Found = Found(pins: seq<Ray>, checks: seq<Ray>)

  function Join(a: Found, b: Found): Found
  {
    Found(a.pins + b.pins, a.checks + b.checks)
  }

  lemma JoinAssoc(a: Found, b: Found, c: Found)
    ensures Join(Join(a, b), c) == Join(a, Join(b, c))
  {
    assert a.pins + b.pins + c.pins == a.pins + (b.pins + c.pins);
    assert a.checks + b.checks + c.checks == a.checks + (b.checks + c.checks);
  }

  lemma JoinNone(a: Found)
    ensures Join(a, Found([], [])) == a
  {
    assert a.pins + [] == a.pins;
    assert a.checks + [] == a.checks;
  }

  /**
   * The direction table of the scan, as written in the engine: (0, 1) is
   * listed twice and (0, -1) not at all.
   */
  const Directions: seq<(int, int)> :=
    [(-1, 0), (0, 1), (1, 0), (0, 1), (-1, -1), (-1, 1), (1, -1), (1, 1)]

  const KnightJumps: seq<(int, int)> :=
    [(-2, -1), (-2, 1), (-1, -2), (-1, 2), (1, -2), (1, 2), (2, -1), (2, 1)]

  /**
   * Whether an enemy piece of this kind, met at distance i on ray j, attacks
   * the king: rooks on rays 0..3, bishops on rays 4..7, queens anywhere,
   * pawns and kings only next to the king (pawns only on the two rays that
   * match their capturing direction).
   */
  predicate CanAttack(j: int, i: int, kind: Kind, enemy: Color)
  {
    (0 <= j <= 3 && kind == Rook) ||
    (4 <= j <= 7 && kind == Bishop) ||
    (i == 1 && kind == Pawn && ((enemy == White && 6 <= j <= 7) || (enemy == Black && 4 <= j <= 5))) ||
    kind == Queen ||
    (i == 1 && kind == King)
  }

  /**
   * The walk along ray j from step i on, with the candidate pin pp found so
   * far. An ally piece other than the king becomes the candidate, a second
   * one ends the ray; an attacking enemy is a check when there is no
   * candidate (and ends the ray) and confirms the candidate as a pin
   * otherwise (and the walk goes on); every other square is passed over.
   */
  function ScanRay(b: Board, ally: Color, king: Square, j: nat, i: nat, pp: Option<Ray>): Found
    requires j < 8 && 1 <= i <= 8
    decreases 8 - i
  {
    if i == 8 then Found([], [])
    else
      var d := Directions[j];
      var e := Along(king, d.0, d.1, i);
      if !SquareOnBoard(e) then Found([], [])
      else
        var p := At(b, e);
        if HasColor(p, ally) && p.kind != King then
          if pp.None? then ScanRay(b, ally, king, j, i + 1, Some(Ray(e.row, e.col, d.0, d.1)))
          else Found([], [])
        else if HasColor(p, Enemy(ally)) && CanAttack(j, i, p.kind, Enemy(ally)) then
          if pp.None? then Found([], [Ray(e.row, e.col, d.0, d.1)])
          else Join(Found([pp.value], []), ScanRay(b, ally, king, j, i + 1, pp))
        else ScanRay(b, ally, king, j, i + 1, pp)
  }

  /** The rays of the direction table from index j on. */
  function RaysFrom(b: Board, ally: Color, king: Square, j: nat): Found
    requires j <= 8
    decreases 8 - j
  {
    if j == 8 then Found([], [])
    else Join(ScanRay(b, ally, king, j, 1, None), RaysFrom(b, ally, king, j + 1))
  }

  /** The enemy knights on the jumps from index k on. */
  function KnightChecksFrom(b: Board, ally: Color, king: Square, k: nat): seq<Ray>
    requires k <= 8
    decreases 8 - k
  {
    if k == 8 then []
    else KnightCheckAt(b, ally, king, k) + KnightChecksFrom(b, ally, king, k + 1)
  }

  /** The check entry for jump k, if an enemy knight stands there. */
  function KnightCheckAt(b: Board, ally: Color, king: Square, k: nat): seq<Ray>
    requires k < 8
  {
    var m := KnightJumps[k];
    var e := Along(king, m.0, m.1, 1);
    if SquareOnBoard(e) && At(b, e) == Piece(Enemy(ally), Knight) then [Ray(e.row, e.col, m.0, m.1)] else []
  }

  /** The pins and checks check_pins_checks reports for the king of the side to move at `king`. */
  function Scan(b: Board, whiteToMove: bool, king: Square): Found
  {
    var ally := AllyOf(whiteToMove);
    var rays := RaysFrom(b, ally, king, 0);
    Found(rays.pins, rays.checks + KnightChecksFrom(b, ally, king, 0))
  }

  /** pins and checks are the lists the scan from the king square reports. */
  predicate Reports(b: Board, whiteToMove: bool, king: Square, pins: seq<Ray>, checks: seq<Ray>)
  {
    pins == Scan(b, whiteToMove, king).pins && checks == Scan(b, whiteToMove, king).checks
  }

  /** The inCheck flag check_pins_checks reports (the GameState method proves it equal). */
  predicate Attacked(b: Board, whiteToMove: bool, king: Square)
  {
    Scan(b, whiteToMove, king).checks != []
  }

  // What the entries mean.

  /** e is an attacking enemy piece n steps from the king along ray j. */
  predicate CheckAlong(b: Board, ally: Color, king: Square, j: int, n: int, e: Ray)
    requires 0 <= j < 8
  {
    (e.dRow, e.dCol) == Directions[j] && 1 <= n < 8 &&
    Square(e.row, e.col) == Along(king, e.dRow, e.dCol, n) &&
    OnBoard(e.row, e.col) && HasColor(b[e.row][e.col], Enemy(ally)) &&
    CanAttack(j, n, b[e.row][e.col].kind, Enemy(ally))
  }

  /** e is an enemy knight one knight jump from the king. */
  predicate KnightCheck(b: Board, ally: Color, king: Square, e: Ray)
  {
    (e.dRow, e.dCol) in KnightJumps &&
    Square(e.row, e.col) == Along(king, e.dRow, e.dCol, 1) &&
    OnBoard(e.row, e.col) && b[e.row][e.col] == Piece(Enemy(ally), Knight)
  }

  /** e is an ally piece other than the king n steps from the king along ray j. */
  predicate PinAlong(b: Board, ally: Color, king: Square, j: int, n: int, e: Ray)
    requires 0 <= j < 8
  {
    (e.dRow, e.dCol) == Directions[j] && 1 <= n < 8 &&
    Square(e.row, e.col) == Along(king, e.dRow, e.dCol, n) &&
    OnBoard(e.row, e.col) && HasColor(b[e.row][e.col], ally) && b[e.row][e.col].kind != King
  }

  lemma {:induction false} ScanRaySound(b: Board, ally: Color, king: Square, j: nat, i: nat, pp: Option<Ray>)
    requires j < 8 && 1 <= i <= 8
    requires pp.Some? ==> exists n :: PinAlong(b, ally, king, j, n, pp.value)
    ensures forall e :: e in ScanRay(b, ally, king, j, i, pp).checks ==>
      exists n :: i <= n && CheckAlong(b, ally, king, j, n, e)
    ensures forall e :: e in ScanRay(b, ally, king, j, i, pp).checks ==> pp.None?
    ensures forall e :: e in ScanRay(b, ally, king, j, i, pp).pins ==>
      exists n :: PinAlong(b, ally, king, j, n, e)
    decreases 8 - i
  {
    if i < 8 {
      var d := Directions[j];
      var e := Along(king, d.0, d.1, i);
      if SquareOnBoard(e) {
        var p := At(b, e);
        if HasColor(p, ally) && p.kind != King {
          if pp.None? {
            var cand := Ray(e.row, e.col, d.0, d.1);
            assert PinAlong(b, ally, king, j, i, cand);
            ScanRaySound(b, ally, king, j, i + 1, Some(cand));
          }
        } else if HasColor(p, Enemy(ally)) && CanAttack(j, i, p.kind, Enemy(ally)) {
          if pp.None? {
            assert CheckAlong(b, ally, king, j, i, Ray(e.row, e.col, d.0, d.1));
          } else {
            ScanRaySound(b, ally, king, j, i + 1, pp);
          }
        } else {
          ScanRaySound(b, ally, king, j, i + 1, pp);
        }
      }
    }
  }

  lemma {:induction false} RaysFromSound(b: Board, ally: Color, king: Square, j: nat)
    requires j <= 8
    ensures forall e :: e in RaysFrom(b, ally, king, j).checks ==>
      exists j', n :: j <= j' < 8 && CheckAlong(b, ally, king, j', n, e)
    ensures forall e :: e in RaysFrom(b, ally, king, j).pins ==>
      exists j', n :: j <= j' < 8 && PinAlong(b, ally, king, j', n, e)
    decreases 8 - j
  {
    if j < 8 {
      ScanRaySound(b, ally, king, j, 1, None);
      RaysFromSound(b, ally, king, j + 1);
    }
  }

  lemma {:induction false} KnightChecksSound(b: Board, ally: Color, king: Square, k: nat)
    requires k <= 8
    ensures forall e :: e in KnightChecksFrom(b, ally, king, k) ==> KnightCheck(b, ally, king, e)
    decreases 8 - k
  {
    if k < 8 {
      KnightChecksSound(b, ally, king, k + 1);
    }
  }

  /**
   * Every check entry is an enemy knight a knight jump away or an attacking
   * enemy piece on a scanned ray, and every pin entry an ally piece other
   * than the king on a scanned ray.
   */
  lemma ScanSound(b: Board, whiteToMove: bool, king: Square)
    ensures forall e :: e in Scan(b, whiteToMove, king).checks ==>
      KnightCheck(b, AllyOf(whiteToMove), king, e) ||
      exists j, n :: 0 <= j < 8 && CheckAlong(b, AllyOf(whiteToMove), king, j, n, e)
    ensures forall e :: e in Scan(b, whiteToMove, king).pins ==>
      exists j, n :: 0 <= j < 8 && PinAlong(b, AllyOf(whiteToMove), king, j, n, e)
  {
    RaysFromSound(b, AllyOf(whiteToMove), king, 0);
    KnightChecksSound(b, AllyOf(whiteToMove), king, 0);
  }

  // What the scan is bound to report.

  /** The entry the scan records for step n of ray j. */
  function EntryAt(king: Square, j: int, n: int): Ray
    requires 0 <= j < 8
  {
    var d := Directions[j];
    var e := Along(king, d.0, d.1, n);
    Ray(e.row, e.col, d.0, d.1)
  }

  /**
   * The walk passes over step k of ray j: the square is on the board and
   * holds neither an ally piece other than the king nor an enemy piece that
   * attacks from there.
   */
  predicate Passes(b: Board, ally: Color, king: Square, j: int, k: int)
    requires 0 <= j < 8
  {
    var e := Along(king, Directions[j].0, Directions[j].1, k);
    SquareOnBoard(e) &&
    !(HasColor(At(b, e), ally) && At(b, e).kind != King) &&
    !(HasColor(At(b, e), Enemy(ally)) && CanAttack(j, k, At(b, e).kind, Enemy(ally)))
  }

  /** Step n of ray j holds an enemy piece that attacks the king from there. */
  predicate AttacksAt(b: Board, ally: Color, king: Square, j: int, n: int)
    requires 0 <= j < 8
  {
    var e := Along(king, Directions[j].0, Directions[j].1, n);
    SquareOnBoard(e) && HasColor(At(b, e), Enemy(ally)) && CanAttack(j, n, At(b, e).kind, Enemy(ally))
  }

  /** Step n of ray j holds an ally piece other than the king. */
  predicate ShieldsAt(b: Board, ally: Color, king: Square, j: int, n: int)
    requires 0 <= j < 8
  {
    var e := Along(king, Directions[j].0, Directions[j].1, n);
    SquareOnBoard(e) && HasColor(At(b, e), ally) && At(b, e).kind != King
  }

  /** With no candidate pin, an attacker reached over passable squares is reported as a check. */
  lemma {:induction false} ScanRayCheckComplete(b: Board, ally: Color, king: Square, j: nat, i: nat, n: int)
    requires j < 8 && 1 <= i <= n < 8
    requires forall k :: i <= k < n ==> Passes(b, ally, king, j, k)
    requires AttacksAt(b, ally, king, j, n)
    ensures EntryAt(king, j, n) in ScanRay(b, ally, king, j, i, None).checks
    decreases n - i
  {
    if i < n {
      assert Passes(b, ally, king, j, i);
      ScanRayCheckComplete(b, ally, king, j, i + 1, n);
    }
  }

  /** With a candidate pin held, an attacker reached over passable squares confirms it as a pin. */
  lemma {:induction false} ScanRayPinConfirmed(b: Board, ally: Color, king: Square, j: nat, i: nat, m: int, pin: Ray)
    requires j < 8 && 1 <= i <= m < 8
    requires forall k :: i <= k < m ==> Passes(b, ally, king, j, k)
    requires AttacksAt(b, ally, king, j, m)
    ensures pin in ScanRay(b, ally, king, j, i, Some(pin)).pins
    decreases m - i
  {
    if i < m {
      assert Passes(b, ally, king, j, i);
      ScanRayPinConfirmed(b, ally, king, j, i + 1, m, pin);
    }
  }

  /**
   * An ally piece other than the king at step n, reached over passable
   * squares, with an attacker at step m beyond it reached over passable
   * squares, is reported as a pin.
   */
  lemma {:induction false} ScanRayPinComplete(b: Board, ally: Color, king: Square, j: nat, i: nat, n: int, m: int)
    requires j < 8 && 1 <= i <= n < m < 8
    requires forall k :: i <= k < n ==> Passes(b, ally, king, j, k)
    requires ShieldsAt(b, ally, king, j, n)
    requires forall k :: n < k < m ==> Passes(b, ally, king, j, k)
    requires AttacksAt(b, ally, king, j, m)
    ensures EntryAt(king, j, n) in ScanRay(b, ally, king, j, i, None).pins
    decreases n - i
  {
    if i < n {
      assert Passes(b, ally, king, j, i);
      ScanRayPinComplete(b, ally, king, j, i + 1, n, m);
    } else {
      ScanRayPinConfirmed(b, ally, king, j, n + 1, m, EntryAt(king, j, n));
    }
  }

  /** What ray j reports is reported by the ray loop from any earlier index on. */
  lemma {:induction false} RaysFromKeeps(b: Board, ally: Color, king: Square, j0: nat, j: nat, e: Ray)
    requires j0 <= j < 8
    ensures e in ScanRay(b, ally, king, j, 1, None).checks ==> e in RaysFrom(b, ally, king, j0).checks
    ensures e in ScanRay(b, ally, king, j, 1, None).pins ==> e in RaysFrom(b, ally, king, j0).pins
    decreases j - j0
  {
    var head := ScanRay(b, ally, king, j0, 1, None);
    var rest := RaysFrom(b, ally, king, j0 + 1);
    assert RaysFrom(b, ally, king, j0) == Join(head, rest);
    if j0 < j {
      RaysFromKeeps(b, ally, king, j0 + 1, j, e);
      assert e in rest.checks ==> e in head.checks + rest.checks;
      assert e in rest.pins ==> e in head.pins + rest.pins;
    } else {
      assert e in head.checks ==> e in head.checks + rest.checks;
      assert e in head.pins ==> e in head.pins + rest.pins;
    }
  }

  /** A knight jump onto an enemy knight is reported by the knight loop from any earlier index on. */
  lemma {:induction false} KnightChecksComplete(b: Board, ally: Color, king: Square, k0: nat, k: nat)
    requires k0 <= k < 8
    requires var e := Along(king, KnightJumps[k].0, KnightJumps[k].1, 1);
      SquareOnBoard(e) && At(b, e) == Piece(Enemy(ally), Knight)
    ensures var e := Along(king, KnightJumps[k].0, KnightJumps[k].1, 1);
      Ray(e.row, e.col, KnightJumps[k].0, KnightJumps[k].1) in KnightChecksFrom(b, ally, king, k0)
    decreases k - k0
  {
    if k0 < k {
      KnightChecksComplete(b, ally, king, k0 + 1, k);
    }
  }

  /**
   * The scan reports every attacker along a ray whose squares before it are
   * passable, and the king is then in check.
   */
  lemma ScanReportsRayCheck(b: Board, whiteToMove: bool, king: Square, j: nat, n: int)
    requires j < 8 && 1 <= n < 8
    requires forall k :: 1 <= k < n ==> Passes(b, AllyOf(whiteToMove), king, j, k)
    requires AttacksAt(b, AllyOf(whiteToMove), king, j, n)
    ensures EntryAt(king, j, n) in Scan(b, whiteToMove, king).checks
    ensures Attacked(b, whiteToMove, king)
  {
    var ally := AllyOf(whiteToMove);
    ScanRayCheckComplete(b, ally, king, j, 1, n);
    RaysFromKeeps(b, ally, king, 0, j, EntryAt(king, j, n));
  }

  /** The scan reports every enemy knight a jump of the table away, and the king is then in check. */
  lemma ScanReportsKnightCheck(b: Board, whiteToMove: bool, king: Square, k: nat)
    requires k < 8
    requires var e := Along(king, KnightJumps[k].0, KnightJumps[k].1, 1);
      SquareOnBoard(e) && At(b, e) == Piece(Enemy(AllyOf(whiteToMove)), Knight)
    ensures var e := Along(king, KnightJumps[k].0, KnightJumps[k].1, 1);
      Ray(e.row, e.col, KnightJumps[k].0, KnightJumps[k].1) in Scan(b, whiteToMove, king).checks
    ensures Attacked(b, whiteToMove, king)
  {
    KnightChecksComplete(b, AllyOf(whiteToMove), king, 0, k);
  }

  /**
   * The scan reports every ally piece other than the king that stands, over
   * passable squares, between the king and an attacker on a ray.
   */
  lemma ScanReportsPin(b: Board, whiteToMove: bool, king: Square, j: nat, n: int, m: int)
    requires j < 8 && 1 <= n < m < 8
    requires forall k :: 1 <= k < n ==> Passes(b, AllyOf(whiteToMove), king, j, k)
    requires ShieldsAt(b, AllyOf(whiteToMove), king, j, n)
    requires forall k :: n < k < m ==> Passes(b, AllyOf(whiteToMove), king, j, k)
    requires AttacksAt(b, AllyOf(whiteToMove), king, j, m)
    ensures EntryAt(king, j, n) in Scan(b, whiteToMove, king).pins
  {
    var ally := AllyOf(whiteToMove);
    ScanRayPinComplete(b, ally, king, j, 1, n, m);
    RaysFromKeeps(b, ally, king, 0, j, EntryAt(king, j, n));
  }

  /** Every entry found lies on the board. */
  lemma ScanOnBoard(b: Board, whiteToMove: bool, king: Square)
    ensures forall e :: e in Scan(b, whiteToMove, king).checks ==> OnBoard(e.row, e.col)
    ensures forall e :: e in Scan(b, whiteToMove, king).pins ==> OnBoard(e.row, e.col)
  {
    ScanSound(b, whiteToMove, king);
  }

  /** Nothing is ever reported in the leftward direction (0, -1): that ray is never cast. */
  lemma ScanNeverLeftward(b: Board, whiteToMove: bool, king: Square)
    ensures forall e :: e in Scan(b, whiteToMove, king).checks ==> (e.dRow, e.dCol) != (0, -1)
    ensures forall e :: e in Scan(b, whiteToMove, king).pins ==> (e.dRow, e.dCol) != (0, -1)
  {
    ScanSound(b, whiteToMove, king);
    assert forall j :: 0 <= j < 8 ==> Directions[j] != (0, -1);
    assert (0, -1) !in KnightJumps;
  }

  /** Rays 1 and 3 of the table are the same ray, scanned the same way. */
  lemma {:induction false} RightwardRaysAgree(b: Board, ally: Color, king: Square, i: nat, pp: Option<Ray>)
    requires 1 <= i <= 8
    ensures ScanRay(b, ally, king, 1, i, pp) == ScanRay(b, ally, king, 3, i, pp)
    decreases 8 - i
  {
    if i < 8 {
      var e := Along(king, 0, 1, i);
      var cand := Some(Ray(e.row, e.col, 0, 1));
      RightwardRaysAgree(b, ally, king, i + 1, pp);
      RightwardRaysAgree(b, ally, king, i + 1, cand);
      RightwardStep(b, ally, king, i, pp);
    }
  }

  /** One square of RightwardRaysAgree: rays 1 and 3 take the same branch at step i. */
  lemma RightwardStep(b: Board, ally: Color, king: Square, i: nat, pp: Option<Ray>)
    requires 1 <= i < 8
    requires ScanRay(b, ally, king, 1, i + 1, pp) == ScanRay(b, ally, king, 3, i + 1, pp)
    requires var e := Along(king, 0, 1, i);
      ScanRay(b, ally, king, 1, i + 1, Some(Ray(e.row, e.col, 0, 1))) ==
      ScanRay(b, ally, king, 3, i + 1, Some(Ray(e.row, e.col, 0, 1)))
    ensures ScanRay(b, ally, king, 1, i, pp) == ScanRay(b, ally, king, 3, i, pp)
  {
    assert Directions[1] == Directions[3] == (0, 1);
    var e := Along(king, 0, 1, i);
    if SquareOnBoard(e) && At(b, e).Piece? {
      var p := At(b, e);
      assert CanAttack(1, i, p.kind, Enemy(ally)) == CanAttack(3, i, p.kind, Enemy(ally));
    }
  }

  lemma CountInJoin(a: seq<Ray>, x: seq<Ray>, c: seq<Ray>, d: seq<Ray>, e: Ray)
    requires e in x
    ensures multiset(a + x + c + x + d)[e] >= 2
  {
    assert multiset(a + x + c + x + d) == multiset(a) + multiset(x) + multiset(c) + multiset(x) + multiset(d);
  }

  lemma TwiceInJoin(r0: Found, r1: Found, r2: Found, rest: Found, knights: seq<Ray>, e: Ray)
    ensures var all := Join(r0, Join(r1, Join(r2, Join(r1, rest))));
      (e in r1.checks ==> multiset(all.checks + knights)[e] >= 2) &&
      (e in r1.pins ==> multiset(all.pins)[e] >= 2)
  {
    var all := Join(r0, Join(r1, Join(r2, Join(r1, rest))));
    if e in r1.checks {
      assert all.checks + knights == r0.checks + r1.checks + r2.checks + r1.checks + (rest.checks + knights);
      CountInJoin(r0.checks, r1.checks, r2.checks, rest.checks + knights, e);
    }
    if e in r1.pins {
      assert all.pins == r0.pins + r1.pins + r2.pins + r1.pins + rest.pins;
      CountInJoin(r0.pins, r1.pins, r2.pins, rest.pins, e);
    }
  }

  /** The report lists rays 0, 1, 2 and 3 (with 3 equal to 1) before the rest. */
  lemma RaysFromUnfolded(b: Board, ally: Color, king: Square)
    ensures RaysFrom(b, ally, king, 0) ==
      Join(ScanRay(b, ally, king, 0, 1, None), Join(ScanRay(b, ally, king, 1, 1, None),
        Join(ScanRay(b, ally, king, 2, 1, None), Join(ScanRay(b, ally, king, 1, 1, None), RaysFrom(b, ally, king, 4)))))
  {
    RightwardRaysAgree(b, ally, king, 1, None);
    assert RaysFrom(b, ally, king, 3) == Join(ScanRay(b, ally, king, 3, 1, None), RaysFrom(b, ally, king, 4));
    assert RaysFrom(b, ally, king, 2) == Join(ScanRay(b, ally, king, 2, 1, None), RaysFrom(b, ally, king, 3));
    assert RaysFrom(b, ally, king, 1) == Join(ScanRay(b, ally, king, 1, 1, None), RaysFrom(b, ally, king, 2));
  }

  /**
   * Whatever the rightward ray finds is reported at least twice: a rook
   * giving check from the right yields two check entries.
   */
  lemma RightwardReportedTwice(b: Board, whiteToMove: bool, king: Square, e: Ray)
    ensures e in ScanRay(b, AllyOf(whiteToMove), king, 1, 1, None).checks ==>
      multiset(Scan(b, whiteToMove, king).checks)[e] >= 2
    ensures e in ScanRay(b, AllyOf(whiteToMove), king, 1, 1, None).pins ==>
      multiset(Scan(b, whiteToMove, king).pins)[e] >= 2
  {
    var ally := AllyOf(whiteToMove);
    RaysFromUnfolded(b, ally, king);
    TwiceInJoin(ScanRay(b, ally, king, 0, 1, None), ScanRay(b, ally, king, 1, 1, None),
                ScanRay(b, ally, king, 2, 1, None), RaysFrom(b, ally, king, 4),
                KnightChecksFrom(b, ally, king, 0), e);
  }
}
