/**
 The planes Six reads of a position, given as its moves. A plane value is 0 or 1; the 25 x 25 crop is indexed flat, its
 row from r and its column from q.
 */
module Planes {
  import opened Lattice

  const CROP := 25
  const HALF := 12
  const CELLS := 625
  const PLANES := 8
  const RECENT := 4

  // ---------------------------------------------------------------- the crop

  function SumQ(cells: seq<Cell>): int {
    if cells == [] then 0 else SumQ(cells[..|cells| - 1]) + cells[|cells| - 1].q
  }

  function SumR(cells: seq<Cell>): int {
    if cells == [] then 0 else SumR(cells[..|cells| - 1]) + cells[|cells| - 1].r
  }

  /** The last `n` moves, or all of them. */
  function Last(moves: seq<Cell>, n: nat): seq<Cell> {
    if |moves| <= n then moves else moves[|moves| - n..]
  }

  /** The mean of the recent stones, each axis rounded half up; (0, 0) where there is none. */
  function CropCenter(moves: seq<Cell>): Cell {
    if moves == [] then Cell(0, 0)
    else
      var recent := Last(moves, RECENT);
      var n := |recent|;
      Cell((2 * SumQ(recent) + n) / (2 * n), (2 * SumR(recent) + n) / (2 * n))
  }

  /** Where a cell falls in the flattened crop; -1 for a cell the crop does not reach. */
  function CropIndex(c: Cell, center: Cell): int {
    var row, col := c.r - center.r + HALF, c.q - center.q + HALF;
    if 0 <= row < CROP && 0 <= col < CROP then row * CROP + col else -1
  }

  /** The cell that stands at a place of the flattened crop. */
  function CropCell(i: int, center: Cell): Cell {
    Cell(i % CROP - HALF + center.q, i / CROP - HALF + center.r)
  }

  /** The two crop maps undo each other: on every index, and on every cell within 12 of the centre on both axes. */
  lemma CropMapsInverse(i: int, c: Cell, center: Cell)
    ensures 0 <= i < CELLS ==> CropIndex(CropCell(i, center), center) == i
    ensures CropIndex(c, center) == -1 <==> Abs(c.q - center.q) > HALF || Abs(c.r - center.r) > HALF
    ensures CropIndex(c, center) != -1 ==>
              0 <= CropIndex(c, center) < CELLS && CropCell(CropIndex(c, center), center) == c
  {
    if 0 <= i < CELLS {
      assert i / CROP * CROP + i % CROP == i;
    }
    var row, col := c.r - center.r + HALF, c.q - center.q + HALF;
    if 0 <= row < CROP && 0 <= col < CROP {
      assert (row * CROP + col) / CROP == row;
    }
  }

  // ---------------------------------------------------------------- the planes

  function HexNorm(dq: int, dr: int): nat {
    var a := if Abs(dq) > Abs(dr) then Abs(dq) else Abs(dr);
    if Abs(dq + dr) > a then Abs(dq + dr) else a
  }

  function HexDistance(a: Cell, b: Cell): nat {
    HexNorm(a.q - b.q, a.r - b.r)
  }

  /** Near some stone; with none placed, near the origin. */
  predicate Near(c: Cell, moves: seq<Cell>, radius: int) {
    NearSome(c, if moves == [] then [Cell(0, 0)] else moves, radius)
  }

  predicate NearSome(c: Cell, anchors: seq<Cell>, radius: int) {
    exists k :: 0 <= k < |anchors| && HexDistance(c, anchors[k]) <= radius
  }

  /** Whether the side to move has already placed one of its two stones. */
  predicate Second(n: nat) {
    n > 0 && StonesLeftBefore(n) == 1
  }

  function TurnStart(n: nat): nat {
    if Second(n) then n - 1 else n
  }

  /** Crop cell `i` holds a stone of `who`. */
  predicate Holds(moves: seq<Cell>, who: Player, i: int) {
    exists k :: 0 <= k < |moves| && PlayerForStone(k) == who && CropIndex(moves[k], CropCenter(moves)) == i
  }

  /** One of stones `lo` to `hi`, the opponent's, falls on crop cell `i`. */
  predicate OpponentBetween(moves: seq<Cell>, lo: int, hi: int, i: int) {
    exists k :: lo <= k < hi && 0 <= k < |moves| && PlayerForStone(k) != PlayerForStone(|moves|) &&
                CropIndex(moves[k], CropCenter(moves)) == i
  }

  /** Crop cell `i` holds a stone of the opponent's last turn. */
  predicate LastTurn(moves: seq<Cell>, i: int) {
    OpponentBetween(moves, TurnStart(|moves|) - 2, TurnStart(|moves|), i)
  }

  /** What plane `p` says of crop cell `i`. */
  predicate Lit(moves: seq<Cell>, radius: int, p: nat, i: nat) {
    var n, center := |moves|, CropCenter(moves);
    var mover := PlayerForStone(n);
    match p
    case 0 => true
    case 1 => Holds(moves, mover, i)
    case 2 => Holds(moves, Other(mover), i)
    case 3 => Near(CropCell(i, center), moves, radius) && !Holds(moves, mover, i) && !Holds(moves, Other(mover), i)
    case 4 => Second(n) && CropIndex(moves[n - 1], center) == i
    case 5 => LastTurn(moves, i)
    case 6 => Second(n)
    case _ => radius == 9
  }

  function Value(lit: bool): int {
    if lit then 1 else 0
  }

  /** The planes of a position, filled in place, and the crop centre. */
  method SixPlanes(moves: seq<Cell>, radius: int) returns (out: array2<int>, center: Cell)
    ensures fresh(out) && center == CropCenter(moves)
    ensures out.Length0 == 8 && out.Length1 == 625
    ensures forall p, i | 0 <= p < 8 && 0 <= i < 625 :: out[p, i] == if Lit(moves, radius, p, i) then 1 else 0
  {
    hide Holds, Near, CropIndex, LastTurn;
    var n := |moves|;
    center := CropCenter(moves);
    out := new int[PLANES, CELLS]((p, i) => 0);
    var mover, second := PlayerForStone(n), Second(n);
    PlaceStones(out, moves, mover);
    PlaceRecent(out, moves, mover, second);
    FillRest(out, moves, radius, second);
  }

  /** Planes 0, 3, 6 and 7, once planes 1 and 2 hold the stones. */
  method FillRest(out: array2<int>, moves: seq<Cell>, radius: int, second: bool)
    requires out.Length0 == PLANES && out.Length1 == CELLS && second == Second(|moves|)
    requires forall i | 0 <= i < CELLS ::
               out[1, i] == Value(Lit(moves, radius, 1, i)) && out[2, i] == Value(Lit(moves, radius, 2, i))
    requires forall i | 0 <= i < CELLS ::
               out[4, i] == Value(Lit(moves, radius, 4, i)) && out[5, i] == Value(Lit(moves, radius, 5, i))
    modifies out
    ensures forall p, i | 0 <= p < PLANES && 0 <= i < CELLS :: out[p, i] == Value(Lit(moves, radius, p, i))
  {
    hide Holds, Near, CropIndex, LastTurn;
    var center := CropCenter(moves);
    for i := 0 to CELLS
      invariant forall p, j | p in {1, 2, 4, 5} && 0 <= j < CELLS :: out[p, j] == Value(Lit(moves, radius, p, j))
      invariant forall p, j | p in {0, 3, 6, 7} && 0 <= j < i :: out[p, j] == Value(Lit(moves, radius, p, j))
    {
      assert out[1, i] == Value(Lit(moves, radius, 1, i)) && out[2, i] == Value(Lit(moves, radius, 2, i));
      out[0, i] := 1;
      out[3, i] := if Near(CropCell(i, center), moves, radius) && out[1, i] == 0 && out[2, i] == 0 then 1 else 0;
      out[6, i] := if second then 1 else 0;
      out[7, i] := if radius == 9 then 1 else 0;
    }
  }

  /** Planes 1 and 2: the mover's stones and the opponent's, where they fall inside the crop. */
  method PlaceStones(out: array2<int>, moves: seq<Cell>, mover: Player)
    requires out.Length0 == PLANES && out.Length1 == CELLS
    requires forall p, i | 0 <= p < PLANES && 0 <= i < CELLS :: out[p, i] == 0
    modifies out
    ensures forall i | 0 <= i < CELLS :: out[1, i] == Value(Holds(moves, mover, i))
    ensures forall i | 0 <= i < CELLS :: out[2, i] == Value(Holds(moves, Other(mover), i))
    ensures forall p, i | 0 <= p < PLANES && p != 1 && p != 2 && 0 <= i < CELLS :: out[p, i] == 0
  {
    var center := CropCenter(moves);
    for k := 0 to |moves|
      invariant forall i | 0 <= i < CELLS :: out[1, i] == Value(HeldBefore(moves, k, mover, i))
      invariant forall i | 0 <= i < CELLS :: out[2, i] == Value(HeldBefore(moves, k, Other(mover), i))
      invariant forall p, i | 0 <= p < PLANES && p != 1 && p != 2 && 0 <= i < CELLS :: out[p, i] == 0
    {
      var idx := CropIndex(moves[k], center);
      CropMapsInverse(0, moves[k], center);
      if idx >= 0 {
        if PlayerForStone(k) == mover {
          out[1, idx] := 1;
        } else {
          out[2, idx] := 1;
        }
      }
    }
  }

  /** One of the first `n` stones is `who`'s and falls on crop cell `i`. */
  predicate HeldBefore(moves: seq<Cell>, n: nat, who: Player, i: int)
    requires n <= |moves|
  {
    exists k :: 0 <= k < n && PlayerForStone(k) == who && CropIndex(moves[k], CropCenter(moves)) == i
  }

  /** Planes 4 and 5: the turn's first stone, and the opponent's last turn. */
  method PlaceRecent(out: array2<int>, moves: seq<Cell>, mover: Player, second: bool)
    requires out.Length0 == PLANES && out.Length1 == CELLS
    requires mover == PlayerForStone(|moves|) && second == Second(|moves|)
    requires forall p, i | 4 <= p <= 5 && 0 <= i < CELLS :: out[p, i] == 0
    modifies out
    ensures var n, center := |moves|, CropCenter(moves);
            forall i | 0 <= i < CELLS :: out[4, i] == Value(second && CropIndex(moves[n - 1], center) == i)
    ensures forall i | 0 <= i < CELLS :: out[5, i] == Value(LastTurn(moves, i))
    ensures forall p, i | 0 <= p < PLANES && p != 4 && p != 5 && 0 <= i < CELLS :: out[p, i] == old(out[p, i])
  {
    hide CropCenter, CropIndex, PlayerForStone, StonesLeftBefore;
    var n, center := |moves|, CropCenter(moves);
    if second {
      var i := CropIndex(moves[n - 1], center);
      CropMapsInverse(0, moves[n - 1], center);
      if i >= 0 {
        out[4, i] := 1;
      }
    }
    var start := if second then n - 1 else n;
    for k := start - 2 to start
      invariant forall i | 0 <= i < CELLS :: out[4, i] == Value(second && CropIndex(moves[n - 1], center) == i)
      invariant forall i | 0 <= i < CELLS :: out[5, i] == Value(OpponentBetween(moves, start - 2, k, i))
      invariant forall p, i | 0 <= p < PLANES && p != 4 && p != 5 && 0 <= i < CELLS :: out[p, i] == old(out[p, i])
    {
      if k >= 0 && PlayerForStone(k) != mover {
        var j := CropIndex(moves[k], center);
        CropMapsInverse(0, moves[k], center);
        if j >= 0 {
          out[5, j] := 1;
        }
      }
    }
  }
}
