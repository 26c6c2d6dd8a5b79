/**
 What the eight planes say, told from the lattice and the board's own cadence: the crop is centred on the mean of the
 last four stones, and each plane marks the cells of its row and column.
 */
module PlaneMeaning {
  import opened Lattice
  import opened Planes

  // ---------------------------------------------------------------- the crop's centre

  /** The last move, the last two, three or four, added axis by axis. */
  function Recent(moves: seq<Cell>): (int, Cell)
    requires moves != []
  {
    var n := |moves|;
    if n == 1 then (1, moves[0])
    else if n == 2 then (2, Cell(moves[0].q + moves[1].q, moves[0].r + moves[1].r))
    else if n == 3 then (3, Cell(moves[0].q + moves[1].q + moves[2].q, moves[0].r + moves[1].r + moves[2].r))
    else
      (4, Cell(moves[n - 4].q + moves[n - 3].q + moves[n - 2].q + moves[n - 1].q,
               moves[n - 4].r + moves[n - 3].r + moves[n - 2].r + moves[n - 1].r))
  }

  lemma {:induction false} SumsTake(s: seq<Cell>, k: nat)
    requires k < |s|
    ensures SumQ(s[..k + 1]) == SumQ(s[..k]) + s[k].q && SumR(s[..k + 1]) == SumR(s[..k]) + s[k].r
  {
    assert s[..k + 1][..k] == s[..k];
  }

  lemma RecentSums(moves: seq<Cell>)
    requires moves != []
    ensures var (n, s) := Recent(moves);
            n == |Last(moves, 4)| && SumQ(Last(moves, 4)) == s.q && SumR(Last(moves, 4)) == s.r
  {
    var last := Last(moves, 4);
    assert last[..|last|] == last;
    for k := 0 to |last|
      invariant k >= 1 ==> SumQ(last[..1]) == last[0].q && SumR(last[..1]) == last[0].r
      invariant k >= 2 ==> SumQ(last[..2]) == last[0].q + last[1].q && SumR(last[..2]) == last[0].r + last[1].r
      invariant k >= 3 ==>
                  SumQ(last[..3]) == last[0].q + last[1].q + last[2].q &&
                  SumR(last[..3]) == last[0].r + last[1].r + last[2].r
      invariant k >= 4 ==>
                  SumQ(last[..4]) == last[0].q + last[1].q + last[2].q + last[3].q &&
                  SumR(last[..4]) == last[0].r + last[1].r + last[2].r + last[3].r
    {
      SumsTake(last, k);
    }
  }

  /** `c` is the integer nearest to `s / n`, the upper of two that are as near. */
  predicate NearestMean(c: int, s: int, n: int) {
    2 * s - n < 2 * n * c <= 2 * s + n
  }

  /** The centre is the mean of the last four stones (of all, when fewer), each axis at the nearest integer. */
  lemma CenterIsMean(moves: seq<Cell>)
    ensures moves == [] ==> CropCenter(moves) == Cell(0, 0)
    ensures moves != [] ==>
              var (n, s) := Recent(moves);
              NearestMean(CropCenter(moves).q, s.q, n) && NearestMean(CropCenter(moves).r, s.r, n)
  {
    if moves != [] {
      RecentSums(moves);
      var (n, s) := Recent(moves);
      RoundedIsNearest(s.q, n);
      RoundedIsNearest(s.r, n);
    }
  }

  lemma RoundedIsNearest(s: int, n: int)
    requires n > 0
    ensures NearestMean((2 * s + n) / (2 * n), s, n)
  {
    var c := (2 * s + n) / (2 * n);
    assert 2 * s + n == (2 * n) * c + (2 * s + n) % (2 * n);
    assert (2 * n) * c == 2 * n * c;
  }

  /** At most one integer is nearest. */
  lemma NearestUnique(c: int, d: int, s: int, n: int)
    requires 1 <= n <= 4 && NearestMean(c, s, n) && NearestMean(d, s, n)
    ensures c == d
  {
    if c < d {
      Apart(c, d, n);
    } else if d < c {
      Apart(d, c, n);
    }
  }

  lemma Apart(c: int, d: int, n: int)
    requires 1 <= n <= 4 && c < d
    ensures 2 * n * d >= 2 * n * c + 2 * n
  {
    assert n == 1 || n == 2 || n == 3 || n == 4;
  }

  // ---------------------------------------------------------------- distance

  /** The six neighbours of a cell. */
  predicate Adjacent(a: Cell, b: Cell) {
    (b.q - a.q, b.r - a.r) in {(1, 0), (-1, 0), (0, 1), (0, -1), (1, -1), (-1, 1)}
  }

  /** Cells one beside the next from `a` to `b`, in `|w| - 1` steps. */
  ghost predicate Path(a: Cell, b: Cell, w: seq<Cell>) {
    && |w| >= 1 && w[0] == a && w[|w| - 1] == b
    && forall i | 0 <= i < |w| - 1 :: Adjacent(w[i], w[i + 1])
  }

  ghost predicate Within(a: Cell, b: Cell, steps: int) {
    exists w :: Path(a, b, w) && |w| - 1 <= steps
  }

  lemma {:induction false} PathIsLong(a: Cell, b: Cell, w: seq<Cell>)
    requires Path(a, b, w)
    ensures HexDistance(a, b) <= |w| - 1
    decreases |w|
  {
    if |w| > 1 {
      assert Adjacent(w[0], w[1]);
      var rest := w[1..];
      forall i | 0 <= i < |rest| - 1 ensures Adjacent(rest[i], rest[i + 1]) {
        assert Adjacent(w[i + 1], w[i + 1 + 1]);
      }
      PathIsLong(w[1], b, rest);
    }
  }

  /** A neighbour one step nearer. */
  function Toward(a: Cell, b: Cell): (c: Cell)
    requires a != b
    ensures Adjacent(a, c) && HexDistance(c, b) == HexDistance(a, b) - 1
  {
    var dq, dr := b.q - a.q, b.r - a.r;
    if dq > 0 && dr >= 0 then Cell(a.q + 1, a.r)
    else if dq < 0 && dr <= 0 then Cell(a.q - 1, a.r)
    else if dq == 0 then Cell(a.q, if dr > 0 then a.r + 1 else a.r - 1)
    else if dq > 0 then Cell(a.q + 1, a.r - 1)
    else
      Cell(a.q - 1, a.r + 1)
  }

  lemma {:induction false} ShortPath(a: Cell, b: Cell) returns (w: seq<Cell>)
    ensures Path(a, b, w) && |w| - 1 == HexDistance(a, b)
    decreases HexDistance(a, b)
  {
    if a == b {
      w := [a];
    } else {
      var rest := ShortPath(Toward(a, b), b);
      w := [a] + rest;
      forall i | 0 <= i < |w| - 1 ensures Adjacent(w[i], w[i + 1]) {
        if i > 0 {
          assert Adjacent(rest[i - 1], rest[i - 1 + 1]);
        }
      }
    }
  }

  /** The hex distance is the least number of steps from neighbour to neighbour. */
  lemma DistanceIsSteps(a: Cell, b: Cell, steps: int)
    ensures HexDistance(a, b) <= steps <==> Within(a, b, steps)
  {
    if HexDistance(a, b) <= steps {
      var w := ShortPath(a, b);
    }
    if Within(a, b, steps) {
      var w :| Path(a, b, w) && |w| - 1 <= steps;
      PathIsLong(a, b, w);
    }
  }

  /** Within so many steps of some stone, or of the origin before the first. */
  ghost predicate Reachable(c: Cell, moves: seq<Cell>, steps: int) {
    if moves == [] then Within(c, Cell(0, 0), steps)
    else exists k :: 0 <= k < |moves| && Within(c, moves[k], steps)
  }

  lemma NearIsReachable(c: Cell, moves: seq<Cell>, radius: int)
    ensures Near(c, moves, radius) <==> Reachable(c, moves, radius)
  {
    hide HexDistance, Within;
    var anchors := if moves == [] then [Cell(0, 0)] else moves;
    forall k | 0 <= k < |anchors| ensures HexDistance(c, anchors[k]) <= radius <==> Within(c, anchors[k], radius) {
      DistanceIsSteps(c, anchors[k], radius);
    }
    if moves == [] {
      assert anchors[0] == Cell(0, 0);
    }
  }

  // ---------------------------------------------------------------- turns

  /** The turn of stone `i`, counted along the board's cadence: a new one wherever the player changes. */
  function TurnOf(i: nat): nat {
    if i == 0 then 1
    else TurnOf(i - 1) + if TurnAfter(i).player != TurnAfter(i - 1).player then 1 else 0
  }

  lemma {:induction false} TurnsAgree(i: nat)
    ensures TurnOf(i) == TurnForStone(i)
  {
    if i > 0 {
      TurnsAgree(i - 1);
      CadencesAgree(i);
      CadencesAgree(i - 1);
    }
  }

  /** The second stone of a turn is to come when the last stone placed belongs to the same turn. */
  lemma SecondMeans(n: nat)
    ensures Second(n) <==> n > 0 && TurnOf(n - 1) == TurnOf(n)
    ensures Second(n) <==> n > 0 && TurnAfter(n).left == 1
    ensures Second(n) ==> forall k: nat | k < n :: TurnOf(k) == TurnOf(n) <==> k == n - 1
    ensures !Second(n) ==> forall k: nat | k < n :: TurnOf(k) != TurnOf(n)
  {
    CadencesAgree(n);
    TurnsAgree(n);
    forall k: nat | k < n ensures TurnOf(k) == TurnForStone(k) {
      TurnsAgree(k);
    }
  }

  /** The stones of the turn before the one to move. */
  lemma TurnBefore(n: nat, k: nat)
    requires k < n
    ensures TurnOf(k) + 1 == TurnOf(n) <==>
      TurnStart(n) - 2 <= k < TurnStart(n) && PlayerForStone(k) != PlayerForStone(n)
  {
    TurnsAgree(n);
    TurnsAgree(k);
    hide TurnOf, TurnAfter;
    StonesOfTurn(n);
    StonesOfTurn(k);
    hide TurnForStone;
  }

  /** Turn 1 is the opener's stone; turn `t` after it holds stones `2t - 3` and `2t - 2`, and the sides alternate. */
  lemma StonesOfTurn(i: nat)
    ensures var t := TurnForStone(i);
            && (t == 1 <==> i == 0) && t >= 1
            && (i > 0 ==> i == 2 * t - 3 || i == 2 * t - 2)
            && (PlayerForStone(i) == P1 <==> t % 2 == 1)
            && TurnStart(i) == if i == 0 then 0 else 2 * t - 3
  {
  }

  // ---------------------------------------------------------------- the planes

  /** The cell that stands at a row and a column of the crop. */
  function At(moves: seq<Cell>, row: int, col: int): Cell {
    Cell(CropCenter(moves).q + col - 12, CropCenter(moves).r + row - 12)
  }

  lemma AtIsCrop(moves: seq<Cell>, row: int, col: int, c: Cell)
    requires 0 <= row < 25 && 0 <= col < 25
    ensures 0 <= row * 25 + col < CELLS
    ensures CropIndex(c, CropCenter(moves)) == row * 25 + col <==> c == At(moves, row, col)
    ensures CropCell(row * 25 + col, CropCenter(moves)) == At(moves, row, col)
  {
    assert (row * 25 + col) / 25 == row && (row * 25 + col) % 25 == col;
    CropMapsInverse(row * 25 + col, c, CropCenter(moves));
  }

  /** Some stone on `c` was placed by a player. */
  ghost predicate Placed(moves: seq<Cell>, c: Cell, who: Player) {
    exists k :: 0 <= k < |moves| && moves[k] == c && TurnAfter(k).player == who
  }

  /** Some stone on `c` was placed in a turn. */
  ghost predicate PlacedInTurn(moves: seq<Cell>, c: Cell, turn: int) {
    exists k :: 0 <= k < |moves| && moves[k] == c && TurnOf(k) == turn
  }

  /** What plane `p` marks at the crop's place of a cell. */
  ghost predicate Marks(moves: seq<Cell>, radius: int, p: nat, c: Cell) {
    var n := |moves|;
    match p
    case 0 => true
    case 1 => Placed(moves, c, TurnAfter(n).player)
    case 2 => Placed(moves, c, Other(TurnAfter(n).player))
    case 3 => c !in moves && Reachable(c, moves, radius)
    case 4 => PlacedInTurn(moves, c, TurnOf(n))
    case 5 => PlacedInTurn(moves, c, TurnOf(n) - 1)
    case 6 => n > 0 && TurnAfter(n).left == 1
    case _ => radius == 9
  }

  lemma HoldsMeans(moves: seq<Cell>, who: Player, row: int, col: int)
    requires 0 <= row < 25 && 0 <= col < 25
    ensures Holds(moves, who, row * 25 + col) <==> Placed(moves, At(moves, row, col), who)
  {
    hide CropIndex, CropCenter, At, PlayerForStone;
    forall k | 0 <= k < |moves|
      ensures CropIndex(moves[k], CropCenter(moves)) == row * 25 + col <==> moves[k] == At(moves, row, col)
      ensures TurnAfter(k).player == PlayerForStone(k)
    {
      AtIsCrop(moves, row, col, moves[k]);
      CadencesAgree(k);
    }
  }

  lemma LastTurnMeans(moves: seq<Cell>, row: int, col: int)
    requires 0 <= row < 25 && 0 <= col < 25
    ensures LastTurn(moves, row * 25 + col) <==> PlacedInTurn(moves, At(moves, row, col), TurnOf(|moves|) - 1)
  {
    hide CropIndex, CropCenter, At, PlayerForStone, TurnStart, TurnOf;
    forall k | 0 <= k < |moves|
      ensures CropIndex(moves[k], CropCenter(moves)) == row * 25 + col <==> moves[k] == At(moves, row, col)
      ensures TurnOf(k) + 1 == TurnOf(|moves|) <==>
        TurnStart(|moves|) - 2 <= k < TurnStart(|moves|) && PlayerForStone(k) != PlayerForStone(|moves|)
    {
      AtIsCrop(moves, row, col, moves[k]);
      TurnBefore(|moves|, k);
    }
  }

  lemma FirstStoneMeans(moves: seq<Cell>, row: int, col: int)
    requires 0 <= row < 25 && 0 <= col < 25
    ensures Second(|moves|) && CropIndex(moves[|moves| - 1], CropCenter(moves)) == row * 25 + col <==>
      PlacedInTurn(moves, At(moves, row, col), TurnOf(|moves|))
  {
    hide CropIndex, CropCenter, At, TurnOf;
    var n := |moves|;
    SecondMeans(n);
    if Second(n) {
      AtIsCrop(moves, row, col, moves[n - 1]);
    }
  }

  lemma FreeMeans(moves: seq<Cell>, c: Cell)
    ensures c in moves <==>
      Placed(moves, c, TurnAfter(|moves|).player) || Placed(moves, c, Other(TurnAfter(|moves|).player))
  {
    if c in moves {
      var k :| 0 <= k < |moves| && moves[k] == c;
      assert Placed(moves, c, TurnAfter(k).player);
    }
  }

  /** Each plane at the crop's row and column says of the cell there what the plane stands for. */
  lemma PlanesMean(moves: seq<Cell>, radius: int, p: nat, row: int, col: int)
    requires p < PLANES && 0 <= row < 25 && 0 <= col < 25
    ensures Lit(moves, radius, p, row * 25 + col) <==> Marks(moves, radius, p, At(moves, row, col))
  {
    hide Holds, Near, LastTurn, Reachable, Placed, PlacedInTurn, TurnOf, Second, CropIndex, CropCell, CropCenter, At;
    CadencesAgree(|moves|);
    var mover, c := TurnAfter(|moves|).player, At(moves, row, col);
    HoldsMeans(moves, mover, row, col);
    HoldsMeans(moves, Other(mover), row, col);
    FreeMeans(moves, c);
    AtIsCrop(moves, row, col, c);
    NearIsReachable(c, moves, radius);
    FirstStoneMeans(moves, row, col);
    LastTurnMeans(moves, row, col);
    SecondMeans(|moves|);
  }
}
