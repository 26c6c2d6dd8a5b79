/** The unbounded hex lattice in axial coordinates, and the turn cadence: one stone to open, then two a turn. */
module Lattice {

  datatype Cell = Cell(q: int, r: int)

  datatype Player = P1 | P2

  function Other(p: Player): Player {
    if p == P1 then P2 else P1
  }

  /** The cell `k` steps along axis `a` from `c`: the axes are (1, 0), (0, 1) and (1, -1). */
  function Along(a: int, c: Cell, k: int): Cell {
    if a == 0 then Cell(c.q + k, c.r)
    else if a == 1 then Cell(c.q, c.r + k)
    else Cell(c.q + k, c.r - k)
  }

  ghost predicate Distinct(moves: seq<Cell>) {
    forall i, j | 0 <= i < j < |moves| :: moves[i] != moves[j]
  }

  function Abs(x: int): nat {
    if x < 0 then -x else x
  }

  // ---------------------------------------------------------------- the cadence and its three copies

  /** Whose turn it is on a board, and how many stones the turn still owes. */
  datatype Turn = Turn(player: Player, left: nat)

  /** The board's own cadence: the opener places one stone, then each side two, alternating. */
  function TurnAfter(stones: nat): Turn {
    if stones == 0 then Turn(P1, 1)
    else
      var before := TurnAfter(stones - 1);
      if before.left > 1 then Turn(before.player, before.left - 1) else Turn(Other(before.player), 2)
  }

  /** Turns numbered from 1: stone 0 is a turn of its own, then every two stones make one. */
  function TurnForStone(i: nat): nat {
    if i == 0 then 1 else (i - 1) / 2 + 2
  }

  /** The input planes' count: odd turns are P1's. */
  function PlayerForStone(i: nat): Player {
    if TurnForStone(i) % 2 == 1 then P1 else P2
  }

  /** How many placements the turn that places stone `i` still owes when it comes to it. */
  function StonesLeftBefore(i: nat): nat {
    if i == 0 then 1 else if (i - 1) % 2 == 0 then 2 else 1
  }

  /** The arena's count: its player 0 is Player One. */
  function OwnerOfPly(ply: nat): nat {
    if (ply + 1) / 2 % 2 == 1 then 1 else 0
  }

  /** The corpus audit's count. */
  function MoverOfPly(i: nat): Player {
    if i == 0 then P1 else if (i - 1) / 2 % 2 == 0 then P2 else P1
  }

  /** The planes', the arena's and the audit's cadence are all the board's. */
  lemma {:induction false} CadencesAgree(i: nat)
    ensures TurnAfter(i) == Turn(PlayerForStone(i), StonesLeftBefore(i))
    ensures MoverOfPly(i) == PlayerForStone(i)
    ensures OwnerOfPly(i) == if PlayerForStone(i) == P1 then 0 else 1
  {
    if i > 0 {
      CadencesAgree(i - 1);
    }
  }

  // ---------------------------------------------------------------- translation

  function Moved(c: Cell, t: Cell): Cell {
    Cell(c.q + t.q, c.r + t.r)
  }

  function Shifted(cells: seq<Cell>, t: Cell): seq<Cell> {
    seq(|cells|, k requires 0 <= k < |cells| => Moved(cells[k], t))
  }
}
