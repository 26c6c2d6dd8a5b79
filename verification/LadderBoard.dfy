/** The wire board replayed into an engine board, and one compound turn of two stones on a copy of it. */
module LadderBoard {
  import opened Lattice
  import opened Wrappers

  /**
   The engine board as far as the ladder reads it: the stones in order, whose turn it is and how many it still places.
   */
  class Board {
    var stones: seq<Cell>
    var player: Player
    var left: nat

    ghost predicate Valid()
      reads this
    {
      Turn(player, left) == TurnAfter(|stones|)
    }

    constructor ()
      ensures Valid() && stones == []
    {
      stones, player, left := [], P1, 1;
    }

    /** A stone of the player to move, and the turn passed on when it was the last of its turn. */
    method ApplyMove(c: Cell)
      requires Valid()
      modifies this
      ensures Valid() && stones == old(stones) + [c]
    {
      stones := stones + [c];
      if left > 1 {
        left := left - 1;
      } else {
        player, left := Other(player), 2;
      }
    }

    method Clone() returns (b: Board)
      requires Valid()
      ensures fresh(b) && b.Valid() && b.stones == stones
    {
      b := new Board();
      b.stones, b.player, b.left := stones, player, left;
    }
  }

  // ---------------------------------------------------------------- the wire

  datatype WireCell = WireCell(at: Cell, side: string)

  datatype WireBoard = WireBoard(cells: seq<WireCell>, toMove: string)

  datatype WireError = NoOrigin | WrongSide(ply: nat) | Occupied(ply: nat) | ToMoveDisagrees | MidTurn(left: nat)

  function SideOf(p: Player): string {
    if p == P1 then "x" else "o"
  }

  function CellsOf(w: WireBoard): seq<Cell> {
    seq(|w.cells|, i requires 0 <= i < |w.cells| => w.cells[i].at)
  }

  /** The first `n` wire cells are on the right sides and on free cells. */
  ghost predicate Replays(w: WireBoard, n: nat)
    requires n <= |w.cells|
  {
    && (forall i | 0 <= i < n :: w.cells[i].side == SideOf(PlayerForStone(i)))
    && Distinct(CellsOf(w)[..n])
  }

  /**
   A board at the start of a two-stone turn, placed by the cadence on distinct cells, whose mover is named rightly.
   */
  ghost predicate WellFormed(w: WireBoard) {
    && Replays(w, |w.cells|) && |w.cells| % 2 == 1
    && w.toMove == SideOf(PlayerForStone(|w.cells|))
  }

  /** What each refusal says of the board, the checks before it passed. */
  ghost predicate Refused(w: WireBoard, e: WireError) {
    match e
    case NoOrigin => w.cells == []
    case WrongSide(p) => p < |w.cells| && Replays(w, p) && w.cells[p].side != SideOf(PlayerForStone(p))
    case Occupied(p) =>
      p < |w.cells| && Replays(w, p) && w.cells[p].side == SideOf(PlayerForStone(p)) && w.cells[p].at in CellsOf(w)[..p]
    case ToMoveDisagrees => w.cells != [] && Replays(w, |w.cells|) && w.toMove != SideOf(PlayerForStone(|w.cells|))
    case MidTurn(left) =>
      && w.cells != [] && Replays(w, |w.cells|) && w.toMove == SideOf(PlayerForStone(|w.cells|))
      && |w.cells| % 2 == 0 && left == 1
  }

  /** A refused board is not well formed. */
  lemma RefusedIsMalformed(w: WireBoard, e: WireError)
    requires Refused(w, e)
    ensures !WellFormed(w)
  {
    if e.Occupied? {
      var cells := CellsOf(w);
      var i :| 0 <= i < e.ply && cells[..e.ply][i] == w.cells[e.ply].at;
      assert cells[..|w.cells|][i] == cells[..|w.cells|][e.ply];
    }
  }

  /** The wire's sides run x, o, o, x, x, o, o, x and so on. */
  lemma SidesRun(i: nat)
    ensures SideOf(PlayerForStone(i)) == if i % 4 == 0 || i % 4 == 3 then "x" else "o"
  {
  }

  /** The boards taken, told by the plies: cells apart, sides as they run, an odd count, and the right next side. */
  lemma WireMeans(w: WireBoard)
    ensures WellFormed(w) <==>
      && |w.cells| % 2 == 1
      && (forall i | 0 <= i < |w.cells| :: w.cells[i].side == if i % 4 == 0 || i % 4 == 3 then "x" else "o")
      && (forall i, j | 0 <= i < j < |w.cells| :: w.cells[i].at != w.cells[j].at)
      && w.toMove == (if |w.cells| % 4 == 1 then "o" else "x")
  {
    CellsApart(w);
    SidesRight(w);
    SidesRun(|w.cells|);
    hide SideOf, PlayerForStone, Distinct, CellsOf;
  }

  lemma CellsApart(w: WireBoard)
    ensures Distinct(CellsOf(w)[..|w.cells|]) <==>
      forall i, j | 0 <= i < j < |w.cells| :: w.cells[i].at != w.cells[j].at
  {
    var cells := CellsOf(w);
    assert cells[..|w.cells|] == cells;
    if Distinct(cells) {
      forall i, j | 0 <= i < j < |w.cells| ensures w.cells[i].at != w.cells[j].at {
        assert cells[i] != cells[j];
      }
    }
  }

  lemma SidesRight(w: WireBoard)
    ensures (forall i | 0 <= i < |w.cells| :: w.cells[i].side == SideOf(PlayerForStone(i))) <==>
      (forall i | 0 <= i < |w.cells| :: w.cells[i].side == if i % 4 == 0 || i % 4 == 3 then "x" else "o")
  {
    forall i | 0 <= i < |w.cells|
      ensures SideOf(PlayerForStone(i)) == if i % 4 == 0 || i % 4 == 3 then "x" else "o"
    {
      SidesRun(i);
    }
    hide SideOf, PlayerForStone;
  }

  /** The wire's cells replayed: exactly the well-formed boards are taken, each refusal for its own reason. */
  method BoardFromWire(w: WireBoard) returns (r: Result<Board, WireError>)
    ensures r.Ok? <==> WellFormed(w)
    ensures r.Ok? ==> fresh(r.value) && r.value.Valid() && r.value.stones == CellsOf(w)
    ensures r.Err? ==> Refused(w, r.error)
  {
    if w.cells == [] {
      return Err(NoOrigin);
    }
    var engine := new Board();
    for ply := 0 to |w.cells|
      invariant fresh(engine) && engine.Valid() && engine.stones == CellsOf(w)[..ply]
      invariant Replays(w, ply)
    {
      CadencesAgree(ply);
      var cell := w.cells[ply];
      if cell.side != SideOf(engine.player) {
        RefusedIsMalformed(w, WrongSide(ply));
        return Err(WrongSide(ply));
      }
      if cell.at in engine.stones {
        RefusedIsMalformed(w, Occupied(ply));
        return Err(Occupied(ply));
      }
      engine.ApplyMove(cell.at);
      assert CellsOf(w)[..ply + 1] == CellsOf(w)[..ply] + [cell.at];
    }
    assert CellsOf(w)[..|w.cells|] == CellsOf(w);
    CadencesAgree(|w.cells|);
    if w.toMove != SideOf(engine.player) {
      return Err(ToMoveDisagrees);
    }
    if engine.left != 2 {
      return Err(MidTurn(engine.left));
    }
    return Ok(engine);
  }

  // ---------------------------------------------------------------- one compound turn

  datatype TurnResult = TurnResult(first: Cell, second: Cell, searched: nat, bookStones: nat)

  datatype BackendError = TooManyForced(n: nat) | IllegalForced(at: Cell, after: nat)

  /**
   The stone the turn plays at `i` on a board whose stones are `cells`: the book's while it forces one, else the
   player's.
   */
  function Stone(choose: seq<Cell> -> Cell, cells: seq<Cell>, forced: seq<Cell>, i: nat): Cell {
    if i < |forced| then forced[i] else choose(cells)
  }

  /**
   The stones the book forces, unsearched, and then the player's own, each picked with the last one down; the board
   itself is left alone. Refused only for more than two forced stones or one that is not legal where it would fall.
   */
  method TwoStones(board: Board, choose: seq<Cell> -> Cell, legal: (seq<Cell>, Cell) -> bool, forced: seq<Cell>)
      returns (r: Result<TurnResult, BackendError>)
    requires board.Valid()
    ensures r.Ok? ==>
      && r.value.first == Stone(choose, board.stones, forced, 0)
      && r.value.second == Stone(choose, board.stones + [r.value.first], forced, 1)
      && r.value.bookStones == |forced| && r.value.searched + |forced| == 2
    ensures r == Err(TooManyForced(|forced|)) <==> |forced| > 2
    ensures |forced| <= 2 ==> (r.Ok? <==> forall i | 0 <= i < |forced| :: legal(board.stones + forced[..i], forced[i]))
    ensures r.Err? && |forced| <= 2 ==> r.error.IllegalForced? && r.error.at in forced
  {
    if |forced| > 2 {
      return Err(TooManyForced(|forced|));
    }
    var work := board.Clone();
    var placements: seq<Cell>, spent := [], 0;
    for i := 0 to 2
      invariant fresh(work) && work.Valid() && |placements| == i && work.stones == board.stones + placements
      invariant i >= 1 ==> placements[0] == Stone(choose, board.stones, forced, 0)
      invariant i >= 2 ==> placements[1] == Stone(choose, board.stones + [placements[0]], forced, 1)
      invariant spent == if i <= |forced| then 0 else i - |forced|
      invariant forall k | 0 <= k < i && k < |forced| :: placements[k] == forced[k]
      invariant forall k | 0 <= k < i && k < |forced| :: legal(board.stones + forced[..k], forced[k])
    {
      var c: Cell;
      if i < |forced| {
        assert placements == forced[..i];
        c := forced[i];
        if !legal(work.stones, c) {
          return Err(IllegalForced(c, |work.stones|));
        }
      } else {
        c := choose(work.stones);
        spent := spent + 1;
      }
      assert i == 0 ==> board.stones + placements == board.stones;
      assert i == 1 ==> board.stones + placements == board.stones + [placements[0]];
      work.ApplyMove(c);
      placements := placements + [c];
    }
    return Ok(TurnResult(placements[0], placements[1], spent, |forced|));
  }
}
