/**
 Six's root-tactics screen: the window table it builds around the stones, and what its verdict means on the lattice.
 */
module RootTactics {
  import opened Lattice
  import opened Windows

  /** The screen's rule on one window: a win for the mover this turn, or four of the opponent's alone. */
  predicate ActsOn(me: nat, opponent: nat, left: nat) {
    (opponent == 0 && me >= WIN - left) || (me == 0 && opponent >= WIN - 2)
  }

  /** Some window anywhere on the lattice meets the rule. */
  ghost predicate Acts(moves: seq<Cell>) {
    var colour, mover := ColourOf(moves), PlayerForStone(|moves|);
    exists a, start :: 0 <= a < 3 && ActsInWindow(colour, mover, StonesLeftBefore(|moves|), a, start)
  }

  ghost predicate ActsInWindow(colour: map<Cell, Player>, mover: Player, left: nat, a: int, start: Cell) {
    ActsOn(Count(colour, a, start, mover), Count(colour, a, start, Other(mover)), left)
  }

  datatype Key = Key(axis: int, start: Cell)

  /** The window holds a stone. */
  ghost predicate Touched(colour: map<Cell, Player>, w: Key) {
    0 <= w.axis < 3 && exists k :: 0 <= k < WIN && Along(w.axis, w.start, k) in colour
  }

  type Table = map<Key, (nat, nat)>

  /** Every entry holds its window's two counts. */
  ghost predicate CountsRight(colour: map<Cell, Player>, windows: Table) {
    forall w | w in windows ::
      Touched(colour, w) &&
      windows[w] == (Count(colour, w.axis, w.start, P1), Count(colour, w.axis, w.start, P2))
  }

  method Colours(moves: seq<Cell>) returns (colour: map<Cell, Player>)
    ensures colour == ColourOf(moves)
  {
    colour := map[];
    for i := 0 to |moves|
      invariant colour == ColourOf(moves[..i])
    {
      assert moves[..i + 1][..i] == moves[..i];
      colour := colour[moves[i] := PlayerForStone(i)];
    }
    assert moves[..|moves|] == moves;
  }

  method CountWindow(colour: map<Cell, Player>, w: Key) returns (counts: (nat, nat))
    ensures counts == (Count(colour, w.axis, w.start, P1), Count(colour, w.axis, w.start, P2))
  {
    counts := (0, 0);
    for j := 0 to WIN
      invariant counts == (CountFirst(colour, w.axis, w.start, P1, j), CountFirst(colour, w.axis, w.start, P2, j))
    {
      var c := Along(w.axis, w.start, j);
      if c in colour {
        counts := if colour[c] == P1 then (counts.0 + 1, counts.1) else (counts.0, counts.1 + 1);
      }
    }
  }

  /** The window that has `c` as its cell `k`. */
  function Back(a: int, c: Cell, k: int): (w: Key)
    ensures Along(a, w.start, k) == c
  {
    Key(a, Along(a, c, -k))
  }

  /** Every window over one stone is in the table. */
  ghost predicate CoversCell(windows: Table, c: Cell, axes: int) {
    forall a, k | 0 <= a < axes && 0 <= k < WIN :: Back(a, c, k) in windows
  }

  /** The windows over cell `c` added to the table. */
  method AddWindows(colour: map<Cell, Player>, c: Cell, before: Table) returns (windows: Table)
    requires c in colour && CountsRight(colour, before)
    ensures CountsRight(colour, windows) && before.Keys <= windows.Keys && CoversCell(windows, c, 3)
  {
    hide Count;
    windows := before;
    for a := 0 to 3
      invariant CountsRight(colour, windows) && before.Keys <= windows.Keys && CoversCell(windows, c, a)
    {
      for k := 0 to WIN
        invariant CountsRight(colour, windows) && before.Keys <= windows.Keys && CoversCell(windows, c, a)
        invariant forall j | 0 <= j < k :: Back(a, c, j) in windows
      {
        var key := Back(a, c, k);
        if key !in windows {
          var counts := CountWindow(colour, key);
          windows := windows[key := counts];
        }
      }
    }
  }

  /** Every window holding a stone, with its counts, and no other. */
  method WindowCounts(moves: seq<Cell>) returns (windows: Table)
    ensures CountsRight(ColourOf(moves), windows)
    ensures forall w :: w in windows <==> Touched(ColourOf(moves), w)
  {
    var colour := Colours(moves);
    windows := map[];
    var todo := colour.Keys;
    while todo != {}
      invariant todo <= colour.Keys && CountsRight(colour, windows)
      invariant forall c | c in colour && c !in todo :: CoversCell(windows, c, 3)
    {
      var c :| c in todo;
      todo := todo - {c};
      windows := AddWindows(colour, c, windows);
    }
    forall w | Touched(colour, w) ensures w in windows {
      var k :| 0 <= k < WIN && Along(w.axis, w.start, k) in colour;
      var c := Along(w.axis, w.start, k);
      assert Back(w.axis, c, k) == w;
    }
  }

  /** True exactly when some window anywhere meets the rule. */
  method RootTacticsAct(moves: seq<Cell>) returns (acts: bool)
    ensures acts <==> Acts(moves)
  {
    var n := |moves|;
    var mover, left := PlayerForStone(n), StonesLeftBefore(n);
    var windows := WindowCounts(moves);
    ghost var colour := ColourOf(moves);
    var todo := windows.Keys;
    while todo != {}
      invariant todo <= windows.Keys
      invariant forall w | w in windows && w !in todo :: !ActsInWindow(colour, mover, left, w.axis, w.start)
    {
      var w :| w in todo;
      todo := todo - {w};
      var me := if mover == P1 then windows[w].0 else windows[w].1;
      var opponent := if mover == P1 then windows[w].1 else windows[w].0;
      if ActsOn(me, opponent, left) {
        assert ActsInWindow(colour, mover, left, w.axis, w.start);
        return true;
      }
    }
    forall a, start | 0 <= a < 3 && ActsInWindow(colour, mover, left, a, start) ensures Key(a, start) in windows {
      ActingWindowTouched(colour, mover, left, a, start);
    }
    return false;
  }

  lemma ActingWindowTouched(colour: map<Cell, Player>, mover: Player, left: nat, a: int, start: Cell)
    requires 0 <= a < 3 && 1 <= left <= 2 && ActsInWindow(colour, mover, left, a, start)
    ensures Touched(colour, Key(a, start))
  {
    var k;
    if Count(colour, a, start, mover) > 0 {
      k := CountedCell(colour, a, start, mover, WIN);
    } else {
      k := CountedCell(colour, a, start, Other(mover), WIN);
    }
  }
}
