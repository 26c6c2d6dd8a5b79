/** Six-cell line windows on the lattice and how many stones of each side they hold. */
module Windows {
  import opened Lattice

  const WIN := 6

  /** The colour of every occupied cell; a repeated cell keeps its last stone. */
  function ColourOf(moves: seq<Cell>): map<Cell, Player> {
    if moves == [] then map[]
    else ColourOf(moves[..|moves| - 1])[moves[|moves| - 1] := PlayerForStone(|moves| - 1)]
  }

  predicate HasColour(colour: map<Cell, Player>, c: Cell, who: Player) {
    c in colour && colour[c] == who
  }

  /** How many of the first `n` cells of the window at `start` along axis `a` hold a stone of `who`. */
  function CountFirst(colour: map<Cell, Player>, a: int, start: Cell, who: Player, n: nat): (count: nat)
    ensures count <= n
  {
    if n == 0 then 0
    else CountFirst(colour, a, start, who, n - 1) + if HasColour(colour, Along(a, start, n - 1), who) then 1 else 0
  }

  function Count(colour: map<Cell, Player>, a: int, start: Cell, who: Player): nat {
    CountFirst(colour, a, start, who, WIN)
  }

  predicate InWindow(a: int, start: Cell, c: Cell) {
    exists k :: 0 <= k < WIN && Along(a, start, k) == c
  }

  /** A new stone adds one to its own side's count in every window over its cell, and changes no other count. */
  lemma CountOneMore(colour: map<Cell, Player>, c: Cell, p: Player, a: int, start: Cell, who: Player)
    requires c !in colour
    ensures Count(colour[c := p], a, start, who) ==
      Count(colour, a, start, who) + if p == who && InWindow(a, start, c) then 1 else 0
  {
    if k :| 0 <= k < WIN && Along(a, start, k) == c {
      CountFirstOneMore(colour, c, p, a, start, who, WIN, k);
    } else {
      CountFirstElsewhere(colour, c, p, a, start, who, WIN);
    }
  }

  lemma {:induction false} CountFirstOneMore(colour: map<Cell, Player>, c: Cell, p: Player, a: int, start: Cell,
                                             who: Player, n: nat, k: nat)
    requires c !in colour && Along(a, start, k) == c && k < n
    ensures CountFirst(colour[c := p], a, start, who, n) ==
      CountFirst(colour, a, start, who, n) + if p == who then 1 else 0
  {
    if k == n - 1 {
      forall j | 0 <= j < n - 1 ensures Along(a, start, j) != c {
      }
      CountFirstElsewhere(colour, c, p, a, start, who, n - 1);
    } else {
      CountFirstOneMore(colour, c, p, a, start, who, n - 1, k);
    }
  }

  lemma {:induction false} CountFirstElsewhere(colour: map<Cell, Player>, c: Cell, p: Player, a: int, start: Cell,
                                               who: Player, n: nat)
    requires forall j | 0 <= j < n :: Along(a, start, j) != c
    ensures CountFirst(colour[c := p], a, start, who, n) == CountFirst(colour, a, start, who, n)
  {
    if n > 0 {
      CountFirstElsewhere(colour, c, p, a, start, who, n - 1);
    }
  }

  /** A window with a stone of `who` counted has one of its cells occupied. */
  lemma {:induction false} CountedCell(colour: map<Cell, Player>, a: int, start: Cell, who: Player, n: nat)
      returns (k: nat)
    requires CountFirst(colour, a, start, who, n) > 0
    ensures k < n && HasColour(colour, Along(a, start, k), who)
  {
    if HasColour(colour, Along(a, start, n - 1), who) {
      k := n - 1;
    } else {
      k := CountedCell(colour, a, start, who, n - 1);
    }
  }

  /** Counting all of the first `n` cells means holding all of them. */
  lemma {:induction false} CountFull(colour: map<Cell, Player>, a: int, start: Cell, who: Player, n: nat)
    ensures CountFirst(colour, a, start, who, n) == n <==>
            forall k | 0 <= k < n :: HasColour(colour, Along(a, start, k), who)
  {
    if n > 0 {
      CountFull(colour, a, start, who, n - 1);
    }
  }
}
