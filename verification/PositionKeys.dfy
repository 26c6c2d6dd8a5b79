/**
 Every position of every game record, flattened into one key array. The hash is left open: any key function will do.
 */
module PositionKeys {
  import opened Lattice
  import opened Records

  /** A stone hash, and the fold of a stone-set sum, a ply and a game's turn count into a key. */
  datatype Scheme = Scheme(stone: (Cell, Player) -> nat, fold: (nat, nat, nat) -> int)

  const WORD := 0x1_0000_0000_0000_0000

  /** The 64-bit sum of the first `k` stones' hashes. */
  function StoneSum(scheme: Scheme, moves: seq<Cell>, k: nat): nat
    requires k <= |moves|
  {
    if k == 0 then 0
    else (StoneSum(scheme, moves, k - 1) + scheme.stone(moves[k - 1], PlayerForStone(k - 1))) % WORD
  }

  /** The key of a game's position after `k` stones. */
  function KeyOf(scheme: Scheme, moves: seq<Cell>, k: nat): int
    requires k <= |moves|
  {
    scheme.fold(StoneSum(scheme, moves, k), k, (|moves| + 1) / 2)
  }

  function KeysOf(scheme: Scheme, moves: seq<Cell>): seq<int> {
    seq(|moves| + 1, k requires 0 <= k < |moves| + 1 => KeyOf(scheme, moves, k))
  }

  function AllKeys(scheme: Scheme, games: seq<seq<Cell>>): seq<seq<int>> {
    seq(|games|, g requires 0 <= g < |games| => KeysOf(scheme, games[g]))
  }

  function AllIndices(games: seq<seq<Cell>>): seq<seq<nat>> {
    seq(|games|, g requires 0 <= g < |games| => seq(|games[g]| + 1, k => g))
  }

  /** One position more per game than it has moves. */
  function Positions(games: seq<seq<Cell>>): seq<nat> {
    seq(|games|, g requires 0 <= g < |games| => |games[g]| + 1)
  }

  function AllPlies(games: seq<seq<Cell>>): seq<seq<nat>> {
    seq(|games|, g requires 0 <= g < |games| => Plies(|games[g]| + 1))
  }

  function Plies(n: nat): seq<nat> {
    seq(n, k requires 0 <= k < n => k)
  }

  /** One game's keys, from the running sum of its stones' hashes. */
  method KeysOfGame(scheme: Scheme, moves: seq<Cell>) returns (keys: seq<int>)
    ensures keys == KeysOf(scheme, moves)
  {
    var sum := 0;
    keys := [KeyOf(scheme, moves, 0)];
    for k := 1 to |moves| + 1
      invariant sum == StoneSum(scheme, moves, k - 1)
      invariant keys == KeysOf(scheme, moves)[..k]
    {
      sum := (sum + scheme.stone(moves[k - 1], PlayerForStone(k - 1))) % WORD;
      keys := keys + [scheme.fold(sum, k, (|moves| + 1) / 2)];
    }
  }

  /** Every position's key, its game and its ply, game after game. */
  method GamePositionKeys(scheme: Scheme, games: seq<seq<Cell>>)
      returns (keys: seq<int>, gidx: seq<nat>, plies: seq<nat>)
    ensures keys == Concat(AllKeys(scheme, games))
    ensures gidx == Concat(AllIndices(games))
    ensures plies == Concat(AllPlies(games))
  {
    hide KeysOf;
    keys, gidx, plies := [], [], [];
    for g := 0 to |games|
      invariant keys == Concat(AllKeys(scheme, games)[..g])
      invariant gidx == Concat(AllIndices(games)[..g])
      invariant plies == Concat(AllPlies(games)[..g])
    {
      var here := KeysOfGame(scheme, games[g]);
      ConcatNext(AllKeys(scheme, games), g);
      ConcatNext(AllIndices(games), g);
      ConcatNext(AllPlies(games), g);
      keys := keys + here;
      gidx := gidx + seq(|games[g]| + 1, k => g);
      plies := plies + Plies(|games[g]| + 1);
    }
    assert AllKeys(scheme, games)[..|games|] == AllKeys(scheme, games);
    assert AllIndices(games)[..|games|] == AllIndices(games);
    assert AllPlies(games)[..|games|] == AllPlies(games);
  }

  lemma ConcatNext<T>(lists: seq<seq<T>>, g: nat)
    requires g < |lists|
    ensures Concat(lists[..g + 1]) == Concat(lists[..g]) + lists[g]
  {
    assert lists[..g + 1][..g] == lists[..g];
  }

  // ---------------------------------------------------------------- positions in the flat arrays

  /** The flat place of game `g`'s position `k`. */
  function Place(games: seq<seq<Cell>>, g: nat, k: nat): nat
    requires g < |games|
  {
    Offsets(Positions(games))[g] + k
  }

  /** What the three flat arrays hold at a position's place. */
  lemma PlaceHolds(scheme: Scheme, games: seq<seq<Cell>>, g: nat, k: nat)
    requires g < |games| && k <= |games[g]|
    ensures var keys, gidx, p := Concat(AllKeys(scheme, games)), Concat(AllIndices(games)), Place(games, g, k);
            p < |keys| == |gidx| && keys[p] == KeyOf(scheme, games[g], k) && gidx[p] == g
    ensures var plies, p := Concat(AllPlies(games)), Place(games, g, k); p < |plies| && plies[p] == k
  {
    hide StoneSum, Total, Concat, Offsets;
    var keys, gidx, plies := AllKeys(scheme, games), AllIndices(games), AllPlies(games);
    assert Lengths(keys) == Positions(games) == Lengths(gidx);
    assert Lengths(plies) == Positions(games);
    ElementAt(keys, g, k);
    ElementAt(gidx, g, k);
    ElementAt(plies, g, k);
    ConcatLength(keys);
    ConcatLength(gidx);
  }

  /** An element of one list, found in the concatenation at the list's offset. */
  lemma ElementAt<T>(lists: seq<seq<T>>, g: nat, k: nat)
    requires g < |lists| && k < |lists[g]|
    ensures var p := Offsets(Lengths(lists))[g] + k; p < |Concat(lists)| && Concat(lists)[p] == lists[g][k]
  {
    OffsetsSlice(lists, g);
    var off := Offsets(Lengths(lists))[g];
    assert Concat(lists)[off..off + |lists[g]|][k] == Concat(lists)[off + k];
  }

  lemma {:induction false} ConcatLength<T>(lists: seq<seq<T>>)
    ensures |Concat(lists)| == Total(Lengths(lists))
  {
    if lists != [] {
      assert Lengths(lists)[..|lists| - 1] == Lengths(lists[..|lists| - 1]);
      ConcatLength(lists[..|lists| - 1]);
    }
  }

  /** Every flat place is some game's position. */
  lemma {:induction false} PlaceOfSome<T>(lists: seq<seq<T>>, p: nat) returns (g: nat, k: nat)
    requires p < |Concat(lists)|
    ensures g < |lists| && k < |lists[g]| && Offsets(Lengths(lists))[g] + k == p
    decreases |lists|
  {
    var n := |lists| - 1;
    var before := lists[..n];
    assert Lengths(lists)[..n] == Lengths(before);
    if p < |Concat(before)| {
      g, k := PlaceOfSome(before, p);
    } else {
      g, k := n, p - |Concat(before)|;
      if n > 0 {
        OffsetsSlice(before, n - 1);
      }
    }
  }
}
