/** Game records as the corpus keeps them: one flat move array, and an offset and a length per game. */
module Records {
  import opened Lattice

  /** What the source's prefix-sum offsets come to: one entry at least, even for no game at all. */
  function Offsets(lengths: seq<nat>): (off: seq<nat>)
    ensures |off| == if lengths == [] then 1 else |lengths|
    ensures off[0] == 0
  {
    if |lengths| <= 1 then [0]
    else
      var before := Offsets(lengths[..|lengths| - 1]);
      before + [before[|lengths| - 2] + lengths[|lengths| - 2]]
  }

  function Total(lengths: seq<nat>): nat {
    if lengths == [] then 0 else Total(lengths[..|lengths| - 1]) + lengths[|lengths| - 1]
  }

  function Concat<T>(games: seq<seq<T>>): seq<T> {
    if games == [] then [] else Concat(games[..|games| - 1]) + games[|games| - 1]
  }

  function Lengths<T>(games: seq<seq<T>>): seq<nat> {
    seq(|games|, i requires 0 <= i < |games| => |games[i]|)
  }

  /** Slicing the concatenation at the prefix sums gives each game back. */
  lemma {:induction false} OffsetsSlice<T>(games: seq<seq<T>>, g: nat)
    requires g < |games|
    ensures var off := Offsets(Lengths(games));
            off[g] + |games[g]| <= |Concat(games)| && Concat(games)[off[g]..off[g] + |games[g]|] == games[g]
    ensures g == |games| - 1 ==> Offsets(Lengths(games))[g] + |games[g]| == |Concat(games)|
    decreases |games|
  {
    var n := |games| - 1;
    var before := games[..n];
    assert Lengths(games)[..n] == Lengths(before);
    if g < n {
      OffsetsSlice(before, g);
      assert Concat(games)[..|Concat(before)|] == Concat(before);
    } else if n > 0 {
      OffsetsSlice(before, n - 1);
    } else {
      assert Concat(before) == [];
    }
  }

  /** A games table: per game its name, step, winner, offset and length, the moves of all in one flat array. */
  datatype Table = Table(uid: seq<string>, step: seq<int>, winner: seq<int>, moveOff: seq<nat>, nMoves: seq<nat>,
                         moves: seq<Cell>)

  /** Game `g`'s entries are there and its slice lies inside the array. */
  predicate Readable(t: Table, g: nat) {
    g < |t.moveOff| && g < |t.nMoves| && t.moveOff[g] + t.nMoves[g] <= |t.moves|
  }

  /** One entry per game in every column, each slice inside the flat array. */
  predicate Aligned(t: Table) {
    && |t.step| == |t.winner| == |t.moveOff| == |t.nMoves| == |t.uid|
    && forall g | 0 <= g < |t.uid| :: Readable(t, g)
  }

  /** Game `g`'s moves. */
  function GameMoves(t: Table, g: nat): seq<Cell>
    requires Readable(t, g)
  {
    t.moves[t.moveOff[g]..t.moveOff[g] + t.nMoves[g]]
  }

  /** The table with each opening appended as a game of its own: no actor's step, nobody's win. */
  function Appended(t: Table, names: seq<string>, openings: seq<seq<Cell>>): Table {
    var n, plies := |openings|, Lengths(openings);
    var rel := Offsets(plies);
    Table(t.uid + names, t.step + seq(n, i => -1), t.winner + seq(n, i => 0),
          t.moveOff + seq(|rel|, i requires 0 <= i < |rel| => |t.moves| + rel[i]), t.nMoves + plies,
          t.moves + Concat(openings))
  }

  /** Appending openings changes no game already there. */
  lemma AppendedKeepsGames(t: Table, names: seq<string>, openings: seq<seq<Cell>>, g: nat)
    requires Aligned(t) && g < |t.uid|
    ensures var u := Appended(t, names, openings);
            Readable(u, g) && GameMoves(u, g) == GameMoves(t, g) && u.step[g] == t.step[g] && u.winner[g] == t.winner[g]
  {
    var u := Appended(t, names, openings);
    assert Readable(t, g);
    assert u.moveOff[g] == t.moveOff[g] && u.nMoves[g] == t.nMoves[g] && u.moves[..|t.moves|] == t.moves;
  }

  /** Each appended game has its opening's moves. */
  lemma AppendedHasOpenings(t: Table, names: seq<string>, openings: seq<seq<Cell>>, i: nat)
    requires Aligned(t) && |names| == |openings| && i < |openings|
    ensures var u, g := Appended(t, names, openings), |t.uid| + i;
            Readable(u, g) && GameMoves(u, g) == openings[i] && u.step[g] == -1 && u.winner[g] == 0
  {
    var u, base := Appended(t, names, openings), |t.moves|;
    var lo, n := Offsets(Lengths(openings))[i], |openings[i]|;
    OffsetsSlice(openings, i);
    assert u.moveOff[|t.uid| + i] == base + lo && u.nMoves[|t.uid| + i] == n;
    assert u.moves[base..] == Concat(openings);
    assert u.moves[base + lo..base + lo + n] == u.moves[base..][lo..lo + n];
  }

  /**
   The table stays aligned exactly when there is an opening to append, as the corpus always has: with none the offset
   list would still grow by one, because the prefix sums of nothing are still one zero.
   */
  lemma AppendedAlignedIff(t: Table, names: seq<string>, openings: seq<seq<Cell>>)
    requires Aligned(t) && |names| == |openings|
    ensures Aligned(Appended(t, names, openings)) <==> openings != []
  {
    var u := Appended(t, names, openings);
    if openings != [] {
      forall g | 0 <= g < |u.uid| ensures Readable(u, g) {
        if g < |t.uid| {
          AppendedKeepsGames(t, names, openings, g);
        } else {
          AppendedHasOpenings(t, names, openings, g - |t.uid|);
        }
      }
    }
  }

  /**
   A row of the corpus as far as it names a position: its game, its ply, the mover and the stones its turn still owes.
   */
  datatype CorpusRow = CorpusRow(game: nat, k: nat, player: Player, left: nat, fromOpening: bool, heldout: bool)

  /** Each opening's one row, at its end. */
  function OpeningRows(base: nat, openings: seq<seq<Cell>>): seq<CorpusRow> {
    seq(|openings|, i requires 0 <= i < |openings| =>
      CorpusRow(base + i, |openings[i]|, PlayerForStone(|openings[i]|), StonesLeftBefore(|openings[i]|), true, false))
  }

  /** An appended row names its opening whole, in the appended table, and is never held out. */
  lemma OpeningRowsPoint(t: Table, names: seq<string>, openings: seq<seq<Cell>>, i: nat)
    requires Aligned(t) && |names| == |openings| && i < |openings|
    ensures var u, row := Appended(t, names, openings), OpeningRows(|t.uid|, openings)[i];
            Readable(u, row.game) && row.k == |GameMoves(u, row.game)| && GameMoves(u, row.game) == openings[i] &&
            TurnAfter(row.k) == Turn(row.player, row.left) && !row.heldout
  {
    AppendedHasOpenings(t, names, openings, i);
    CadencesAgree(|openings[i]|);
  }

  class Games {
    var uid: seq<string>
    var step: seq<int>
    var winner: seq<int>
    var moveOff: seq<nat>
    var nMoves: seq<nat>
    var moves: seq<Cell>

    constructor (t: Table)
      ensures Value() == t
    {
      uid, step, winner, moveOff, nMoves, moves := t.uid, t.step, t.winner, t.moveOff, t.nMoves, t.moves;
    }

    function Value(): Table
      reads this
    {
      Table(uid, step, winner, moveOff, nMoves, moves)
    }

    /** The openings appended in place, field by field, and a row for each after the rows there are. */
    method AppendOpenings(names: seq<string>, openings: seq<seq<Cell>>, rows: seq<CorpusRow>)
        returns (more: seq<CorpusRow>)
      requires |names| == |openings|
      modifies this
      ensures Value() == Appended(old(Value()), names, openings)
      ensures more == rows + OpeningRows(|old(uid)|, openings)
    {
      var n, plies, first := |openings|, Lengths(openings), |uid|;
      uid := uid + names;
      step := step + seq(n, i => -1);
      winner := winner + seq(n, i => 0);
      var rel := Offsets(plies);
      var base := |moves|;
      moveOff := moveOff + seq(|rel|, i requires 0 <= i < |rel| => base + rel[i]);
      nMoves := nMoves + plies;
      moves := if openings == [] then moves else moves + Concat(openings);
      assert openings == [] ==> old(moves) + Concat(openings) == moves;
      more := rows + seq(n, i requires 0 <= i < n =>
        CorpusRow(first + i, plies[i], PlayerForStone(plies[i]), StonesLeftBefore(plies[i]), true, false));
      assert more == rows + OpeningRows(first, openings);
    }
  }

  // ---------------------------------------------------------------- duplicates

  /** Some kept record no later than `g` has the same moves. */
  ghost predicate KeptFor(games: seq<seq<Cell>>, kept: seq<nat>, g: nat)
    requires g < |games| && forall i | 0 <= i < |kept| :: kept[i] < |games|
  {
    exists i :: 0 <= i < |kept| && kept[i] <= g && games[kept[i]] == games[g]
  }

  /** The kept ones among the first `n` records: in order, no two alike, one for every record. */
  ghost predicate Keeps(games: seq<seq<Cell>>, kept: seq<nat>, n: nat)
    requires n <= |games|
  {
    && (forall i | 0 <= i < |kept| :: kept[i] < n)
    && (forall i, j | 0 <= i < j < |kept| :: kept[i] < kept[j] && games[kept[i]] != games[kept[j]])
    && (forall g | 0 <= g < n :: KeptFor(games, kept, g))
  }

  /** Every game's moves. */
  function GamesOf(t: Table): seq<seq<Cell>>
    requires Aligned(t)
  {
    seq(|t.uid|, g requires 0 <= g < |t.uid| => assert Readable(t, g); GameMoves(t, g))
  }

  /** The kept games' moves, game after game. */
  function Slices(t: Table, kept: seq<nat>): seq<seq<Cell>>
    requires Aligned(t) && forall i | 0 <= i < |kept| :: kept[i] < |t.uid|
  {
    seq(|kept|, i requires 0 <= i < |kept| => assert Readable(t, kept[i]); GameMoves(t, kept[i]))
  }

  /** The table rebuilt from the kept games, its offsets the prefix sums of their lengths. */
  function Rebuilt(t: Table, kept: seq<nat>): Table
    requires Aligned(t) && forall i | 0 <= i < |kept| :: kept[i] < |t.uid|
  {
    var n := |kept|;
    Table(seq(n, i requires 0 <= i < n => t.uid[kept[i]]), seq(n, i requires 0 <= i < n => t.step[kept[i]]),
          seq(n, i requires 0 <= i < n => t.winner[kept[i]]),
          Offsets(seq(n, i requires 0 <= i < n => t.nMoves[kept[i]])),
          seq(n, i requires 0 <= i < n => t.nMoves[kept[i]]), Concat(Slices(t, kept)))
  }

  /** Each kept game has in the rebuilt table the moves, the name, the step and the winner it had. */
  lemma RebuiltHasGames(t: Table, kept: seq<nat>, i: nat)
    requires Aligned(t) && i < |kept| && forall j | 0 <= j < |kept| :: kept[j] < |t.uid|
    ensures var u := Rebuilt(t, kept);
            assert Readable(t, kept[i]);
            Readable(u, i) && GameMoves(u, i) == GameMoves(t, kept[i]) && u.uid[i] == t.uid[kept[i]] &&
            u.step[i] == t.step[kept[i]] && u.winner[i] == t.winner[kept[i]]
  {
    forall j | 0 <= j < |kept| ensures |Slices(t, kept)[j]| == t.nMoves[kept[j]] {
      assert Readable(t, kept[j]);
    }
    assert Lengths(Slices(t, kept)) == Rebuilt(t, kept).nMoves;
    OffsetsSlice(Slices(t, kept), i);
  }

  /** The rebuilt table is aligned exactly when a record is kept: rebuilt from none it still has one offset. */
  lemma RebuiltAlignedIff(t: Table, kept: seq<nat>)
    requires Aligned(t) && forall j | 0 <= j < |kept| :: kept[j] < |t.uid|
    ensures Aligned(Rebuilt(t, kept)) <==> kept != []
    ensures Keeps(GamesOf(t), kept, |t.uid|) ==> (kept != [] <==> t.uid != [])
  {
    if kept != [] {
      forall i | 0 <= i < |kept| ensures Readable(Rebuilt(t, kept), i) {
        RebuiltHasGames(t, kept, i);
      }
    }
    if Keeps(GamesOf(t), kept, |t.uid|) && t.uid != [] {
      assert KeptFor(GamesOf(t), kept, 0);
    }
  }

  /** A load with no record at all, and what it is rebuilt to: no game, and an offset of one. */
  lemma NoRecordsMisaligned()
    ensures var none := Table([], [], [], [], [], []);
            Aligned(none) && Keeps(GamesOf(none), [], 0) && Rebuilt(none, []).uid == [] &&
            Rebuilt(none, []).moveOff == [0]
  {
    var none := Table([], [], [], [], [], []);
    assert GamesOf(none) == [];
    assert Offsets([]) == [0];
  }

  /** The table without its repeats, the places kept, and the number left out. */
  method DedupeTable(t: Table) returns (u: Table, kept: seq<nat>, dropped: nat)
    requires Aligned(t)
    ensures Keeps(GamesOf(t), kept, |t.uid|) && |kept| + dropped == |t.uid|
    ensures u == Rebuilt(t, kept)
  {
    hide Keeps;
    var games := GamesOf(t);
    kept, dropped := DedupeGames(games);
    KeepsInside(games, kept, |games|);
    u := Rebuilt(t, kept);
  }

  lemma KeepsInside(games: seq<seq<Cell>>, kept: seq<nat>, n: nat)
    requires n <= |games| && Keeps(games, kept, n)
    ensures forall i | 0 <= i < |kept| :: kept[i] < n
  {
  }

  /** The first record of each different game, and the number of repeats. */
  method DedupeGames(games: seq<seq<Cell>>) returns (kept: seq<nat>, dropped: nat)
    ensures Keeps(games, kept, |games|)
    ensures |kept| + dropped == |games|
  {
    var seen: set<seq<Cell>> := {};
    kept := [];
    for g := 0 to |games|
      invariant |kept| <= g && Keeps(games, kept, g)
      invariant seen == set i | 0 <= i < |kept| :: games[kept[i]]
    {
      if games[g] !in seen {
        KeptGrows(games, kept, g);
        seen := seen + {games[g]};
        kept := kept + [g];
      } else {
        var i :| 0 <= i < |kept| && games[kept[i]] == games[g];
        assert KeptFor(games, kept, g);
      }
    }
    dropped := |games| - |kept|;
  }

  /** Keeping a record unlike all those kept. */
  lemma KeptGrows(games: seq<seq<Cell>>, kept: seq<nat>, g: nat)
    requires g < |games| && Keeps(games, kept, g)
    requires games[g] !in set i | 0 <= i < |kept| :: games[kept[i]]
    ensures Keeps(games, kept + [g], g + 1)
    ensures (set i | 0 <= i < |kept + [g]| :: games[(kept + [g])[i]]) ==
            (set i | 0 <= i < |kept| :: games[kept[i]]) + {games[g]}
  {
    var longer, seen := kept + [g], set i | 0 <= i < |kept| :: games[kept[i]];
    forall h | 0 <= h <= g ensures KeptFor(games, longer, h) {
      if h < g {
        assert KeptFor(games, kept, h);
        var i :| 0 <= i < |kept| && kept[i] <= h && games[kept[i]] == games[h];
        assert longer[i] == kept[i];
      } else {
        assert longer[|kept|] == g;
      }
    }
    forall i, j | 0 <= i < j < |longer| ensures longer[i] < longer[j] && games[longer[i]] != games[longer[j]] {
      assert games[kept[i]] in seen;
    }
    forall m ensures m in (set i | 0 <= i < |longer| :: games[longer[i]]) <==> m in seen + {games[g]} {
      if m in seen {
        var i :| 0 <= i < |kept| && games[kept[i]] == m;
        assert games[longer[i]] == m;
      }
      assert games[longer[|kept|]] == games[g];
    }
  }
}
