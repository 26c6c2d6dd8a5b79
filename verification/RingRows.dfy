/**
 A ring row's own key, from the stones, the ply and the game length it keeps: it is the key of the record's position it
 was cut from, and so rows cut from a record are settled and matched to it.
 */
module RingRows {
  import opened Lattice
  import opened MatchRing
  import opened PositionKeys
  import opened Records
  import opened SettleGames
  import Planes
  import PlaneSignature

  // ---------------------------------------------------------------- the row's key

  /** The 64-bit sum of a row's stone hashes, as the row lists them. */
  function RowSum(scheme: Scheme, stones: seq<(Cell, Player)>): nat {
    if stones == [] then 0
    else
      var last := stones[|stones| - 1];
      (RowSum(scheme, stones[..|stones| - 1]) + scheme.stone(last.0, last.1)) % WORD
  }

  function RowKey(scheme: Scheme, stones: seq<(Cell, Player)>, ply: nat, gameLength: nat): int {
    scheme.fold(RowSum(scheme, stones), ply, gameLength)
  }

  /** Row `i`'s stretch of the flat list of all rows' stones. */
  function StonesOf(counts: seq<nat>, stones: seq<(Cell, Player)>, i: nat): seq<(Cell, Player)>
    requires i < |counts| && Total(counts) == |stones|
  {
    TotalTake(counts, i);
    OffsetIsTotal(counts, i);
    stones[Offsets(counts)[i]..Offsets(counts)[i] + counts[i]]
  }

  /** Every row's sum, its stones being the row's stretch of one flat list. */
  method RowStoneSums(scheme: Scheme, counts: seq<nat>, stones: seq<(Cell, Player)>) returns (sums: array<nat>)
    requires Total(counts) == |stones|
    ensures fresh(sums) && sums.Length == |counts|
    ensures forall i | 0 <= i < |counts| :: sums[i] == RowSum(scheme, StonesOf(counts, stones, i))
  {
    sums := new nat[|counts|](i => 0);
    var at := 0;
    for i := 0 to |counts|
      invariant at == Total(counts[..i])
      invariant forall j | i <= j < |counts| :: sums[j] == 0
      invariant forall j | 0 <= j < i :: sums[j] == RowSum(scheme, StonesOf(counts, stones, j))
    {
      OffsetIsTotal(counts, i);
      TotalTake(counts, i);
      AddStones(scheme, stones[at..at + counts[i]], sums, i);
      at := at + counts[i];
      assert counts[..i + 1][..i] == counts[..i];
    }
  }

  /** A row's stones added to its sum, one by one. */
  method AddStones(scheme: Scheme, stones: seq<(Cell, Player)>, sums: array<nat>, i: nat)
    requires i < sums.Length && sums[i] == 0
    modifies sums
    ensures sums[..] == old(sums[..])[i := RowSum(scheme, stones)]
  {
    for n := 0 to |stones|
      invariant sums[i] == RowSum(scheme, stones[..n])
      invariant sums[..] == old(sums[..])[i := sums[i]]
    {
      assert stones[..n + 1][..n] == stones[..n];
      sums[i] := (sums[i] + scheme.stone(stones[n].0, stones[n].1)) % WORD;
    }
    assert stones[..|stones|] == stones;
  }

  lemma {:induction false} TotalTake(counts: seq<nat>, i: nat)
    requires i < |counts|
    ensures Total(counts[..i]) + counts[i] <= Total(counts)
    decreases |counts|
  {
    var n := |counts| - 1;
    if i < n {
      assert counts[..n][..i] == counts[..i];
      TotalTake(counts[..n], i);
    }
  }

  lemma {:induction false} OffsetIsTotal(counts: seq<nat>, i: nat)
    requires i < |counts|
    ensures Offsets(counts)[i] == Total(counts[..i])
    decreases |counts|
  {
    var n := |counts| - 1;
    if i < n {
      assert counts[..n][..i] == counts[..i];
      OffsetIsTotal(counts[..n], i);
    } else if n > 0 {
      OffsetIsTotal(counts[..n], n - 1);
      assert counts[..n][..n - 1] == counts[..n - 1];
    }
  }

  /** The stones of a set, each once, in some order. */
  ghost predicate Lists(stones: seq<(Cell, Player)>, all: set<(Cell, Player)>) {
    (forall x :: x in stones <==> x in all) && forall i, j | 0 <= i < j < |stones| :: stones[i] != stones[j]
  }

  /** A row's sum does not depend on how it lists its stones: any of them can be taken last. */
  lemma {:induction false} RowSumWithout(scheme: Scheme, stones: seq<(Cell, Player)>, k: nat)
    requires k < |stones|
    ensures RowSum(scheme, stones) ==
            (RowSum(scheme, stones[..k] + stones[k + 1..]) + scheme.stone(stones[k].0, stones[k].1)) % WORD
    decreases |stones|
  {
    var n := |stones| - 1;
    if k == n {
      assert stones[..k] + stones[k + 1..] == stones[..n];
    } else {
      var before, last, c := stones[..n], stones[n], stones[k];
      RowSumWithout(scheme, before, k);
      assert (stones[..k] + stones[k + 1..])[..n - 1] == before[..k] + before[k + 1..];
      SumsCommute(RowSum(scheme, before[..k] + before[k + 1..]), scheme.stone(c.0, c.1),
                  scheme.stone(last.0, last.1));
    }
  }

  lemma SumsCommute(s: nat, x: nat, y: nat)
    ensures ((s + x) % WORD + y) % WORD == ((s + y) % WORD + x) % WORD
  {
  }

  /** The stones' hashes added up as whole numbers. */
  function PlainSum(scheme: Scheme, stones: seq<(Cell, Player)>): nat {
    if stones == [] then 0
    else
      var last := stones[|stones| - 1];
      PlainSum(scheme, stones[..|stones| - 1]) + scheme.stone(last.0, last.1)
  }

  /** Wrapping at every stone is wrapping once, at 64 bits. */
  lemma {:induction false} RowSumWraps(scheme: Scheme, stones: seq<(Cell, Player)>)
    ensures RowSum(scheme, stones) == PlainSum(scheme, stones) % 18446744073709551616
  {
    if stones != [] {
      RowSumWraps(scheme, stones[..|stones| - 1]);
    }
  }

  /** The turns a game of `n` stones has completed on the board's cadence: one at each stone that ends a turn. */
  function CompletedTurns(n: nat): nat {
    if n == 0 then 0 else CompletedTurns(n - 1) + if TurnAfter(n - 1).left == 1 then 1 else 0
  }

  lemma {:induction false} CompletedIsHalf(n: nat)
    ensures CompletedTurns(n) == (n + 1) / 2
  {
    if n > 0 {
      CompletedIsHalf(n - 1);
      CadencesAgree(n - 1);
    }
  }

  lemma SomeMember<T>(s: seq<T>)
    ensures s == [] || exists x :: x in s
  {
    if s != [] {
      assert s[0] in s;
    }
  }

  lemma {:induction false} SumOfListing(scheme: Scheme, moves: seq<Cell>, k: nat, stones: seq<(Cell, Player)>)
    requires Distinct(moves) && k <= |moves| && Lists(stones, PlaneSignature.Coloured(moves[..k]))
    ensures RowSum(scheme, stones) == StoneSum(scheme, moves, k)
  {
    if k == 0 {
      SomeMember(stones);
    } else {
      var last := (moves[k - 1], PlayerForStone(k - 1));
      assert last == (moves[..k][k - 1], PlayerForStone(k - 1));
      assert last in PlaneSignature.Coloured(moves[..k]);
      var j :| 0 <= j < |stones| && stones[j] == last;
      ListsWithout(moves, k, stones, j);
      SumOfListing(scheme, moves, k - 1, stones[..j] + stones[j + 1..]);
      RowSumWithout(scheme, stones, j);
    }
  }

  lemma ListsWithout(moves: seq<Cell>, k: nat, stones: seq<(Cell, Player)>, j: nat)
    requires Distinct(moves) && 1 <= k <= |moves| && Lists(stones, PlaneSignature.Coloured(moves[..k]))
    requires j < |stones| && stones[j] == (moves[k - 1], PlayerForStone(k - 1))
    ensures Lists(stones[..j] + stones[j + 1..], PlaneSignature.Coloured(moves[..k - 1]))
  {
    var rest, fewer := stones[..j] + stones[j + 1..], PlaneSignature.Coloured(moves[..k - 1]);
    forall x ensures x in rest <==> x in fewer {
      if x in rest {
        var i :| 0 <= i < |rest| && rest[i] == x;
        assert x in stones && x != stones[j];
        var l :| 0 <= l < |moves[..k]| && x == (moves[..k][l], PlayerForStone(l));
        assert x == (moves[..k - 1][l], PlayerForStone(l));
      }
      if x in fewer {
        var l :| 0 <= l < |moves[..k - 1]| && x == (moves[..k - 1][l], PlayerForStone(l));
        assert x == (moves[..k][l], PlayerForStone(l));
        assert x in stones;
        assert moves[l] != moves[k - 1];
      }
    }
  }

  /**
   The key of a record's position after `k` stones is the key of a ring row that holds that position's coloured stones
   in any order, the ply `k`, and the number of turns the game completed.
   */
  lemma KeyIsRowKey(scheme: Scheme, moves: seq<Cell>, k: nat, stones: seq<(Cell, Player)>)
    requires Distinct(moves) && k <= |moves| && Lists(stones, PlaneSignature.Coloured(moves[..k]))
    ensures KeyOf(scheme, moves, k) == RowKey(scheme, stones, k, CompletedTurns(|moves|))
  {
    SumOfListing(scheme, moves, k, stones);
    CompletedIsHalf(|moves|);
  }

  // ---------------------------------------------------------------- rows cut from a record

  /** The key a row has when it was cut from a record at a ply. */
  ghost predicate CutKey(scheme: Scheme, moves: seq<Cell>, ply: nat, key: int) {
    ply <= |moves| && exists stones ::
      Lists(stones, PlaneSignature.Coloured(moves[..ply])) &&
      key == RowKey(scheme, stones, ply, CompletedTurns(|moves|))
  }

  lemma CutKeyIsKey(scheme: Scheme, moves: seq<Cell>, ply: nat, key: int)
    requires Distinct(moves) && CutKey(scheme, moves, ply, key)
    ensures ply <= |moves| && KeyOf(scheme, moves, ply) == key
  {
    var stones :| Lists(stones, PlaneSignature.Coloured(moves[..ply])) &&
                  key == RowKey(scheme, stones, ply, CompletedTurns(|moves|));
    KeyIsRowKey(scheme, moves, ply, stones);
  }

  /** Every row of a ring game was cut from record `g`. */
  ghost predicate CutFrom(scheme: Scheme, games: seq<seq<Cell>>, rows: seq<Row>, gid: int, g: nat)
    requires g < |games|
  {
    forall i | 0 <= i < |rows| && rows[i].gameId == gid :: CutKey(scheme, games[g], rows[i].ply, rows[i].key)
  }

  /**
   A ring game whose rows were all cut from one record is settled to that record as soon as one of its rows has a key no
   other position has; without such a row it is refused for that, and never for a missing record or a disagreement.
   */
  lemma CutRowsSettle(scheme: Scheme, games: seq<seq<Cell>>, rows: seq<Row>, gid: int, g: nat, o: Outcome)
    requires g < |games| && Distinct(games[g]) && CutFrom(scheme, games, rows, gid, g) && gid >= 0
    requires Decides(scheme, games, rows, gid, o)
    ensures FitsAll(scheme, games, rows, gid, g)
    ensures o == if HasSoleRow(scheme, games, rows, gid) then Settled(g) else NoUniqueRow
  {
    forall i | 0 <= i < |rows| && rows[i].gameId == gid
      ensures Fits(scheme, games, rows[i], g) && Matched(scheme, games, rows[i].key)
    {
      CutKeyIsKey(scheme, games[g], rows[i].ply, rows[i].key);
      assert Hit(scheme, games, rows[i].key, g, rows[i].ply);
    }
    hide HasSoleRow, Fits, Matched;
    OutcomesMean(scheme, games, rows, gid, o);
  }

  // ---------------------------------------------------------------- a row's result

  function Sign(p: Player): int {
    if p == P1 then 1 else -1
  }

  /** The row's result is the game's: the mover by the cadence, and how the game went for the mover. */
  ghost predicate TellsWinner(row: RingRow, winner: int) {
    && row.mover == Sign(TurnAfter(row.ply).player)
    && winner in {-1, 0, 1}
    && (winner == 0 <==> !row.valueValid || row.outcome == 0)
    && (winner != 0 ==> (row.outcome > 0 <==> winner == row.mover))
  }

  /** Told right, the row's winner is the game's. */
  lemma RowWinnerMeans(row: RingRow, winner: int)
    requires TellsWinner(row, winner)
    ensures RowWinner(row) == winner
  {
  }

  /**
   A row cut from record `g` with the game's own result finds candidates, and is given a game with the same result;
   unless it is ambiguous or keys collide, the planes are those of the position it was cut from.
   */
  lemma CutRowMatched(scheme: Scheme, games: seq<seq<Cell>>, winner: seq<int>, row: RingRow, m: Match, g: nat,
                      radius: int)
    requires |winner| == |games| && Matches(scheme, games, winner, row, m)
    requires g < |games| && Distinct(games[g]) && CutKey(scheme, games[g], row.ply, row.key)
    requires TellsWinner(row, winner[g])
    ensures m.candidates > 0 && 0 <= m.game < |games| && 0 <= m.ply <= |games[m.game]|
    ensures KeyOf(scheme, games[m.game], m.ply) == row.key && winner[m.game] == winner[g]
    ensures m.game <= g
    ensures !m.ambiguous && Uncollided(scheme, games, row) && (forall h | 0 <= h < |games| :: Distinct(games[h])) ==>
              m.ply == row.ply &&
              var a, b := games[m.game][..m.ply], games[g][..row.ply];
              Planes.CropCenter(a) == Planes.CropCenter(b) &&
              forall p, i | 0 <= p < Planes.PLANES && 0 <= i < Planes.CELLS ::
                Planes.Lit(a, radius, p, i) == Planes.Lit(b, radius, p, i)
  {
    hide KeyOf, SignatureOf, PoolDisagrees, Planes.Lit, Planes.CropCenter, PlaneSignature.Coloured;
    CutKeyIsKey(scheme, games[g], row.ply, row.key);
    RowWinnerMeans(row, winner[g]);
    var h: (nat, nat) := (g, row.ply);
    assert h in Hits(scheme, games, row.key);
    assert Hits(scheme, games, row.key) != {};
    assert SomeAgrees(scheme, games, winner, row);
    var w: (nat, nat) := (m.game, m.ply);
    assert InPool(scheme, games, winner, row, w) && InPool(scheme, games, winner, row, h);
    assert !Before(h, w);
    if !m.ambiguous && Uncollided(scheme, games, row) && forall j | 0 <= j < |games| :: Distinct(games[j]) {
      assert Hit(scheme, games, row.key, m.game, m.ply) && Hit(scheme, games, row.key, g, row.ply);
      UnambiguousFixesPlanes(scheme, games, winner, row, m, h, radius);
    }
  }
}
