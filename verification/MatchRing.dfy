/**
 Which of the places with its key a ring row is given: a game with the row's own result before any other, the lowest
 first; and when the choice cannot matter to the input planes.
 */
module MatchRing {
  import opened Lattice
  import opened KeyIndex
  import opened PositionKeys
  import opened Records
  import opened SettleGames
  import Planes
  import PlaneSignature

  /**
   What the matching reads of a row: the position's key and ply, who moves there, and how the game went for the mover.
   */
  datatype RingRow = RingRow(key: int, ply: nat, mover: int, valueValid: bool, outcome: int)

  /**
   Where a row was found, -1 for nowhere; how many places it could be; and whether the places part on its signature.
   */
  datatype Match = Match(game: int, ply: int, candidates: nat, ambiguous: bool)

  const ORDER_FREE_PLIES := 3

  /** Who won by the row's result, as a sign: positive for the opener, zero when it does not say. */
  function RowWinner(row: RingRow): int {
    if row.valueValid && row.outcome != 0 then row.mover * (if row.outcome > 0 then 1 else -1) else 0
  }

  // ---------------------------------------------------------------- the naive choice

  /** An earlier game, or an earlier ply of the same. */
  predicate Before(h: (nat, nat), j: (nat, nat)) {
    h.0 < j.0 || (h.0 == j.0 && h.1 < j.1)
  }

  /** Every position with the key: the game and the ply. */
  ghost function Hits(scheme: Scheme, games: seq<seq<Cell>>, key: int): set<(nat, nat)> {
    set g: nat, k: nat | g < |games| && k <= |games[g]| && KeyOf(scheme, games[g], k) == key :: (g, k)
  }

  /** Some position with the row's key is in a game the row's winner won. */
  ghost predicate SomeAgrees(scheme: Scheme, games: seq<seq<Cell>>, winner: seq<int>, row: RingRow)
    requires |winner| == |games|
  {
    exists h :: h in Hits(scheme, games, row.key) && winner[h.0] == RowWinner(row)
  }

  /** The positions the choice is made among: those whose winner agrees, or all where none does. */
  ghost predicate InPool(scheme: Scheme, games: seq<seq<Cell>>, winner: seq<int>, row: RingRow, h: (nat, nat))
    requires |winner| == |games|
  {
    h in Hits(scheme, games, row.key) && (winner[h.0] == RowWinner(row) || !SomeAgrees(scheme, games, winner, row))
  }

  function SignatureOf(games: seq<seq<Cell>>, h: (nat, nat)): PlaneSignature.Signature
    requires h.0 < |games| && h.1 <= |games[h.0]|
  {
    PlaneSignature.SixSignature(games[h.0][..h.1])
  }

  /** Two positions of the pool whose signatures differ. */
  ghost predicate PoolDisagrees(scheme: Scheme, games: seq<seq<Cell>>, winner: seq<int>, row: RingRow)
    requires |winner| == |games|
  {
    exists h, j :: InPool(scheme, games, winner, row, h) && InPool(scheme, games, winner, row, j) &&
                   SignatureOf(games, h) != SignatureOf(games, j)
  }

  /** The row's match, told without an index. */
  ghost predicate Matches(scheme: Scheme, games: seq<seq<Cell>>, winner: seq<int>, row: RingRow, m: Match)
    requires |winner| == |games|
  {
    && m.candidates == |Hits(scheme, games, row.key)|
    && (m.candidates == 0 ==> m.game == -1 && m.ply == -1)
    && (m.candidates > 0 ==> m.game >= 0 && m.ply >= 0 && InPool(scheme, games, winner, row, (m.game, m.ply)) &&
                             forall h | InPool(scheme, games, winner, row, h) :: !Before(h, (m.game, m.ply)))
    && (m.ambiguous <==> m.candidates > 1 && row.ply > ORDER_FREE_PLIES && PoolDisagrees(scheme, games, winner, row))
  }

  /** No two stone sets share the row's key, and the key's positions have the row's ply. */
  ghost predicate Uncollided(scheme: Scheme, games: seq<seq<Cell>>, row: RingRow) {
    forall g: nat, k: nat, h: nat, j: nat | Hit(scheme, games, row.key, g, k) && Hit(scheme, games, row.key, h, j) ::
      k == row.ply && PlaneSignature.Coloured(games[g][..k]) == PlaneSignature.Coloured(games[h][..j])
  }

  /**
   A match that is not ambiguous gives its row the planes and centre that every position of the pool would have given.
   */
  lemma UnambiguousFixesPlanes(scheme: Scheme, games: seq<seq<Cell>>, winner: seq<int>, row: RingRow, m: Match,
                               h: (nat, nat), radius: int)
    requires |winner| == |games| && Matches(scheme, games, winner, row, m) && !m.ambiguous
    requires Uncollided(scheme, games, row) && forall g | 0 <= g < |games| :: Distinct(games[g])
    requires InPool(scheme, games, winner, row, h)
    ensures 0 <= m.game < |games| && 0 <= m.ply <= |games[m.game]|
    ensures var a, b := games[m.game][..m.ply], games[h.0][..h.1];
            Planes.CropCenter(a) == Planes.CropCenter(b) &&
            forall p, i | 0 <= p < Planes.PLANES && 0 <= i < Planes.CELLS ::
              Planes.Lit(a, radius, p, i) == Planes.Lit(b, radius, p, i)
  {
    hide SomeAgrees, PoolDisagrees, Planes.Lit, Planes.CropCenter, PlaneSignature.SixSignature, PlaneSignature.Coloured;
    var all := Hits(scheme, games, row.key);
    assert h in all;
    var w: (nat, nat) := (m.game, m.ply);
    assert w in all && Hit(scheme, games, row.key, h.0, h.1) && Hit(scheme, games, row.key, w.0, w.1);
    var a, b := games[m.game][..m.ply], games[h.0][..h.1];
    assert Distinct(games[m.game]) && Distinct(games[h.0]);
    if m.candidates == 1 {
      OnlyMember(all, h, w);
    } else if row.ply > ORDER_FREE_PLIES {
      PoolAgrees(scheme, games, winner, row, h, w);
    } else {
      PlaneSignature.ThreeStonesFixSignature(a, b);
    }
    PlaneSignature.PlanesFactor(a, b, radius);
  }

  lemma PoolAgrees(scheme: Scheme, games: seq<seq<Cell>>, winner: seq<int>, row: RingRow, h: (nat, nat), j: (nat, nat))
    requires |winner| == |games| && !PoolDisagrees(scheme, games, winner, row)
    requires InPool(scheme, games, winner, row, h) && InPool(scheme, games, winner, row, j)
    ensures SignatureOf(games, h) == SignatureOf(games, j)
  {
  }

  lemma OnlyMember<T>(s: set<T>, x: T, y: T)
    requires |s| == 1 && x in s && y in s
    ensures x == y
  {
    assert |s - {x}| == 0;
    assert y !in s - {x};
  }

  // ---------------------------------------------------------------- the key's span, as positions

  ghost predicate Arrays(scheme: Scheme, games: seq<seq<Cell>>, keys: seq<int>, gidx: seq<nat>, plies: seq<nat>,
                         order: seq<nat>) {
    && keys == Concat(AllKeys(scheme, games)) && gidx == Concat(AllIndices(games)) && plies == Concat(AllPlies(games))
    && IsOrder(keys, order)
  }

  ghost predicate InTurn(options: seq<(nat, nat)>) {
    forall i, j | 0 <= i < j < |options| :: Before(options[i], options[j])
  }

  /** The span's places, listed as positions: each of the key's positions, in order. */
  ghost predicate Lists(scheme: Scheme, games: seq<seq<Cell>>, key: int, options: seq<(nat, nat)>) {
    && InTurn(options)
    && (forall h :: h in options <==> h in Hits(scheme, games, key))
  }

  /** The options a row's span lists. */
  method Options(scheme: Scheme, games: seq<seq<Cell>>, keys: seq<int>, gidx: seq<nat>, plies: seq<nat>,
                 order: seq<nat>, key: int, lo: nat, hi: nat) returns (options: seq<(nat, nat)>)
    requires Arrays(scheme, games, keys, gidx, plies, order)
    requires IsOrder(keys, order) && IsSpan(keys, order, key, lo, hi)
    ensures lo <= hi && |options| == hi - lo && Lists(scheme, games, key, options)
  {
    hide Arrays, Hits, Concat;
    SpanInside(keys, order, key, lo, hi);
    options := [];
    for i := lo to hi
      invariant |options| == i - lo
      invariant forall n | 0 <= n < |options| :: Positioned(scheme, games, key, order[lo + n], options[n])
    {
      PlacePosition(scheme, games, keys, gidx, plies, order, key, order[i]);
      options := options + [(gidx[order[i]], plies[order[i]])];
    }
    ListsAll(scheme, games, keys, gidx, plies, order, key, lo, hi, options);
  }

  /** Position `h` has the key and lies at flat place `p`. */
  ghost predicate Positioned(scheme: Scheme, games: seq<seq<Cell>>, key: int, p: nat, h: (nat, nat)) {
    Hit(scheme, games, key, h.0, h.1) && Place(games, h.0, h.1) == p
  }

  lemma PlacePosition(scheme: Scheme, games: seq<seq<Cell>>, keys: seq<int>, gidx: seq<nat>, plies: seq<nat>,
                      order: seq<nat>, key: int, p: nat)
    requires Arrays(scheme, games, keys, gidx, plies, order) && p in Places(keys, key)
    ensures p < |gidx| && p < |plies| && Positioned(scheme, games, key, p, (gidx[p], plies[p]))
  {
    PlacesAreHits(scheme, games, keys, key);
    var g, k :| Hit(scheme, games, key, g, k) && Place(games, g, k) == p;
    PlaceHolds(scheme, games, g, k);
  }

  lemma ListsAll(scheme: Scheme, games: seq<seq<Cell>>, keys: seq<int>, gidx: seq<nat>, plies: seq<nat>,
                 order: seq<nat>, key: int, lo: nat, hi: nat, options: seq<(nat, nat)>)
    requires Arrays(scheme, games, keys, gidx, plies, order)
    requires IsOrder(keys, order) && IsSpan(keys, order, key, lo, hi)
    requires lo <= hi <= |order| && |options| == hi - lo
    requires forall n | 0 <= n < |options| :: Positioned(scheme, games, key, order[lo + n], options[n])
    ensures Lists(scheme, games, key, options)
  {
    SpanInside(keys, order, key, lo, hi);
    PlacesAreHits(scheme, games, keys, key);
    forall h | h in Hits(scheme, games, key) ensures h in options {
      assert Hit(scheme, games, key, h.0, h.1);
      var p := Place(games, h.0, h.1);
      assert p in Places(keys, key);
      var i :| lo <= i < hi && order[i] == p;
      assert Positioned(scheme, games, key, order[lo + (i - lo)], options[i - lo]);
      SamePlace(scheme, games, h, options[i - lo]);
      assert options[i - lo] == h;
    }
    forall i, j | 0 <= i < j < |options| ensures Before(options[i], options[j]) {
      assert order[lo + i] < order[lo + j];
      assert Positioned(scheme, games, key, order[lo + i], options[i]) &&
             Positioned(scheme, games, key, order[lo + j], options[j]);
      PlacesAscend(games, options[i], options[j]);
    }
  }

  /** The flat places run game by game, ply by ply. */
  lemma PlacesAscend(games: seq<seq<Cell>>, h: (nat, nat), j: (nat, nat))
    requires h.0 < |games| && h.1 <= |games[h.0]| && j.0 < |games| && j.1 <= |games[j.0]|
    requires Place(games, h.0, h.1) < Place(games, j.0, j.1)
    ensures Before(h, j)
  {
    if j.0 < h.0 {
      OffsetsAscend(Positions(games), j.0, h.0);
    }
  }

  lemma {:induction false} OffsetsAscend(lengths: seq<nat>, g: nat, h: nat)
    requires g < h < |lengths|
    ensures Offsets(lengths)[g] + lengths[g] <= Offsets(lengths)[h]
    decreases |lengths|
  {
    var n := |lengths| - 1;
    if h < n {
      OffsetsAscend(lengths[..n], g, h);
    } else if g < n - 1 {
      OffsetsAscend(lengths[..n], g, n - 1);
    }
  }

  /** No two positions share a flat place. */
  lemma SamePlace(scheme: Scheme, games: seq<seq<Cell>>, h: (nat, nat), j: (nat, nat))
    requires h.0 < |games| && h.1 <= |games[h.0]| && j.0 < |games| && j.1 <= |games[j.0]|
    requires Place(games, h.0, h.1) == Place(games, j.0, j.1)
    ensures h == j
  {
    PlaceHolds(scheme, games, h.0, h.1);
    PlaceHolds(scheme, games, j.0, j.1);
  }

  /** A list without repeats has as many members as places. */
  lemma {:induction false} DistinctSize<T>(s: seq<T>, members: set<T>)
    requires forall i, j | 0 <= i < j < |s| :: s[i] != s[j]
    requires forall x :: x in s <==> x in members
    ensures |members| == |s|
  {
    if s == [] {
      assert members == {};
    } else {
      var last := s[|s| - 1];
      assert s == s[..|s| - 1] + [last];
      DistinctSize(s[..|s| - 1], members - {last});
    }
  }

  // ---------------------------------------------------------------- one row, and every row

  /** The options whose game the row's winner won. */
  method Agreeing(options: seq<(nat, nat)>, winner: seq<int>, want: int) returns (agreeing: seq<(nat, nat)>)
    requires forall h | h in options :: h.0 < |winner|
    requires InTurn(options)
    ensures InTurn(agreeing) && forall h :: h in agreeing <==> h in options && winner[h.0] == want
  {
    agreeing := [];
    for n := 0 to |options|
      invariant InTurn(agreeing)
      invariant forall h :: h in agreeing <==> h in options[..n] && winner[h.0] == want
    {
      assert options[n] in options && options[..n + 1] == options[..n] + [options[n]];
      if winner[options[n].0] == want {
        forall h | h in agreeing ensures Before(h, options[n]) {
          var i :| 0 <= i < n && options[i] == h;
        }
        agreeing := agreeing + [options[n]];
      }
    }
    assert options[..|options|] == options;
  }

  /** The first option of the lowest game. */
  method Lowest(options: seq<(nat, nat)>) returns (pick: (nat, nat), ghost at: nat)
    requires options != []
    ensures at < |options| && options[at] == pick
    ensures forall h | h in options :: pick.0 <= h.0
    ensures forall i | 0 <= i < at :: options[i].0 > pick.0
  {
    pick, at := options[0], 0;
    for n := 1 to |options|
      invariant at < n && options[at] == pick
      invariant forall i | 0 <= i < n :: pick.0 <= options[i].0
      invariant forall i | 0 <= i < at :: options[i].0 > pick.0
    {
      if options[n].0 < pick.0 {
        pick, at := options[n], n;
      }
    }
  }

  /** Among options in order, the first of the lowest game comes before all others. */
  lemma LowestIsEarliest(options: seq<(nat, nat)>, at: nat)
    requires InTurn(options) && at < |options|
    requires forall h | h in options :: options[at].0 <= h.0
    requires forall i | 0 <= i < at :: options[i].0 > options[at].0
    ensures forall h | h in options :: !Before(h, options[at])
  {
    forall h | h in options ensures !Before(h, options[at]) {
      var i :| 0 <= i < |options| && options[i] == h;
    }
  }

  /** Whether the options' signatures are more than one. */
  method Disagree(games: seq<seq<Cell>>, options: seq<(nat, nat)>) returns (more: bool)
    requires forall h | h in options :: h.0 < |games| && h.1 <= |games[h.0]|
    ensures more <==> exists h, j :: h in options && j in options && SignatureOf(games, h) != SignatureOf(games, j)
  {
    hide SignatureOf;
    var sigs := set h | h in options :: SignatureOf(games, h);
    more := |sigs| > 1;
    if more {
      var x :| x in sigs;
      assert sigs != {x};
      var y :| y in sigs && y != x;
      var h, j :| h in options && j in options && SignatureOf(games, h) == x && SignatureOf(games, j) == y;
    } else {
      forall h, j | h in options && j in options ensures SignatureOf(games, h) == SignatureOf(games, j) {
        if SignatureOf(games, h) != SignatureOf(games, j) {
          assert {SignatureOf(games, h), SignatureOf(games, j)} <= sigs;
          SubsetSize({SignatureOf(games, h), SignatureOf(games, j)}, sigs);
        }
      }
    }
  }

  lemma SubsetSize<T>(a: set<T>, b: set<T>)
    requires a <= b
    ensures |a| <= |b|
  {
    assert b == a + (b - a);
  }

  /** The pool is the agreeing options, or all of them. */
  lemma PoolIs(scheme: Scheme, games: seq<seq<Cell>>, winner: seq<int>, row: RingRow, options: seq<(nat, nat)>,
               pool: seq<(nat, nat)>)
    requires |winner| == |games| && Lists(scheme, games, row.key, options)
    requires (pool != [] && forall h :: h in pool <==> h in options && winner[h.0] == RowWinner(row)) ||
             (pool == options && forall h | h in options :: winner[h.0] != RowWinner(row))
    ensures forall h :: h in pool <==> InPool(scheme, games, winner, row, h)
  {
    hide RowWinner;
    if pool != [] && pool != options {
      assert pool[0] in pool;
    }
    if SomeAgrees(scheme, games, winner, row) {
      var a :| a in Hits(scheme, games, row.key) && winner[a.0] == RowWinner(row);
      assert a in options;
    } else if pool != [] {
      assert pool[0] in pool;
    }
  }

  method MatchRow(scheme: Scheme, games: seq<seq<Cell>>, winner: seq<int>, row: RingRow, options: seq<(nat, nat)>)
      returns (m: Match)
    requires |winner| == |games| && Lists(scheme, games, row.key, options)
    ensures Matches(scheme, games, winner, row, m)
  {
    hide SignatureOf, RowWinner, SomeAgrees;
    assert forall i, j | 0 <= i < j < |options| :: options[i] != options[j];
    hide Before;
    DistinctSize(options, Hits(scheme, games, row.key));
    if |options| == 0 {
      return Match(-1, -1, 0, false);
    }
    var agreeing := Agreeing(options, winner, RowWinner(row));
    var pool := if agreeing == [] then options else agreeing;
    if agreeing == [] {
      forall h | h in options ensures winner[h.0] != RowWinner(row) {
        assert h !in agreeing;
      }
    }
    PoolIs(scheme, games, winner, row, options, pool);
    hide Hits, Lists, InPool;
    if |options| == 1 {
      assert options[0] in options;
      SingleInPool(options, pool, options[0]);
      m := Match(options[0].0, options[0].1, 1, false);
    } else {
      PoolReadable(scheme, games, winner, row, pool);
      var pick, at := Lowest(pool);
      LowestIsEarliest(pool, at);
      var ambiguous := false;
      if row.ply > ORDER_FREE_PLIES {
        ambiguous := Disagree(games, pool);
      }
      m := Match(pick.0, pick.1, |options|, ambiguous);
    }
  }

  lemma PoolReadable(scheme: Scheme, games: seq<seq<Cell>>, winner: seq<int>, row: RingRow, pool: seq<(nat, nat)>)
    requires |winner| == |games| && forall h | h in pool :: InPool(scheme, games, winner, row, h)
    ensures forall h | h in pool :: h.0 < |games| && h.1 <= |games[h.0]|
  {
  }

  lemma SingleInPool(options: seq<(nat, nat)>, pool: seq<(nat, nat)>, h: (nat, nat))
    requires options == [h] && pool != [] && forall j | j in pool :: j in options
    ensures h in pool && forall j | j in pool :: j == h
  {
    assert pool[0] in pool;
  }

  /** Every ring row's match through the sorted index is the naive choice. */
  method MatchRing(scheme: Scheme, games: seq<seq<Cell>>, winner: seq<int>, rows: seq<RingRow>)
      returns (matches: seq<Match>)
    requires |winner| == |games|
    ensures |matches| == |rows|
    ensures forall i | 0 <= i < |rows| :: Matches(scheme, games, winner, rows[i], matches[i])
  {
    hide IsOrder, Matches, Lists, InTurn;
    var keys, gidx, plies := GamePositionKeys(scheme, games);
    var order := Argsort(keys);
    matches := [];
    for i := 0 to |rows|
      invariant |matches| == i
      invariant forall j | 0 <= j < i :: Matches(scheme, games, winner, rows[j], matches[j])
    {
      var lo := SearchLeft(keys, order, rows[i].key);
      var hi := SearchRight(keys, order, rows[i].key);
      var options := Options(scheme, games, keys, gidx, plies, order, rows[i].key, lo, hi);
      var m := MatchRow(scheme, games, winner, rows[i], options);
      matches := matches + [m];
    }
  }
}
