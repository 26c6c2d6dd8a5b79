/**
 Which game record each ring row belongs to, decided through a sorted key index; and the naive decision it must equal:
 the one record all the rows' positions fit.
 */
module SettleGames {
  import opened Lattice
  import opened Records
  import opened KeyIndex
  import opened PositionKeys
  import opened Wrappers

  /** A ring row: its ring game, its ply, its key. */
  datatype Row = Row(gameId: int, ply: nat, key: int)

  datatype Outcome = Untagged | NoRecord | NoUniqueRow | RecordsDisagree | Settled(game: nat)

  // ---------------------------------------------------------------- the naive decision

  /** Position `k` of record `g` has the key. */
  ghost predicate Hit(scheme: Scheme, games: seq<seq<Cell>>, key: int, g: nat, k: nat) {
    g < |games| && k <= |games[g]| && KeyOf(scheme, games[g], k) == key
  }

  ghost predicate Matched(scheme: Scheme, games: seq<seq<Cell>>, key: int) {
    exists g, k :: Hit(scheme, games, key, g, k)
  }

  /** Exactly one position of one record has the key. */
  ghost predicate Sole(scheme: Scheme, games: seq<seq<Cell>>, key: int, g: nat, k: nat) {
    Hit(scheme, games, key, g, k) && forall h, j | Hit(scheme, games, key, h, j) :: h == g && j == k
  }

  /** The record's position at the row's ply is the row's. */
  ghost predicate Fits(scheme: Scheme, games: seq<seq<Cell>>, row: Row, g: nat) {
    Hit(scheme, games, row.key, g, row.ply)
  }

  /** The record fits every row of the ring game. */
  ghost predicate FitsAll(scheme: Scheme, games: seq<seq<Cell>>, rows: seq<Row>, gid: int, g: nat) {
    forall i | 0 <= i < |rows| && rows[i].gameId == gid :: Fits(scheme, games, rows[i], g)
  }

  ghost predicate HasSoleRow(scheme: Scheme, games: seq<seq<Cell>>, rows: seq<Row>, gid: int) {
    exists i, g, k :: 0 <= i < |rows| && rows[i].gameId == gid && Sole(scheme, games, rows[i].key, g, k)
  }

  ghost predicate AllMatched(scheme: Scheme, games: seq<seq<Cell>>, rows: seq<Row>, gid: int) {
    forall i | 0 <= i < |rows| && rows[i].gameId == gid :: Matched(scheme, games, rows[i].key)
  }

  /** What an outcome says of a ring game, with no index in sight. */
  ghost predicate Decides(scheme: Scheme, games: seq<seq<Cell>>, rows: seq<Row>, gid: int, o: Outcome) {
    match o
    case Untagged => gid < 0
    case NoRecord => gid >= 0 && !AllMatched(scheme, games, rows, gid)
    case NoUniqueRow => gid >= 0 && AllMatched(scheme, games, rows, gid) && !HasSoleRow(scheme, games, rows, gid)
    case RecordsDisagree =>
      && gid >= 0 && AllMatched(scheme, games, rows, gid) && HasSoleRow(scheme, games, rows, gid)
      && forall g :: !FitsAll(scheme, games, rows, gid, g)
    case Settled(g) => gid >= 0 && HasSoleRow(scheme, games, rows, gid) && FitsAll(scheme, games, rows, gid, g)
  }

  /** A ring game with a row of one match has at most one record that fits. */
  lemma SoleRowSettlesOne(scheme: Scheme, games: seq<seq<Cell>>, rows: seq<Row>, gid: int, g: nat, h: nat)
    requires HasSoleRow(scheme, games, rows, gid)
    requires FitsAll(scheme, games, rows, gid, g) && FitsAll(scheme, games, rows, gid, h)
    ensures g == h
  {
    var i, s, k :| 0 <= i < |rows| && rows[i].gameId == gid && Sole(scheme, games, rows[i].key, s, k);
    assert Fits(scheme, games, rows[i], g) && Fits(scheme, games, rows[i], h);
  }

  /** An unmatched row, or records that disagree, leave no record that fits; a settled game leaves one. */
  lemma OutcomesMean(scheme: Scheme, games: seq<seq<Cell>>, rows: seq<Row>, gid: int, o: Outcome)
    requires Decides(scheme, games, rows, gid, o)
    ensures o.NoRecord? || o.RecordsDisagree? ==> forall g :: !FitsAll(scheme, games, rows, gid, g)
    ensures o.Settled? ==> forall g :: FitsAll(scheme, games, rows, gid, g) <==> g == o.game
    ensures o.Settled? <==>
            gid >= 0 && HasSoleRow(scheme, games, rows, gid) && exists g :: FitsAll(scheme, games, rows, gid, g)
  {
    if o.NoRecord? {
      var i :| 0 <= i < |rows| && rows[i].gameId == gid && !Matched(scheme, games, rows[i].key);
      forall g ensures !FitsAll(scheme, games, rows, gid, g) {
        assert !Fits(scheme, games, rows[i], g);
      }
    }
    if o.Settled? {
      forall g | FitsAll(scheme, games, rows, gid, g) ensures g == o.game {
        SoleRowSettlesOne(scheme, games, rows, gid, g, o.game);
      }
    }
  }

  /** The outcomes exclude each other. */
  lemma OutcomeUnique(scheme: Scheme, games: seq<seq<Cell>>, rows: seq<Row>, gid: int, o: Outcome, p: Outcome)
    requires Decides(scheme, games, rows, gid, o) && Decides(scheme, games, rows, gid, p)
    ensures o == p
  {
    OutcomesMean(scheme, games, rows, gid, o);
    OutcomesMean(scheme, games, rows, gid, p);
  }

  /** The naive decision itself. */
  ghost function Naive(scheme: Scheme, games: seq<seq<Cell>>, rows: seq<Row>, gid: int): (o: Outcome)
    ensures Decides(scheme, games, rows, gid, o)
  {
    if gid < 0 then Untagged
    else if !AllMatched(scheme, games, rows, gid) then NoRecord
    else if !HasSoleRow(scheme, games, rows, gid) then NoUniqueRow
    else if g: nat :| FitsAll(scheme, games, rows, gid, g) then Settled(g)
    else RecordsDisagree
  }

  // ---------------------------------------------------------------- the index

  /** The flat arrays of the records' positions and the order that sorts them. */
  ghost predicate Indexed(scheme: Scheme, games: seq<seq<Cell>>, keys: seq<int>, gidx: seq<nat>, order: seq<nat>) {
    keys == Concat(AllKeys(scheme, games)) && gidx == Concat(AllIndices(games)) && IsOrder(keys, order)
  }

  /** A key's places in the flat array are its hits. */
  lemma PlacesAreHits(scheme: Scheme, games: seq<seq<Cell>>, keys: seq<int>, key: int)
    requires keys == Concat(AllKeys(scheme, games))
    ensures forall g, k | Hit(scheme, games, key, g, k) :: Place(games, g, k) in Places(keys, key)
    ensures forall p | p in Places(keys, key) :: exists g, k :: Hit(scheme, games, key, g, k) && Place(games, g, k) == p
  {
    forall g, k | Hit(scheme, games, key, g, k) ensures Place(games, g, k) in Places(keys, key) {
      PlaceHolds(scheme, games, g, k);
    }
    forall p | p in Places(keys, key) ensures exists g, k :: Hit(scheme, games, key, g, k) && Place(games, g, k) == p {
      assert Lengths(AllKeys(scheme, games)) == Positions(games);
      var g, k := PlaceOfSome(AllKeys(scheme, games), p);
      PlaceHolds(scheme, games, g, k);
      assert Hit(scheme, games, key, g, k) && Place(games, g, k) == p;
    }
  }

  /** What a row's span says: no match, exactly one and which record it is, or several. */
  lemma SpanMeans(scheme: Scheme, games: seq<seq<Cell>>, keys: seq<int>, gidx: seq<nat>, order: seq<nat>, key: int,
                  lo: nat, hi: nat)
    requires Indexed(scheme, games, keys, gidx, order) && IsSpan(keys, order, key, lo, hi)
    ensures lo <= hi && (hi == lo <==> !Matched(scheme, games, key))
    ensures hi - lo == 1 ==>
              lo < |order| && order[lo] < |gidx| && exists k :: Sole(scheme, games, key, gidx[order[lo]], k)
    ensures forall g, k :: Sole(scheme, games, key, g, k) ==> hi - lo == 1
  {
    SpanInside(keys, order, key, lo, hi);
    SpanCounts(keys, order, key, lo, hi);
    PlacesAreHits(scheme, games, keys, key);
    hide IsOrder, IsSpan, Concat, Places, KeyOf, Offsets, AllKeys, AllIndices, AllPlies;
    if hi - lo == 1 {
      assert order[lo] in Places(keys, key);
      OnePlaceSole(scheme, games, gidx, keys, key, order[lo]);
    }
    forall g, k | Sole(scheme, games, key, g, k) ensures hi - lo == 1 {
      var p := Place(games, g, k);
      assert Places(keys, key) == {p};
    }
  }

  /** A key with one place is one record's, at one position. */
  lemma OnePlaceSole(scheme: Scheme, games: seq<seq<Cell>>, gidx: seq<nat>, keys: seq<int>, key: int, p: nat)
    requires keys == Concat(AllKeys(scheme, games)) && gidx == Concat(AllIndices(games)) && Places(keys, key) == {p}
    ensures p < |gidx| && exists k :: Sole(scheme, games, key, gidx[p], k)
  {
    PlacesAreHits(scheme, games, keys, key);
    hide Concat, Places, KeyOf, Offsets, AllKeys, AllIndices, AllPlies;
    assert p in Places(keys, key);
    var g, k :| Hit(scheme, games, key, g, k) && Place(games, g, k) == p;
    PlaceHolds(scheme, games, g, k);
    forall h, j | Hit(scheme, games, key, h, j) ensures h == g && j == k {
      assert Place(games, h, j) in Places(keys, key);
      PlaceHolds(scheme, games, h, j);
    }
    assert Sole(scheme, games, key, gidx[p], k);
  }

  // ---------------------------------------------------------------- one ring game

  /** `idx` lists exactly the rows of ring game `gid`. */
  ghost predicate RowsOf(rows: seq<Row>, gid: int, idx: seq<nat>) {
    (forall i | i in idx :: i < |rows| && rows[i].gameId == gid) &&
    forall i: nat | i < |rows| && rows[i].gameId == gid :: i in idx
  }

  /** Every row's span in the index. */
  ghost predicate Spans(keys: seq<int>, order: seq<nat>, rows: seq<Row>, lo: seq<nat>, hi: seq<nat>)
    requires IsOrder(keys, order)
  {
    |lo| == |rows| == |hi| && forall i | 0 <= i < |rows| :: IsSpan(keys, order, rows[i].key, lo[i], hi[i])
  }

  /** The records that the rows with one match name. */
  ghost predicate Names(scheme: Scheme, games: seq<seq<Cell>>, rows: seq<Row>, idx: seq<nat>, g: nat) {
    exists i, k :: i in idx && i < |rows| && Sole(scheme, games, rows[i].key, g, k)
  }

  /** Some listed row has no match. */
  ghost predicate Missing(scheme: Scheme, games: seq<seq<Cell>>, rows: seq<Row>, idx: seq<nat>) {
    exists i :: i in idx && i < |rows| && !Matched(scheme, games, rows[i].key)
  }

  method Survey(scheme: Scheme, games: seq<seq<Cell>>, keys: seq<int>, gidx: seq<nat>, order: seq<nat>, rows: seq<Row>,
                lo: seq<nat>, hi: seq<nat>, idx: seq<nat>) returns (unique: set<nat>, missing: bool)
    requires Indexed(scheme, games, keys, gidx, order) && Spans(keys, order, rows, lo, hi)
    requires forall i | i in idx :: i < |rows|
    ensures missing <==> Missing(scheme, games, rows, idx)
    ensures forall g :: g in unique <==> Names(scheme, games, rows, idx, g)
  {
    unique, missing := {}, false;
    for n := 0 to |idx|
      invariant missing <==> Missing(scheme, games, rows, idx[..n])
      invariant forall g :: g in unique <==> Names(scheme, games, rows, idx[..n], g)
    {
      var i := idx[n];
      assert i in idx && IsSpan(keys, order, rows[i].key, lo[i], hi[i]);
      SpanMeans(scheme, games, keys, gidx, order, rows[i].key, lo[i], hi[i]);
      assert idx[..n + 1] == idx[..n] + [i];
      ghost var before := unique;
      if hi[i] - lo[i] == 1 {
        unique := unique + {gidx[order[lo[i]]]};
      }
      if hi[i] == lo[i] {
        missing := true;
      }
      forall g ensures g in unique <==> Names(scheme, games, rows, idx[..n + 1], g) {
        if g in unique && g !in before {
          var k :| Sole(scheme, games, rows[i].key, g, k);
          assert i in idx[..n + 1];
        }
        if Names(scheme, games, rows, idx[..n], g) {
          var j, k :| j in idx[..n] && j < |rows| && Sole(scheme, games, rows[j].key, g, k);
          assert j in idx[..n + 1];
        }
      }
    }
    assert idx[..|idx|] == idx;
  }

  ghost predicate FitsListed(scheme: Scheme, games: seq<seq<Cell>>, rows: seq<Row>, idx: seq<nat>, g: nat) {
    forall i | i in idx && i < |rows| :: Fits(scheme, games, rows[i], g)
  }

  /** Whether record `game` fits the listed rows, read off the flat keys with the ply clamped to the record's length. */
  method FitsRows(scheme: Scheme, games: seq<seq<Cell>>, keys: seq<int>, start: seq<nat>, rows: seq<Row>, idx: seq<nat>,
                  game: nat) returns (fits: bool)
    requires keys == Concat(AllKeys(scheme, games)) && start == Offsets(Positions(games)) && game < |games|
    requires forall i | i in idx :: i < |rows|
    ensures fits <==> FitsListed(scheme, games, rows, idx, game)
  {
    hide Concat, StoneSum, Total, Offsets, AllKeys, AllIndices, AllPlies;
    fits := true;
    for n := 0 to |idx|
      invariant fits <==> FitsListed(scheme, games, rows, idx[..n], game)
    {
      var i, len := idx[n], |games[game]|;
      assert i in idx && idx[..n + 1] == idx[..n] + [i];
      ghost var before := fits;
      var ply := rows[i].ply;
      var clamped := if ply < len then ply else len;
      PlaceHolds(scheme, games, game, clamped);
      if !(ply <= len && keys[start[game] + clamped] == rows[i].key) {
        fits := false;
      }
      assert FitsListed(scheme, games, rows, idx[..n + 1], game) <==> before && Fits(scheme, games, rows[i], game);
    }
    assert idx[..|idx|] == idx;
  }

  /** One ring game settled whole, or the reason it is not. */
  method SettleGroup(scheme: Scheme, games: seq<seq<Cell>>, keys: seq<int>, gidx: seq<nat>, order: seq<nat>,
                     start: seq<nat>, rows: seq<Row>, lo: seq<nat>, hi: seq<nat>, gid: int, idx: seq<nat>)
      returns (o: Outcome)
    requires Indexed(scheme, games, keys, gidx, order) && IsOrder(keys, order) && Spans(keys, order, rows, lo, hi)
    requires start == Offsets(Positions(games)) && RowsOf(rows, gid, idx)
    ensures Decides(scheme, games, rows, gid, o)
  {
    hide Indexed, Spans, RowsOf, AllMatched, HasSoleRow, FitsAll, Names, Missing, FitsListed;
    if gid < 0 {
      return Untagged;
    }
    RowsAreRows(rows, gid, idx);
    var unique, missing := Survey(scheme, games, keys, gidx, order, rows, lo, hi, idx);
    GroupMeans(scheme, games, rows, gid, idx);
    if missing {
      return NoRecord;
    }
    if unique == {} {
      assert forall g :: !Names(scheme, games, rows, idx, g);
      return NoUniqueRow;
    }
    var game :| game in unique;
    assert Names(scheme, games, rows, idx, game);
    var others := unique - {game};
    if others != {} {
      var other :| other in others;
      assert Names(scheme, games, rows, idx, other);
      return RecordsDisagree;
    }
    NamesRecord(scheme, games, rows, idx, game);
    IndexedKeys(scheme, games, keys, gidx, order);
    var fits := FitsRows(scheme, games, keys, start, rows, idx, game);
    if fits {
      return Settled(game);
    }
    return RecordsDisagree;
  }

  lemma RowsAreRows(rows: seq<Row>, gid: int, idx: seq<nat>)
    requires RowsOf(rows, gid, idx)
    ensures forall i | i in idx :: i < |rows|
  {
  }

  lemma NamesRecord(scheme: Scheme, games: seq<seq<Cell>>, rows: seq<Row>, idx: seq<nat>, g: nat)
    requires Names(scheme, games, rows, idx, g)
    ensures g < |games|
  {
  }

  lemma IndexedKeys(scheme: Scheme, games: seq<seq<Cell>>, keys: seq<int>, gidx: seq<nat>, order: seq<nat>)
    requires Indexed(scheme, games, keys, gidx, order)
    ensures keys == Concat(AllKeys(scheme, games))
  {
  }

  /** What the survey of a ring game's rows says of the ring game. */
  lemma GroupMeans(scheme: Scheme, games: seq<seq<Cell>>, rows: seq<Row>, gid: int, idx: seq<nat>)
    requires RowsOf(rows, gid, idx)
    ensures Missing(scheme, games, rows, idx) <==> !AllMatched(scheme, games, rows, gid)
    ensures HasSoleRow(scheme, games, rows, gid) <==> exists g :: Names(scheme, games, rows, idx, g)
    ensures forall g :: FitsAll(scheme, games, rows, gid, g) <==> FitsListed(scheme, games, rows, idx, g)
    ensures forall g, h :: Names(scheme, games, rows, idx, g) && FitsAll(scheme, games, rows, gid, h) ==> g == h
  {
    if HasSoleRow(scheme, games, rows, gid) {
      var i, g, k :| 0 <= i < |rows| && rows[i].gameId == gid && Sole(scheme, games, rows[i].key, g, k);
      assert i in idx && Names(scheme, games, rows, idx, g);
    }
    forall g | Names(scheme, games, rows, idx, g) ensures HasSoleRow(scheme, games, rows, gid) {
      var i, k :| i in idx && i < |rows| && Sole(scheme, games, rows[i].key, g, k);
    }
    forall g, h | Names(scheme, games, rows, idx, g) && FitsAll(scheme, games, rows, gid, h) ensures g == h {
      var i, k :| i in idx && i < |rows| && Sole(scheme, games, rows[i].key, g, k);
      assert Fits(scheme, games, rows[i], h);
    }
  }

  // ---------------------------------------------------------------- the whole ring

  datatype Why = Why(untagged: nat, noRecord: nat, noUniqueRow: nat, recordsDisagree: nat)

  /** How many rows have an outcome of the same kind as `o` (any record counting as settled). */
  function Tally(outcomes: seq<Option<Outcome>>, o: Outcome): nat {
    if outcomes == [] then 0
    else
      var last := outcomes[|outcomes| - 1];
      Tally(outcomes[..|outcomes| - 1], o) + if last.Some? && SameKind(last.value, o) then 1 else 0
  }

  predicate SameKind(o: Outcome, p: Outcome) {
    match o
    case Untagged => p.Untagged?
    case NoRecord => p.NoRecord?
    case NoUniqueRow => p.NoUniqueRow?
    case RecordsDisagree => p.RecordsDisagree?
    case Settled(_) => p.Settled?
  }

  lemma {:induction false} TallyUpdate(outcomes: seq<Option<Outcome>>, i: nat, o: Outcome, p: Outcome)
    requires i < |outcomes| && outcomes[i] == None
    ensures Tally(outcomes[i := Some(o)], p) == Tally(outcomes, p) + if SameKind(o, p) then 1 else 0
  {
    var n := |outcomes| - 1;
    if i < n {
      assert outcomes[i := Some(o)][..n] == outcomes[..n][i := Some(o)];
      TallyUpdate(outcomes[..n], i, o, p);
    } else {
      assert outcomes[i := Some(o)][..n] == outcomes[..n];
    }
  }

  lemma {:induction false} TallyOfNone(n: nat, p: Outcome)
    ensures Tally(seq(n, i => None), p) == 0
  {
    if n > 0 {
      var none: seq<Option<Outcome>> := seq(n, i => None);
      assert none[..n - 1] == seq(n - 1, i => None);
      TallyOfNone(n - 1, p);
    }
  }

  /** Once every row has an outcome, the five kinds account for all of them. */
  lemma {:induction false} TalliesAddUp(outcomes: seq<Option<Outcome>>)
    requires forall i | 0 <= i < |outcomes| :: outcomes[i].Some?
    ensures Tally(outcomes, Untagged) + Tally(outcomes, NoRecord) + Tally(outcomes, NoUniqueRow) +
            Tally(outcomes, RecordsDisagree) + Tally(outcomes, Settled(0)) == |outcomes|
  {
    if outcomes != [] {
      TalliesAddUp(outcomes[..|outcomes| - 1]);
    }
  }

  /** What the row array holds for an outcome. */
  function GameOf(o: Option<Outcome>): int {
    if o.Some? && o.value.Settled? then o.value.game else -1
  }

  ghost predicate Counted(why: Why, outcomes: seq<Option<Outcome>>) {
    && why.untagged == Tally(outcomes, Untagged) && why.noRecord == Tally(outcomes, NoRecord)
    && why.noUniqueRow == Tally(outcomes, NoUniqueRow) && why.recordsDisagree == Tally(outcomes, RecordsDisagree)
  }

  lemma NoneCounted(n: nat)
    ensures Counted(Why(0, 0, 0, 0), seq(n, i => None))
  {
    TallyOfNone(n, Untagged);
    TallyOfNone(n, NoRecord);
    TallyOfNone(n, NoUniqueRow);
    TallyOfNone(n, RecordsDisagree);
  }

  method FindSpans(keys: seq<int>, order: seq<nat>, rows: seq<Row>) returns (lo: seq<nat>, hi: seq<nat>)
    requires IsOrder(keys, order)
    ensures Spans(keys, order, rows, lo, hi)
  {
    lo, hi := [], [];
    for i := 0 to |rows|
      invariant |lo| == i == |hi| && forall j | 0 <= j < i :: IsSpan(keys, order, rows[j].key, lo[j], hi[j])
    {
      var l := SearchLeft(keys, order, rows[i].key);
      var h := SearchRight(keys, order, rows[i].key);
      lo, hi := lo + [l], hi + [h];
    }
  }

  /** The outcome written to each of a ring game's rows, and their number added to its counter. */
  method Record(idx: seq<nat>, o: Outcome, rowGame: array<int>, why0: Why, ghost outcomes0: seq<Option<Outcome>>)
      returns (why: Why, ghost outcomes: seq<Option<Outcome>>)
    requires |outcomes0| == rowGame.Length && Counted(why0, outcomes0)
    requires forall i | 0 <= i < |outcomes0| :: rowGame[i] == GameOf(outcomes0[i])
    requires forall i | i in idx :: i < |outcomes0| && outcomes0[i] == None
    requires forall i, j | 0 <= i < j < |idx| :: idx[i] != idx[j]
    modifies rowGame
    ensures |outcomes| == rowGame.Length && Counted(why, outcomes)
    ensures forall i | 0 <= i < |outcomes| :: rowGame[i] == GameOf(outcomes[i])
    ensures forall i: nat | i < |outcomes| :: outcomes[i] == if i in idx then Some(o) else outcomes0[i]
  {
    outcomes, why := outcomes0, why0;
    for n := 0 to |idx|
      invariant |outcomes| == rowGame.Length && Counted(why, outcomes)
      invariant forall i | 0 <= i < |outcomes| :: rowGame[i] == GameOf(outcomes[i])
      invariant forall i: nat | i < |outcomes| :: outcomes[i] == if i in idx[..n] then Some(o) else outcomes0[i]
    {
      var i := idx[n];
      assert i in idx && i !in idx[..n] && idx[..n + 1] == idx[..n] + [i];
      TallyUpdate(outcomes, i, o, Untagged);
      TallyUpdate(outcomes, i, o, NoRecord);
      TallyUpdate(outcomes, i, o, NoUniqueRow);
      TallyUpdate(outcomes, i, o, RecordsDisagree);
      match o {
        case Untagged => why := why.(untagged := why.untagged + 1);
        case NoRecord => why := why.(noRecord := why.noRecord + 1);
        case NoUniqueRow => why := why.(noUniqueRow := why.noUniqueRow + 1);
        case RecordsDisagree => why := why.(recordsDisagree := why.recordsDisagree + 1);
        case Settled(game) => rowGame[i] := game;
      }
      outcomes := outcomes[i := Some(o)];
    }
    assert idx[..|idx|] == idx;
  }

  /** Every row's naive outcome, its ring game's. */
  ghost function Outcomes(scheme: Scheme, games: seq<seq<Cell>>, rows: seq<Row>): seq<Option<Outcome>> {
    seq(|rows|, i requires 0 <= i < |rows| => Some(Naive(scheme, games, rows, rows[i].gameId)))
  }

  /**
   What a settling returns: each row's record, -1 where its ring game is not settled, and the rows each refusal took.
   */
  datatype Settling = Settling(rowGame: seq<int>, why: Why)

  /** Every row has its ring game's naive outcome; the settled rows and the four counters account for every row. */
  ghost predicate SettledRight(scheme: Scheme, games: seq<seq<Cell>>, rows: seq<Row>, s: Settling) {
    && |s.rowGame| == |rows|
    && (forall i | 0 <= i < |rows| :: s.rowGame[i] == GameOf(Some(Naive(scheme, games, rows, rows[i].gameId))))
    && Counted(s.why, Outcomes(scheme, games, rows))
    && Tally(Outcomes(scheme, games, rows), Settled(0)) + s.why.untagged + s.why.noRecord + s.why.noUniqueRow +
       s.why.recordsDisagree == |rows|
  }

  /** The settling of a ring; a ring without a row is refused, its rows having no group. */
  method SettleGames(scheme: Scheme, games: seq<seq<Cell>>, rows: seq<Row>) returns (r: Option<Settling>)
    ensures r.Some? <==> rows != []
    ensures r.Some? ==> SettledRight(scheme, games, rows, r.value)
  {
    hide Decides, Counted, RowsOf, Spans, IsOrder, Partitions, SettledRight, Concat, Offsets;
    var keys, gidx, _ := GamePositionKeys(scheme, games);
    var start := Offsets(Positions(games));
    var order := Argsort(keys);
    var lo, hi := FindSpans(keys, order, rows);
    var settled := new int[|rows|](i => -1);
    var why := Why(0, 0, 0, 0);
    ghost var outcomes: seq<Option<Outcome>> := seq(|rows|, i => None);
    NoneCounted(|rows|);
    var labels := seq(|rows|, i requires 0 <= i < |rows| => rows[i].gameId);
    var grouped := GroupBy(labels);
    if grouped.None? {
      return None;
    }
    var groups := grouped.value;
    for j := 0 to |groups|
      invariant |outcomes| == |rows| && Counted(why, outcomes)
      invariant forall i | 0 <= i < |rows| :: settled[i] == GameOf(outcomes[i])
      invariant forall i: nat | i < |rows| && outcomes[i].Some? ::
                  Decides(scheme, games, rows, rows[i].gameId, outcomes[i].value)
      invariant forall i: nat | i < |rows| :: outcomes[i].Some? <==> exists k :: 0 <= k < j && i in groups[k].1
    {
      var gid, idx := groups[j].0, groups[j].1;
      GroupIsRows(rows, labels, groups, j);
      var o := SettleGroup(scheme, games, keys, gidx, order, start, rows, lo, hi, gid, idx);
      why, outcomes := Record(idx, o, settled, why, outcomes);
    }
    forall i: nat | i < |rows| ensures outcomes[i].Some? {
      assert InSome(groups, i);
    }
    AllSettled(scheme, games, rows, outcomes, settled[..], why);
    r := Some(Settling(settled[..], why));
  }

  /** Once every row has an outcome its ring game decides, the settling is right. */
  lemma AllSettled(scheme: Scheme, games: seq<seq<Cell>>, rows: seq<Row>, outcomes: seq<Option<Outcome>>,
                   rowGame: seq<int>, why: Why)
    requires |outcomes| == |rows| == |rowGame| && Counted(why, outcomes)
    requires forall i: nat | i < |rows| :: outcomes[i].Some? && rowGame[i] == GameOf(outcomes[i])
    requires forall i: nat | i < |rows| :: Decides(scheme, games, rows, rows[i].gameId, outcomes[i].value)
    ensures SettledRight(scheme, games, rows, Settling(rowGame, why))
  {
    hide Decides, Tally, Naive;
    forall i: nat | i < |rows| ensures outcomes[i] == Some(Naive(scheme, games, rows, rows[i].gameId)) {
      OutcomeUnique(scheme, games, rows, rows[i].gameId, outcomes[i].value, Naive(scheme, games, rows, rows[i].gameId));
    }
    assert outcomes == Outcomes(scheme, games, rows);
    TalliesAddUp(outcomes);
  }

  lemma GroupIsRows(rows: seq<Row>, labels: seq<int>, groups: Grouping, j: nat)
    requires labels == seq(|rows|, i requires 0 <= i < |rows| => rows[i].gameId)
    requires Partitions(labels, groups) && j < |groups|
    ensures RowsOf(rows, groups[j].0, groups[j].1)
    ensures forall i, k | 0 <= i < k < |groups[j].1| :: groups[j].1[i] < groups[j].1[k]
    ensures forall k, i | 0 <= k < j && i in groups[k].1 :: i !in groups[j].1
  {
    assert GroupRight(labels, groups[j]);
    forall i: nat | i < |rows| && rows[i].gameId == groups[j].0 ensures i in groups[j].1 {
      assert InSome(groups, i);
      var k :| 0 <= k < |groups| && i in groups[k].1;
      assert GroupRight(labels, groups[k]);
    }
    forall k, i | 0 <= k < j && i in groups[k].1 ensures i !in groups[j].1 {
      assert GroupRight(labels, groups[k]);
    }
  }
}
