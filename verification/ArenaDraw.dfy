/** The arena's opening draw: its line-by-line balance check, the draw itself, and its seeded index source. */
module ArenaDraw {
  import opened Lattice
  import opened Windows

  const THREAT := 4
  const MAX_PLIES := 9

  /** A drawn stone and its owner; the arena's player 0 is P1. */
  datatype Stone = Stone(cell: Cell, who: Player)

  // ---------------------------------------------------------------- what balance means

  /** How many of the first `n` stones are `who`'s and lie in the window. */
  function CountStones(stones: seq<Stone>, a: int, start: Cell, who: Player): nat {
    if stones == [] then 0
    else
      var last := stones[|stones| - 1];
      CountStones(stones[..|stones| - 1], a, start, who) +
      if last.who == who && InWindow(a, start, last.cell) then 1 else 0
  }

  predicate IsThreat(zero: nat, one: nat) {
    (zero >= THREAT && one == 0) || (one >= THREAT && zero == 0)
  }

  ghost predicate ThreatAt(stones: seq<Stone>, a: int, start: Cell) {
    IsThreat(CountStones(stones, a, start, P1), CountStones(stones, a, start, P2))
  }

  /** No window anywhere on the lattice holds four or more of one side and none of the other. */
  ghost predicate Balanced(stones: seq<Stone>) {
    forall a, start | 0 <= a < 3 :: !ThreatAt(stones, a, start)
  }

  // ---------------------------------------------------------------- lines

  /** Which line of axis `a` a cell lies on. */
  function LineOf(a: int, c: Cell): int {
    if a == 0 then -c.r else if a == 1 then c.q else -c.q - c.r
  }

  /** Where on its line a cell lies. */
  function PlaceOf(a: int, c: Cell): int {
    if a == 1 then c.r else c.q
  }

  /** The cell at a place of a line. */
  function CellAt(a: int, line: int, place: int): Cell {
    if a == 0 then Cell(place, -line) else if a == 1 then Cell(line, place) else Cell(place, -line - place)
  }

  lemma LinePlaces(a: int, c: Cell, line: int, place: int)
    requires 0 <= a < 3
    ensures CellAt(a, LineOf(a, c), PlaceOf(a, c)) == c
    ensures LineOf(a, CellAt(a, line, place)) == line && PlaceOf(a, CellAt(a, line, place)) == place
  {
  }

  /** A window is six consecutive places of one line. */
  lemma WindowOnLine(a: int, start: Cell, c: Cell)
    requires 0 <= a < 3
    ensures InWindow(a, start, c) <==>
      LineOf(a, c) == LineOf(a, start) && PlaceOf(a, start) <= PlaceOf(a, c) < PlaceOf(a, start) + WIN
  {
    var k := PlaceOf(a, c) - PlaceOf(a, start);
    if LineOf(a, c) == LineOf(a, start) && 0 <= k < WIN {
      assert Along(a, start, k) == c;
    }
  }

  type Members = seq<(int, Player)>

  /** The stones of one line, in order. */
  function OnLine(stones: seq<Stone>, a: int, line: int): Members {
    if stones == [] then []
    else
      var last := stones[|stones| - 1];
      OnLine(stones[..|stones| - 1], a, line) +
      if LineOf(a, last.cell) == line then [(PlaceOf(a, last.cell), last.who)] else []
  }

  function CountMembers(members: Members, start: int, who: Player): (count: nat)
    ensures count <= |members|
  {
    if members == [] then 0
    else
      var last := members[|members| - 1];
      var within := last.1 == who && start <= last.0 < start + WIN;
      CountMembers(members[..|members| - 1], start, who) + if within then 1 else 0
  }

  lemma {:induction false} CountOnLine(stones: seq<Stone>, a: int, start: Cell, who: Player)
    requires 0 <= a < 3
    ensures CountStones(stones, a, start, who) ==
            CountMembers(OnLine(stones, a, LineOf(a, start)), PlaceOf(a, start), who)
  {
    if stones != [] {
      var before, last := stones[..|stones| - 1], stones[|stones| - 1];
      CountOnLine(before, a, start, who);
      WindowOnLine(a, start, last.cell);
      var members := OnLine(stones, a, LineOf(a, start));
      if LineOf(a, last.cell) == LineOf(a, start) {
        assert members[..|members| - 1] == OnLine(before, a, LineOf(a, start));
      } else {
        assert members == OnLine(before, a, LineOf(a, start));
      }
    }
  }

  ghost predicate LineThreat(members: Members, start: int) {
    IsThreat(CountMembers(members, start, P1), CountMembers(members, start, P2))
  }

  lemma {:induction false} CountedMember(members: Members, start: int, who: Player) returns (k: nat)
    requires CountMembers(members, start, who) > 0
    ensures k < |members| && members[k].1 == who && start <= members[k].0 < start + WIN
  {
    var last := members[|members| - 1];
    if last.1 == who && start <= last.0 < start + WIN {
      k := |members| - 1;
    } else {
      k := CountedMember(members[..|members| - 1], start, who);
    }
  }

  method CountAt(members: Members, start: int) returns (zero: nat, one: nat)
    ensures zero == CountMembers(members, start, P1) && one == CountMembers(members, start, P2)
  {
    zero, one := 0, 0;
    for i := 0 to |members|
      invariant zero == CountMembers(members[..i], start, P1) && one == CountMembers(members[..i], start, P2)
    {
      assert members[..i + 1][..i] == members[..i];
      if start <= members[i].0 < start + WIN {
        if members[i].1 == P1 {
          zero := zero + 1;
        } else {
          one := one + 1;
        }
      }
    }
    assert members[..|members|] == members;
  }

  /** Only windows over some member are tried; that is enough. */
  method HoldsThreat(members: Members) returns (holds: bool)
    ensures holds <==> exists start :: LineThreat(members, start)
  {
    for m := 0 to |members|
      invariant forall k, start | 0 <= k < m && members[k].0 - WIN < start <= members[k].0 ::
                  !LineThreat(members, start)
    {
      var along := members[m].0;
      for start := along - WIN + 1 to along + 1
        invariant forall s | along - WIN < s < start :: !LineThreat(members, s)
      {
        var zero, one := CountAt(members, start);
        if IsThreat(zero, one) {
          assert LineThreat(members, start);
          return true;
        }
      }
    }
    forall start ensures !LineThreat(members, start) {
      if LineThreat(members, start) {
        var k := CountedMember(members, start, if CountMembers(members, start, P1) > 0 then P1 else P2);
        assert false;
      }
    }
    return false;
  }

  type Lines = map<int, Members>

  /** The stones grouped by line. */
  method GroupLines(stones: seq<Stone>, a: int) returns (lines: Lines)
    ensures forall line :: (if line in lines then lines[line] else []) == OnLine(stones, a, line)
  {
    lines := map[];
    for i := 0 to |stones|
      invariant forall line :: (if line in lines then lines[line] else []) == OnLine(stones[..i], a, line)
    {
      assert stones[..i + 1][..i] == stones[..i];
      var line := LineOf(a, stones[i].cell);
      var members := if line in lines then lines[line] else [];
      lines := lines[line := members + [(PlaceOf(a, stones[i].cell), stones[i].who)]];
    }
    assert stones[..|stones|] == stones;
  }

  lemma NoLines(lines: set<int>)
    ensures (forall line :: line !in lines) ==> lines == {}
  {
    if forall line :: line !in lines {
      assert lines <= {};
    }
  }

  /** No line of one axis holds a threat. */
  method LinesBalanced(stones: seq<Stone>, a: int) returns (balanced: bool)
    requires 0 <= a < 3
    ensures balanced <==> forall start :: !ThreatAt(stones, a, start)
  {
    var lines := GroupLines(stones, a);
    var todo: set<int> := lines.Keys;
    while todo != {}
      invariant todo <= lines.Keys
      invariant forall line, place | line in lines && line !in todo :: !LineThreat(OnLine(stones, a, line), place)
    {
      NoLines(todo);
      var line: int :| line in todo;
      todo := todo - {line};
      var members := lines[line];
      if |members| >= THREAT {
        var holds := HoldsThreat(members);
        if holds {
          ghost var place :| LineThreat(members, place);
          LinePlaces(a, Cell(0, 0), line, place);
          CountOnLine(stones, a, CellAt(a, line, place), P1);
          CountOnLine(stones, a, CellAt(a, line, place), P2);
          assert ThreatAt(stones, a, CellAt(a, line, place));
          return false;
        }
      }
    }
    forall start ensures !ThreatAt(stones, a, start) {
      CountOnLine(stones, a, start, P1);
      CountOnLine(stones, a, start, P2);
      assert !LineThreat(OnLine(stones, a, LineOf(a, start)), PlaceOf(a, start));
    }
    return true;
  }

  /** True exactly when no window anywhere holds four or more of one side and none of the other. */
  method IsBalancedOpening(stones: seq<Stone>) returns (balanced: bool)
    ensures balanced <==> Balanced(stones)
  {
    for a := 0 to 3
      invariant forall b, start | 0 <= b < a :: !ThreatAt(stones, b, start)
    {
      var fine := LinesBalanced(stones, a);
      if !fine {
        return false;
      }
    }
    return true;
  }

  // ---------------------------------------------------------------- the draw

  /** Where a drawn stone may go, listed column by column. */
  const REGION := [
    Cell(-2, 0), Cell(-2, 1), Cell(-2, 2),
    Cell(-1, -1), Cell(-1, 0), Cell(-1, 1), Cell(-1, 2),
    Cell(0, -2), Cell(0, -1), Cell(0, 1), Cell(0, 2),
    Cell(1, -2), Cell(1, -1), Cell(1, 0), Cell(1, 1),
    Cell(2, -2), Cell(2, -1), Cell(2, 0)]

  /** The arena's hex distance. */
  function HexDistance(a: Cell, b: Cell): int {
    var dx, dy := a.q - b.q, a.r - b.r;
    (Abs(dx) + Abs(dy) + Abs(dx + dy)) / 2
  }

  const ORIGIN := Cell(0, 0)

  /** The region is the cells at distance one or two from the origin, each once. */
  lemma RegionIsNear(c: Cell)
    ensures c in REGION <==> 0 < HexDistance(c, ORIGIN) <= 2
    ensures Distinct(REGION)
  {
    if 0 < HexDistance(c, ORIGIN) <= 2 {
      assert -2 <= c.q <= 2 && -2 <= c.r <= 2;
    }
  }

  /** The region is listed by column, then by row; with its cells that leaves one list. */
  lemma RegionAscends()
    ensures forall i, j | 0 <= i < j < |REGION| ::
      REGION[i].q < REGION[j].q || (REGION[i].q == REGION[j].q && REGION[i].r < REGION[j].r)
  {
  }

  datatype Drawn =
    | Opening(stones: seq<Stone>)
    | BadPick(pick: int, bound: int)
    | BadLength
    | SourceDry

  /** What an opening of `plies` stones looks like before the balance check. */
  ghost predicate WellDrawn(stones: seq<Stone>, plies: nat) {
    && |stones| == plies && plies > 0
    && stones[0].cell == ORIGIN
    && (forall k | 0 < k < plies :: stones[k].cell in REGION)
    && (forall j, k | 0 <= j < k < plies :: stones[j].cell != stones[k].cell)
    && (forall k | 0 <= k < plies :: stones[k].who == if OwnerOfPly(k) == 0 then P1 else P2)
  }

  predicate Taken(stones: seq<Stone>, c: Cell) {
    exists k :: 0 <= k < |stones| && stones[k].cell == c
  }

  /** The first `n` region cells that are not taken, in order. */
  function Free(stones: seq<Stone>, n: nat): (free: seq<Cell>)
    requires n <= |REGION|
    ensures forall c | c in free :: c in REGION && !Taken(stones, c)
  {
    if n == 0 then []
    else Free(stones, n - 1) + if Taken(stones, REGION[n - 1]) then [] else [REGION[n - 1]]
  }

  method Empty(stones: seq<Stone>) returns (empty: seq<Cell>)
    ensures empty == Free(stones, |REGION|)
  {
    empty := [];
    for i := 0 to |REGION|
      invariant empty == Free(stones, i)
    {
      if !Taken(stones, REGION[i]) {
        empty := empty + [REGION[i]];
      }
    }
  }

  /** A stone on a free cell leaves one free cell fewer. */
  lemma {:induction false} FreeLess(stones: seq<Stone>, last: Stone, n: nat)
    requires n <= |REGION| && last.cell in REGION && !Taken(stones, last.cell)
    ensures |Free(stones + [last], n)| == |Free(stones, n)| - if last.cell in REGION[..n] then 1 else 0
  {
    hide REGION, Taken;
    if n > 0 {
      RegionIsNear(last.cell);
      FreeLess(stones, last, n - 1);
      var c := REGION[n - 1];
      assert REGION[..n] == REGION[..n - 1] + [c];
      TakenAlso(stones, last, c);
      assert forall i | 0 <= i < n - 1 :: REGION[i] != c;
      assert c !in REGION[..n - 1];
      hide Distinct;
    }
  }

  lemma TakenAlso(stones: seq<Stone>, last: Stone, c: Cell)
    ensures Taken(stones + [last], c) <==> Taken(stones, c) || last.cell == c
  {
    assert (stones + [last])[|stones|] == last;
    assert forall k | 0 <= k < |stones| :: (stones + [last])[k] == stones[k];
  }

  lemma {:induction false} FreeAtFirst(who: Player, n: nat)
    requires n <= |REGION|
    ensures |Free([Stone(ORIGIN, who)], n)| == n
  {
    if n > 0 {
      FreeAtFirst(who, n - 1);
      OriginNotInRegion();
      assert REGION[n - 1] in REGION;
    }
  }

  /** How many cells are free when stone `k` is drawn: eighteen for the first, one fewer for each after it. */
  function FreeLeft(k: nat): nat
    requires k > 0
  {
    if k <= 19 then 19 - k else 0
  }

  /** The source holds a pick for stone `k`, and it names one of the cells still free. */
  predicate PickFits(source: seq<int>, at: nat, k: nat)
    requires k > 0
  {
    at + k - 1 < |source| && 0 <= source[at + k - 1] < FreeLeft(k)
  }

  ghost predicate FitsBefore(source: seq<int>, at: nat, k: nat) {
    forall j | 0 < j < k :: PickFits(source, at, j)
  }

  /** The stones that the source's picks from place `at` on make. */
  ghost predicate IsDraw(stones: seq<Stone>, plies: nat, source: seq<int>, at: nat) {
    WellDrawn(stones, plies) && forall k | 0 < k < plies :: PickedBy(stones, k, source, at)
  }

  /** What a draw comes to: its stones, or the first pick that names no free cell, or the end of the source. */
  ghost predicate DrawOf(drawn: Drawn, plies: nat, source: seq<int>, at: nat) {
    match drawn
    case Opening(stones) => IsDraw(stones, plies, source, at) && FitsBefore(source, at, plies)
    case BadPick(pick, bound) =>
      exists k: nat | 0 < k < plies :: FitsBefore(source, at, k) && !PickFits(source, at, k) &&
                                       at + k - 1 < |source| && pick == source[at + k - 1] && bound == FreeLeft(k)
    case SourceDry => exists k: nat | 0 < k < plies :: FitsBefore(source, at, k) && at + k - 1 >= |source|
    case BadLength => false
  }

  /** A source whose picks all fit gives an opening, and one with a pick that does not never does. */
  lemma OpensExactly(drawn: Drawn, plies: nat, source: seq<int>, at: nat)
    requires DrawOf(drawn, plies, source, at)
    ensures drawn.Opening? <==> FitsBefore(source, at, plies)
  {
    match drawn
    case BadPick(_, _) =>
      var k: nat :| 0 < k < plies && !PickFits(source, at, k);
    case SourceDry =>
      var k: nat :| 0 < k < plies && at + k - 1 >= |source|;
      assert !PickFits(source, at, k);
    case _ =>
  }

  /** Stone `k` is the free cell its pick names, given the stones before it. */
  ghost predicate PickedBy(stones: seq<Stone>, k: nat, source: seq<int>, at: nat)
    requires 0 < k < |stones|
  {
    var free := Free(stones[..k], |REGION|);
    at + k - 1 < |source| && 0 <= source[at + k - 1] < |free| && stones[k].cell == free[source[at + k - 1]]
  }

  lemma PickAppended(stones: seq<Stone>, last: Stone, source: seq<int>, at: nat)
    requires |stones| > 0 && forall k | 0 < k < |stones| :: PickedBy(stones, k, source, at)
    requires at + |stones| - 1 < |source| && 0 <= source[at + |stones| - 1] < |Free(stones, |REGION|)|
    requires last.cell == Free(stones, |REGION|)[source[at + |stones| - 1]]
    ensures forall k | 0 < k < |stones + [last]| :: PickedBy(stones + [last], k, source, at)
  {
    hide Free;
    var longer := stones + [last];
    forall k | 0 < k < |longer| ensures PickedBy(longer, k, source, at) {
      assert longer[..k] == stones[..k];
      assert stones[..|stones|] == stones;
      assert k < |stones| ==> PickedBy(stones, k, source, at);
    }
  }

  /** One draw off the index source: the picks it yields from place `at` on, each naming a cell still free. */
  method DrawOnce(plies: nat, source: seq<int>, at: nat) returns (drawn: Drawn, next: nat)
    requires plies > 0
    ensures drawn.Opening? ==>
              WellDrawn(drawn.stones, plies) && next == at + plies - 1 && (plies > 1 ==> next <= |source|)
    ensures DrawOf(drawn, plies, source, at)
  {
    hide WellDrawn, PickedBy, Free, REGION, Taken, IsDraw, FreeLeft;
    next := at;
    var stones := [Stone(ORIGIN, if OwnerOfPly(0) == 0 then P1 else P2)];
    FirstDrawn(stones[0].who);
    while |stones| < plies
      invariant Drawing(stones, source, at) && |stones| <= plies && next == at + |stones| - 1
      invariant |stones| > 1 ==> next <= |source|
      decreases plies - |stones|
    {
      DrawingFree(stones, source, at);
      var empty := Empty(stones);
      if next >= |source| {
        return SourceDry, next;
      }
      var pick := source[next];
      next := next + 1;
      if !(0 <= pick < |empty|) {
        assert !PickFits(source, at, |stones|);
        return BadPick(pick, |empty|), next;
      }
      var last := Stone(empty[pick], if OwnerOfPly(|stones|) == 0 then P1 else P2);
      NextDrawn(stones, last, source, at);
      stones := stones + [last];
    }
    drawn := Opening(stones);
    DrawingIsDraw(stones, source, at);
  }

  /** A draw under way: well drawn, by picks that all fitted. */
  ghost predicate Drawing(stones: seq<Stone>, source: seq<int>, at: nat) {
    && WellDrawn(stones, |stones|) && FitsBefore(source, at, |stones|)
    && |stones| <= 19 && |Free(stones, |REGION|)| == 19 - |stones|
    && forall k | 0 < k < |stones| :: PickedBy(stones, k, source, at)
  }

  lemma FirstDrawn(who: Player)
    requires who == if OwnerOfPly(0) == 0 then P1 else P2
    ensures forall source, at :: Drawing([Stone(ORIGIN, who)], source, at)
  {
    FreeAtFirst(who, |REGION|);
  }

  lemma DrawingFree(stones: seq<Stone>, source: seq<int>, at: nat)
    requires Drawing(stones, source, at)
    ensures stones != [] && |Free(stones, |REGION|)| == FreeLeft(|stones|) && FitsBefore(source, at, |stones|)
    ensures WellDrawn(stones, |stones|)
  {
  }

  lemma DrawingIsDraw(stones: seq<Stone>, source: seq<int>, at: nat)
    requires Drawing(stones, source, at)
    ensures WellDrawn(stones, |stones|) && IsDraw(stones, |stones|, source, at) && FitsBefore(source, at, |stones|)
  {
  }

  lemma NextDrawn(stones: seq<Stone>, last: Stone, source: seq<int>, at: nat)
    requires Drawing(stones, source, at) && stones != []
    requires at + |stones| - 1 < |source| && 0 <= source[at + |stones| - 1] < |Free(stones, |REGION|)|
    requires last.cell == Free(stones, |REGION|)[source[at + |stones| - 1]]
    requires last.who == if OwnerOfPly(|stones|) == 0 then P1 else P2
    ensures Drawing(stones + [last], source, at)
  {
    hide REGION, Taken, WellDrawn, PickedBy;
    var free := Free(stones, |REGION|);
    assert last.cell in free;
    hide Free;
    PickAppended(stones, last, source, at);
    FreeLess(stones, last, |REGION|);
    assert REGION[..|REGION|] == REGION;
    NextWell(stones, last);
    forall k | 0 < k < |stones + [last]| ensures PickFits(source, at, k) {
    }
  }

  lemma NextWell(stones: seq<Stone>, last: Stone)
    requires WellDrawn(stones, |stones|) && last.cell in REGION && !Taken(stones, last.cell)
    requires last.who == if OwnerOfPly(|stones|) == 0 then P1 else P2
    ensures WellDrawn(stones + [last], |stones| + 1)
  {
    hide REGION;
    var longer := stones + [last];
    forall k | 0 <= k < |stones| ensures stones[k].cell != last.cell && longer[k] == stones[k] {
    }
  }

  lemma OriginNotInRegion()
    ensures ORIGIN !in REGION
  {
  }

  lemma {:induction false} CountAtMost(stones: seq<Stone>, a: int, start: Cell, who: Player)
    ensures CountStones(stones, a, start, who) <= |stones|
  {
    if stones != [] {
      CountAtMost(stones[..|stones| - 1], a, start, who);
    }
  }

  /** Fewer than four stones hold no threat. */
  lemma FewAreBalanced(stones: seq<Stone>)
    requires |stones| < THREAT
    ensures Balanced(stones)
  {
    forall a, start | 0 <= a < 3 ensures !ThreatAt(stones, a, start) {
      CountAtMost(stones, a, start, P1);
      CountAtMost(stones, a, start, P2);
    }
  }

  /** A place of the source makes one draw. */
  lemma {:induction false} OneDraw(s: seq<Stone>, t: seq<Stone>, plies: nat, source: seq<int>, at: nat, k: nat)
    requires IsDraw(s, plies, source, at) && IsDraw(t, plies, source, at) && k <= plies
    ensures s[..k] == t[..k]
    decreases k
  {
    hide Free;
    if k > 0 {
      OneDraw(s, t, plies, source, at, k - 1);
      if k > 1 {
        assert PickedBy(s, k - 1, source, at) && PickedBy(t, k - 1, source, at);
      }
      assert s[k - 1] == t[k - 1];
      assert s[..k] == s[..k - 1] + [s[k - 1]] && t[..k] == t[..k - 1] + [t[k - 1]];
    }
  }

  /** Draw `n` is a draw, and it is not balanced. */
  ghost predicate Unbalanced(plies: nat, source: seq<int>, n: nat)
    requires plies > 0
  {
    exists stones :: IsDraw(stones, plies, source, n * (plies - 1)) && !Balanced(stones)
  }

  /** The stones are draw `n`, balanced, and no draw before it is. */
  ghost predicate FirstBalanced(stones: seq<Stone>, plies: nat, source: seq<int>, n: nat)
    requires plies > 0
  {
    && IsDraw(stones, plies, source, n * (plies - 1)) && Balanced(stones)
    && forall m | 0 <= m < n :: Unbalanced(plies, source, m)
  }

  /** There is one first balanced draw. */
  lemma FirstBalancedUnique(s: seq<Stone>, t: seq<Stone>, plies: nat, source: seq<int>, m: nat, n: nat)
    requires plies > 0 && FirstBalanced(s, plies, source, m) && FirstBalanced(t, plies, source, n)
    ensures m == n && s == t
  {
    hide Balanced;
    if m < n {
      NotBoth(s, plies, source, m);
    } else if n < m {
      NotBoth(t, plies, source, n);
    } else {
      OneDraw(s, t, plies, source, m * (plies - 1), plies);
      assert s[..plies] == s && t[..plies] == t;
    }
  }

  lemma NotBoth(s: seq<Stone>, plies: nat, source: seq<int>, m: nat)
    requires plies > 0 && IsDraw(s, plies, source, m * (plies - 1)) && Balanced(s)
    ensures !Unbalanced(plies, source, m)
  {
    hide Balanced;
    forall t | IsDraw(t, plies, source, m * (plies - 1)) ensures Balanced(t) {
      OneDraw(s, t, plies, source, m * (plies - 1), plies);
      assert s[..plies] == s && t[..plies] == t;
    }
  }

  /**
   Draw until the opening is balanced: an odd length up to nine, refused otherwise; the first balanced draw is returned.
   */
  method DrawOpening(plies: int, source: seq<int>) returns (drawn: Drawn, ghost n: nat)
    ensures drawn.BadLength? <==> plies !in {1, 3, 5, 7, 9}
    ensures drawn.Opening? ==> plies > 0 && FirstBalanced(drawn.stones, plies, source, n)
    ensures drawn.BadPick? || drawn.SourceDry? ==>
              plies > 0 && DrawOf(drawn, plies, source, n * (plies - 1)) &&
              forall m | 0 <= m < n :: Unbalanced(plies, source, m)
  {
    hide WellDrawn, PickedBy, Balanced, FitsBefore, PickFits;
    n := 0;
    if plies < 1 || plies > MAX_PLIES || plies % 2 == 0 {
      return BadLength, 0;
    }
    var at: nat := 0;
    while true
      invariant at <= |source| && at == n * (plies - 1)
      invariant forall m | 0 <= m < n :: Unbalanced(plies, source, m)
      decreases |source| - at
    {
      var next;
      drawn, next := DrawOnce(plies, source, at);
      if !drawn.Opening? {
        return;
      }
      var balanced := IsBalancedOpening(drawn.stones);
      if balanced {
        return;
      }
      DrawnSize(drawn.stones, plies);
      if plies < THREAT {
        FewAreBalanced(drawn.stones);
      }
      assert IsDraw(drawn.stones, plies, source, n * (plies - 1));
      at := next;
      n := n + 1;
      assert n * (plies - 1) == (n - 1) * (plies - 1) + (plies - 1);
    }
  }

  lemma DrawnSize(stones: seq<Stone>, plies: nat)
    requires WellDrawn(stones, plies)
    ensures |stones| == plies
  {
  }

  /** No opening of five plies or fewer is rejected: neither side has four stones in it. */
  lemma ShortIsBalanced(stones: seq<Stone>, plies: nat)
    requires WellDrawn(stones, plies) && plies <= 5
    ensures Balanced(stones)
  {
    hide REGION;
    forall a, start | 0 <= a < 3 ensures !ThreatAt(stones, a, start) {
      for k := 0 to plies
        invariant CountStones(stones[..k], a, start, P1) <= if k <= 3 then 1 else k - 2
        invariant CountStones(stones[..k], a, start, P2) <= 2
        invariant k <= 1 ==> CountStones(stones[..k], a, start, P2) == 0
        invariant k <= 2 ==> CountStones(stones[..k], a, start, P2) <= 1
      {
        assert stones[..k + 1][..k] == stones[..k];
        assert stones[k].who == if k == 1 || k == 2 then P2 else P1;
      }
      assert stones[..plies] == stones;
    }
  }

  /** A draw's end tells of the draw alone: the same picks end it the same way. */
  lemma DrawEndUnique(d: Drawn, e: Drawn, plies: nat, source: seq<int>, at: nat)
    requires DrawOf(d, plies, source, at) && DrawOf(e, plies, source, at)
    ensures d == e
  {
    hide IsDraw;
    OpensExactly(d, plies, source, at);
    OpensExactly(e, plies, source, at);
    match d
    case Opening(s) =>
      assert IsDraw(s, plies, source, at) && IsDraw(e.stones, plies, source, at);
      OneDraw(s, e.stones, plies, source, at, plies);
      DrawSize(s, plies, source, at);
      DrawSize(e.stones, plies, source, at);
    case BadPick(_, _) =>
      var k: nat :| 0 < k < plies && FitsBefore(source, at, k) && !PickFits(source, at, k) &&
                    at + k - 1 < |source| && d.pick == source[at + k - 1] && d.bound == FreeLeft(k);
      FirstMisfit(e, plies, source, at, k);
    case SourceDry =>
      var k: nat :| 0 < k < plies && FitsBefore(source, at, k) && at + k - 1 >= |source|;
      FirstMisfit(e, plies, source, at, k);
    case BadLength =>
  }

  lemma DrawSize(s: seq<Stone>, plies: nat, source: seq<int>, at: nat)
    requires IsDraw(s, plies, source, at)
    ensures |s| == plies && s[..plies] == s
  {
  }

  /** Stone `k`'s pick is the first that does not fit: the draw ends there. */
  lemma FirstMisfit(e: Drawn, plies: nat, source: seq<int>, at: nat, k: nat)
    requires DrawOf(e, plies, source, at) && !e.Opening?
    requires 0 < k < plies && FitsBefore(source, at, k) && !PickFits(source, at, k)
    ensures e == if at + k - 1 < |source| then BadPick(source[at + k - 1], FreeLeft(k)) else SourceDry
  {
    match e
    case BadPick(_, _) =>
      var j: nat :| 0 < j < plies && FitsBefore(source, at, j) && !PickFits(source, at, j) &&
                    at + j - 1 < |source| && e.pick == source[at + j - 1] && e.bound == FreeLeft(j);
      assert j == k;
    case SourceDry =>
      var j: nat :| 0 < j < plies && FitsBefore(source, at, j) && at + j - 1 >= |source|;
      assert !PickFits(source, at, j);
      assert j == k;
    case _ =>
  }

  // ---------------------------------------------------------------- the seeded source

  function Imul(a: bv32, b: bv32): bv32 {
    a * b
  }

  /** The word a state yields. */
  function Mixed(state: bv32): bv32 {
    var t := Imul(state ^ (state >> 15), state | 1);
    var u := t ^ (t + Imul(t ^ (t >> 7), t | 61));
    u ^ (u >> 14)
  }

  /** The same word as a number. */
  function Word(state: bv32): (w: nat)
    ensures w < 4294967296
  {
    Mixed(state) as int
  }

  /** The first words of the seeds 0 and 1. */
  lemma FirstWords()
    ensures Mixed(0x6D2B79F5) == 1144304738 && Mixed(0xDA56F3EA) == 1416247
    ensures Mixed(0x6D2B79F6) == 2693262067 && Mixed(0xDA56F3EB) == 11749833
  {
  }

  /** floor((word / 2^32) * bound) is the integer quotient, and below `bound`. */
  lemma ScaledFloor(word: nat, bound: nat)
    requires word < 4294967296 && bound > 0
    ensures (word as real / 4294967296.0 * bound as real).Floor == word * bound / 4294967296
    ensures 0 <= word * bound / 4294967296 < bound
  {
    var n := word * bound;
    var q := n / 4294967296;
    assert word as real * bound as real == n as real;
    assert word as real / 4294967296.0 * bound as real == n as real / 4294967296.0;
    assert q * 4294967296 <= n < (q + 1) * 4294967296;
    assert n < bound * 4294967296;
    assert q as real * 4294967296.0 <= n as real < (q + 1) as real * 4294967296.0;
  }

  class Mulberry32 {
    var state: bv32

    constructor (seed: int)
      ensures state == (seed % 0x1_0000_0000) as bv32
    {
      state := (seed % 0x1_0000_0000) as bv32;
    }

    /** The next value in [0, 1): the mixed word of the advanced state over 2^32. */
    method Next() returns (x: real)
      modifies this
      ensures state == old(state) + 0x6D2B79F5
      ensures x == Word(state) as real / 4294967296.0
      ensures 0.0 <= x < 1.0
    {
      hide Word, Mixed;
      state := state + 0x6D2B79F5;
      x := Word(state) as real / 4294967296.0;
    }

    /** An index below `bound`: never outside what a draw asks for. */
    method Index(bound: nat) returns (i: int)
      requires bound > 0
      modifies this
      ensures state == old(state) + 0x6D2B79F5
      ensures 0 <= i < bound
      ensures i == Word(state) * bound / 4294967296
    {
      hide Word, Mixed;
      var x := Next();
      ScaledFloor(Word(state), bound);
      i := (x * bound as real).Floor;
    }
  }
}
