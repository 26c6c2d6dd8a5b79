/** The server's record of a finished game turned into wire moves, whatever order its list came in. */
module LadderRecord {
  import opened Lattice

  /** A move as the server lists it, in its own coordinates. */
  datatype RawMove = RawMove(number: int, playerId: string, x: int, y: int)

  datatype WireMove = WireMove(at: Cell, side: string)

  /** The move put in its place among moves in order, after those of its number. */
  function Insert(sorted: seq<RawMove>, m: RawMove): seq<RawMove> {
    if sorted == [] || sorted[|sorted| - 1].number <= m.number then sorted + [m]
    else Insert(sorted[..|sorted| - 1], m) + [sorted[|sorted| - 1]]
  }

  function SortByNumber(moves: seq<RawMove>): seq<RawMove> {
    if moves == [] then [] else Insert(SortByNumber(moves[..|moves| - 1]), moves[|moves| - 1])
  }

  ghost predicate InOrder(moves: seq<RawMove>) {
    forall i, j | 0 <= i < j < |moves| :: moves[i].number <= moves[j].number
  }

  ghost predicate DistinctNumbers(moves: seq<RawMove>) {
    forall i, j | 0 <= i < j < |moves| :: moves[i].number != moves[j].number
  }

  lemma OrderAppend(s: seq<RawMove>, m: RawMove)
    ensures InOrder(s + [m]) <==> InOrder(s) && forall x | x in s :: x.number <= m.number
  {
    var longer := s + [m];
    assert forall i | 0 <= i < |s| :: longer[i] == s[i];
    if InOrder(longer) {
      forall x | x in s ensures x.number <= m.number {
        var i :| 0 <= i < |s| && s[i] == x;
        assert longer[i].number <= longer[|s|].number;
      }
    }
  }

  lemma LastIsMost(s: seq<RawMove>)
    requires InOrder(s) && s != []
    ensures forall x | x in s :: x.number <= s[|s| - 1].number
  {
  }

  lemma {:induction false} InsertKeeps(sorted: seq<RawMove>, m: RawMove)
    ensures multiset(Insert(sorted, m)) == multiset(sorted) + multiset{m}
  {
    if sorted != [] && sorted[|sorted| - 1].number > m.number {
      InsertKeeps(sorted[..|sorted| - 1], m);
      assert sorted == sorted[..|sorted| - 1] + [sorted[|sorted| - 1]];
    }
  }

  lemma {:induction false} InsertSorts(sorted: seq<RawMove>, m: RawMove)
    requires InOrder(sorted)
    ensures InOrder(Insert(sorted, m)) && multiset(Insert(sorted, m)) == multiset(sorted) + multiset{m}
  {
    hide InOrder;
    InsertKeeps(sorted, m);
    if sorted == [] || sorted[|sorted| - 1].number <= m.number {
      if sorted != [] {
        LastIsMost(sorted);
      }
      OrderAppend(sorted, m);
    } else {
      var last, before := sorted[|sorted| - 1], sorted[..|sorted| - 1];
      assert sorted == before + [last];
      OrderAppend(before, last);
      InsertSorts(before, m);
      forall x | x in Insert(before, m) ensures x.number <= last.number {
        assert x in multiset(Insert(before, m));
        assert x in before || x == m;
      }
      OrderAppend(Insert(before, m), last);
    }
  }

  lemma {:induction false} SortSorts(moves: seq<RawMove>)
    ensures InOrder(SortByNumber(moves)) && multiset(SortByNumber(moves)) == multiset(moves)
  {
    if moves != [] {
      SortSorts(moves[..|moves| - 1]);
      InsertSorts(SortByNumber(moves[..|moves| - 1]), moves[|moves| - 1]);
      assert moves == moves[..|moves| - 1] + [moves[|moves| - 1]];
    }
  }

  /** The wire's moves: sorted, moved to its axes, `x` for whoever placed first. */
  function WireMoves(moves: seq<RawMove>): seq<WireMove> {
    var sorted := SortByNumber(moves);
    seq(|sorted|, k requires 0 <= k < |sorted| =>
      WireMove(Cell(sorted[k].x + sorted[k].y, 0 - sorted[k].y),
               if sorted[k].playerId == sorted[0].playerId then "x" else "o"))
  }

  /**
   The server's coordinates can be read back from the wire's moves, which run in the order of the numbers; the side is
   `x` exactly for the player whose move has the lowest.
   */
  lemma WireReadsBack(moves: seq<RawMove>, k: nat)
    requires k < |moves| && DistinctNumbers(moves)
    ensures |WireMoves(moves)| == |moves| == |SortByNumber(moves)|
    ensures var m, w := SortByNumber(moves)[k], WireMoves(moves)[k];
            && m in moves && m.x == w.at.q + w.at.r && m.y == -w.at.r && w.side in {"x", "o"}
            && (w.side == "x" <==>
                  exists f :: f in moves && (forall n | n in moves :: f.number <= n.number) &&
                              f.playerId == m.playerId)
    ensures forall j | 0 <= j < k :: SortByNumber(moves)[j].number < SortByNumber(moves)[k].number
  {
    SortSorts(moves);
    hide SortByNumber;
    var sorted := SortByNumber(moves);
    SameMembers(moves, sorted);
    SameNumbers(moves, sorted);
    FirstIsLeast(sorted);
    hide InOrder, DistinctNumbers;
    assert sorted[0] in moves && sorted[k] in moves;
  }

  lemma SameMembers(a: seq<RawMove>, b: seq<RawMove>)
    requires multiset(a) == multiset(b)
    ensures |a| == |b| && forall m :: m in a <==> m in b
  {
    assert |a| == |multiset(a)| == |b|;
    forall m ensures m in a <==> m in b {
      assert m in a <==> m in multiset(a);
    }
  }

  /** Among moves in order with numbers apart, the first and no other has the least. */
  lemma FirstIsLeast(sorted: seq<RawMove>)
    requires InOrder(sorted) && DistinctNumbers(sorted) && sorted != []
    ensures forall n | n in sorted :: sorted[0].number <= n.number
    ensures forall f | f in sorted && f.number <= sorted[0].number :: f == sorted[0]
    ensures forall i, j | 0 <= i < j < |sorted| :: sorted[i].number < sorted[j].number
  {
    forall i, j | 0 <= i < j < |sorted| ensures sorted[i].number < sorted[j].number {
      assert sorted[i].number <= sorted[j].number && sorted[i].number != sorted[j].number;
    }
  }

  /** Both lists start with the one move of the lowest number. */
  lemma SameHead(a: seq<RawMove>, b: seq<RawMove>)
    requires InOrder(a) && InOrder(b) && DistinctNumbers(a) && multiset(a) == multiset(b) && a != []
    ensures b != [] && a[0] == b[0]
  {
    assert a[0] in multiset(a);
    assert b[0] in multiset(b);
    var i :| 0 <= i < |a| && a[i] == b[0];
    var j :| 0 <= j < |b| && b[j] == a[0];
    assert a[0].number <= a[i].number && b[0].number <= b[j].number;
  }

  lemma Tails(a: seq<RawMove>)
    requires a != []
    ensures InOrder(a) ==> InOrder(a[1..])
    ensures DistinctNumbers(a) ==> DistinctNumbers(a[1..])
    ensures multiset(a[1..]) == multiset(a) - multiset{a[0]}
  {
    assert a == [a[0]] + a[1..];
  }

  /** Distinct numbers leave one order. */
  lemma {:induction false} OneOrder(a: seq<RawMove>, b: seq<RawMove>)
    requires InOrder(a) && InOrder(b) && DistinctNumbers(a) && multiset(a) == multiset(b)
    ensures a == b
    decreases |a|
  {
    hide InOrder, DistinctNumbers;
    assert |a| == |multiset(a)| == |b|;
    if a != [] {
      SameHead(a, b);
      Tails(a);
      Tails(b);
      OneOrder(a[1..], b[1..]);
      assert a == [a[0]] + a[1..] && b == [b[0]] + b[1..];
    }
  }

  lemma SameNumbers(a: seq<RawMove>, b: seq<RawMove>)
    requires DistinctNumbers(a) && multiset(a) == multiset(b)
    ensures DistinctNumbers(b)
  {
    assert |a| == |multiset(a)| == |b|;
    forall i, j | 0 <= i < j < |b| ensures b[i].number != b[j].number {
      if b[i].number == b[j].number {
        assert b[i] in multiset(a) && b[j] in multiset(a);
        var m :| 0 <= m < |a| && a[m] == b[i];
        var n :| 0 <= n < |a| && a[n] == b[j];
        assert m == n;
        TwiceIn(b, i, j);
        OnceIn(a, m);
        assert false;
      }
    }
  }

  lemma TwiceIn(b: seq<RawMove>, i: nat, j: nat)
    requires i < j < |b| && b[i] == b[j]
    ensures multiset(b)[b[i]] >= 2
  {
    assert b == b[..i] + [b[i]] + b[i + 1..j] + [b[j]] + b[j + 1..];
  }

  lemma OnceIn(a: seq<RawMove>, m: nat)
    requires m < |a| && DistinctNumbers(a)
    ensures multiset(a)[a[m]] == 1
  {
    assert a == a[..m] + [a[m]] + a[m + 1..];
    assert a[m] !in a[..m] && a[m] !in a[m + 1..];
  }

  /** The order of the server's list does not matter while its move numbers are distinct. */
  lemma ListOrderIrrelevant(a: seq<RawMove>, b: seq<RawMove>)
    requires DistinctNumbers(a) && multiset(a) == multiset(b)
    ensures WireMoves(a) == WireMoves(b)
  {
    SortSorts(a);
    SortSorts(b);
    SameNumbers(a, SortByNumber(a));
    OneOrder(SortByNumber(a), SortByNumber(b));
  }
}
