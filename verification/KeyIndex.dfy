/** A sorted index over keys: the order that sorts them, and the span of places where a key occurs. */
module KeyIndex {
  import opened Wrappers

  /**
   A list of all places of `keys`, each once, in ascending key order; equal keys stay in the order of their places.
   */
  ghost predicate IsOrder(keys: seq<int>, order: seq<nat>) {
    && |order| == |keys|
    && (forall i | 0 <= i < |order| :: order[i] < |keys|)
    && (forall i, j | 0 <= i < j < |order| ::
          keys[order[i]] < keys[order[j]] || (keys[order[i]] == keys[order[j]] && order[i] < order[j]))
    && (forall p: nat | p < |keys| :: p in order)
  }

  method Argsort(keys: seq<int>) returns (order: seq<nat>)
    ensures IsOrder(keys, order)
  {
    hide IsOrder;
    order := [];
    NothingOrdered(keys);
    for p := 0 to |keys|
      invariant IsOrder(keys[..p], order)
    {
      OrderBounds(keys[..p], order);
      var at: nat := |order|;
      while at > 0 && keys[order[at - 1]] > keys[p]
        invariant at <= |order|
        invariant forall i | at <= i < |order| :: keys[order[i]] > keys[p]
      {
        at := at - 1;
      }
      Inserted(keys, p, order, at);
      order := order[..at] + [p] + order[at..];
    }
    assert keys[..|keys|] == keys;
  }

  lemma NothingOrdered(keys: seq<int>)
    ensures IsOrder(keys[..0], [])
  {
  }

  lemma OrderBounds(keys: seq<int>, order: seq<nat>)
    requires IsOrder(keys, order)
    ensures |order| == |keys| && forall i | 0 <= i < |order| :: order[i] < |keys|
  {
  }

  lemma Inserted(keys: seq<int>, p: nat, order: seq<nat>, at: nat)
    requires p < |keys| && IsOrder(keys[..p], order) && at <= |order|
    requires at > 0 ==> keys[order[at - 1]] <= keys[p]
    requires forall i | at <= i < |order| :: keys[order[i]] > keys[p]
    ensures IsOrder(keys[..p + 1], order[..at] + [p] + order[at..])
  {
    var longer := order[..at] + [p] + order[at..];
    InsertedCovers(order, p, at);
    forall i | 0 <= i < |longer| && i != at ensures longer[i] == order[if i < at then i else i - 1] {
    }
    forall i, j | 0 <= i < j < |longer|
      ensures keys[longer[i]] < keys[longer[j]] || (keys[longer[i]] == keys[longer[j]] && longer[i] < longer[j])
    {
      if i < at && j == at {
        assert keys[order[i]] <= keys[order[at - 1]];
      }
    }
  }

  lemma InsertedCovers(order: seq<nat>, p: nat, at: nat)
    requires at <= |order|
    ensures forall q :: q in order[..at] + [p] + order[at..] <==> q in order || q == p
  {
    assert order == order[..at] + order[at..];
  }

  /** The first place of `order` whose key is at least `x`. */
  method SearchLeft(keys: seq<int>, order: seq<nat>, x: int) returns (lo: nat)
    requires IsOrder(keys, order)
    ensures lo <= |order|
    ensures forall i | 0 <= i < lo :: keys[order[i]] < x
    ensures forall i | lo <= i < |order| :: keys[order[i]] >= x
  {
    lo := 0;
    var hi := |order|;
    while lo < hi
      invariant lo <= hi <= |order|
      invariant forall i | 0 <= i < lo :: keys[order[i]] < x
      invariant forall i | hi <= i < |order| :: keys[order[i]] >= x
    {
      var mid := (lo + hi) / 2;
      if keys[order[mid]] < x {
        lo := mid + 1;
      } else {
        hi := mid;
      }
    }
  }

  /** The first place of `order` whose key is beyond `x`. */
  method SearchRight(keys: seq<int>, order: seq<nat>, x: int) returns (hi: nat)
    requires IsOrder(keys, order)
    ensures hi <= |order|
    ensures forall i | 0 <= i < hi :: keys[order[i]] <= x
    ensures forall i | hi <= i < |order| :: keys[order[i]] > x
  {
    hi := SearchLeft(keys, order, x + 1);
  }

  /** Where a key occurs. */
  function Places(keys: seq<int>, x: int): set<nat> {
    set p: nat | p < |keys| && keys[p] == x
  }

  ghost predicate IsSpan(keys: seq<int>, order: seq<nat>, x: int, lo: nat, hi: nat)
    requires IsOrder(keys, order)
  {
    && lo <= |order| && hi <= |order|
    && (forall i | 0 <= i < lo && i < |order| :: keys[order[i]] < x) &&
    (forall i | lo <= i < |order| :: keys[order[i]] >= x)
    && (forall i | 0 <= i < hi && i < |order| :: keys[order[i]] <= x) &&
    (forall i | hi <= i < |order| :: keys[order[i]] > x)
  }

  /**
   An empty span is a key that does not occur; a span of one is a key that occurs once, there; no other key occurs once.
   */
  lemma SpanCounts(keys: seq<int>, order: seq<nat>, x: int, lo: nat, hi: nat)
    requires IsOrder(keys, order) && IsSpan(keys, order, x, lo, hi)
    ensures lo <= hi
    ensures hi == lo <==> Places(keys, x) == {}
    ensures hi - lo == 1 ==> Places(keys, x) == {order[lo]}
    ensures forall p :: Places(keys, x) == {p} ==> hi - lo == 1 && order[lo] == p
  {
    if hi < |order| {
      assert keys[order[hi]] > x;
    }
    forall p | p in Places(keys, x) ensures exists i :: lo <= i < hi && order[i] == p {
      assert p in order;
      var i :| 0 <= i < |order| && order[i] == p;
    }
    forall i | lo <= i < hi ensures order[i] in Places(keys, x) {
    }
    if lo < hi {
      assert order[lo] in Places(keys, x);
    } else {
      assert Places(keys, x) == {};
    }
    if hi - lo >= 2 {
      assert order[lo] in Places(keys, x) && order[lo + 1] in Places(keys, x);
    }
    forall p | Places(keys, x) == {p} ensures hi - lo == 1 && order[lo] == p {
      assert p in Places(keys, x);
    }
  }

  /** A key's span holds its places and no other, from left to right. */
  lemma SpanInside(keys: seq<int>, order: seq<nat>, key: int, lo: nat, hi: nat)
    requires IsOrder(keys, order) && IsSpan(keys, order, key, lo, hi)
    ensures lo <= hi <= |order| && forall i | lo <= i < hi :: order[i] in Places(keys, key)
    ensures forall i, j | lo <= i < j < hi :: order[i] < order[j]
    ensures forall p | p in Places(keys, key) :: exists i :: lo <= i < hi && order[i] == p
  {
    SpanCounts(keys, order, key, lo, hi);
    forall p | p in Places(keys, key) ensures exists i :: lo <= i < hi && order[i] == p {
      assert p in order;
      var i :| 0 <= i < |order| && order[i] == p;
    }
  }

  /** Each distinct label with the places carrying it, in label order. */
  type Grouping = seq<(int, seq<nat>)>

  /** Each group's places are its label's, in order; groups ascend by label; the first `n` of `order` are in. */
  ghost predicate Groups(labels: seq<int>, groups: Grouping, order: seq<nat>, n: nat)
    requires n <= |order|
  {
    && (forall j | 0 <= j < |groups| :: GroupRight(labels, groups[j]))
    && (forall j, k | 0 <= j < k < |groups| :: groups[j].0 < groups[k].0)
    && (forall i | 0 <= i < n :: InSome(groups, order[i]))
    && (forall j, p | 0 <= j < |groups| && p in groups[j].1 :: p in order[..n])
  }

  ghost predicate InSome(groups: Grouping, p: nat) {
    exists j :: 0 <= j < |groups| && p in groups[j].1
  }

  ghost predicate GroupRight(labels: seq<int>, group: (int, seq<nat>)) {
    && (forall p | p in group.1 :: p < |labels| && labels[p] == group.0)
    && (forall i, j | 0 <= i < j < |group.1| :: group.1[i] < group.1[j])
  }

  /** Every place of `labels` is in the group of its label, and in it once. */
  ghost predicate Partitions(labels: seq<int>, groups: Grouping) {
    && (forall j | 0 <= j < |groups| :: GroupRight(labels, groups[j]))
    && (forall j, k | 0 <= j < k < |groups| :: groups[j].0 < groups[k].0)
    && (forall p: nat | p < |labels| :: InSome(groups, p))
  }

  /** The groups; without a label the source has no group to pair with its one empty piece, and refuses. */
  method GroupBy(labels: seq<int>) returns (r: Option<Grouping>)
    ensures r.None? <==> labels == []
    ensures r.Some? ==> Partitions(labels, r.value)
  {
    if labels == [] {
      return None;
    }
    var order := Argsort(labels);
    var groups: Grouping := [];
    for n := 0 to |order|
      invariant Groups(labels, groups, order, n)
      invariant if n == 0 then groups == [] else groups != [] && groups[|groups| - 1].0 == labels[order[n - 1]]
    {
      var p, last := order[n], |groups| - 1;
      if n > 0 && groups[last].0 == labels[p] {
        JoinsLast(labels, groups, order, n);
        groups := groups[..last] + [(groups[last].0, groups[last].1 + [p])];
      } else {
        OpensGroup(labels, groups, order, n);
        groups := groups + [(labels[p], [p])];
      }
    }
    forall p: nat | p < |labels| ensures InSome(groups, p) {
      assert p in order;
      var i :| 0 <= i < |order| && order[i] == p;
    }
    r := Some(groups);
  }

  lemma JoinsLast(labels: seq<int>, groups: Grouping, order: seq<nat>, n: nat)
    requires IsOrder(labels, order) && n < |order| && Groups(labels, groups, order, n)
    requires groups != [] && groups[|groups| - 1].0 == labels[order[n]]
    ensures var last := |groups| - 1;
            Groups(labels, groups[..last] + [(groups[last].0, groups[last].1 + [order[n]])], order, n + 1)
  {
    var p, last := order[n], |groups| - 1;
    var more := groups[..last] + [(groups[last].0, groups[last].1 + [p])];
    assert order[..n + 1] == order[..n] + [p];
    assert GroupRight(labels, groups[last]);
    forall q | q in groups[last].1 ensures q < p {
      assert q in order[..n];
      var i :| 0 <= i < n && order[i] == q;
    }
    assert forall i | 0 <= i < |more[last].1| - 1 :: more[last].1[i] in groups[last].1;
    assert GroupRight(labels, more[last]);
    forall i | 0 <= i < n + 1 ensures InSome(more, order[i]) {
      if i < n {
        assert InSome(groups, order[i]);
        var j :| 0 <= j < |groups| && order[i] in groups[j].1;
        assert order[i] in more[j].1;
      } else {
        assert p in more[last].1;
      }
    }
  }

  lemma OpensGroup(labels: seq<int>, groups: Grouping, order: seq<nat>, n: nat)
    requires IsOrder(labels, order) && n < |order| && Groups(labels, groups, order, n)
    requires n == 0 ==> groups == []
    requires n > 0 ==> groups != [] && groups[|groups| - 1].0 == labels[order[n - 1]] != labels[order[n]]
    ensures Groups(labels, groups + [(labels[order[n]], [order[n]])], order, n + 1)
  {
    var p := order[n];
    var more := groups + [(labels[p], [p])];
    assert order[..n + 1] == order[..n] + [p];
    forall i | 0 <= i < n + 1 ensures InSome(more, order[i]) {
      if i < n {
        assert InSome(groups, order[i]);
        var j :| 0 <= j < |groups| && order[i] in groups[j].1;
        assert more[j] == groups[j];
      } else {
        assert p in more[|groups|].1;
      }
    }
    assert n > 0 ==> labels[order[n - 1]] < labels[p];
  }
}
