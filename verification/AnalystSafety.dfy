/**
 What every run of the analyst keeps: futures resolved once and none lost, requests handled in order, stops that wait.
 */
module AnalystSafety {
  import opened Analyst
  import opened Wrappers

  // ---------------------------------------------------------------- the queue

  lemma {:induction false} AsksAppend(queue: seq<Slot>, slot: Slot)
    ensures Asks(queue + [slot]) == Asks(queue) + if slot.Wanted? then [slot.item] else []
  {
    if queue != [] {
      assert (queue + [slot])[1..] == queue[1..] + [slot];
      AsksAppend(queue[1..], slot);
    }
  }

  lemma {:induction false} AsksMembers(queue: seq<Slot>)
    ensures forall x :: x in Asks(queue) <==> Wanted(x) in queue
  {
    if queue != [] {
      AsksMembers(queue[1..]);
      assert queue == [queue[0]] + queue[1..];
    }
  }

  // ---------------------------------------------------------------- keeping the newest

  lemma {:induction false} KeptMembers(items: seq<Item>, survivors: map<Key, Item>)
    ensures forall x :: x in Kept(items, survivors) <==> x in items && KeyOf(x) in survivors && survivors[KeyOf(x)] == x
  {
    if items != [] {
      KeptMembers(items[..|items| - 1], survivors);
      assert items == items[..|items| - 1] + [items[|items| - 1]];
    }
  }

  lemma {:induction false} KeptAscends(items: seq<Item>, survivors: map<Key, Item>)
    requires Ascending(items)
    ensures Ascending(Kept(items, survivors))
  {
    if items != [] {
      var before := items[..|items| - 1];
      KeptAscends(before, survivors);
      KeptMembers(before, survivors);
      forall x | x in Kept(before, survivors) ensures x.id < items[|items| - 1].id {
        assert x in before;
      }
    }
  }

  lemma AscendingJoin(a: seq<Item>, b: seq<Item>)
    ensures Ascending(a + b) <==> Ascending(a) && Ascending(b) && forall x, y | x in a && y in b :: x.id < y.id
  {
    if Ascending(a + b) {
      forall i, j | 0 <= i < j < |a| ensures a[i].id < a[j].id {
        assert (a + b)[i].id < (a + b)[j].id;
      }
      forall i, j | 0 <= i < j < |b| ensures b[i].id < b[j].id {
        assert (a + b)[|a| + i].id < (a + b)[|a| + j].id;
      }
      forall x, y | x in a && y in b ensures x.id < y.id {
        var i :| 0 <= i < |a| && a[i] == x;
        var j :| 0 <= j < |b| && b[j] == y;
        assert (a + b)[i].id < (a + b)[|a| + j].id;
      }
    }
  }

  // ---------------------------------------------------------------- the order

  /**
   Handled, taken and queued in one line: a step leaves it as it is, appends the new request, or drops the superseded.
   */
  lemma LineSteps(s: State, a: Action)
    requires WorkerRight(s.worker)
    ensures var t := Step(s, a);
            if a.Submit? then Line(t) == Line(s) + [Item(s.next, a.request)]
            else if a.Work? && BatchReady(s.worker)
              then Line(t) == Handled(s.log) + Kept(s.worker.pending, s.worker.survivors) + Asks(s.queue)
            else Line(t) == Line(s)
  {
    hide Handled, Asks, Kept;
    if !a.Work? {
      AsksAppend(s.queue, if a.Submit? then Wanted(Item(s.next, a.request)) else Stop);
    } else if s.worker.Superseding? {
      LineOfSuperseding(s, a.raises);
    } else if s.worker.Handling? {
      LineOfHandling(s, a.raises);
    } else {
      LineOfDrain(s, a.raises);
    }
  }

  /** The last pending item has been looked at. */
  predicate BatchReady(w: Worker) {
    w.Superseding? && w.at == |w.pending|
  }

  lemma LineOfDrain(s: State, raises: bool)
    requires !s.worker.Superseding? && !s.worker.Handling?
    ensures Line(WorkStep(s, raises)) == Line(s)
  {
    hide Kept, KeyOf;
    AsksAppend(s.queue, Stop);
    assert s.queue != [] ==>
             Asks(s.queue) == (if s.queue[0].Wanted? then [s.queue[0].item] else []) + Asks(s.queue[1..]);
    hide Asks, Handled;
  }

  lemma LineOfSuperseding(s: State, raises: bool)
    requires WorkerRight(s.worker) && s.worker.Superseding?
    ensures var t := WorkStep(s, raises);
            Line(t) == if BatchReady(s.worker)
              then Handled(s.log) + Kept(s.worker.pending, s.worker.survivors) + Asks(s.queue)
              else Line(s)
  {
    assert s.worker.at <= |s.worker.pending|;
    hide Asks, Kept, SurvivorsNewest, KeyOf;
    var t := WorkStep(s, raises);
    if BatchReady(s.worker) {
      var kept := Kept(s.worker.pending, s.worker.survivors);
      assert kept[0..] == kept;
    } else if t.log != s.log {
      assert t.log[..|t.log| - 1] == s.log;
    }
  }

  lemma LineOfHandling(s: State, raises: bool)
    requires s.worker.Handling?
    ensures Line(WorkStep(s, raises)) == Line(s)
  {
    hide Asks, Kept, KeyOf;
    var t, w := WorkStep(s, raises), s.worker;
    if w.at < |w.batch| {
      assert t.log[..|t.log| - 1] == s.log;
      assert w.batch[w.at..] == [w.batch[w.at]] + w.batch[w.at + 1..];
    }
  }

  lemma StaysInOrder(s: State, a: Action)
    requires InOrder(s) && WorkerRight(s.worker)
    ensures InOrder(Step(s, a))
  {
    var t := Step(s, a);
    LineSteps(s, a);
    if a.Submit? {
      AscendingJoin(Line(s), [Item(s.next, a.request)]);
    } else if a.Work? && BatchReady(s.worker) {
      var done, pending, queued := Handled(s.log), s.worker.pending, Asks(s.queue);
      var kept := Kept(pending, s.worker.survivors);
      AscendingJoin(done + pending, queued);
      AscendingJoin(done, pending);
      KeptAscends(pending, s.worker.survivors);
      KeptMembers(pending, s.worker.survivors);
      AscendingJoin(done, kept);
      AscendingJoin(done + kept, queued);
    }
  }

  lemma WaitingAscends(s: State)
    requires InOrder(s)
    ensures Ascending(Waiting(s)) && forall x | x in Waiting(s) :: x.id < s.next
    ensures forall x, y | x in Taken(s.worker) && y in Asks(s.queue) :: x.id < y.id
  {
    assert Line(s) == Handled(s.log) + Waiting(s);
    AscendingJoin(Handled(s.log), Waiting(s));
    AscendingJoin(Taken(s.worker), Asks(s.queue));
  }

  lemma PendingAscends(s: State)
    requires InOrder(s)
    ensures Ascending(Taken(s.worker))
  {
    WaitingAscends(s);
    AscendingJoin(Taken(s.worker), Asks(s.queue));
  }

  /** The next pending item takes its key over. */
  lemma NextSurvivor(pending: seq<Item>, at: nat, survivors: map<Key, Item>)
    requires SurvivorsNewest(pending, at, survivors) && at < |pending| && Ascending(pending)
    ensures SurvivorsNewest(pending, at + 1, survivors[KeyOf(pending[at]) := pending[at]])
  {
    hide KeyOf;
    var x := pending[at];
    var more := survivors[KeyOf(x) := x];
    assert pending[..at + 1] == pending[..at] + [x];
    forall i | 0 <= i < at + 1 ensures KeyOf(pending[i]) in more && more[KeyOf(pending[i])].id >= pending[i].id {
      assert i < at ==> pending[i].id < x.id;
    }
  }

  lemma NoSurvivors(pending: seq<Item>)
    ensures SurvivorsNewest(pending, 0, map[])
  {
  }

  lemma StaysWorkerRight(s: State, a: Action)
    requires InOrder(s) && WorkerRight(s.worker)
    ensures WorkerRight(Step(s, a).worker)
  {
    hide InOrder, Asks, Handled, Kept, KeyOf, SurvivorsNewest, Ascending;
    if a.Work? {
      match s.worker {
        case Superseding(pending, at, survivors) =>
          PendingAscends(s);
          if at < |pending| {
            NextSurvivor(pending, at, survivors);
          }
        case Draining(pending) => NoSurvivors(pending);
        case PuttingBack(pending) => NoSurvivors(pending);
        case _ =>
      }
    }
  }

  // ---------------------------------------------------------------- once each, none lost

  lemma ResolvedAppend(log: seq<Entry>, e: Entry)
    ensures forall x :: Resolved(log + [e], x) <==> Resolved(log, x) || x == e.item
  {
    forall x ensures Resolved(log + [e], x) <==> Resolved(log, x) || x == e.item {
      assert (log + [e])[|log|] == e;
      if Resolved(log, x) {
        var a :| 0 <= a < |log| && log[a].item == x;
        assert (log + [e])[a].item == x;
      }
    }
  }

  lemma DistinctLog(log: seq<Entry>, e: Entry)
    requires forall a, b | 0 <= a < b < |log| :: log[a].item.id != log[b].item.id
    requires forall a | 0 <= a < |log| :: log[a].item.id != e.item.id
    ensures forall a, b | 0 <= a < b < |log + [e]| :: (log + [e])[a].item.id != (log + [e])[b].item.id
  {
  }

  lemma StaysOnceSubmit(s: State, request: Request)
    requires InOrder(s) && Once(s)
    ensures Once(Step(s, Submit(request)))
  {
    AsksAppend(s.queue, Wanted(Item(s.next, request)));
  }

  lemma StaysOnceDrain(s: State, raises: bool)
    requires InOrder(s) && Once(s) &&
             (s.worker.Idle? || s.worker.Draining? || s.worker.PuttingBack? || s.worker.Exited?)
    ensures Once(Step(s, Work(raises)))
  {
    var t := Step(s, Work(raises));
    AsksAppend(s.queue, Stop);
    assert forall x :: x in Waiting(t) <==> x in Waiting(s);
    assert forall x :: !Dropped(t.worker, x) && !Dropped(s.worker, x);
  }

  lemma SurvivorsPending(w: Worker)
    requires w.Superseding? && WorkerRight(w)
    ensures forall k | k in w.survivors :: w.survivors[k] in w.pending && !Dropped(w, w.survivors[k])
  {
    forall k | k in w.survivors ensures w.survivors[k] in w.pending && !Dropped(w, w.survivors[k]) {
      assert w.survivors[k] in w.pending[..w.at];
    }
  }

  /** A key taken over changes whose it is, and nothing else. */
  lemma NewestChanges(survivors: map<Key, Item>, x: Item, y: Item)
    ensures IsNewest(survivors[KeyOf(x) := x], y) <==> y == x || (IsNewest(survivors, y) && KeyOf(y) != KeyOf(x))
  {
    hide KeyOf;
  }

  /** Looking at the next pending item drops the one of its key it replaces, and no other. */
  lemma OneDropped(w: Worker)
    requires w.Superseding? && w.at < |w.pending| && WorkerRight(w) && Ascending(w.pending)
    ensures var x := w.pending[w.at];
            forall y :: Dropped(Superseding(w.pending, w.at + 1, w.survivors[KeyOf(x) := x]), y) <==>
                        Dropped(w, y) || (KeyOf(x) in w.survivors && y == w.survivors[KeyOf(x)])
  {
    hide KeyOf;
    var x := w.pending[w.at];
    var seen, key := w.pending[..w.at], KeyOf(x);
    assert w.pending[..w.at + 1] == seen + [x];
    assert x !in seen;
    assert key in w.survivors ==> w.survivors[key] in seen && KeyOf(w.survivors[key]) == key;
    hide SurvivorsNewest, Ascending;
    forall y ensures Dropped(Superseding(w.pending, w.at + 1, w.survivors[key := x]), y) <==>
                     Dropped(w, y) || (key in w.survivors && y == w.survivors[key]) {
      NewestChanges(w.survivors, x, y);
    }
  }

  /** Resolving a waiting future that is not resolved keeps every future resolved at most once. */
  lemma ResolvesOne(s: State, e: Entry)
    requires InOrder(s) && Once(s) && e.item in Waiting(s) && !Dropped(s.worker, e.item)
    ensures forall a, b | 0 <= a < b < |s.log + [e]| :: (s.log + [e])[a].item.id != (s.log + [e])[b].item.id
    ensures forall x | x in Waiting(s) :: Resolved(s.log + [e], x) <==> Dropped(s.worker, x) || x == e.item
    ensures forall x, a | x in Waiting(s) && 0 <= a < |s.log + [e]| && (s.log + [e])[a].item.id == x.id ::
              (s.log + [e])[a].item == x
    ensures forall a | 0 <= a < |s.log + [e]| :: (s.log + [e])[a].item.id < s.next
  {
    hide Dropped, Waiting;
    ResolvedAppend(s.log, e);
    assert !Resolved(s.log, e.item);
    DistinctLog(s.log, e);
    WaitingDistinct(s);
  }

  lemma WaitingDistinct(s: State)
    requires InOrder(s)
    ensures forall x, y | x in Waiting(s) && y in Waiting(s) && x.id == y.id :: x == y
    ensures forall x | x in Waiting(s) :: x.id < s.next
  {
    WaitingAscends(s);
    var all := Waiting(s);
    forall x, y | x in all && y in all && x.id == y.id ensures x == y {
      var i :| 0 <= i < |all| && all[i] == x;
      var j :| 0 <= j < |all| && all[j] == y;
    }
  }

  lemma StaysOnceSupersede(s: State, raises: bool)
    requires InOrder(s) && WorkerRight(s.worker) && Once(s) && s.worker.Superseding? && s.worker.at < |s.worker.pending|
    ensures Once(Step(s, Work(raises)))
  {
    hide InOrder, Dropped, WorkerRight, Asks, KeyOf, Resolved;
    var w := s.worker;
    var key := KeyOf(w.pending[w.at]);
    PendingAscends(s);
    OneDropped(w);
    SurvivorsPending(w);
    if key in w.survivors {
      ResolvesOne(s, Entry(w.survivors[key], Superseded, s.batch));
    }
  }

  /** Nothing resolved, nothing dropped any more, and only waiting items that were not dropped still waiting. */
  lemma OnceShrinks(s: State, t: State)
    requires Once(s) && t.log == s.log && t.next == s.next && !t.worker.Superseding?
    requires forall x | x in Waiting(t) :: x in Waiting(s) && !Dropped(s.worker, x)
    ensures Once(t)
  {
    hide Waiting, Resolved, Asks;
  }

  /** The items of a batch sorted out were not dropped. */
  lemma KeptNotDropped(w: Worker, queued: seq<Item>)
    requires WorkerRight(w) && BatchReady(w) && forall x, y | x in w.pending && y in queued :: x.id < y.id
    ensures forall x | x in Kept(w.pending, w.survivors) + queued :: x in w.pending + queued && !Dropped(w, x)
  {
    KeptMembers(w.pending, w.survivors);
    hide Kept, KeyOf;
    assert w.pending[..w.at] == w.pending;
    forall x | x in Kept(w.pending, w.survivors) + queued ensures x in w.pending + queued && !Dropped(w, x) {
    }
  }

  lemma StaysOnceBatch(s: State, raises: bool)
    requires InOrder(s) && WorkerRight(s.worker) && Once(s) && BatchReady(s.worker)
    ensures Once(Step(s, Work(raises)))
  {
    hide InOrder, Asks, Kept, KeyOf, Dropped, Once;
    var t, w := Step(s, Work(raises)), s.worker;
    WaitingAscends(s);
    KeptNotDropped(w, Asks(s.queue));
    assert Kept(w.pending, w.survivors)[0..] == Kept(w.pending, w.survivors);
    OnceShrinks(s, t);
  }

  lemma StaysOnceHandle(s: State, raises: bool)
    requires InOrder(s) && WorkerRight(s.worker) && Once(s) && s.worker.Handling?
    ensures Once(Step(s, Work(raises)))
  {
    hide InOrder, Asks, Once, Resolved, KeyOf;
    var t, w := Step(s, Work(raises)), s.worker;
    if w.at < |w.batch| {
      var x := w.batch[w.at];
      assert w.batch[w.at..] == [x] + w.batch[w.at + 1..];
      assert Waiting(s) == [x] + Waiting(t);
      WaitingAscends(s);
      AscendingJoin([x], Waiting(t));
      ResolvesOne(s, t.log[|s.log|]);
      OnceHandles(s, t);
    } else {
      OnceShrinks(s, t);
    }
  }

  lemma OnceHandles(s: State, t: State)
    requires s.worker.Handling? && t.worker.Handling? && t.next == s.next && |t.log| > 0
    requires forall a, b | 0 <= a < b < |t.log| :: t.log[a].item.id != t.log[b].item.id
    requires forall x | x in Waiting(s) :: Resolved(t.log, x) <==> x == t.log[|t.log| - 1].item
    requires forall x, a | x in Waiting(s) && 0 <= a < |t.log| && t.log[a].item.id == x.id :: t.log[a].item == x
    requires forall a | 0 <= a < |t.log| :: t.log[a].item.id < t.next
    requires forall x | x in Waiting(t) :: x in Waiting(s) && x != t.log[|t.log| - 1].item
    ensures Once(t)
  {
    hide Waiting, Resolved;
  }

  lemma StaysOnce(s: State, a: Action)
    requires InOrder(s) && WorkerRight(s.worker) && Once(s)
    ensures Once(Step(s, a))
  {
    if a.Submit? {
      StaysOnceSubmit(s, a.request);
    } else if a.CallStop? {
      AsksAppend(s.queue, Stop);
    } else if s.worker.Handling? {
      StaysOnceHandle(s, a.raises);
    } else if BatchReady(s.worker) {
      StaysOnceBatch(s, a.raises);
    } else if s.worker.Superseding? {
      StaysOnceSupersede(s, a.raises);
    } else {
      StaysOnceDrain(s, a.raises);
    }
  }

  lemma StaysNoneLost(s: State, a: Action)
    requires InOrder(s) && WorkerRight(s.worker) && Once(s) && NoneLost(s)
    ensures NoneLost(Step(s, a))
  {
    hide Once, InOrder;
    var t := Step(s, a);
    LineSteps(s, a);
    assert |s.log| <= |t.log| && t.log[..|s.log|] == s.log;
    forall id: nat | id < t.next ensures Accounted(t, id) {
      if id == s.next {
        assert Item(s.next, a.request) in Line(t);
      } else {
        assert Accounted(s, id);
        if a.Work? && BatchReady(s.worker) {
          DroppedAtLast(s, id);
        } else if x :| x in Line(s) && x.id == id {
          assert x in Line(t);
        }
        if b :| 0 <= b < |s.log| && s.log[b].item.id == id {
          assert t.log[b] == s.log[b];
        }
      }
    }
  }

  /** Sorting a batch out leaves each of its items in the batch or resolved. */
  lemma DroppedAtLast(s: State, id: nat)
    requires WorkerRight(s.worker) && Once(s) && Accounted(s, id)
    requires BatchReady(s.worker)
    ensures (exists a :: 0 <= a < |s.log| && s.log[a].item.id == id) ||
            exists x :: x in Handled(s.log) + Kept(s.worker.pending, s.worker.survivors) + Asks(s.queue) && x.id == id
  {
    var w := s.worker;
    KeptMembers(w.pending, w.survivors);
    if x :| x in Line(s) && x.id == id {
      if x in w.pending && x !in Kept(w.pending, w.survivors) {
        assert x in Taken(w) + Asks(s.queue) && w.pending[..w.at] == w.pending;
        assert Dropped(w, x) && Resolved(s.log, x);
      } else {
        assert x in Handled(s.log) + Kept(w.pending, w.survivors) + Asks(s.queue);
      }
    }
  }

  // ---------------------------------------------------------------- the superseded and the stopped

  /**
   An item that will be handled still will be when another is looked at, or one of its key no older takes its place.
   */
  lemma LiveWhileSuperseding(w: Worker, y: Item)
    requires w.Superseding? && w.at < |w.pending| && WorkerRight(w) && Ascending(w.pending) && IsNewest(w.survivors, y)
    ensures var x := w.pending[w.at];
            IsNewest(w.survivors[KeyOf(x) := x], if KeyOf(x) == KeyOf(y) then x else y) && y.id < x.id
  {
    var x := w.pending[w.at];
    assert y in w.pending[..w.at];
    NewestChanges(w.survivors, x, y);
    NewestChanges(w.survivors, x, x);
  }

  lemma LiveInBatch(s: State, raises: bool, y: Item)
    requires WorkerRight(s.worker) && s.worker.Superseding? && Live(s.worker, y) && Ascending(s.worker.pending)
    ensures exists z :: Live(WorkStep(s, raises).worker, z) && KeyOf(z) == KeyOf(y) && y.id <= z.id
  {
    hide KeyOf, Ascending;
    var t, w := WorkStep(s, raises), s.worker;
    if w.at == |w.pending| {
      assert y in w.pending[..w.at];
      KeptMembers(w.pending, w.survivors);
      var kept := Kept(w.pending, w.survivors);
      assert kept[0..] == kept && y in kept;
      assert Live(t.worker, y);
    } else {
      hide SurvivorsNewest, Kept, IsNewest;
      LiveWhileSuperseding(w, y);
      var x := w.pending[w.at];
      assert Live(t.worker, if KeyOf(x) == KeyOf(y) then x else y);
    }
  }

  /** What was handled or going to be still is, or has a newer one of its key in its place. */
  lemma LiveGoesOn(s: State, a: Action, y: Item, n: nat)
    requires InOrder(s) && WorkerRight(s.worker) && Survives(s, y, n)
    ensures var t := Step(s, a);
            exists z :: Survives(t, z, n) && KeyOf(z) == KeyOf(y) && y.id <= z.id
  {
    hide InOrder, KeyOf, Kept, SurvivorsNewest, HandledIn;
    var t, w := Step(s, a), s.worker;
    if HandledIn(s.log, y, n) {
      HandledStays(s, a, y, n);
      assert Survives(t, y, n);
    } else if a.Work? && w.Superseding? {
      PendingAscends(s);
      LiveInBatch(s, a.raises, y);
      var z :| Live(t.worker, z) && KeyOf(z) == KeyOf(y) && y.id <= z.id;
      assert Survives(t, z, n);
    } else if a.Work? {
      LiveHandling(s, a.raises, y, n);
    } else {
      assert Survives(t, y, n);
    }
  }

  /** The next of the batch is handled, the others are still to be. */
  lemma LiveHandling(s: State, raises: bool, y: Item, n: nat)
    requires s.worker.Handling? && s.batch == n && Live(s.worker, y)
    ensures Survives(WorkStep(s, raises), y, n)
  {
    var t, w := WorkStep(s, raises), s.worker;
    if y == w.batch[w.at] {
      assert t.log[|s.log|].item == y;
    } else {
      assert w.batch[w.at..] == [w.batch[w.at]] + w.batch[w.at + 1..];
    }
  }

  lemma HandledStays(s: State, a: Action, y: Item, n: nat)
    requires HandledIn(s.log, y, n)
    ensures HandledIn(Step(s, a).log, y, n)
  {
    hide Kept, KeyOf;
    var t := Step(s, a);
    var b :| 0 <= b < |s.log| && s.log[b].item == y && s.log[b].batch == n && !s.log[b].answer.Superseded?;
    assert t.log[b] == s.log[b];
  }

  lemma StaysReplaced(s: State, a: Action)
    requires InOrder(s) && WorkerRight(s.worker) && AllReplaced(s)
    ensures AllReplaced(Step(s, a))
  {
    hide InOrder, HandledIn, Live;
    var t := Step(s, a);
    forall b | 0 <= b < |t.log| && t.log[b].answer.Superseded? ensures Replaced(t, t.log[b]) {
      var e := t.log[b];
      if b < |s.log| {
        assert e == s.log[b] && Replaced(s, e);
        var y :| Survives(s, y, e.batch) && KeyOf(y) == KeyOf(e.item) && e.item.id < y.id;
        LiveGoesOn(s, a, y, e.batch);
      } else {
        NewestReplaces(s);
        assert Survives(t, s.worker.pending[s.worker.at], e.batch);
      }
    }
  }

  /** The item that supersedes is newer than the one it supersedes, and takes its place. */
  lemma NewestReplaces(s: State)
    requires InOrder(s) && WorkerRight(s.worker) && s.worker.Superseding? && s.worker.at < |s.worker.pending|
    ensures var w := s.worker;
            var x := w.pending[w.at];
            Live(WorkStep(s, false).worker, x) && Live(WorkStep(s, true).worker, x) &&
            (KeyOf(x) in w.survivors ==> w.survivors[KeyOf(x)].id < x.id && KeyOf(w.survivors[KeyOf(x)]) == KeyOf(x))
  {
    WaitingAscends(s);
    AscendingJoin(s.worker.pending, Asks(s.queue));
  }

  lemma StaysStopLast(s: State, a: Action)
    requires InOrder(s) && StopLast(s)
    ensures StopLast(Step(s, a))
  {
    if !a.Work? {
      LateFromAppend(s, a);
    } else if s.worker.PuttingBack? {
      hide InOrder;
      AsksMembers(s.queue);
    } else if s.queue != [] && (s.worker.Idle? || s.worker.Draining?) {
      hide InOrder;
      LateFromPop(s, a.raises);
    }
  }

  /** Taking the head of the queue: a sentinel there leaves only late requests behind. */
  lemma LateFromPop(s: State, raises: bool)
    requires StopLast(s) && s.queue != [] && (s.worker.Idle? || s.worker.Draining?)
    ensures StopLast(WorkStep(s, raises))
  {
    var t := WorkStep(s, raises);
    AsksMembers(t.queue);
    assert forall p | 0 < p < |s.queue| :: s.queue[1..][p - 1] == s.queue[p];
    forall p | 0 <= p < |t.queue| && t.queue[p].Stop?
      ensures t.stoppedAt.Some? &&
              forall q | p < q < |t.queue| && t.queue[q].Wanted? :: t.queue[q].item.id >= t.stoppedAt.value
    {
      assert s.queue[p + 1].Stop? && forall q | p < q < |t.queue| :: t.queue[q] == s.queue[q + 1];
    }
    if s.queue[0].Stop? {
      forall x | x in Asks(t.queue) ensures x.id >= s.stoppedAt.value {
        var q :| 0 <= q < |t.queue| && t.queue[q] == Wanted(x);
        assert s.queue[q + 1].Wanted?;
      }
    }
  }

  /** A stop or a request appended by another thread keeps what lies behind the sentinels late. */
  lemma LateFromAppend(s: State, a: Action)
    requires InOrder(s) && StopLast(s) && !a.Work?
    ensures StopLast(Step(s, a))
  {
    var t := Step(s, a);
    AsksAppend(s.queue, if a.Submit? then Wanted(Item(s.next, a.request)) else Stop);
    forall p | 0 <= p < |t.queue| && t.queue[p].Stop?
      ensures t.stoppedAt.Some? &&
              forall q | p < q < |t.queue| && t.queue[q].Wanted? :: t.queue[q].item.id >= t.stoppedAt.value
    {
      assert p < |s.queue| ==> s.queue[p].Stop?;
    }
  }

  // ---------------------------------------------------------------- every run

  lemma {:induction false} EveryRunGood(actions: seq<Action>)
    ensures Good(Run(START, actions))
  {
    hide InOrder, WorkerRight, Once, NoneLost, AllReplaced, StopLast, Step;
    if actions == [] {
      StartGood();
    } else {
      EveryRunGood(actions[..|actions| - 1]);
      var s, a := Run(START, actions[..|actions| - 1]), actions[|actions| - 1];
      StaysInOrder(s, a);
      StaysWorkerRight(s, a);
      StaysOnce(s, a);
      StaysNoneLost(s, a);
      StaysReplaced(s, a);
      StaysStopLast(s, a);
    }
  }

  lemma StartGood()
    ensures Good(START)
  {
    hide Replaced, Accounted, OnlyLate, Live;
    assert Line(START) == [] == Waiting(START);
  }

  /** Over every interleaving of submits, stops and worker steps, no future is resolved twice. */
  lemma NeverResolvedTwice(actions: seq<Action>, a: nat, b: nat)
    requires a < b < |Run(START, actions).log|
    ensures Run(START, actions).log[a].item.id != Run(START, actions).log[b].item.id
  {
    EveryRunGood(actions);
  }

  lemma HandledFirst(s: State)
    requires InOrder(s)
    ensures Ascending(Handled(s.log))
  {
    assert Line(s) == Handled(s.log) + Waiting(s);
    AscendingJoin(Handled(s.log), Waiting(s));
  }

  /** Handlers are called in the order of submission, over the whole run. */
  lemma HandledInOrder(actions: seq<Action>)
    ensures Ascending(Handled(Run(START, actions).log))
  {
    hide Run, Handled, Waiting, Ascending, WorkerRight, Once, NoneLost, AllReplaced, StopLast;
    EveryRunGood(actions);
    HandledFirst(Run(START, actions));
  }

  /**
   Between batches, every superseded request has a newer one of its key whose handler was called in the same batch.
   */
  lemma SupersededWasReplaced(actions: seq<Action>, a: nat)
    requires var s := Run(START, actions);
             a < |s.log| && s.log[a].answer.Superseded? && (s.worker.Idle? || s.worker.Exited?)
    ensures var s := Run(START, actions);
            exists y ::
              HandledIn(s.log, y, s.log[a].batch) && KeyOf(y) == KeyOf(s.log[a].item) && s.log[a].item.id < y.id
  {
    EveryRunGood(actions);
    var s := Run(START, actions);
    assert Replaced(s, s.log[a]);
  }

  ghost predicate Answered(log: seq<Entry>, id: nat) {
    exists a :: 0 <= a < |log| && log[a].item.id == id
  }

  /** When the worker has exited, every request submitted before the first stop is answered. */
  lemma ExitAnswersAll(actions: seq<Action>, id: nat)
    requires var s := Run(START, actions); s.worker.Exited? && s.stoppedAt.Some? && id < s.stoppedAt.value
    ensures Answered(Run(START, actions).log, id)
  {
    EveryRunGood(actions);
    var s := Run(START, actions);
    assert Accounted(s, id);
    HandledAnswered(s.log);
  }

  /** When the worker waits on an empty queue, every request so far is answered. */
  lemma IdleAnswersAll(actions: seq<Action>, id: nat)
    requires var s := Run(START, actions); s.worker.Idle? && s.queue == [] && id < s.next
    ensures Answered(Run(START, actions).log, id)
  {
    EveryRunGood(actions);
    var s := Run(START, actions);
    assert Accounted(s, id);
    HandledAnswered(s.log);
  }

  lemma {:induction false} HandledAnswered(log: seq<Entry>)
    ensures forall x | x in Handled(log) :: Answered(log, x.id)
  {
    if log != [] {
      var before := log[..|log| - 1];
      HandledAnswered(before);
      forall x | x in Handled(log) ensures Answered(log, x.id) {
        if x in Handled(before) {
          assert Answered(before, x.id);
          var a :| 0 <= a < |before| && before[a].item.id == x.id;
          assert log[a] == before[a];
        }
      }
    }
  }

  // ---------------------------------------------------------------- the worker gets there

  ghost predicate AllWork(actions: seq<Action>) {
    forall i | 0 <= i < |actions| :: actions[i].Work?
  }

  /** Worker steps left, at most. */
  function Ahead(s: State): nat {
    var queued := 8 * |Asks(s.queue)|;
    match s.worker
    case Idle => queued + 1
    case Draining(pending) => queued + 2 * |pending| + 5
    case PuttingBack(pending) => queued + 2 * |pending| + 4
    case Superseding(pending, at, _) => queued + |pending| + 3 + if at < |pending| then |pending| - at else 0
    case Handling(batch, at) => queued + 2 + if at < |batch| then |batch| - at else 0
    case Exited => 0
  }

  predicate AtRest(s: State) {
    s.worker.Exited? || (s.worker.Idle? && s.queue == [])
  }

  lemma {:induction false} KeptSize(items: seq<Item>, survivors: map<Key, Item>)
    ensures |Kept(items, survivors)| <= |items|
  {
    if items != [] {
      KeptSize(items[..|items| - 1], survivors);
    }
  }

  lemma WorkGetsOn(s: State)
    requires !AtRest(s)
    ensures Ahead(WorkStep(s, false)) < Ahead(s)
  {
    hide Handled, Kept, KeyOf;
    AsksAppend(s.queue, Stop);
    if s.worker.Superseding? {
      KeptSize(s.worker.pending, s.worker.survivors);
    }
  }

  lemma {:induction false} RunJoin(s: State, a: Action, rest: seq<Action>)
    ensures Run(s, [a] + rest) == Run(Step(s, a), rest)
  {
    hide Step;
    if rest == [] {
      assert ([a] + rest)[..0] == [];
    } else {
      assert ([a] + rest)[..|rest|] == [a] + rest[..|rest| - 1];
      RunJoin(s, a, rest[..|rest| - 1]);
    }
  }

  /** Left to itself, the worker comes to rest. */
  lemma {:induction false} WorkerRests(s: State) returns (steps: seq<Action>)
    ensures AllWork(steps) && AtRest(Run(s, steps))
    decreases Ahead(s)
  {
    hide WorkStep;
    if AtRest(s) {
      steps := [];
    } else {
      WorkGetsOn(s);
      var rest := WorkerRests(Step(s, Work(false)));
      RunJoin(s, Work(false), rest);
      steps := [Work(false)] + rest;
    }
  }

  lemma {:induction false} RunConcat(s: State, first: seq<Action>, then_: seq<Action>)
    ensures Run(s, first + then_) == Run(Run(s, first), then_)
  {
    hide Step;
    if then_ == [] {
      assert first + then_ == first;
    } else {
      assert (first + then_)[..|first + then_| - 1] == first + then_[..|then_| - 1];
      RunConcat(s, first, then_[..|then_| - 1]);
    }
  }

  lemma {:induction false} WorkKeepsCounts(s: State, steps: seq<Action>)
    requires AllWork(steps)
    ensures Run(s, steps).next == s.next && Run(s, steps).stoppedAt == s.stoppedAt
  {
    if steps != [] {
      WorkKeepsCounts(s, steps[..|steps| - 1]);
    }
  }

  /**
   From any point of any run the worker, left to itself, answers every request submitted so far; after a stop, every
   request submitted before the first stop.
   */
  lemma WorkerAnswersAll(actions: seq<Action>) returns (steps: seq<Action>)
    ensures AllWork(steps)
    ensures var s := Run(START, actions);
            forall id: nat | id < (if s.stoppedAt.Some? then s.stoppedAt.value else s.next) ::
              Answered(Run(START, actions + steps).log, id)
  {
    hide Answered, Step;
    var s := Run(START, actions);
    steps := WorkerRests(s);
    RunConcat(START, actions, steps);
    WorkKeepsCounts(s, steps);
    EveryRunGood(actions);
    EveryRunGood(actions + steps);
    StoppedInside(s);
    RestMeansExited(Run(s, steps));
    forall id: nat | id < (if s.stoppedAt.Some? then s.stoppedAt.value else s.next)
      ensures Answered(Run(START, actions + steps).log, id)
    {
      if Run(s, steps).worker.Exited? {
        ExitAnswersAll(actions + steps, id);
      } else {
        IdleAnswersAll(actions + steps, id);
      }
    }
  }

  lemma StoppedInside(s: State)
    requires Good(s)
    ensures s.stoppedAt.Some? ==> s.stoppedAt.value <= s.next
  {
  }

  lemma RestMeansExited(s: State)
    requires Good(s)
    ensures s.worker.Exited? ==> s.stoppedAt.Some?
  {
  }

  // ---------------------------------------------------------------- the answers

  /** Action `i` of a run is the worker's call of the handler for the log's entry `a`. */
  ghost predicate HandlesEntry(actions: seq<Action>, i: nat, a: nat, e: Entry) {
    i < |actions| && actions[i].Work? &&
    var s := Run(START, actions[..i]);
    && s.worker.Handling? && s.worker.at < |s.worker.batch| && s.worker.batch[s.worker.at] == e.item && |s.log| == a
  }

  /** Action `i` of a run takes the key of the log's entry `a` over for a newer request of the same batch. */
  ghost predicate ReplacesEntry(actions: seq<Action>, i: nat, a: nat, e: Entry) {
    i < |actions| && actions[i].Work? &&
    var s := Run(START, actions[..i]);
    && s.worker.Superseding? && s.worker.at < |s.worker.pending| && |s.log| == a
    && IsNewest(s.worker.survivors, e.item) && KeyOf(s.worker.pending[s.worker.at]) == KeyOf(e.item)
  }

  /**
   An entry tells what resolved it: a refusal a call of the handler that raised, a reply one that did not, and a
   supersession a newer request of the key.
   */
  ghost predicate Tells(actions: seq<Action>, a: nat, e: Entry) {
    match e.answer
    case Refused => exists i: nat :: HandlesEntry(actions, i, a, e) && actions[i].raises
    case Replied => exists i: nat :: HandlesEntry(actions, i, a, e) && !actions[i].raises
    case Superseded => exists i: nat :: ReplacesEntry(actions, i, a, e)
  }

  lemma TellsStill(actions: seq<Action>, more: Action, a: nat, e: Entry)
    requires Tells(actions, a, e)
    ensures Tells(actions + [more], a, e)
  {
    hide Run, IsNewest;
    var all := actions + [more];
    assert forall i | 0 <= i < |actions| :: all[..i] == actions[..i];
    match e.answer
    case Refused =>
      var i: nat :| HandlesEntry(actions, i, a, e) && actions[i].raises;
      assert HandlesEntry(all, i, a, e) && all[i].raises;
    case Replied =>
      var i: nat :| HandlesEntry(actions, i, a, e) && !actions[i].raises;
      assert HandlesEntry(all, i, a, e) && !all[i].raises;
    case Superseded =>
      var i: nat :| ReplacesEntry(actions, i, a, e);
      assert ReplacesEntry(all, i, a, e);
  }

  /** A step logs one entry at most, and the entry is what the worker's step did. */
  lemma StepLogs(s: State, a: Action)
    requires WorkerRight(s.worker)
    ensures var t := Step(s, a);
            t.log == s.log ||
            (|t.log| == |s.log| + 1 && s.log <= t.log && a.Work? &&
             var e, w := t.log[|s.log|], s.worker;
             if w.Handling? then
               w.at < |w.batch| && w.batch[w.at] == e.item && e.answer == (if a.raises then Refused else Replied)
             else
               && w.Superseding? && w.at < |w.pending| && e.answer == Superseded
               && IsNewest(w.survivors, e.item) && KeyOf(w.pending[w.at]) == KeyOf(e.item))
  {
    hide Kept, KeyOf;
  }

  /** Over every run, each entry of the log tells what resolved it. */
  lemma {:induction false} AnswersTell(actions: seq<Action>)
    ensures var log := Run(START, actions).log; forall a | 0 <= a < |log| :: Tells(actions, a, log[a])
  {
    if actions != [] {
      hide Tells, Step, Run;
      var n := |actions| - 1;
      AnswersTell(actions[..n]);
      TellsNext(actions);
    }
  }

  lemma TellsNext(actions: seq<Action>)
    requires actions != []
    requires var log := Run(START, actions[..|actions| - 1]).log;
             forall a | 0 <= a < |log| :: Tells(actions[..|actions| - 1], a, log[a])
    ensures var log := Run(START, actions).log; forall a | 0 <= a < |log| :: Tells(actions, a, log[a])
  {
    hide Tells, Step;
    var n := |actions| - 1;
    var before, s, t := actions[..n], Run(START, actions[..n]), Run(START, actions);
    assert t == Step(s, actions[n]);
    hide Run;
    EveryRunGood(before);
    hide Good;
    WorkerIsRight(s);
    assert actions == before + [actions[n]];
    StepLogs(s, actions[n]);
    forall a | 0 <= a < |s.log| ensures Tells(actions, a, s.log[a]) {
      TellsStill(before, actions[n], a, s.log[a]);
    }
    if t.log != s.log {
      NewEntryTells(actions, t.log[|s.log|]);
    }
  }

  lemma WorkerIsRight(s: State)
    requires Good(s)
    ensures WorkerRight(s.worker)
  {
  }

  lemma NewEntryTells(actions: seq<Action>, e: Entry)
    requires actions != [] && actions[|actions| - 1].Work?
    requires var w, raises := Run(START, actions[..|actions| - 1]).worker, actions[|actions| - 1].raises;
             if w.Handling? then
               w.at < |w.batch| && w.batch[w.at] == e.item && e.answer == (if raises then Refused else Replied)
             else
               && w.Superseding? && w.at < |w.pending| && e.answer == Superseded
               && IsNewest(w.survivors, e.item) && KeyOf(w.pending[w.at]) == KeyOf(e.item)
    ensures Tells(actions, |Run(START, actions[..|actions| - 1]).log|, e)
  {
    hide Run, IsNewest, KeyOf;
    var n := |actions| - 1;
    var a := |Run(START, actions[..n]).log|;
    if e.answer == Superseded {
      assert ReplacesEntry(actions, n, a, e);
    } else {
      assert HandlesEntry(actions, n, a, e);
    }
  }
}
