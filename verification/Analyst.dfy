/**
 The analyst thread: one worker, a FIFO queue any thread may append to, requests superseded by a newer one of their key,
 and a stop sentinel that a drain puts back. Each queue operation, each future resolved is one step, and submits and
 stops may fall between any two.
 */
module Analyst {
  import opened Wrappers

  /** The requested number of simulations as the handler will read it: absent, a number, or not one. */
  datatype Sims = Absent | Number(n: int) | Unreadable

  /** A request object; `identity` tells two equal ones apart. */
  datatype Request = Request(identity: nat, client: string, engine: string, op: string, sims: Sims)

  datatype Key = Engines(identity: nat) | Ask(client: string, engine: string, op: string, raw: bool)

  /** Requests with the same key supersede each other; a listing of the engines never does. */
  function SupersessionKey(r: Request): Key {
    if r.op == "engines" then Engines(r.identity)
    else Ask(r.client, r.engine, r.op, r.sims.Absent? || (r.sims.Number? && r.sims.n == 0))
  }

  /** A submitted request and its future, numbered in the order of submission. */
  datatype Item = Item(id: nat, request: Request)

  function KeyOf(x: Item): Key {
    SupersessionKey(x.request)
  }

  datatype Slot = Stop | Wanted(item: Item)

  datatype Answer = Superseded | Replied | Refused

  /** One future resolved, and in which of the worker's batches. */
  datatype Entry = Entry(item: Item, answer: Answer, batch: nat)

  /** Where the worker stands in its loop. */
  datatype Worker =
    | Idle
    | Draining(pending: seq<Item>)
    | PuttingBack(pending: seq<Item>)
    | Superseding(pending: seq<Item>, at: nat, survivors: map<Key, Item>)
    | Handling(batch: seq<Item>, at: nat)
    | Exited

  /**
   The queue, the number of requests so far, that number at the first stop, the worker, every future resolved, and the
   number of batches the worker has begun.
   */
  datatype State = State(queue: seq<Slot>, next: nat, stoppedAt: Option<nat>, worker: Worker, log: seq<Entry>,
                         batch: nat)

  datatype Action = Submit(request: Request) | CallStop | Work(raises: bool)

  const START := State([], 0, None, Idle, [], 0)

  // ---------------------------------------------------------------- one step

  /** The items that are still their key's newest. */
  function Kept(items: seq<Item>, survivors: map<Key, Item>): seq<Item> {
    if items == [] then []
    else
      var last := items[|items| - 1];
      var newest := KeyOf(last) in survivors && survivors[KeyOf(last)] == last;
      Kept(items[..|items| - 1], survivors) + if newest then [last] else []
  }

  function WorkStep(s: State, raises: bool): State {
    match s.worker
    case Idle =>
      if s.queue == [] then s
      else if s.queue[0].Stop? then s.(queue := s.queue[1..], worker := Exited)
      else s.(queue := s.queue[1..], worker := Draining([s.queue[0].item]), batch := s.batch + 1)
    case Draining(pending) =>
      if s.queue == [] then s.(worker := Superseding(pending, 0, map[]))
      else if s.queue[0].Stop? then s.(queue := s.queue[1..], worker := PuttingBack(pending))
      else s.(queue := s.queue[1..], worker := Draining(pending + [s.queue[0].item]))
    case PuttingBack(pending) => s.(queue := s.queue + [Stop], worker := Superseding(pending, 0, map[]))
    case Superseding(pending, at, survivors) =>
      if at < |pending| then
        var x := pending[at];
        var key := KeyOf(x);
        State(s.queue, s.next, s.stoppedAt, Superseding(pending, at + 1, survivors[key := x]),
              if key in survivors then s.log + [Entry(survivors[key], Superseded, s.batch)] else s.log, s.batch)
      else s.(worker := Handling(Kept(pending, survivors), 0))
    case Handling(batch, at) =>
      if at < |batch| then
        s.(worker := Handling(batch, at + 1),
           log := s.log + [Entry(batch[at], if raises then Refused else Replied, s.batch)])
      else s.(worker := Idle)
    case Exited => s
  }

  function Step(s: State, a: Action): State {
    match a
    case Submit(request) => s.(queue := s.queue + [Wanted(Item(s.next, request))], next := s.next + 1)
    case CallStop => s.(queue := s.queue + [Stop], stoppedAt := if s.stoppedAt.None? then Some(s.next) else s.stoppedAt)
    case Work(raises) => WorkStep(s, raises)
  }

  function Run(s: State, actions: seq<Action>): State {
    if actions == [] then s else Step(Run(s, actions[..|actions| - 1]), actions[|actions| - 1])
  }

  // ---------------------------------------------------------------- what every step keeps

  /** The queue's requests, in order. */
  function Asks(queue: seq<Slot>): seq<Item> {
    if queue == [] then [] else (if queue[0].Wanted? then [queue[0].item] else []) + Asks(queue[1..])
  }

  /** The requests whose handler was called, in order. */
  function Handled(log: seq<Entry>): seq<Item> {
    if log == [] then []
    else
      var last := log[|log| - 1];
      Handled(log[..|log| - 1]) + if last.answer.Superseded? then [] else [last.item]
  }

  /** What the worker took from the queue and has not handled. */
  function Taken(w: Worker): seq<Item> {
    match w
    case Draining(pending) => pending
    case PuttingBack(pending) => pending
    case Superseding(pending, _, _) => pending
    case Handling(batch, at) => if at <= |batch| then batch[at..] else []
    case _ => []
  }

  /** Taken and queued, in one line. */
  function Waiting(s: State): seq<Item> {
    Taken(s.worker) + Asks(s.queue)
  }

  /** Everything handled, then everything taken, then everything queued. */
  function Line(s: State): seq<Item> {
    Handled(s.log) + Taken(s.worker) + Asks(s.queue)
  }

  ghost predicate IsNewest(survivors: map<Key, Item>, x: Item) {
    KeyOf(x) in survivors && survivors[KeyOf(x)] == x
  }

  /** The taken items that will be handled, known so far. */
  ghost predicate Live(w: Worker, x: Item) {
    match w
    case Superseding(_, _, survivors) => IsNewest(survivors, x)
    case Handling(batch, at) => at <= |batch| && x in batch[at..]
    case _ => false
  }

  ghost predicate Ascending(items: seq<Item>) {
    forall i, j | 0 <= i < j < |items| :: items[i].id < items[j].id
  }

  /** First submitted, first handled. */
  ghost predicate InOrder(s: State) {
    Ascending(Line(s)) && forall x | x in Line(s) :: x.id < s.next
  }

  /** The survivors are the newest of each key among the first `at` pending. */
  ghost predicate SurvivorsNewest(pending: seq<Item>, at: nat, survivors: map<Key, Item>) {
    && at <= |pending|
    && (forall i | 0 <= i < at :: KeyOf(pending[i]) in survivors && survivors[KeyOf(pending[i])].id >= pending[i].id)
    && (forall k | k in survivors :: survivors[k] in pending[..at] && KeyOf(survivors[k]) == k)
  }

  ghost predicate WorkerRight(w: Worker) {
    match w
    case Superseding(pending, at, survivors) => SurvivorsNewest(pending, at, survivors)
    case Handling(batch, at) => at <= |batch|
    case _ => true
  }

  ghost predicate Resolved(log: seq<Entry>, x: Item) {
    exists a :: 0 <= a < |log| && log[a].item == x
  }

  /** The taken item's future is resolved already: superseded while the batch is sorted out. */
  ghost predicate Dropped(w: Worker, x: Item) {
    w.Superseding? && w.at <= |w.pending| && x in w.pending[..w.at] && !Live(w, x)
  }

  /** No future is resolved twice, and of the line only the handled and the dropped are resolved. */
  ghost predicate Once(s: State) {
    && (forall a, b | 0 <= a < b < |s.log| :: s.log[a].item.id != s.log[b].item.id)
    && (forall x | x in Waiting(s) :: Resolved(s.log, x) <==> Dropped(s.worker, x))
    && (forall x, a | x in Waiting(s) && 0 <= a < |s.log| && s.log[a].item.id == x.id :: s.log[a].item == x)
    && (forall a | 0 <= a < |s.log| :: s.log[a].item.id < s.next)
  }

  /** Request `id` is resolved or in the line. */
  ghost predicate Accounted(s: State, id: nat) {
    (exists a :: 0 <= a < |s.log| && s.log[a].item.id == id) || exists x :: x in Line(s) && x.id == id
  }

  /** No future is lost. */
  ghost predicate NoneLost(s: State) {
    forall id: nat | id < s.next :: Accounted(s, id)
  }

  /** The item's handler was called in batch `n`. */
  ghost predicate HandledIn(log: seq<Entry>, x: Item, n: nat) {
    exists a :: 0 <= a < |log| && log[a].item == x && log[a].batch == n && !log[a].answer.Superseded?
  }

  /** The item was handled in batch `n`, or that is the batch at hand and it will be. */
  ghost predicate Survives(s: State, x: Item, n: nat) {
    HandledIn(s.log, x, n) || (s.batch == n && Live(s.worker, x))
  }

  /** A newer item of the same key was handled in the entry's batch or will be. */
  ghost predicate Replaced(s: State, e: Entry) {
    exists y :: Survives(s, y, e.batch) && KeyOf(y) == KeyOf(e.item) && e.item.id < y.id
  }

  ghost predicate AllReplaced(s: State) {
    forall a | 0 <= a < |s.log| && s.log[a].answer.Superseded? :: Replaced(s, s.log[a])
  }

  /** Every request in the queue was submitted after the first stop. */
  ghost predicate OnlyLate(s: State) {
    s.stoppedAt.Some? && forall x | x in Asks(s.queue) :: x.id >= s.stoppedAt.value
  }

  /** Behind a sentinel there are only requests submitted after the first stop; and so when the worker holds one. */
  ghost predicate StopLast(s: State) {
    && (forall p | 0 <= p < |s.queue| && s.queue[p].Stop? ::
          s.stoppedAt.Some? &&
          forall q | p < q < |s.queue| && s.queue[q].Wanted? :: s.queue[q].item.id >= s.stoppedAt.value)
    && (s.worker.PuttingBack? || s.worker.Exited? ==> OnlyLate(s))
    && (s.stoppedAt.Some? ==> s.stoppedAt.value <= s.next)
  }

  ghost predicate Good(s: State) {
    InOrder(s) && WorkerRight(s.worker) && Once(s) && NoneLost(s) && AllReplaced(s) && StopLast(s)
  }

  // ---------------------------------------------------------------- keys

  /**
   Two requests for the engines never supersede each other; any other two do exactly when they agree on these four.
   */
  lemma KeysMean(r: Request, q: Request)
    ensures r.op == "engines" && SupersessionKey(r) == SupersessionKey(q) ==>
              q.op == "engines" && r.identity == q.identity
    ensures r.op != "engines" ==> (SupersessionKey(r) == SupersessionKey(q) <==>
      r.client == q.client && r.engine == q.engine && r.op == q.op &&
      ((r.sims in {Absent, Number(0)}) <==> (q.sims in {Absent, Number(0)})))
  {
  }
}
