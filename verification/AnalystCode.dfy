/**
 The analyst's queue and worker loop as they update its fields; other threads' submits fall between the loop's turns.
 */
module AnalystCode {
  import opened Analyst
  import opened AnalystSafety
  import opened Wrappers

  /** A handled request is refused exactly when the handler raises on it, and replied to otherwise. */
  ghost predicate RightAnswers(log: seq<Entry>, handler: Request -> bool) {
    forall a | 0 <= a < |log| && log[a].answer != Superseded ::
      log[a].answer == if handler(log[a].item.request) then Refused else Replied
  }

  class AnalystThread {
    var queue: seq<Slot>
    var next: nat
    var stoppedAt: Option<nat>
    var log: seq<Entry>
    var batch: nat

    constructor ()
      ensures Value(Idle) == START && log == []
    {
      queue, next, stoppedAt, log, batch := [], 0, None, [], 0;
    }

    /** The state of the machine with the worker at `w`. */
    function Value(w: Worker): State
      reads this
    {
      State(queue, next, stoppedAt, w, log, batch)
    }

    /** A request queued with a future of its own. */
    method Enqueue(request: Request)
      modifies this`queue, this`next
      ensures forall w :: Value(w) == Step(old(Value(w)), Submit(request))
    {
      queue := queue + [Wanted(Item(next, request))];
      next := next + 1;
    }

    method PutStop()
      modifies this`queue, this`stoppedAt
      ensures forall w :: Value(w) == Step(old(Value(w)), CallStop)
    {
      queue := queue + [Stop];
      if stoppedAt.None? {
        stoppedAt := Some(next);
      }
    }

    /** Everything queued up to the sentinel, which goes back behind whatever is queued. */
    method DrainQueue(first: Item) returns (pending: seq<Item>, ghost steps: seq<Action>)
      modifies this
      ensures AllWork(steps) && Value(Superseding(pending, 0, map[])) == Run(old(Value(Draining([first]))), steps)
      ensures |queue| <= old(|queue|) && log == old(log)
    {
      ghost var start := Value(Draining([first]));
      pending, steps := [first], [];
      while true
        invariant AllWork(steps) && Value(Draining(pending)) == Run(start, steps)
        invariant |queue| <= old(|queue|) && log == old(log)
        decreases |queue|
      {
        if queue == [] {
          steps := Worked(start, steps, Work(false));
          break;
        }
        var item := queue[0];
        queue := queue[1..];
        if item.Stop? {
          steps := Worked(start, steps, Work(false));
          assert Value(PuttingBack(pending)) == Run(start, steps);
          queue := queue + [Stop];
          steps := Worked(start, steps, Work(false));
          break;
        }
        steps := Worked(start, steps, Work(false));
        pending := pending + [item.item];
      }
    }

    /** Each key's newest request, in order; the futures of the others resolved as superseded. */
    method Supersede(pending: seq<Item>) returns (batch: seq<Item>, ghost steps: seq<Action>)
      modifies this`log
      ensures old(log) <= log && forall a | |old(log)| <= a < |log| :: log[a].answer == Superseded
      ensures AllWork(steps) && Value(Handling(batch, 0)) == Run(old(Value(Superseding(pending, 0, map[]))), steps)
    {
      ghost var start := Value(Superseding(pending, 0, map[]));
      var survivors: map<Key, Item> := map[];
      steps := [];
      for at := 0 to |pending|
        invariant AllWork(steps) && Value(Superseding(pending, at, survivors)) == Run(start, steps)
        invariant old(log) <= log && forall a | |old(log)| <= a < |log| :: log[a].answer == Superseded
      {
        var key := KeyOf(pending[at]);
        if key in survivors {
          log := log + [Entry(survivors[key], Superseded, this.batch)];
        }
        survivors := survivors[key := pending[at]];
        steps := Worked(start, steps, Work(false));
      }
      batch := [];
      for i := 0 to |pending|
        invariant batch == Kept(pending[..i], survivors)
      {
        var key := KeyOf(pending[i]);
        assert pending[..i + 1][..i] == pending[..i];
        if key in survivors && survivors[key] == pending[i] {
          batch := batch + [pending[i]];
        }
      }
      assert pending[..|pending|] == pending;
      steps := Worked(start, steps, Work(false));
    }

    /** The handler called for each, and its reply or a refusal sent. */
    method HandleBatch(batch: seq<Item>, handler: Request -> bool) returns (ghost steps: seq<Action>)
      modifies this`log
      ensures AllWork(steps) && Value(Idle) == Run(old(Value(Handling(batch, 0))), steps)
      ensures RightAnswers(old(log), handler) ==> RightAnswers(log, handler)
    {
      ghost var start := Value(Handling(batch, 0));
      steps := [];
      for at := 0 to |batch|
        invariant AllWork(steps) && Value(Handling(batch, at)) == Run(start, steps)
        invariant RightAnswers(old(log), handler) ==> RightAnswers(log, handler)
      {
        var raises := handler(batch[at].request);
        log := log + [Entry(batch[at], if raises then Refused else Replied, this.batch)];
        steps := Worked(start, steps, Work(raises));
      }
      steps := Worked(start, steps, Work(false));
    }

    /** One turn of the worker's loop on a non-empty queue; `handler` says which requests it raises on. */
    method Turn(handler: Request -> bool) returns (exited: bool, ghost steps: seq<Action>)
      requires queue != []
      modifies this
      ensures AllWork(steps) && Value(if exited then Exited else Idle) == Run(old(Value(Idle)), steps)
      ensures |queue| < old(|queue|)
      ensures RightAnswers(old(log), handler) ==> RightAnswers(log, handler)
    {
      hide Run, Kept, KeyOf, Asks, Handled;
      ghost var start := Value(Idle);
      var item := queue[0];
      queue := queue[1..];
      RunNothing(start);
      steps := Worked(start, [], Work(false));
      if item.Stop? {
        return true, steps;
      }
      batch := batch + 1;
      assert Value(Draining([item.item])) == Run(start, steps);
      var pending, drained := DrainQueue(item.item);
      steps := Onward(start, steps, drained);
      var kept, superseded := Supersede(pending);
      steps := Onward(start, steps, superseded);
      var handled := HandleBatch(kept, handler);
      steps := Onward(start, steps, handled);
      exited := false;
    }
  }

  lemma RunNothing(s: State)
    ensures Run(s, []) == s
  {
  }

  /** One worker step more. */
  lemma Worked(start: State, steps: seq<Action>, a: Action) returns (more: seq<Action>)
    requires AllWork(steps) && a.Work?
    ensures AllWork(more) && Run(start, more) == Step(Run(start, steps), a)
  {
    hide Step;
    more := steps + [a];
    assert more[..|more| - 1] == steps;
  }

  lemma Onward(start: State, steps: seq<Action>, more: seq<Action>) returns (all: seq<Action>)
    requires AllWork(steps) && AllWork(more)
    ensures AllWork(all) && Run(start, all) == Run(Run(start, steps), more)
  {
    RunConcat(start, steps, more);
    all := steps + more;
  }

  // ---------------------------------------------------------------- a whole life

  /** What falls between the worker's turns: a request, a stop; or a turn of the worker. */
  datatype Call = Ask(request: Request) | End | Loop

  /** The calls of other threads. */
  function Offers(calls: seq<Call>): seq<Action> {
    if calls == [] then []
    else
      var last := calls[|calls| - 1];
      Offers(calls[..|calls| - 1]) +
      (match last case Ask(request) => [Submit(request)] case End => [CallStop] case Loop => [])
  }

  function Outside(actions: seq<Action>): seq<Action> {
    if actions == [] then []
    else
      var last := actions[|actions| - 1];
      Outside(actions[..|actions| - 1]) + if last.Work? then [] else [last]
  }

  lemma {:induction false} OutsideWork(actions: seq<Action>, steps: seq<Action>)
    requires AllWork(steps)
    ensures Outside(actions + steps) == Outside(actions)
  {
    if steps == [] {
      assert actions + steps == actions;
    } else {
      assert (actions + steps)[..|actions + steps| - 1] == actions + steps[..|steps| - 1];
      OutsideWork(actions, steps[..|steps| - 1]);
    }
  }

  lemma OneMore(actions: seq<Action>, a: Action)
    ensures Run(START, actions + [a]) == Step(Run(START, actions), a)
    ensures Outside(actions + [a]) == Outside(actions) + if a.Work? then [] else [a]
  {
    hide Step;
    assert (actions + [a])[..|actions|] == actions;
  }

  /**
   An analyst under any requests and stops of other threads between its turns, then left alone until it rests: its state
   is that of a run of the machine with just those requests and stops, everything every run keeps holds of it, and every
   request is answered, or after a stop every one submitted before the first; a refusal answers exactly the handled
   requests that the handler raises on.
   */
  method Serve(calls: seq<Call>, handler: Request -> bool)
      returns (t: AnalystThread, exited: bool, ghost actions: seq<Action>)
    ensures fresh(t) && (exited || t.queue == []) && t.Value(if exited then Exited else Idle) == Run(START, actions)
    ensures Outside(actions) == Offers(calls) && Good(Run(START, actions))
    ensures forall id: nat | id < (if t.stoppedAt.Some? then t.stoppedAt.value else t.next) :: Answered(t.log, id)
    ensures RightAnswers(t.log, handler)
  {
    hide Run, Step, Good, Answered;
    t := new AnalystThread();
    exited, actions := false, [];
    RunNothing(START);
    for i := 0 to |calls|
      invariant fresh(t) && t.Value(if exited then Exited else Idle) == Run(START, actions)
      invariant Outside(actions) == Offers(calls[..i]) && RightAnswers(t.log, handler)
    {
      assert calls[..i + 1][..i] == calls[..i];
      match calls[i] {
        case Ask(request) =>
          t.Enqueue(request);
          OneMore(actions, Submit(request));
          actions := actions + [Submit(request)];
        case End =>
          t.PutStop();
          OneMore(actions, CallStop);
          actions := actions + [CallStop];
        case Loop =>
          if !exited && t.queue != [] {
            ghost var steps;
            exited, steps := t.Turn(handler);
            RunConcat(START, actions, steps);
            OutsideWork(actions, steps);
            actions := actions + steps;
          }
      }
    }
    assert calls[..|calls|] == calls;
    while !exited && t.queue != []
      invariant fresh(t) && t.Value(if exited then Exited else Idle) == Run(START, actions)
      invariant Outside(actions) == Offers(calls) && RightAnswers(t.log, handler)
      decreases |t.queue|
    {
      ghost var steps;
      exited, steps := t.Turn(handler);
      RunConcat(START, actions, steps);
      OutsideWork(actions, steps);
      actions := actions + steps;
    }
    EveryRunGood(actions);
    StoppedInside(Run(START, actions));
    RestMeansExited(Run(START, actions));
    forall id: nat | id < (if t.stoppedAt.Some? then t.stoppedAt.value else t.next) ensures Answered(t.log, id) {
      if exited {
        ExitAnswersAll(actions, id);
      } else {
        IdleAnswersAll(actions, id);
      }
    }
  }
}
