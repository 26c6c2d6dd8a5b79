/**
 `train_arm` as it runs: one pass over the arm's directory in program order, able to die after any file operation. Every
 such pass is a run of the state machine, so whatever the machine's histories keep, the program keeps.
 */
module TrainArmCode {
  import opened TrainArm
  import TrainArmSafety
  import opened Wrappers

  /** The rows at or before `step`, kept in order. */
  method Truncate(curve: seq<nat>, step: nat) returns (kept: seq<nat>)
    ensures kept == Truncated(curve, step)
  {
    kept := [];
    for i := 0 to |curve|
      invariant kept == Truncated(curve[..i], step)
    {
      assert curve[..i + 1][..i] == curve[..i];
      if curve[i] <= step {
        kept := kept + [curve[i]];
      }
    }
    assert curve[..|curve|] == curve;
  }

  /** Each start's or resume's last booked save. */
  method Segments(events: seq<Event>) returns (kept: seq<Event>)
    ensures forall i | 0 <= i < |kept| :: kept[i].Save? && kept[i].segmentSteps.Some?
    ensures StepsOf(kept) == TrainedSteps(events)
  {
    var out: seq<Option<Event>> := [];
    for i := 0 to |events|
      invariant out == SegmentEnds(events[..i])
      invariant forall k | 0 <= k < |out| && out[k].Some? :: out[k].value.Save? && out[k].value.segmentSteps.Some?
    {
      var e := events[i];
      assert events[..i + 1][..i] == events[..i];
      if !e.Save? {
        out := out + [None];
      } else if e.segmentSteps.Some? && out != [] {
        out := out[..|out| - 1] + [Some(e)];
      }
    }
    assert events[..|events|] == events;
    kept := [];
    for k := 0 to |out|
      invariant forall i | 0 <= i < |kept| :: kept[i].Save? && kept[i].segmentSteps.Some?
      invariant StepsOf(kept) == BookedSum(out[..k])
    {
      assert out[..k + 1][..k] == out[..k];
      if out[k].Some? {
        ghost var before := kept;
        kept := kept + [out[k].value];
        assert kept[..|kept| - 1] == before;
      }
    }
    assert out[..|out|] == out;
  }

  function StepsOf(kept: seq<Event>): nat {
    if kept == [] then 0
    else
      var e := kept[|kept| - 1];
      StepsOf(kept[..|kept| - 1]) + if e.Save? && e.segmentSteps.Some? then e.segmentSteps.value else 0
  }

  method SumSteps(kept: seq<Event>) returns (total: nat)
    ensures total == StepsOf(kept)
  {
    total := 0;
    for i := 0 to |kept|
      invariant total == StepsOf(kept[..i])
    {
      assert kept[..i + 1][..i] == kept[..i];
      if kept[i].Save? && kept[i].segmentSteps.Some? {
        total := total + kept[i].segmentSteps.value;
      }
    }
    assert kept[..|kept|] == kept;
  }

  method NewestSave(ckpts: set<nat>) returns (m: nat)
    requires ckpts != {}
    ensures m == Newest(ckpts)
  {
    m :| m in ckpts;
    var todo := ckpts - {m};
    while todo != {}
      invariant todo <= ckpts && m in ckpts && forall c | c in ckpts && c !in todo :: c <= m
    {
      var c :| c in todo;
      todo := todo - {c};
      if c > m {
        m := c;
      }
    }
    assert IsNewest(ckpts, m) && IsNewest(ckpts, Newest(ckpts));
  }

  lemma RunNext(begin: State, choices: seq<Choice>, c: Choice)
    ensures Run(begin, choices + [c]) == Step(Run(begin, choices), c)
  {
    assert (choices + [c])[..|choices|] == choices;
  }

  class ArmDirectory {
    var present: bool
    var config: Option<nat>
    var start: Option<(set<nat>, nat)>
    var ckpts: set<nat>
    var curve: seq<nat>
    var progress: seq<Event>
    var arm: Option<Record>

    constructor ()
      ensures Value() == NO_ARM
    {
      present, config, start, ckpts, curve, progress, arm := false, None, None, {}, [], [], None;
    }

    function Value(): Disk
      reads this
    {
      Disk(present, config, start, ckpts, curve, progress, arm)
    }

    /** The machine, run from `begin` by `choices`, has this directory and process `p`. */
    ghost predicate At(begin: State, choices: seq<Choice>, p: Process)
      reads this
    {
      Run(begin, choices) == State(Value(), p)
    }

    /** The process dies here. */
    lemma Dies(begin: State, choices: seq<Choice>, p: Process)
      requires At(begin, choices, p)
      ensures At(begin, choices + [Crash], Down)
    {
      RunNext(begin, choices, Crash);
    }

    /** A fresh arm: its directory, its config, its first log line. */
    method BeginFresh(r: Recipe, ghost begin: State, ghost before: seq<Choice>)
        returns (alive: bool, ghost choices: seq<Choice>)
      requires At(begin, before, Up(MakeDir, r, 0, 0, 0))
      modifies this
      ensures At(begin, choices, if alive then Up(WriteStart, r, 0, 0, 0) else Down)
    {
      present := true;
      var crash: bool := *;
      choices := before + [Go(false, 0)];
      RunNext(begin, before, Go(false, 0));
      if crash {
        Dies(begin, choices, Up(WriteConfig, r, 0, 0, 0));
        return false, choices + [Crash];
      }
      config := Some(r.steps);
      crash := *;
      RunNext(begin, choices, Go(false, 0));
      choices := choices + [Go(false, 0)];
      if crash {
        Dies(begin, choices, Up(AppendStart, r, 0, 0, 0));
        return false, choices + [Crash];
      }
      progress := progress + [Start];
      crash := *;
      RunNext(begin, choices, Go(false, 0));
      choices := choices + [Go(false, 0)];
      if crash {
        Dies(begin, choices, Up(WriteStart, r, 0, 0, 0));
        return false, choices + [Crash];
      }
      alive := true;
    }

    /** A resume from the newest save: the curve cut back to it, an unlogged save logged, the resume logged. */
    method BeginResume(r: Recipe, step: nat, ghost begin: State, ghost before: seq<Choice>)
        returns (alive: bool, ghost choices: seq<Choice>)
      requires At(begin, before, Up(TruncateCurve, r, step, step, 0))
      modifies this
      ensures At(begin, choices, if alive then Up(WriteStart, r, step, step, 0) else Down)
    {
      curve := Truncate(curve, step);
      var crash: bool := *;
      choices := before + [Go(false, 0)];
      RunNext(begin, before, Go(false, 0));
      if crash {
        Dies(begin, choices, Up(Backfill, r, step, step, 0));
        return false, choices + [Crash];
      }
      if !LogsSave(progress, step) {
        progress := progress + [Save(step, None)];
      }
      crash := *;
      RunNext(begin, choices, Go(false, 0));
      choices := choices + [Go(false, 0)];
      if crash {
        Dies(begin, choices, Up(AppendResume, r, step, step, 0));
        return false, choices + [Crash];
      }
      progress := progress + [Resume(step)];
      crash := *;
      RunNext(begin, choices, Go(false, 0));
      choices := choices + [Go(false, 0)];
      if crash {
        Dies(begin, choices, Up(WriteStart, r, step, step, 0));
        return false, choices + [Crash];
      }
      alive := true;
    }

    /** The start record, and the curve's row for step 0. */
    method Enter(r: Recipe, step: nat, ghost begin: State, ghost before: seq<Choice>)
        returns (alive: bool, ghost choices: seq<Choice>)
      requires At(begin, before, Up(WriteStart, r, step, step, 0))
      modifies this
      ensures At(begin, choices, if alive then Up(Train, r, step, step, 0) else Down)
    {
      if start.None? {
        start := Some((r.saveAt, r.saveEvery));
      }
      var crash: bool := *;
      choices := before + [Go(false, 0)];
      RunNext(begin, before, Go(false, 0));
      if crash {
        Dies(begin, choices, Up(CurveZero, r, step, step, 0));
        return false, choices + [Crash];
      }
      if step == 0 {
        curve := curve + [0];
      }
      crash := *;
      RunNext(begin, choices, Go(false, 0));
      choices := choices + [Go(false, 0)];
      if crash {
        Dies(begin, choices, Up(Train, r, step, step, 0));
        return false, choices + [Crash];
      }
      alive := true;
    }

    /** After a step that trained: its curve row, and its save, log line and pruning when one is due. */
    method AfterStep(r: Recipe, step: nat, startStep: nat, attempts: nat, ghost begin: State, ghost before: seq<Choice>)
        returns (alive: bool, ghost choices: seq<Choice>)
      requires step >= startStep && At(begin, before, Up(CurveRow, r, step, startStep, attempts))
      modifies this
      ensures At(begin, choices, if alive then Up(Train, r, step, startStep, attempts) else Down)
    {
      if step % 250 == 0 {
        curve := curve + [step];
      }
      var crash: bool := *;
      choices := before + [Go(false, 0)];
      RunNext(begin, before, Go(false, 0));
      if crash {
        Dies(begin, choices, Up(SaveStep, r, step, startStep, attempts));
        return false, choices + [Crash];
      }
      RunNext(begin, choices, Go(false, 0));
      if !Due(r, step) {
        return true, choices + [Go(false, 0)];
      }
      alive, choices := SaveNow(r, step, startStep, attempts, begin, choices);
    }

    /** A due save, its log line, and the pruning of older ones. */
    method SaveNow(r: Recipe, step: nat, startStep: nat, attempts: nat, ghost begin: State, ghost before: seq<Choice>)
        returns (alive: bool, ghost choices: seq<Choice>)
      requires step >= startStep && Due(r, step) && At(begin, before, Up(SaveStep, r, step, startStep, attempts))
      modifies this
      ensures At(begin, choices, if alive then Up(Train, r, step, startStep, attempts) else Down)
    {
      ckpts := ckpts + {step};
      var crash: bool := *;
      RunNext(begin, before, Go(false, 0));
      choices := before + [Go(false, 0)];
      if crash {
        Dies(begin, choices, Up(LogSave, r, step, startStep, attempts));
        return false, choices + [Crash];
      }
      progress := progress + [Save(step, Some(step - startStep))];
      crash := *;
      RunNext(begin, choices, Go(false, 0));
      choices := choices + [Go(false, 0)];
      if crash {
        Dies(begin, choices, Up(Prune, r, step, startStep, attempts));
        return false, choices + [Crash];
      }
      alive, choices := PruneOld(r, step, startStep, attempts, begin, choices);
    }

    /** Every save but the newest and the named ones, unlinked one by one. */
    method PruneOld(r: Recipe, step: nat, startStep: nat, attempts: nat, ghost begin: State, ghost before: seq<Choice>)
        returns (alive: bool, ghost choices: seq<Choice>)
      requires At(begin, before, Up(Prune, r, step, startStep, attempts))
      modifies this
      ensures At(begin, choices, if alive then Up(Train, r, step, startStep, attempts) else Down)
    {
      choices := before;
      var todo := ckpts;
      while todo != {}
        invariant At(begin, choices, Up(Prune, r, step, startStep, attempts))
        invariant forall c | c in ckpts && c !in todo :: c == step || c in r.saveAt
      {
        var stale: nat :| stale in todo;
        todo := todo - {stale};
        if stale in ckpts && stale != step && stale !in r.saveAt {
          RunNext(begin, choices, Go(false, stale));
          ckpts := ckpts - {stale};
          choices := choices + [Go(false, stale)];
          var crash: bool := *;
          if crash {
            Dies(begin, choices, Up(Prune, r, step, startStep, attempts));
            return false, choices + [Crash];
          }
        }
      }
      RunNext(begin, choices, Go(false, step));
      alive, choices := true, choices + [Go(false, step)];
    }

    /** The training loop and the record; a step may be skipped, and too many skips end the process. */
    method TrainLoop(r: Recipe, startStep: nat, ghost begin: State, ghost before: seq<Choice>)
        returns (ghost choices: seq<Choice>)
      requires At(begin, before, Up(Train, r, startStep, startStep, 0))
      modifies this
      ensures At(begin, choices, Down)
    {
      var step, attempts := startStep, 0;
      choices := before;
      while step < r.steps
        invariant step >= startStep
        invariant At(begin, choices, Up(Train, r, step, startStep, attempts))
        decreases r.steps - startStep + 100 - attempts
      {
        var skipped: bool := *;
        RunNext(begin, choices, Go(skipped, 0));
        choices := choices + [Go(skipped, 0)];
        attempts := attempts + 1;
        if attempts > r.steps - startStep + 100 {
          return;
        }
        if skipped {
          continue;
        }
        step := step + 1;
        var alive;
        alive, choices := AfterStep(r, step, startStep, attempts, begin, choices);
        if !alive {
          return;
        }
      }
      choices := WriteRecord(r, step, startStep, attempts, begin, choices);
    }

    /** The finished record, from the log and what is on disk. */
    method WriteRecord(r: Recipe, step: nat, startStep: nat, attempts: nat, ghost begin: State,
                       ghost before: seq<Choice>)
        returns (ghost choices: seq<Choice>)
      requires step >= r.steps && At(begin, before, Up(Train, r, step, startStep, attempts))
      modifies this
      ensures At(begin, choices, Down)
    {
      var kept := Segments(progress);
      var trained := SumSteps(kept);
      RunNext(begin, before, Go(false, 0));
      arm := Some(Record(ckpts * r.saveAt, trained, BackfilledSaves(progress)));
      choices := before + [Go(false, 0)];
    }

    /** One call: the directory it leaves, killed or not, is where the machine's run by `choices` from there stands. */
    method TrainArm(r: Recipe) returns (ghost choices: seq<Choice>)
      modifies this
      ensures Run(State(old(Value()), Down), choices) == State(Value(), Down)
    {
      ghost var begin := State(Value(), Down);
      choices := [Launch(r)];
      RunNext(begin, [], Launch(r));
      assert [] + [Launch(r)] == [Launch(r)];
      if arm.Some? {
        return;
      }
      var alive, step := false, 0;
      if ckpts == {} {
        if present && Holds(Value()) && config.None? {
          return;
        }
        present, config, start, curve, progress := false, None, None, [], [];
        alive, choices := BeginFresh(r, begin, choices);
      } else {
        if config != Some(r.steps) || start != Some((r.saveAt, r.saveEvery)) {
          return;
        }
        step := NewestSave(ckpts);
        alive, choices := BeginResume(r, step, begin, choices);
      }
      if !alive {
        return;
      }
      alive, choices := Enter(r, step, begin, choices);
      if alive {
        choices := TrainLoop(r, step, begin, choices);
      }
    }
  }

  /**
   Any number of calls on one directory, each under whatever recipe and each killed or not: the directory is sound after
   every one, and once the arm is finished its record accounts for it.
   */
  method Lives(recipes: seq<Recipe>) returns (d: ArmDirectory, ghost choices: seq<Choice>)
    ensures fresh(d)
    ensures Run(BEGIN, choices) == State(d.Value(), Down)
    ensures TrainArmSafety.Sound(d.Value())
    ensures d.arm.Some? ==> TrainArmSafety.Finished(d.Value())
  {
    d := new ArmDirectory();
    choices := [];
    for i := 0 to |recipes|
      invariant fresh(d) && Run(BEGIN, choices) == State(d.Value(), Down)
    {
      ghost var more := d.TrainArm(recipes[i]);
      TrainArmSafety.RunSplits(BEGIN, choices, more);
      choices := choices + more;
    }
    TrainArmSafety.EveryHistoryGood(choices);
  }
}
