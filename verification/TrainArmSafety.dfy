/**
 What every history of one arm keeps: whatever the interleaving of steps, crashes and reruns, no save that matters is
 lost and the finished record accounts for the run.
 */
module TrainArmSafety {
  import opened TrainArm
  import opened Wrappers

  // ---------------------------------------------------------------- the curve

  ghost predicate IsColumn(curve: seq<nat>) {
    forall i | 0 <= i < |curve| :: curve[i] == 250 * i
  }

  /** Truncating a column that reaches `step` leaves the column of a run to `step`. */
  lemma {:induction false} TruncatedColumn(curve: seq<nat>, step: nat)
    requires IsColumn(curve) && |curve| >= step / 250 + 1
    ensures Truncated(curve, step) == Column(step)
    decreases |curve|
  {
    if |curve| > step / 250 + 1 {
      TruncatedColumn(curve[..|curve| - 1], step);
    } else {
      KeptWhole(curve, step);
      assert curve == Column(step);
    }
  }

  lemma {:induction false} KeptWhole(curve: seq<nat>, step: nat)
    requires forall i | 0 <= i < |curve| :: curve[i] <= step
    ensures Truncated(curve, step) == curve
    decreases |curve|
  {
    if curve != [] {
      KeptWhole(curve[..|curve| - 1], step);
    }
  }

  lemma ColumnGrows(step: nat)
    requires step > 0
    ensures Column(step) == if step % 250 == 0 then Column(step - 1) + [step] else Column(step - 1)
  {
  }

  // ---------------------------------------------------------------- invariants

  /** Every named step from 1 to `step` is still on disk. */
  ghost predicate NamedKept(ckpts: set<nat>, saveAt: set<nat>, step: nat) {
    forall n | n in saveAt && 1 <= n <= step :: n in ckpts
  }

  ghost predicate Within(ckpts: set<nat>, step: nat) {
    forall c | c in ckpts :: 1 <= c <= step
  }

  /** A directory that holds a save can be resumed, and nothing a resume reads is missing. */
  ghost predicate Resumable(d: Disk) {
    && d.present && d.config.Some? && d.start.Some? && d.arm.None?
    && Within(d.ckpts, d.config.value)
    && NamedKept(d.ckpts, d.start.value.0, Newest(d.ckpts))
    && IsColumn(d.curve) && |d.curve| >= Newest(d.ckpts) / 250 + 1
    && d.progress != [] && WellLogged(d.progress) && Logged(d.progress) <= Newest(d.ckpts)
  }

  /** What a finished arm's record says. */
  ghost predicate Finished(d: Disk) {
    && d.present && d.config.Some? && d.start.Some? && d.arm.Some?
    && var record, steps, saveAt := d.arm.value, d.config.value, d.start.value.0;
    && record.saves == (set n | n in saveAt && 1 <= n <= steps)
    && record.saves <= d.ckpts && Within(d.ckpts, steps)
    && d.curve == Column(steps)
    && record.backfilled == BackfilledSaves(d.progress)
    && record.trainedSteps <= Newest(d.ckpts)
    && (record.trainedSteps == Newest(d.ckpts) <==> record.backfilled == [])
  }

  /** A directory at rest. */
  ghost predicate Sound(d: Disk) {
    if d.arm.Some? then Finished(d)
    else if d.ckpts != {} then Resumable(d)
    else Holds(d) ==> d.present && d.config.Some?
  }

  /** The directory's config and start record name this recipe. */
  predicate Names(d: Disk, r: Recipe) {
    d.config == Some(r.steps) && d.start == Some((r.saveAt, r.saveEvery))
  }

  /** The process works under the recipe its directory names. */
  ghost predicate Configured(d: Disk, r: Recipe) {
    d.present && d.arm.None? && Names(d, r)
  }

  /** The segment under way: its log is open from its start, and the last logged save is the newest on disk. */
  ghost predicate InSegment(d: Disk, p: Process)
    requires p.Up?
  {
    && WellLogged(d.progress) && Open(d.progress) && SegmentStart(d.progress) == p.startStep <= p.step
    && Logged(d.progress) == Newest(d.ckpts)
  }

  /** A resume under way at the newest save. */
  ghost predicate Resuming(d: Disk, p: Process)
    requires p.Up?
  {
    d.ckpts != {} && Resumable(d) && Configured(d, p.recipe) && p.step == p.startStep == Newest(d.ckpts)
  }

  /** Everything to `done` is trained, recorded and, where named, saved. */
  ghost predicate Trained(d: Disk, p: Process, done: nat)
    requires p.Up?
  {
    done <= p.recipe.steps && Within(d.ckpts, done) && NamedKept(d.ckpts, p.recipe.saveAt, done)
  }

  ghost predicate Alive(d: Disk, p: Process)
    requires p.Up?
  {
    var r := p.recipe;
    match p.pc
    case MakeDir => d == NO_ARM && p.step == p.startStep == 0
    case WriteConfig => d == NO_ARM.(present := true) && p.step == p.startStep == 0
    case AppendStart => d == NO_ARM.(present := true, config := Some(r.steps)) && p.step == p.startStep == 0
    case TruncateCurve => Resuming(d, p)
    case Backfill => Resuming(d, p) && d.curve == Column(p.step)
    case AppendResume => Resuming(d, p) && d.curve == Column(p.step) && Logged(d.progress) == p.step
    case WriteStart =>
      || (Configured(d, r) && InSegment(d, p) && Trained(d, p, p.step) && d.ckpts != {} && d.curve == Column(p.step)
          && p.step == Newest(d.ckpts))
      || (d == NO_ARM.(present := true, config := Some(r.steps), progress := [Start]) && p.step == p.startStep == 0)
    case CurveZero =>
      && Configured(d, r) && InSegment(d, p) && Trained(d, p, p.step)
      && d.curve == (if p.step == 0 then [] else Column(p.step))
    case Train => Configured(d, r) && InSegment(d, p) && Trained(d, p, p.step) && d.curve == Column(p.step)
    case CurveRow =>
      p.step > 0 && p.step <= r.steps && Configured(d, r) && InSegment(d, p) && Trained(d, p, p.step - 1) &&
      d.curve == Column(p.step - 1)
    case SaveStep =>
      p.step > 0 && p.step <= r.steps && Configured(d, r) && InSegment(d, p) && Trained(d, p, p.step - 1) &&
      d.curve == Column(p.step)
    case LogSave =>
      && p.step > 0 && Configured(d, r) && Trained(d, p, p.step) && d.curve == Column(p.step)
      && IsNewest(d.ckpts, p.step)
      && WellLogged(d.progress) && Open(d.progress) && SegmentStart(d.progress) == p.startStep <= p.step
      && Logged(d.progress) < p.step
    case Prune =>
      && p.step > 0 && Configured(d, r) && InSegment(d, p) && Trained(d, p, p.step) && d.curve == Column(p.step)
      && IsNewest(d.ckpts, p.step)
  }

  ghost predicate Good(s: State) {
    Sound(s.disk) && (s.process.Up? ==> Alive(s.disk, s.process))
  }

  // ---------------------------------------------------------------- every step keeps it

  lemma NewestIs(ckpts: set<nat>, m: nat)
    requires IsNewest(ckpts, m)
    ensures Newest(ckpts) == m
  {
  }

  lemma LaunchKeepsGood(d: Disk, r: Recipe)
    requires Sound(d)
    ensures Good(Launched(d, r))
  {
  }

  lemma StartingKeepsGood(d: Disk, p: Process, skipped: bool, victim: nat)
    requires p.Up? && Good(State(d, p)) && p.pc in {MakeDir, WriteConfig, AppendStart}
    ensures Good(Worked(d, p, skipped, victim))
  {
  }

  lemma ResumingKeepsGood(d: Disk, p: Process, skipped: bool, victim: nat)
    requires p.Up? && Good(State(d, p)) && p.pc in {TruncateCurve, Backfill, AppendResume}
    ensures Good(Worked(d, p, skipped, victim))
  {
    var after := Worked(d, p, skipped, victim).disk;
    match p.pc
    case TruncateCurve => TruncatedColumn(d.curve, p.step);
    case Backfill =>
      LoggedIsLast(d.progress, p.step);
      assert after.progress[..|after.progress| - 1] == d.progress || after == d;
    case AppendResume =>
      assert after.progress[..|after.progress| - 1] == d.progress;
  }

  lemma EnteringKeepsGood(d: Disk, p: Process, skipped: bool, victim: nat)
    requires p.Up? && Good(State(d, p)) && p.pc in {WriteStart, CurveZero}
    ensures Good(Worked(d, p, skipped, victim))
  {
    assert [Start][..0] == [];
  }

  lemma TrainKeepsGood(d: Disk, p: Process, skipped: bool, victim: nat)
    requires p.Up? && Good(State(d, p)) && p.pc == Train
    ensures Good(Worked(d, p, skipped, victim))
  {
    if p.step >= p.recipe.steps {
      RecordIsRight(d, p);
    }
    hide Finished, Column, IsColumn, WellLogged, BackfilledSaves;
  }

  /** The record written with the last step done is what a finished arm's says. */
  lemma RecordIsRight(d: Disk, p: Process)
    requires p.Up? && Configured(d, p.recipe) && InSegment(d, p) && Trained(d, p, p.step) && p.step >= p.recipe.steps
    requires d.curve == Column(p.step)
    ensures Finished(d.(arm := Some(RecordOf(d, p.recipe))))
  {
    LogAccounts(d.progress);
    hide Column, IsColumn;
  }

  lemma CurveRowKeepsGood(d: Disk, p: Process, skipped: bool, victim: nat)
    requires p.Up? && Good(State(d, p)) && p.pc == CurveRow
    ensures Good(Worked(d, p, skipped, victim))
  {
    ColumnGrows(p.step);
  }

  lemma SaveKeepsGood(d: Disk, p: Process, skipped: bool, victim: nat)
    requires p.Up? && Good(State(d, p)) && p.pc == SaveStep
    ensures Good(Worked(d, p, skipped, victim))
  {
    if Due(p.recipe, p.step) {
      NewestIs(d.ckpts + {p.step}, p.step);
    }
  }

  lemma LogSaveKeepsGood(d: Disk, p: Process, skipped: bool, victim: nat)
    requires p.Up? && Good(State(d, p)) && p.pc == LogSave
    ensures Good(Worked(d, p, skipped, victim))
  {
    var after := Worked(d, p, skipped, victim).disk;
    assert after.progress[..|after.progress| - 1] == d.progress;
    NewestIs(d.ckpts, p.step);
  }

  lemma PruneKeepsGood(d: Disk, p: Process, skipped: bool, victim: nat)
    requires p.Up? && Good(State(d, p)) && p.pc == Prune
    ensures Good(Worked(d, p, skipped, victim))
  {
    NewestIs(d.ckpts, p.step);
    if Stale(p.recipe, d, p.step, victim) {
      NewestIs(d.ckpts - {victim}, p.step);
    }
  }

  lemma StepKeepsGood(s: State, c: Choice)
    requires Good(s)
    ensures Good(Step(s, c))
  {
    hide Sound, Worked, Launched;
    match c
    case Crash =>
    case Launch(r) => LaunchKeepsGood(s.disk, r);
    case Go(skipped, victim) =>
      if s.process.Up? {
        match s.process.pc
        case MakeDir => StartingKeepsGood(s.disk, s.process, skipped, victim);
        case WriteConfig => StartingKeepsGood(s.disk, s.process, skipped, victim);
        case AppendStart => StartingKeepsGood(s.disk, s.process, skipped, victim);
        case TruncateCurve => ResumingKeepsGood(s.disk, s.process, skipped, victim);
        case Backfill => ResumingKeepsGood(s.disk, s.process, skipped, victim);
        case AppendResume => ResumingKeepsGood(s.disk, s.process, skipped, victim);
        case WriteStart => EnteringKeepsGood(s.disk, s.process, skipped, victim);
        case CurveZero => EnteringKeepsGood(s.disk, s.process, skipped, victim);
        case Train => TrainKeepsGood(s.disk, s.process, skipped, victim);
        case CurveRow => CurveRowKeepsGood(s.disk, s.process, skipped, victim);
        case SaveStep => SaveKeepsGood(s.disk, s.process, skipped, victim);
        case LogSave => LogSaveKeepsGood(s.disk, s.process, skipped, victim);
        case Prune => PruneKeepsGood(s.disk, s.process, skipped, victim);
      }
  }

  /** Every moment of every history is good. */
  lemma {:induction false} EveryHistoryGood(choices: seq<Choice>)
    ensures Good(Run(BEGIN, choices))
    decreases |choices|
  {
    if choices != [] {
      EveryHistoryGood(choices[..|choices| - 1]);
      StepKeepsGood(Run(BEGIN, choices[..|choices| - 1]), choices[|choices| - 1]);
    }
  }

  // ---------------------------------------------------------------- what that means

  /**
   A finished arm, however often it was killed and rerun: its saves are exactly the named steps from 1 to its last, all
   still on disk; its curve has the step column of an uninterrupted run; and `trained_steps` is at most the newest saved
   step, equal to it exactly when no save had to be logged by a resume.
   */
  lemma FinishedArmAccounts(choices: seq<Choice>)
    ensures Run(BEGIN, choices).disk.arm.Some? ==> Finished(Run(BEGIN, choices).disk)
  {
    EveryHistoryGood(choices);
  }

  /** At every moment, every named step up to the newest save is on disk. */
  lemma NamedSavesOnDisk(choices: seq<Choice>)
    ensures var d := Run(BEGIN, choices).disk;
            d.ckpts != {} ==> d.start.Some? && NamedKept(d.ckpts, d.start.value.0, Newest(d.ckpts))
  {
    EveryHistoryGood(choices);
  }

  /** One step loses no save that matters: the newest step never falls, and a named save stays. */
  lemma StepKeepsSaves(s: State, c: Choice)
    requires Good(s) && s.disk.ckpts != {}
    ensures var t := Step(s, c);
            && t.disk.ckpts != {} && Newest(t.disk.ckpts) >= Newest(s.disk.ckpts)
            && t.disk.config == s.disk.config && t.disk.start == s.disk.start && s.disk.start.Some?
            && (forall n | n in s.disk.ckpts && n in s.disk.start.value.0 :: n in t.disk.ckpts)
            && (s.disk.arm.Some? ==> t.disk.arm == s.disk.arm)
  {
    hide Column, IsColumn, WellLogged, Logged, Open, SegmentStart, LogsSave, TrainedSteps, BackfilledSaves, Truncated;
    var t := Step(s, c);
    if c.Go? && s.process.Up? {
      if s.process.pc == SaveStep && Due(s.process.recipe, s.process.step) {
        NewestIs(t.disk.ckpts, s.process.step);
      }
      if s.process.pc == Prune {
        NewestIs(s.disk.ckpts, s.process.step);
        NewestIs(t.disk.ckpts, s.process.step);
      }
    }
  }

  lemma RunSplits(s: State, before: seq<Choice>, after: seq<Choice>)
    ensures Run(s, before + after) == Run(Run(s, before), after)
    decreases |after|
  {
    if after == [] {
      assert before + after == before;
    } else {
      var all := before + after;
      assert all[..|all| - 1] == before + after[..|after| - 1];
      RunSplits(s, before, after[..|after| - 1]);
    }
  }

  /** Over any stretch of any history: once a save exists one always does, the newest never falls, named saves stay. */
  lemma {:induction false} HistoryKeepsSaves(before: seq<Choice>, after: seq<Choice>)
    requires Run(BEGIN, before).disk.ckpts != {}
    ensures var d, e := Run(BEGIN, before).disk, Run(BEGIN, before + after).disk;
            && e.ckpts != {} && Newest(e.ckpts) >= Newest(d.ckpts)
            && d.start.Some? && e.start == d.start && e.config == d.config
            && (forall n | n in d.ckpts && n in d.start.value.0 :: n in e.ckpts)
            && (d.arm.Some? ==> e.arm == d.arm)
    decreases |after|
  {
    EveryHistoryGood(before);
    if after == [] {
      assert before + after == before;
    } else {
      var all := before + after;
      assert all[..|all| - 1] == before + after[..|after| - 1];
      HistoryKeepsSaves(before, after[..|after| - 1]);
      EveryHistoryGood(all[..|all| - 1]);
      StepKeepsSaves(Run(BEGIN, all[..|all| - 1]), all[|all| - 1]);
    }
  }

  /** When pruning is over, what is left on disk is named or is the save just made. */
  lemma PrunedLeavesNamed(s: State, skipped: bool, victim: nat)
    requires Good(s) && s.process.Up? && s.process.pc == Prune
    requires Step(s, Go(skipped, victim)).process.pc == Train
    ensures forall c | c in Step(s, Go(skipped, victim)).disk.ckpts ::
              c in s.process.recipe.saveAt || c == s.process.step
  {
  }

  // ---------------------------------------------------------------- an arm stopped anywhere can be finished

  ghost function PcRank(pc: Pc): nat {
    match pc
    case MakeDir => 9
    case WriteConfig => 8
    case AppendStart => 7
    case TruncateCurve => 9
    case Backfill => 8
    case AppendResume => 7
    case WriteStart => 6
    case CurveZero => 5
    case Train => 0
    case CurveRow => 4
    case SaveStep => 3
    case LogSave => 2
    case Prune => 1
  }

  ghost predicate Unskipped(p: Process) {
    p.Up? && p.step <= p.recipe.steps && p.attempts == p.step - p.startStep
  }

  /** Less is left to do: fewer steps, or a later operation of this one, or fewer saves to prune. */
  ghost predicate Nearer(s: State, t: State)
    requires s.process.Up? && t.process.Up?
  {
    var p, q := s.process, t.process;
    && q.recipe == p.recipe
    && (q.step == p.step + 1 ||
        (q.step == p.step && PcRank(q.pc) < PcRank(p.pc)) ||
        (q.step == p.step && q.pc == p.pc && |t.disk.ckpts| < |s.disk.ckpts|))
  }

  lemma WorkAdvances(s: State, victim: nat)
    requires Unskipped(s.process)
    requires (exists c :: Stale(s.process.recipe, s.disk, s.process.step, c)) ==>
               Stale(s.process.recipe, s.disk, s.process.step, victim)
    ensures var t := Step(s, Go(false, victim));
            t.disk.arm.Some? || (Unskipped(t.process) && Nearer(s, t))
  {
    if s.process.pc == Prune {
      PruneAdvances(s, victim);
    }
  }

  lemma PruneAdvances(s: State, victim: nat)
    requires Unskipped(s.process) && s.process.pc == Prune
    requires (exists c :: Stale(s.process.recipe, s.disk, s.process.step, c)) ==>
               Stale(s.process.recipe, s.disk, s.process.step, victim)
    ensures var t := Step(s, Go(false, victim)); Unskipped(t.process) && Nearer(s, t)
  {
    if Stale(s.process.recipe, s.disk, s.process.step, victim) {
      assert |s.disk.ckpts - {victim}| == |s.disk.ckpts| - 1;
    }
  }

  /** The record is written under the process's own recipe. */
  lemma RecordsOwn(s: State, victim: nat)
    requires Good(s) && Unskipped(s.process) && Step(s, Go(false, victim)).disk.arm.Some?
    ensures Names(Step(s, Go(false, victim)).disk, s.process.recipe)
  {
    hide InSegment, Trained, NamedKept, Within, IsColumn, Truncated, Column, RecordOf, Finished, WellLogged, Stale;
  }

  /** From a live process that has skipped nothing, working on without a skip reaches the record, under its recipe. */
  lemma {:induction false} WorksToTheEnd(s: State) returns (choices: seq<Choice>)
    requires Good(s) && Unskipped(s.process)
    ensures Run(s, choices).disk.arm.Some? && Names(Run(s, choices).disk, s.process.recipe)
    decreases s.process.recipe.steps - s.process.step, PcRank(s.process.pc), |s.disk.ckpts|
  {
    hide Good, Worked, Stale, Names;
    var p, d := s.process, s.disk;
    var victim := StaleOrAny(d, p);
    var c := Go(false, victim);
    var t := Step(s, c);
    StepKeepsGood(s, c);
    WorkAdvances(s, victim);
    assert Run(s, [c]) == t by { assert [c][..0] == []; }
    if t.disk.arm.Some? {
      RecordsOwn(s, victim);
      return [c];
    }
    var rest := WorksToTheEnd(t);
    RunSplits(s, [c], rest);
    choices := [c] + rest;
  }

  lemma StaleOrAny(d: Disk, p: Process) returns (victim: nat)
    requires p.Up?
    ensures (exists c :: Stale(p.recipe, d, p.step, c)) ==> Stale(p.recipe, d, p.step, victim)
  {
    victim := 0;
    if c :| Stale(p.recipe, d, p.step, c) {
      victim := c;
    }
  }

  /** The recipes an unfinished directory can be rerun under: the one it names if it holds a save, any otherwise. */
  predicate Rerunnable(d: Disk, r: Recipe) {
    d.ckpts == {} || Names(d, r)
  }

  lemma RerunStarts(d: Disk, r: Recipe)
    requires Sound(d) && d.arm.None? && Rerunnable(d, r)
    ensures Unskipped(Launched(d, r).process) && Launched(d, r).process.recipe == r
  {
  }

  /**
   Whatever happened to an unfinished arm, a rerun under its own recipe finishes it, as that recipe's arm; where it
   holds no save, so does a rerun under any recipe.
   */
  lemma StoppedArmCanFinish(before: seq<Choice>, r: Recipe) returns (after: seq<Choice>)
    requires Run(BEGIN, before).disk.arm.None? && Rerunnable(Run(BEGIN, before).disk, r)
    ensures var d := Run(BEGIN, before + after).disk; d.arm.Some? && Names(d, r)
  {
    hide Sound, Alive, Launched, Unskipped, Names, Rerunnable;
    EveryHistoryGood(before);
    var s := Run(BEGIN, before);
    RerunStarts(s.disk, r);
    var down := Step(s, Crash);
    var up := Step(down, Launch(r));
    StepKeepsGood(down, Launch(r));
    var rest := WorksToTheEnd(up);
    assert Run(s, [Crash]) == down by { assert [Crash][..0] == []; }
    assert Run(s, [Crash, Launch(r)]) == up by { assert [Crash, Launch(r)][..1] == [Crash]; }
    RunSplits(s, [Crash, Launch(r)], rest);
    after := [Crash, Launch(r)] + rest;
    RunSplits(BEGIN, before, after);
  }
}
