/**
 What every history of one arm keeps of its cadence: a save no older than the last multiple of the save interval, only
 due saves on disk, the steps lost to the log, the backfills, and the skipped steps a life may spend.
 */
module TrainArmCadence {
  import opened TrainArm
  import opened TrainArmSafety
  import opened Wrappers

  // ---------------------------------------------------------------- saves on time

  /** The steps the process has been through, the save of each made if it was due. */
  function Through(p: Process): int
    requires p.Up?
  {
    if p.pc.CurveRow? || p.pc.SaveStep? then p.step - 1 else p.step
  }

  /** No multiple of `every` up to `done` is newer than the newest save. */
  ghost predicate UpToDate(ckpts: set<nat>, every: nat, done: int) {
    forall k: nat | k >= 1 && k * every <= done && every >= 1 :: k * every <= Newest(ckpts)
  }

  /** Every save is of a named step or of a multiple of `every`. */
  ghost predicate OnlyDue(ckpts: set<nat>, saveAt: set<nat>, every: nat) {
    forall c | c in ckpts :: c in saveAt || exists k: nat :: c == k * every && every >= 1
  }

  ghost predicate OnTime(s: State) {
    && (s.disk.ckpts != {} ==> s.disk.start.Some? && OnlyDue(s.disk.ckpts, s.disk.start.value.0, s.disk.start.value.1))
    && (s.process.Up? ==> UpToDate(s.disk.ckpts, s.process.recipe.saveEvery, Through(s.process)))
    && (s.disk.arm.Some? ==>
          s.disk.start.Some? && s.disk.config.Some? &&
          UpToDate(s.disk.ckpts, s.disk.start.value.1, s.disk.config.value))
  }

  /** A step is due exactly when it is named or a multiple of the interval, where there is one. */
  lemma DueMeans(r: Recipe, step: nat)
    ensures Due(r, step) <==> step in r.saveAt || exists k: nat :: step == k * r.saveEvery && r.saveEvery >= 1
  {
    if r.saveEvery >= 1 {
      if step % r.saveEvery == 0 {
        assert step == (step / r.saveEvery) * r.saveEvery;
      }
      if k: nat :| step == k * r.saveEvery {
        MultipleMod(k, r.saveEvery);
      }
    }
  }

  lemma MultipleMod(k: nat, n: nat)
    requires n >= 1
    ensures (k * n) % n == 0
  {
    var q, m := k * n / n, (k * n) % n;
    assert (k - q) * n == k * n - q * n == m;
    assert (q - k) * n == q * n - k * n;
    if k > q {
      AtLeastOne(k - q, n);
    } else if k < q {
      AtLeastOne(q - k, n);
    }
  }

  lemma {:induction false} AtLeastOne(j: nat, n: nat)
    requires j >= 1
    ensures j * n >= n
  {
    if j > 1 {
      AtLeastOne(j - 1, n);
      assert j * n == (j - 1) * n + n;
    }
  }

  lemma LaunchOnTime(d: Disk, r: Recipe)
    requires Good(State(d, Down)) && OnTime(State(d, Down))
    ensures OnTime(Launched(d, r))
  {
    hide OnlyDue, IsColumn, WellLogged, Logged, NamedKept, Within;
  }

  /** The save of a due step brings the disk up to date; a step that is not due asks for none. */
  lemma SaveOnTime(d: Disk, p: Process, skipped: bool, victim: nat)
    requires p.Up? && p.pc == SaveStep && Good(State(d, p)) && OnTime(State(d, p))
    ensures OnTime(Worked(d, p, skipped, victim))
  {
    hide InSegment, IsColumn, WellLogged, Logged, Column, Finished, Resumable;
    var r, every := p.recipe, p.recipe.saveEvery;
    DueMeans(r, p.step);
    assert Configured(d, r) && Within(d.ckpts, p.step - 1);
    hide Good;
    if Due(r, p.step) {
      var ckpts := d.ckpts + {p.step};
      NewestIs(ckpts, p.step);
      hide NamedKept, Within;
      assert OnlyDue(ckpts, r.saveAt, every);
    } else {
      hide OnlyDue;
      forall k: nat | k >= 1 && k * every <= p.step && every >= 1 ensures k * every <= Newest(d.ckpts) {
        assert k * every != p.step;
      }
    }
  }

  lemma PruneOnTime(d: Disk, p: Process, skipped: bool, victim: nat)
    requires p.Up? && p.pc == Prune && Good(State(d, p)) && OnTime(State(d, p))
    ensures OnTime(Worked(d, p, skipped, victim))
  {
    hide InSegment, IsColumn, WellLogged, Logged, Column, Finished, Resumable, NamedKept, Due;
    assert Configured(d, p.recipe) && IsNewest(d.ckpts, p.step);
    hide Good;
    NewestIs(d.ckpts, p.step);
    if Stale(p.recipe, d, p.step, victim) {
      NewestIs(d.ckpts - {victim}, p.step);
      assert OnlyDue(d.ckpts - {victim}, p.recipe.saveAt, p.recipe.saveEvery);
    }
    hide OnlyDue;
  }

  lemma WorkOnTime(d: Disk, p: Process, skipped: bool, victim: nat)
    requires p.Up? && p.pc != SaveStep && p.pc != Prune && Good(State(d, p)) && OnTime(State(d, p))
    ensures OnTime(Worked(d, p, skipped, victim))
  {
    hide InSegment, IsColumn, WellLogged, Logged, Column, Finished, NamedKept, Due, LogsSave, OnlyDue, Truncated,
         TrainedSteps, BackfilledSaves;
    if p.pc == Train && p.step >= p.recipe.steps {
      assert Configured(d, p.recipe) && p.step <= p.recipe.steps;
    }
  }

  lemma StepOnTime(s: State, c: Choice)
    requires Good(s) && OnTime(s)
    ensures OnTime(Step(s, c))
  {
    hide Launched, Worked;
    match c
    case Crash => hide OnlyDue, UpToDate;
    case Launch(r) =>
      if s.process.Down? {
        assert s == State(s.disk, Down);
        hide Good, OnTime;
        LaunchOnTime(s.disk, r);
      }
    case Go(skipped, victim) =>
      assert s == State(s.disk, s.process);
      hide Good, OnTime;
      if s.process.Up? {
        if s.process.pc == SaveStep {
          SaveOnTime(s.disk, s.process, skipped, victim);
        } else if s.process.pc == Prune {
          PruneOnTime(s.disk, s.process, skipped, victim);
        } else {
          WorkOnTime(s.disk, s.process, skipped, victim);
        }
      }
  }

  /**
   Over every history: a live process holds a save at least as new as the last multiple of the interval it has been
   through, so does a finished arm, and every save on disk is of a named step or of such a multiple.
   */
  lemma {:induction false} SavesOnTime(choices: seq<Choice>)
    ensures OnTime(Run(BEGIN, choices))
    decreases |choices|
  {
    if choices == [] {
      hide OnlyDue, UpToDate;
    } else {
      hide OnTime, Good, Step;
      var before, last := choices[..|choices| - 1], choices[|choices| - 1];
      SavesOnTime(before);
      EveryHistoryGood(before);
      StepOnTime(Run(BEGIN, before), last);
    }
  }

  // ---------------------------------------------------------------- what the log lost

  /** The steps whose training no save booked: from the last logged save to the one a resume had to log. */
  function LostSteps(events: seq<Event>): int {
    if events == [] then 0
    else
      var before, e := events[..|events| - 1], events[|events| - 1];
      LostSteps(before) + if e.Save? && e.segmentSteps.None? then e.step - Logged(before) else 0
  }

  /** The record's trained steps and the lost ones make up the last logged save. */
  lemma {:induction false} TrainedAndLost(events: seq<Event>)
    requires WellLogged(events)
    ensures TrainedSteps(events) + LostSteps(events) == Logged(events)
  {
    if events != [] {
      var before, e := events[..|events| - 1], events[|events| - 1];
      TrainedAndLost(before);
      LogAccounts(before);
      var ends, after := SegmentEnds(before), SegmentEnds(events);
      if !e.Save? {
        assert after[..|after| - 1] == ends;
      } else if e.segmentSteps.Some? {
        assert after[..|after| - 1] == ends[..|ends| - 1];
      }
    }
  }

  /** A resume comes to a newest save that no line of the log tells of. */
  ghost predicate Unlogged(s: State, c: Choice) {
    c.Go? && s.process.Up? && s.process.pc == Backfill &&
    forall e | e in s.disk.progress :: e.Save? ==> e.step != s.process.step
  }

  /** The saves found unlogged by the resumes of a history, in order. */
  ghost function FoundUnlogged(choices: seq<Choice>): seq<nat> {
    if choices == [] then []
    else
      var before, c := choices[..|choices| - 1], choices[|choices| - 1];
      var s := Run(BEGIN, before);
      FoundUnlogged(before) + if Unlogged(s, c) then [s.process.step] else []
  }

  /** What a step logs of backfills: the save a resume found unlogged, or with no save on disk a fresh log. */
  ghost predicate LogsFound(s: State, c: Choice, t: State) {
    var found := if Unlogged(s, c) then [s.process.step] else [];
    BackfilledSaves(t.disk.progress) == BackfilledSaves(s.disk.progress) + found ||
    (s.disk.ckpts == {} && t.disk.progress == [] && found == [])
  }

  lemma StepBackfills(s: State, c: Choice)
    requires Good(s)
    ensures LogsFound(s, c, Step(s, c))
    ensures Unlogged(s, c) ==> s.disk.ckpts != {}
  {
    match c
    case Crash =>
    case Launch(r) => hide Good;
    case Go(skipped, victim) =>
      if s.process.Up? && s.process.pc == Backfill {
        BackfillLogs(s, skipped, victim);
      } else if s.process.Up? {
        hide Good;
        WorkLogs(s.disk, s.process, skipped, victim);
      }
  }

  lemma BackfillLogs(s: State, skipped: bool, victim: nat)
    requires Good(s) && s.process.Up? && s.process.pc == Backfill
    ensures LogsFound(s, Go(skipped, victim), Step(s, Go(skipped, victim)))
    ensures s.disk.ckpts != {}
  {
    assert Resuming(s.disk, s.process);
    hide Good, Alive, Resuming;
    var d, t := s.disk, Step(s, Go(skipped, victim));
    assert t.disk.progress != d.progress ==> t.disk.progress[..|t.disk.progress| - 1] == d.progress;
    assert LogsSave(d.progress, s.process.step) <==> !Unlogged(s, Go(skipped, victim));
  }

  lemma WorkLogs(d: Disk, p: Process, skipped: bool, victim: nat)
    requires p.Up? && p.pc != Backfill
    ensures BackfilledSaves(Worked(d, p, skipped, victim).disk.progress) == BackfilledSaves(d.progress)
  {
    hide RecordOf, Due, Stale, Truncated, LogsSave;
    var t := Worked(d, p, skipped, victim).disk;
    assert t.progress != d.progress ==> t.progress != [] && t.progress[..|t.progress| - 1] == d.progress;
  }

  /** With no save on disk, no resume has found one unlogged. */
  ghost predicate BackfillsRight(s: State, found: seq<nat>) {
    found == BackfilledSaves(s.disk.progress) && (s.disk.ckpts == {} ==> found == [])
  }

  /** The record's `backfilled` are exactly the saves that resumes found unlogged, over every history. */
  lemma {:induction false} BackfillsAreFound(choices: seq<Choice>)
    ensures BackfillsRight(Run(BEGIN, choices), FoundUnlogged(choices))
    decreases |choices|
  {
    if choices != [] {
      hide Step, Good;
      var before, c := choices[..|choices| - 1], choices[|choices| - 1];
      var s := Run(BEGIN, before);
      BackfillsAreFound(before);
      EveryHistoryGood(before);
      StepBackfills(s, c);
      if s.disk.ckpts != {} {
        StepKeepsSaves(s, c);
      }
    }
  }

  // ---------------------------------------------------------------- what a rerun refuses

  /**
   A rerun refuses, leaving the directory as it is, a finished arm, a save whose config or start record is another
   recipe's, and a directory with files and neither save nor config. It resumes every other save at the newest, and
   without a save starts afresh.
   */
  lemma RefusesExactly(d: Disk, r: Recipe)
    ensures var t := Launched(d, r);
            && (t.process.Down? <==>
                  d.arm != None ||
                  (d.ckpts != {} && (d.config != Some(r.steps) || d.start != Some((r.saveAt, r.saveEvery)))) ||
                  (d.ckpts == {} && d.present && d.config == None &&
                   (d.start != None || d.curve != [] || d.progress != [])))
            && (t.process.Down? ==> t.disk == d)
            && (t.process.Up? && d.ckpts != {} ==>
                  t.disk == d && IsNewest(d.ckpts, t.process.step) && t.process.startStep == t.process.step)
            && (t.process.Up? && d.ckpts == {} ==>
                  t.disk == Disk(false, None, None, {}, [], [], None) && t.process.step == 0)
  {
  }

  // ---------------------------------------------------------------- skipped steps

  /** The steps the life under way has skipped. */
  ghost function Skips(choices: seq<Choice>): nat {
    if choices == [] then 0
    else
      var before, c := choices[..|choices| - 1], choices[|choices| - 1];
      var s := Run(BEGIN, before);
      if c.Launch? && s.process.Down? then 0
      else if c.Go? && c.skipped && Trying(s) then Skips(before) + 1
      else Skips(before)
  }

  /** The process is about to train a step. */
  predicate Trying(s: State) {
    s.process.Up? && s.process.pc == Train && s.process.step < s.process.recipe.steps
  }

  ghost predicate AttemptsRight(p: Process, skips: nat) {
    p.Up? ==> p.startStep <= p.step && p.attempts == p.step - p.startStep + skips
  }

  lemma StepAttempts(s: State, c: Choice, skips: nat)
    requires AttemptsRight(s.process, skips)
    ensures AttemptsRight(
              Step(s, c).process,
              if c.Launch? && s.process.Down? then 0 else if c.Go? && c.skipped && Trying(s) then skips + 1 else skips)
  {
    hide Due, RecordOf, Truncated, LogsSave;
  }

  /** A life's attempts are the steps it trained and the steps it skipped. */
  lemma {:induction false} AttemptsAreSteps(choices: seq<Choice>)
    ensures AttemptsRight(Run(BEGIN, choices).process, Skips(choices))
    decreases |choices|
  {
    if choices != [] {
      hide Step;
      var before, c := choices[..|choices| - 1], choices[|choices| - 1];
      AttemptsAreSteps(before);
      StepAttempts(Run(BEGIN, before), c, Skips(before));
    }
  }

  /**
   A life about to train a step gives up exactly when it has skipped at least a hundred steps more than it has left to
   train: never before it has skipped a hundred and one.
   */
  lemma GivesUpExactly(choices: seq<Choice>, skipped: bool, victim: nat)
    requires Trying(Run(BEGIN, choices))
    ensures var s := Run(BEGIN, choices);
            var left := s.process.recipe.steps - s.process.step;
            && (Step(s, Go(skipped, victim)).process.Down? <==> Skips(choices) >= left + 100)
            && (Step(s, Go(skipped, victim)).process.Down? ==> Skips(choices) >= 101)
            && Step(s, Go(skipped, victim)).disk == s.disk
  {
    hide Run, Skips;
    AttemptsAreSteps(choices);
  }
}
