/**
 One training arm's life on disk: the files `train_arm` writes, in the order it writes them, with a crash allowed
 between any two file operations and any number of reruns. Each file operation is atomic.
 */
module TrainArm {
  import opened Wrappers

  /** One line of the progress log; a save logged on resume books no segment. */
  datatype Event =
    | Start
    | Resume(step: nat)
    | Save(step: nat, segmentSteps: Option<nat>)

  /** What every segment of an arm must agree on. */
  datatype Recipe = Recipe(steps: nat, saveAt: set<nat>, saveEvery: nat)

  /** What the finished record says of the arm. */
  datatype Record = Record(saves: set<nat>, trainedSteps: nat, backfilled: seq<nat>)

  /** The arm's directory: config and start files name the recipe, checkpoints their step, the curve its step column. */
  datatype Disk = Disk(
    present: bool,
    config: Option<nat>,
    start: Option<(set<nat>, nat)>,
    ckpts: set<nat>,
    curve: seq<nat>,
    progress: seq<Event>,
    arm: Option<Record>)

  const NO_ARM := Disk(false, None, None, {}, [], [], None)

  /** Where the running process stands: the file operation or decision it comes to next. */
  datatype Pc =
    | MakeDir | WriteConfig | AppendStart
    | TruncateCurve | Backfill | AppendResume
    | WriteStart | CurveZero
    | Train | CurveRow | SaveStep | LogSave | Prune

  datatype Process =
    | Down
    | Up(pc: Pc, recipe: Recipe, step: nat, startStep: nat, attempts: nat)

  datatype State = State(disk: Disk, process: Process)

  /** What happens next: a rerun under some recipe, the process's next operation, or a crash. */
  datatype Choice =
    | Launch(recipe: Recipe)
    | Go(skipped: bool, victim: nat)
    | Crash

  // ---------------------------------------------------------------- the newest save

  ghost predicate IsNewest(ckpts: set<nat>, m: nat) {
    m in ckpts && forall c | c in ckpts :: c <= m
  }

  lemma {:induction false} NewestExists(ckpts: set<nat>)
    requires ckpts != {}
    ensures exists m :: IsNewest(ckpts, m)
  {
    var c :| c in ckpts;
    if ckpts == {c} {
      assert IsNewest(ckpts, c);
    } else {
      NewestExists(ckpts - {c});
      var m :| IsNewest(ckpts - {c}, m);
      assert forall x | x in ckpts :: x == c || x in ckpts - {c};
      assert IsNewest(ckpts, if c > m then c else m);
    }
  }

  /** The newest saved step, 0 when there is no save. */
  ghost function Newest(ckpts: set<nat>): (m: nat)
    ensures ckpts == {} ==> m == 0
    ensures ckpts != {} ==> IsNewest(ckpts, m)
  {
    if ckpts == {} then 0
    else
      NewestExists(ckpts);
      var m: nat :| IsNewest(ckpts, m);
      m
  }

  // ---------------------------------------------------------------- the two logs

  /** The curve rows at or before `step`. */
  function Truncated(curve: seq<nat>, step: nat): seq<nat> {
    if curve == [] then []
    else Truncated(curve[..|curve| - 1], step) + if curve[|curve| - 1] <= step then [curve[|curve| - 1]] else []
  }

  /** The step column of an uninterrupted run to `step`. */
  function Column(step: nat): seq<nat> {
    seq(step / 250 + 1, i => 250 * i)
  }

  /** Each start's or resume's last booked save; None while it has none. */
  function SegmentEnds(events: seq<Event>): seq<Option<Event>> {
    if events == [] then []
    else
      var before, e := SegmentEnds(events[..|events| - 1]), events[|events| - 1];
      if !e.Save? then before + [None]
      else if e.segmentSteps.Some? && before != [] then before[..|before| - 1] + [Some(e)]
      else before
  }

  function Booked(end: Option<Event>): nat {
    if end.Some? && end.value.Save? && end.value.segmentSteps.Some? then end.value.segmentSteps.value else 0
  }

  function BookedSum(ends: seq<Option<Event>>): nat {
    if ends == [] then 0 else BookedSum(ends[..|ends| - 1]) + Booked(ends[|ends| - 1])
  }

  /** The finished record's `trained_steps`. */
  function TrainedSteps(events: seq<Event>): nat {
    BookedSum(SegmentEnds(events))
  }

  function BackfilledSaves(events: seq<Event>): seq<nat> {
    if events == [] then []
    else
      var e := events[|events| - 1];
      BackfilledSaves(events[..|events| - 1]) + if e.Save? && e.segmentSteps.None? then [e.step] else []
  }

  predicate LogsSave(events: seq<Event>, step: nat) {
    exists i :: 0 <= i < |events| && events[i].Save? && events[i].step == step
  }

  // ---------------------------------------------------------------- the process

  predicate Due(r: Recipe, step: nat) {
    step in r.saveAt || (r.saveEvery != 0 && step % r.saveEvery == 0)
  }

  predicate Stale(r: Recipe, d: Disk, step: nat, older: nat) {
    older in d.ckpts && older != step && older !in r.saveAt
  }

  predicate Holds(d: Disk) {
    d.config.Some? || d.start.Some? || d.ckpts != {} || d.curve != [] || d.progress != [] || d.arm.Some?
  }

  /**
   A rerun: refuse a finished arm, foreign files or another recipe; move an unsaved arm aside; else resume or start.
   */
  ghost function Launched(d: Disk, r: Recipe): State {
    if d.arm.Some? then State(d, Down)
    else if d.ckpts == {} then
      if d.present && Holds(d) && d.config.None? then State(d, Down)
      else State(NO_ARM, Up(MakeDir, r, 0, 0, 0))
    else if d.config != Some(r.steps) || d.start != Some((r.saveAt, r.saveEvery)) then State(d, Down)
    else State(d, Up(TruncateCurve, r, Newest(d.ckpts), Newest(d.ckpts), 0))
  }

  /** The process's next file operation or decision. */
  ghost function Worked(d: Disk, p: Process, skipped: bool, victim: nat): State
    requires p.Up?
  {
    var r := p.recipe;
    match p.pc
    case MakeDir => State(d.(present := true), p.(pc := WriteConfig))
    case WriteConfig => State(d.(config := Some(r.steps)), p.(pc := AppendStart))
    case AppendStart => State(d.(progress := d.progress + [Start]), p.(pc := WriteStart))
    case TruncateCurve => State(d.(curve := Truncated(d.curve, p.step)), p.(pc := Backfill))
    case Backfill =>
      State(if LogsSave(d.progress, p.step) then d else d.(progress := d.progress + [Save(p.step, None)]),
            p.(pc := AppendResume))
    case AppendResume => State(d.(progress := d.progress + [Resume(p.step)]), p.(pc := WriteStart))
    case WriteStart =>
      State(if d.start.Some? then d else d.(start := Some((r.saveAt, r.saveEvery))), p.(pc := CurveZero))
    case CurveZero => State(if p.step == 0 then d.(curve := d.curve + [0]) else d, p.(pc := Train))
    case Train =>
      if p.step >= r.steps then State(d.(arm := Some(RecordOf(d, r))), Down)
      else if p.attempts + 1 > r.steps - p.startStep + 100 then State(d, Down)
      else if skipped then State(d, p.(attempts := p.attempts + 1))
      else State(d, p.(pc := CurveRow, step := p.step + 1, attempts := p.attempts + 1))
    case CurveRow => State(if p.step % 250 == 0 then d.(curve := d.curve + [p.step]) else d, p.(pc := SaveStep))
    case SaveStep =>
      if Due(r, p.step) then State(d.(ckpts := d.ckpts + {p.step}), p.(pc := LogSave)) else State(d, p.(pc := Train))
    case LogSave =>
      var booked := if p.step >= p.startStep then p.step - p.startStep else 0;
      State(d.(progress := d.progress + [Save(p.step, Some(booked))]), p.(pc := Prune))
    case Prune =>
      if Stale(r, d, p.step, victim) then State(d.(ckpts := d.ckpts - {victim}), p)
      else if forall c | c in d.ckpts :: !Stale(r, d, p.step, c) then State(d, p.(pc := Train))
      else State(d, p)
  }

  /** The record written when the last step is done. */
  function RecordOf(d: Disk, r: Recipe): Record {
    Record(d.ckpts * r.saveAt, TrainedSteps(d.progress), BackfilledSaves(d.progress))
  }

  ghost function Step(s: State, c: Choice): State {
    match c
    case Crash => s.(process := Down)
    case Launch(r) => if s.process.Down? then Launched(s.disk, r) else s
    case Go(skipped, victim) => if s.process.Up? then Worked(s.disk, s.process, skipped, victim) else s
  }

  ghost function Run(s: State, choices: seq<Choice>): State {
    if choices == [] then s else Step(Run(s, choices[..|choices| - 1]), choices[|choices| - 1])
  }

  const BEGIN := State(NO_ARM, Down)

  // ---------------------------------------------------------------- the progress log's shape

  /** The step of the last logged save, 0 before the first. */
  function Logged(events: seq<Event>): nat {
    if events == [] then 0
    else
      var e := events[|events| - 1];
      if e.Save? then e.step else Logged(events[..|events| - 1])
  }

  /** The step the last start or resume began at. */
  function SegmentStart(events: seq<Event>): nat {
    if events == [] then 0
    else
      match events[|events| - 1]
      case Start => 0
      case Resume(step) => step
      case Save(_, _) => SegmentStart(events[..|events| - 1])
  }

  /** Whether the last segment can still book saves: it has begun and holds no backfill. */
  predicate Open(events: seq<Event>) {
    events != [] &&
    var e := events[|events| - 1];
    !e.Save? || (e.segmentSteps.Some? && Open(events[..|events| - 1]))
  }

  /**
   How the process writes the log: starts once, resumes at the last logged save, saves upwards, books what it trained.
   */
  predicate WellLogged(events: seq<Event>) {
    events == [] ||
    var before, e := events[..|events| - 1], events[|events| - 1];
    WellLogged(before) &&
    match e
    case Start => before == []
    case Resume(step) => before != [] && step == Logged(before)
    case Save(step, None) => before != [] && step > Logged(before)
    case Save(step, Some(k)) => Open(before) && step > Logged(before) && SegmentStart(before) + k == step
  }

  /**
   In a well-kept log, an open segment that booked nothing began at the last logged save; else its end is that save.
   */
  lemma {:induction false} LogAccounts(events: seq<Event>)
    requires WellLogged(events)
    ensures TrainedSteps(events) <= Logged(events)
    ensures TrainedSteps(events) == Logged(events) <==> BackfilledSaves(events) == []
    ensures events != [] ==> SegmentEnds(events) != []
    ensures SegmentStart(events) <= Logged(events)
    ensures Open(events) ==>
      var ends := SegmentEnds(events);
      Logged(events) == SegmentStart(events) + Booked(ends[|ends| - 1])
  {
    if events != [] {
      var before, e := events[..|events| - 1], events[|events| - 1];
      LogAccounts(before);
      var ends, after := SegmentEnds(before), SegmentEnds(events);
      if !e.Save? {
        assert after[..|after| - 1] == ends;
      } else if e.segmentSteps.Some? {
        assert after[..|after| - 1] == ends[..|ends| - 1];
      }
    }
  }

  lemma {:induction false} LoggedIsLast(events: seq<Event>, step: nat)
    requires WellLogged(events) && step >= Logged(events) && step > 0
    ensures LogsSave(events, step) <==> step == Logged(events)
  {
    if events != [] {
      var before, e := events[..|events| - 1], events[|events| - 1];
      LoggedIsLast(before, step);
      if LogsSave(before, step) {
        var i :| 0 <= i < |before| && before[i].Save? && before[i].step == step;
        assert events[i] == before[i];
      }
      if LogsSave(events, step) {
        var i :| 0 <= i < |events| && events[i].Save? && events[i].step == step;
        if i < |before| {
          assert before[i] == events[i];
        }
      }
    }
  }
}
