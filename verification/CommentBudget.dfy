/** The comment budget: how far runs of comment lines go past the cap, and a measurement judged against two floors. */
module CommentBudget {
  import opened Wrappers

  function Over(run: nat, cap: nat): nat {
    if run > cap then run - cap else 0
  }

  // ---------------------------------------------------------------- runs

  /** A stretch of flags, none missing and none to either side. */
  ghost predicate MaximalRun(flags: seq<bool>, a: nat, b: nat) {
    && a < b <= |flags| && (forall k | a <= k < b :: flags[k])
    && (a > 0 ==> !flags[a - 1]) && (b < |flags| ==> !flags[b])
  }

  /** The runs that end before the last `open` flags, which are set. */
  function Runs(flags: seq<bool>): seq<(nat, nat)> {
    if flags == [] then []
    else
      var n, before := |flags| - 1, Runs(flags[..|flags| - 1]);
      if !flags[n] then before
      else if before != [] && before[|before| - 1].1 == n then
        before[..|before| - 1] + [(before[|before| - 1].0, n + 1)]
      else before + [(n, n + 1)]
  }

  function ExcessOf(runs: seq<(nat, nat)>, cap: nat): nat {
    if runs == [] then 0
    else
      var last := runs[|runs| - 1];
      ExcessOf(runs[..|runs| - 1], cap) + Over(if last.0 < last.1 then last.1 - last.0 else 0, cap)
  }

  lemma {:induction false} RunEnds(flags: seq<bool>)
    ensures forall j | 0 <= j < |Runs(flags)| :: Runs(flags)[j].0 < Runs(flags)[j].1 <= |flags|
  {
    if flags != [] {
      RunEnds(flags[..|flags| - 1]);
    }
  }

  /** A maximal run stays one when a flag is appended, or grows by it. */
  lemma RunExtends(flags: seq<bool>, a: nat, b: nat)
    requires flags != [] && MaximalRun(flags[..|flags| - 1], a, b)
    ensures b == |flags| - 1 && flags[b] ==> MaximalRun(flags, a, b + 1)
    ensures b < |flags| - 1 || !flags[|flags| - 1] ==> MaximalRun(flags, a, b)
  {
    assert flags[..|flags| - 1] + [flags[|flags| - 1]] == flags;
  }

  lemma RunOpens(flags: seq<bool>)
    requires flags != [] && flags[|flags| - 1] && (|flags| > 1 ==> !flags[|flags| - 2])
    ensures MaximalRun(flags, |flags| - 1, |flags|)
  {
  }

  /** Every run listed is maximal. */
  lemma {:induction false} RunIsMaximal(flags: seq<bool>, j: nat)
    requires j < |Runs(flags)|
    ensures MaximalRun(flags, Runs(flags)[j].0, Runs(flags)[j].1)
  {
    hide MaximalRun;
    var before := flags[..|flags| - 1];
    var was := Runs(before);
    RunEnds(before);
    if j < |was| {
      RunIsMaximal(before, j);
      RunExtends(flags, was[j].0, was[j].1);
      if j < |was| - 1 {
        RunsApart(before, j, |was| - 1);
      }
    } else {
      if |flags| > 1 && before[|flags| - 2] {
        OpenIsListed(before);
      }
      RunOpens(flags);
    }
  }

  lemma {:induction false} OpenIsListed(flags: seq<bool>)
    requires flags != [] && flags[|flags| - 1]
    ensures Runs(flags) != [] && Runs(flags)[|Runs(flags)| - 1].1 == |flags|
  {
  }

  /** The runs go from left to right with a gap between any two. */
  lemma {:induction false} RunsApart(flags: seq<bool>, i: nat, j: nat)
    requires i < j < |Runs(flags)|
    ensures Runs(flags)[i].1 < Runs(flags)[j].0
  {
    var before := flags[..|flags| - 1];
    var was := Runs(before);
    RunEnds(before);
    if j < |was| {
      RunsApart(before, i, j);
    } else {
      assert j == |was|;
      if i < |was| - 1 {
        RunsApart(before, i, |was| - 1);
      }
    }
  }

  /** A maximal run without the last flag. */
  lemma RunShrinks(flags: seq<bool>, a: nat, b: nat)
    requires MaximalRun(flags, a, b)
    ensures var n := |flags| - 1;
            (b <= n ==> MaximalRun(flags[..n], a, b)) && (b == n ==> !flags[n]) &&
            (b > n ==> b == n + 1 && flags[n] && (a < n ==> MaximalRun(flags[..n], a, n)) && (a >= n ==> a == n))
    ensures var n := |flags| - 1; a == n > 0 ==> !flags[n - 1]
  {
  }

  /** Every maximal run is listed. */
  lemma {:induction false} RunIsListed(flags: seq<bool>, a: nat, b: nat)
    requires MaximalRun(flags, a, b)
    ensures (a, b) in Runs(flags)
  {
    var n, before := |flags| - 1, flags[..|flags| - 1];
    var was := Runs(before);
    RunShrinks(flags, a, b);
    RunEnds(before);
    if b <= n {
      hide MaximalRun;
      RunIsListed(before, a, b);
      var i :| 0 <= i < |was| && was[i] == (a, b);
      assert Runs(flags)[i] == (a, b);
    } else if a < n {
      hide MaximalRun;
      RunIsListed(before, a, n);
      var i :| 0 <= i < |was| && was[i] == (a, n);
      if i < |was| - 1 {
        RunsApart(before, i, |was| - 1);
      }
      assert Runs(flags)[|was| - 1] == (a, b);
    } else {
      if was != [] && was[|was| - 1].1 == n {
        RunIsMaximal(before, |was| - 1);
      }
      assert Runs(flags)[|was|] == (a, b);
    }
  }

  /** The run still open after these flags, and the excess of those that are not. */
  function OpenLength(flags: seq<bool>): nat {
    if flags == [] || !flags[|flags| - 1] then 0 else OpenLength(flags[..|flags| - 1]) + 1
  }

  function ClosedRuns(flags: seq<bool>): seq<(nat, nat)> {
    var runs := Runs(flags);
    if runs != [] && runs[|runs| - 1].1 == |flags| then runs[..|runs| - 1] else runs
  }

  lemma {:induction false} OpenIsLast(flags: seq<bool>)
    ensures OpenLength(flags) <= |flags|
    ensures if OpenLength(flags) == 0 then ClosedRuns(flags) == Runs(flags)
            else Runs(flags) == ClosedRuns(flags) + [(|flags| - OpenLength(flags), |flags|)]
  {
    RunEnds(flags);
    if flags != [] {
      var before := flags[..|flags| - 1];
      RunEnds(before);
      OpenIsLast(before);
    }
  }

  lemma ExcessAppend(runs: seq<(nat, nat)>, run: (nat, nat), cap: nat)
    ensures ExcessOf(runs + [run], cap) == ExcessOf(runs, cap) + Over(if run.0 < run.1 then run.1 - run.0 else 0, cap)
  {
    assert (runs + [run])[..|runs|] == runs;
  }

  /** What a flag does to the runs closed and the one open. */
  lemma RunStep(flags: seq<bool>, f: bool, cap: nat)
    ensures OpenLength(flags + [f]) == if f then OpenLength(flags) + 1 else 0
    ensures ExcessOf(ClosedRuns(flags + [f]), cap) ==
            ExcessOf(ClosedRuns(flags), cap) + if f then 0 else Over(OpenLength(flags), cap)
  {
    hide ExcessOf;
    assert (flags + [f])[..|flags|] == flags;
    OpenIsLast(flags);
    OpenIsLast(flags + [f]);
    RunEnds(flags);
    RunEnds(flags + [f]);
    if OpenLength(flags) > 0 {
      ExcessAppend(ClosedRuns(flags), (|flags| - OpenLength(flags), |flags|), cap);
    }
  }

  /** How far the runs of flags go past the cap, together. */
  method Excess(flags: seq<bool>, cap: nat) returns (total: nat)
    ensures total == ExcessOf(Runs(flags), cap)
  {
    hide ExcessOf, OpenLength, ClosedRuns, Runs;
    var padded := flags + [false];
    total := 0;
    var run := 0;
    NoRuns(cap);
    for i := 0 to |padded|
      invariant run == OpenLength(padded[..i]) && total == ExcessOf(ClosedRuns(padded[..i]), cap)
    {
      assert padded[..i + 1] == padded[..i] + [padded[i]];
      RunStep(padded[..i], padded[i], cap);
      if padded[i] {
        run := run + 1;
      } else {
        total := total + Over(run, cap);
        run := 0;
      }
    }
    assert padded[..|padded|] == padded;
    PaddedRuns(flags);
  }

  lemma NoRuns(cap: nat)
    ensures OpenLength([]) == 0 && ClosedRuns([]) == [] && ExcessOf([], cap) == 0
  {
  }

  lemma PaddedRuns(flags: seq<bool>)
    ensures ClosedRuns(flags + [false]) == Runs(flags)
  {
    assert (flags + [false])[..|flags|] == flags;
    RunEnds(flags);
  }

  // ---------------------------------------------------------------- the verdict

  datatype Message = Grew(name: string) | FloorRose(name: string) | Below(name: string)

  type Counts = map<string, int>

  predicate Measures(names: seq<string>, m: Counts) {
    forall i | 0 <= i < |names| :: names[i] in m
  }

  predicate HasGrown(name: string, now: Counts, tree: Counts)
    requires name in now && name in tree
  {
    now[name] > tree[name]
  }

  predicate HasRisen(name: string, tree: Counts, ref: Option<Counts>)
    requires name in tree
  {
    ref.Some? && name in ref.value && tree[name] > ref.value[name]
  }

  /** What is said of one measure. */
  function MessagesFor(name: string, now: Counts, tree: Counts, ref: Option<Counts>): seq<Message>
    requires name in now && name in tree
  {
    (if HasGrown(name, now, tree) then [Grew(name)] else []) +
    (if HasRisen(name, tree, ref) then [FloorRose(name)] else []) +
    (if now[name] < tree[name] then [Below(name)] else [])
  }

  function Messages(gated: seq<string>, now: Counts, tree: Counts, ref: Option<Counts>): seq<Message>
    requires Measures(gated, now) && Measures(gated, tree)
  {
    if gated == [] then []
    else
      var n := |gated| - 1;
      Messages(gated[..n], now, tree, ref) + MessagesFor(gated[n], now, tree, ref)
  }

  predicate IsFailure(m: Message) {
    m.Grew? || m.FloorRose?
  }

  predicate Fails(messages: seq<Message>) {
    exists i :: 0 <= i < |messages| && IsFailure(messages[i])
  }

  /** What each message means. */
  ghost predicate Warranted(m: Message, gated: seq<string>, now: Counts, tree: Counts, ref: Option<Counts>)
    requires Measures(gated, now) && Measures(gated, tree)
  {
    m.name in gated && m.name in now && m.name in tree &&
    match m
    case Grew(name) => now[name] > tree[name]
    case FloorRose(name) => ref.Some? && name in ref.value && tree[name] > ref.value[name]
    case Below(name) => now[name] < tree[name]
  }

  /** A message is sent exactly when it is warranted. */
  lemma {:induction false} MessagesMean(gated: seq<string>, now: Counts, tree: Counts, ref: Option<Counts>, m: Message)
    requires Measures(gated, now) && Measures(gated, tree)
    ensures m in Messages(gated, now, tree, ref) <==> Warranted(m, gated, now, tree, ref)
  {
    if gated != [] {
      var n := |gated| - 1;
      MessagesMean(gated[..n], now, tree, ref, m);
      assert gated == gated[..n] + [gated[n]];
      assert m in MessagesFor(gated[n], now, tree, ref) <==> m.name == gated[n] && Warranted(m, gated, now, tree, ref);
    }
  }

  /** A failure is reported exactly when some measure is past its floor, or some floor past the reference's. */
  lemma FailsMean(gated: seq<string>, now: Counts, tree: Counts, ref: Option<Counts>)
    requires Measures(gated, now) && Measures(gated, tree)
    ensures Fails(Messages(gated, now, tree, ref)) <==>
      exists name :: name in gated && name in now && name in tree &&
                     (now[name] > tree[name] || (ref.Some? && name in ref.value && tree[name] > ref.value[name]))
  {
    hide Messages;
    var messages := Messages(gated, now, tree, ref);
    if Fails(messages) {
      var i :| 0 <= i < |messages| && IsFailure(messages[i]);
      assert messages[i] in messages;
      MessagesMean(gated, now, tree, ref, messages[i]);
    }
    if name :| name in gated && name in now && name in tree &&
               (now[name] > tree[name] || (ref.Some? && name in ref.value && tree[name] > ref.value[name])) {
      var m := if now[name] > tree[name] then Grew(name) else FloorRose(name);
      assert Warranted(m, gated, now, tree, ref);
      MessagesMean(gated, now, tree, ref, m);
    }
  }

  /**
   The measurement fails exactly when a failure is reported: some measure past its floor, or some floor past the
   reference's.
   */
  method Verdict(gated: seq<string>, now: Counts, tree: Counts, ref: Option<Counts>)
      returns (rc: int, messages: seq<Message>)
    requires Measures(gated, now) && Measures(gated, tree)
    ensures messages == Messages(gated, now, tree, ref)
    ensures rc == if Fails(messages) then 1 else 0
  {
    hide HasGrown, HasRisen, Fails;
    rc, messages := 0, [];
    NoFailure();
    for i := 0 to |gated|
      invariant messages == Messages(gated[..i], now, tree, ref)
      invariant rc == if Fails(messages) then 1 else 0
    {
      var name := gated[i];
      assert gated[..i + 1][..i] == gated[..i];
      ghost var before := messages;
      if HasGrown(name, now, tree) {
        rc := 1;
        FailsAppend(messages, Grew(name));
        messages := messages + [Grew(name)];
      }
      if HasRisen(name, tree, ref) {
        rc := 1;
        FailsAppend(messages, FloorRose(name));
        messages := messages + [FloorRose(name)];
      }
      if now[name] < tree[name] {
        FailsAppend(messages, Below(name));
        messages := messages + [Below(name)];
      }
      assert messages == before + MessagesFor(name, now, tree, ref);
    }
    assert gated[..|gated|] == gated;
  }

  lemma NoFailure()
    ensures !Fails([])
  {
  }

  lemma FailsAppend(messages: seq<Message>, m: Message)
    ensures Fails(messages + [m]) <==> Fails(messages) || IsFailure(m)
  {
    var more := messages + [m];
    if Fails(messages) {
      var i :| 0 <= i < |messages| && IsFailure(messages[i]);
      assert IsFailure(more[i]);
    }
    assert more[|messages|] == m;
  }
}
