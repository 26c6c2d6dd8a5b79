/**
 The NUL-separated name-status stream of a diff as two gates read it: the artifact gate, which must see both sides of a
 move, and the path gate, which scans what is in the tree afterwards.
 */
module NameStatus {
  import opened Text
  import opened Wrappers

  const NUL := '\0'

  /** A diff row: one path, or the old and new sides of a rename or copy. */
  datatype Entry = One(status: string, path: string) | Moved(status: string, from: string, to: string)

  predicate MovesPath(status: string) {
    status != "" && (status[0] == 'R' || status[0] == 'C')
  }

  /** A row as the diff prints it: a status of its kind, nothing holding a NUL. */
  predicate Printable(e: Entry) {
    e.status != "" && NUL !in e.status && (e.Moved? <==> MovesPath(e.status)) &&
    match e
    case One(_, path) => NUL !in path
    case Moved(_, from, to) => NUL !in from && NUL !in to
  }

  function FieldsOf(e: Entry): seq<string> {
    match e
    case One(status, path) => [status, path]
    case Moved(status, from, to) => [status, from, to]
  }

  function Fields(entries: seq<Entry>): seq<string> {
    if entries == [] then [] else FieldsOf(entries[0]) + Fields(entries[1..])
  }

  /** The stream: every field followed by a NUL. */
  function Printed(entries: seq<Entry>): string {
    Join(Fields(entries) + [""], NUL)
  }

  // ---------------------------------------------------------------- what the rows say

  /** A changed path, and whether its content enters the tree. */
  datatype Change = Change(letter: char, path: string, arrives: bool)

  function ChangesOf(e: Entry): seq<Change>
    requires e.status != ""
  {
    match e
    case One(status, path) => [Change(status[0], path, status[0] == 'A' || status[0] == 'M')]
    case Moved(status, from, to) => [Change(status[0], from, false), Change(status[0], to, true)]
  }

  function Changes(entries: seq<Entry>): seq<Change>
    requires forall e | e in entries :: Printable(e)
  {
    if entries == [] then []
    else
      assert Printable(entries[0]);
      ChangesOf(entries[0]) + Changes(entries[1..])
  }

  /** The side of a row whose path the tree has afterwards. */
  function NewSide(e: Entry): string {
    match e
    case One(_, path) => path
    case Moved(_, _, to) => to
  }

  function NewSides(entries: seq<Entry>): seq<string> {
    if entries == [] then [] else [NewSide(entries[0])] + NewSides(entries[1..])
  }

  // ---------------------------------------------------------------- the artifact gate's reading

  /** What the artifact gate reads from field `i` on; none when a row runs off the end. */
  function ArtifactFrom(fields: seq<string>, i: nat): Option<seq<Change>>
    decreases |fields| - i
  {
    if i >= |fields| || fields[i] == "" then Some([])
    else
      var width := if MovesPath(fields[i]) then 3 else 2;
      if i + width > |fields| then None
      else
        var rest := ArtifactFrom(fields, i + width);
        if rest.None? then None
        else if width == 3 then
          Some([Change(fields[i][0], fields[i + 1], false), Change(fields[i][0], fields[i + 2], true)] + rest.value)
        else Some([Change(fields[i][0], fields[i + 1], fields[i][0] == 'A' || fields[i][0] == 'M')] + rest.value)
  }

  /** What is found so far, and the rest after it. */
  function Onto(found: seq<Change>, rest: Option<seq<Change>>): Option<seq<Change>> {
    if rest.None? then None else Some(found + rest.value)
  }

  lemma RowOnto(fields: seq<string>, i: nat, found: seq<Change>)
    requires i < |fields| && fields[i] != ""
    ensures var width := if MovesPath(fields[i]) then 3 else 2;
            i + width > |fields| ==> ArtifactFrom(fields, i).None?
    ensures i + 2 < |fields| && MovesPath(fields[i]) ==>
      Onto(found, ArtifactFrom(fields, i)) ==
        Onto(found + [Change(fields[i][0], fields[i + 1], false)] + [Change(fields[i][0], fields[i + 2], true)],
             ArtifactFrom(fields, i + 3))
    ensures i + 1 < |fields| && !MovesPath(fields[i]) ==>
      Onto(found, ArtifactFrom(fields, i)) ==
        Onto(found + [Change(fields[i][0], fields[i + 1], fields[i][0] == 'A' || fields[i][0] == 'M')],
             ArtifactFrom(fields, i + 2))
  {
    var width := if MovesPath(fields[i]) then 3 else 2;
    if i + width <= |fields| && ArtifactFrom(fields, i).Some? {
      var rest := ArtifactFrom(fields, i + width).value;
      if width == 3 {
        var two := [Change(fields[i][0], fields[i + 1], false), Change(fields[i][0], fields[i + 2], true)];
        assert found + (two + rest) == found + [two[0]] + [two[1]] + rest;
      } else {
        var one := [Change(fields[i][0], fields[i + 1], fields[i][0] == 'A' || fields[i][0] == 'M')];
        assert found + (one + rest) == found + one + rest;
      }
    }
  }

  /** The gate's loop; no list when a field is missing. */
  method ReadChanges(raw: string) returns (changed: Option<seq<Change>>)
    ensures changed == ArtifactFrom(Split(raw, NUL), 0)
  {
    hide Split, Join;
    var fields := Split(raw, NUL);
    var found: seq<Change> := [];
    var i: nat := 0;
    assert ArtifactFrom(fields, 0).Some? ==> [] + ArtifactFrom(fields, 0).value == ArtifactFrom(fields, 0).value;
    while i < |fields| && fields[i] != ""
      invariant i <= |fields|
      invariant ArtifactFrom(fields, 0) == Onto(found, ArtifactFrom(fields, i))
      decreases |fields| - i
    {
      var status := fields[i];
      RowOnto(fields, i, found);
      if status[0] == 'R' || status[0] == 'C' {
        if i + 2 >= |fields| {
          return None;
        }
        found := found + [Change(status[0], fields[i + 1], false)];
        found := found + [Change(status[0], fields[i + 2], true)];
        i := i + 3;
      } else {
        if i + 1 >= |fields| {
          return None;
        }
        found := found + [Change(status[0], fields[i + 1], status[0] == 'A' || status[0] == 'M')];
        i := i + 2;
      }
    }
    assert found + [] == found;
    changed := Some(found);
  }

  // ---------------------------------------------------------------- the path gate's reading

  /** What the path gate reads from field `i` on. */
  function TargetsFrom(fields: seq<string>, i: nat): seq<string>
    decreases |fields| - i
  {
    if i >= |fields| then []
    else if fields[i] == "" then TargetsFrom(fields, i + 1)
    else
      var width := if MovesPath(fields[i]) then 3 else 2;
      (if i + width <= |fields| then [fields[i + width - 1]] else []) + TargetsFrom(fields, i + width)
  }

  lemma RowTarget(fields: seq<string>, i: nat)
    ensures i >= |fields| ==> TargetsFrom(fields, i) == []
    ensures i < |fields| && fields[i] == "" ==> TargetsFrom(fields, i) == TargetsFrom(fields, i + 1)
    ensures i < |fields| && MovesPath(fields[i]) ==>
      TargetsFrom(fields, i) == (if i + 2 < |fields| then [fields[i + 2]] else []) + TargetsFrom(fields, i + 3)
    ensures i < |fields| && fields[i] != "" && !MovesPath(fields[i]) ==>
      TargetsFrom(fields, i) == (if i + 1 < |fields| then [fields[i + 1]] else []) + TargetsFrom(fields, i + 2)
  {
  }

  /** The gate's loop, and its filter to the tracked files. */
  method TargetFiles(raw: string, tracked: set<string>) returns (paths: seq<string>)
    ensures paths == Tracked(TargetsFrom(Split(raw, NUL), 0), tracked)
  {
    hide Split, Join, TargetsFrom;
    var fields := Split(raw, NUL);
    var out: seq<string> := [];
    var i: nat := 0;
    while i < |fields|
      invariant out + TargetsFrom(fields, i) == TargetsFrom(fields, 0)
      decreases |fields| - i
    {
      var status := fields[i];
      RowTarget(fields, i);
      if status == "" {
        i := i + 1;
      } else if status[0] == 'R' || status[0] == 'C' {
        if i + 2 < |fields| {
          out := out + [fields[i + 2]];
        }
        i := i + 3;
      } else {
        if i + 1 < |fields| {
          out := out + [fields[i + 1]];
        }
        i := i + 2;
      }
    }
    RowTarget(fields, i);
    assert out + [] == out;
    paths := OnlyTracked(out, tracked);
  }

  method OnlyTracked(out: seq<string>, tracked: set<string>) returns (paths: seq<string>)
    ensures paths == Tracked(out, tracked)
  {
    paths := [];
    for k := 0 to |out|
      invariant paths == Tracked(out[..k], tracked)
    {
      assert out[..k + 1][..k] == out[..k];
      if out[k] != "" && out[k] in tracked {
        paths := paths + [out[k]];
      }
    }
    assert out[..|out|] == out;
  }

  function Tracked(paths: seq<string>, tracked: set<string>): seq<string> {
    if paths == [] then []
    else
      var last := paths[|paths| - 1];
      Tracked(paths[..|paths| - 1], tracked) + if last != "" && last in tracked then [last] else []
  }

  // ---------------------------------------------------------------- the round trip

  lemma {:induction false} FieldsPlain(entries: seq<Entry>)
    requires forall e | e in entries :: Printable(e)
    ensures forall f | f in Fields(entries) :: NUL !in f
  {
    if entries != [] {
      FieldsPlain(entries[1..]);
      assert Printable(entries[0]);
    }
  }

  /** Splitting the printed stream gives its fields and one empty field more. */
  lemma FieldsBack(entries: seq<Entry>)
    requires forall e | e in entries :: Printable(e)
    ensures Split(Printed(entries), NUL) == Fields(entries) + [""]
  {
    FieldsPlain(entries);
    SplitOfJoin(Fields(entries) + [""], NUL);
  }

  lemma {:induction false} ReadsRows(fields: seq<string>, i: nat, entries: seq<Entry>)
    requires forall e | e in entries :: Printable(e)
    requires i <= |fields| && fields[i..] == Fields(entries) + [""]
    ensures ArtifactFrom(fields, i) == Some(Changes(entries))
    ensures TargetsFrom(fields, i) == NewSides(entries)
    decreases |entries|
  {
    assert fields[i] == fields[i..][0];
    if entries != [] {
      hide ArtifactFrom, TargetsFrom;
      var e := entries[0];
      var w := |FieldsOf(e)|;
      assert Printable(e);
      HeadRow(fields, i, entries);
      ReadsRows(fields, i + w, entries[1..]);
      RowReads(fields, i, e, Changes(entries[1..]), NewSides(entries[1..]));
      hide Fields, Printable, FieldsOf, ChangesOf, NewSide;
    } else {
      assert |fields| == i + 1;
    }
  }

  /** One row's fields read, and the rest after it. */
  lemma RowReads(fields: seq<string>, i: nat, e: Entry, changes: seq<Change>, sides: seq<string>)
    requires Printable(e) && i + |FieldsOf(e)| <= |fields|
    requires forall k | 0 <= k < |FieldsOf(e)| :: fields[i + k] == FieldsOf(e)[k]
    requires ArtifactFrom(fields, i + |FieldsOf(e)|) == Some(changes)
    requires TargetsFrom(fields, i + |FieldsOf(e)|) == sides
    ensures ArtifactFrom(fields, i) == Some(ChangesOf(e) + changes)
    ensures TargetsFrom(fields, i) == [NewSide(e)] + sides
  {
    hide ArtifactFrom, TargetsFrom;
    assert fields[i + 0] == FieldsOf(e)[0] == e.status;
    assert fields[i + 1] == FieldsOf(e)[1];
    RowOnto(fields, i, []);
    RowTarget(fields, i);
    OntoNothing(ArtifactFrom(fields, i));
    if e.Moved? {
      assert fields[i + 2] == FieldsOf(e)[2];
      assert [] + [Change(e.status[0], e.from, false)] + [Change(e.status[0], e.to, true)] == ChangesOf(e);
    } else {
      assert [] + [Change(e.status[0], e.path, e.status[0] == 'A' || e.status[0] == 'M')] == ChangesOf(e);
    }
  }

  lemma OntoNothing(rest: Option<seq<Change>>)
    ensures Onto([], rest) == rest
  {
    assert rest.Some? ==> [] + rest.value == rest.value;
  }

  /** The first row's fields come first, and the others' after them. */
  lemma HeadRow(fields: seq<string>, i: nat, entries: seq<Entry>)
    requires entries != [] && i <= |fields| && fields[i..] == Fields(entries) + [""]
    ensures var w := |FieldsOf(entries[0])|;
            && i + w < |fields| && fields[i..i + w] == FieldsOf(entries[0])
            && (forall k | 0 <= k < w :: fields[i + k] == FieldsOf(entries[0])[k])
            && fields[i + w..] == Fields(entries[1..]) + [""]
  {
    var head := FieldsOf(entries[0]);
    var all := fields[i..];
    assert all == head + (Fields(entries[1..]) + [""]);
    assert forall k | 0 <= k < |head| :: fields[i + k] == all[k] == head[k];
    assert fields[i + |head|..] == all[|head|..];
  }

  /** Printed and read back, each gate has the rows: the one every side of every change, the other the new sides. */
  lemma PrintedReadsBack(entries: seq<Entry>)
    requires forall e | e in entries :: Printable(e)
    ensures ArtifactFrom(Split(Printed(entries), NUL), 0) == Some(Changes(entries))
    ensures TargetsFrom(Split(Printed(entries), NUL), 0) == NewSides(entries)
  {
    FieldsBack(entries);
    var fields := Split(Printed(entries), NUL);
    assert fields[0..] == fields;
    ReadsRows(fields, 0, entries);
  }

  // ---------------------------------------------------------------- the two readings compared

  /** The paths of a reading that are not the old side of a move: a moved path's two sides come in a row. */
  function NewPaths(changed: seq<Change>): seq<string> {
    if changed == [] then []
    else if MovesPath([changed[0].letter]) then
      (if |changed| > 1 then [changed[1].path] + NewPaths(changed[2..]) else [])
    else [changed[0].path] + NewPaths(changed[1..])
  }

  /** On any stream at all, what the artifact gate reads, the path gate reads too, and first. */
  lemma {:induction false} ReadingsAgree(fields: seq<string>, i: nat)
    requires ArtifactFrom(fields, i).Some?
    ensures NewPaths(ArtifactFrom(fields, i).value) <= TargetsFrom(fields, i)
    decreases |fields| - i
  {
    if i < |fields| && fields[i] != "" {
      var width := if MovesPath(fields[i]) then 3 else 2;
      ReadingsAgree(fields, i + width);
      var changed, rest := ArtifactFrom(fields, i).value, ArtifactFrom(fields, i + width).value;
      assert changed[width - 1..] == rest;
      assert MovesPath([changed[0].letter]) <==> MovesPath(fields[i]);
    }
  }

  /** On a printed stream the two see the same new sides. */
  lemma {:induction false} SameNewSides(entries: seq<Entry>)
    requires forall e | e in entries :: Printable(e)
    ensures NewPaths(Changes(entries)) == NewSides(entries)
  {
    if entries != [] {
      SameNewSides(entries[1..]);
      assert Printable(entries[0]);
      assert MovesPath([entries[0].status[0]]) <==> MovesPath(entries[0].status);
      assert Changes(entries)[|ChangesOf(entries[0])|..] == Changes(entries[1..]);
    }
  }

  /** What arrives is what was added, what was modified and where a move went; no old side does. */
  lemma {:induction false} ArrivingSides(entries: seq<Entry>, c: Change)
    requires forall e | e in entries :: Printable(e)
    ensures c in Changes(entries) && c.arrives <==>
      exists e :: e in entries && c == Change(e.status[0], NewSide(e), true) && (e.Moved? || e.status[0] in {'A', 'M'})
  {
    if entries != [] {
      var head := entries[0];
      assert Printable(head) && entries == [head] + entries[1..];
      ArrivingSides(entries[1..], c);
      if c in ChangesOf(head) && c.arrives {
        assert head in entries && c == Change(head.status[0], NewSide(head), true);
      }
    }
  }

  // ---------------------------------------------------------------- the violations

  const ARTIFACT_DIRS := ["reports/", "checkpoints/", "logs/", "benchmarks/"]
  const FIXTURES_PREFIX := "tests/fixtures/"
  const MAX_ADDED_BYTES := 1_000_000
  const MAX_FIXTURE_BYTES := 10_000_000

  predicate EndsWith(s: string, tail: string) {
    |s| >= |tail| && s[|s| - |tail|..] == tail
  }

  predicate InArtifactDir(path: string) {
    exists i :: 0 <= i < |ARTIFACT_DIRS| && ARTIFACT_DIRS[i] <= path
  }

  /** An arriving file the gate refuses: too big for where it is, or a record stream outside the fixtures. */
  predicate BadArrival(path: string, size: nat, lower: string -> string) {
    if FIXTURES_PREFIX <= path then size > MAX_FIXTURE_BYTES
    else size > MAX_ADDED_BYTES || EndsWith(lower(path), ".jsonl")
  }

  /** No size can be read for this change, which is to be sized. */
  predicate Unsized(c: Change, size: string -> Option<nat>) {
    c.arrives && size(c.path).None?
  }

  predicate Bad(c: Change, size: string -> Option<nat>, lower: string -> string) {
    InArtifactDir(c.path) || (c.arrives && size(c.path).Some? && BadArrival(c.path, size(c.path).value, lower))
  }

  predicate AnyUnsized(changed: seq<Change>, size: string -> Option<nat>) {
    exists k :: 0 <= k < |changed| && Unsized(changed[k], size)
  }

  predicate AnyBad(changed: seq<Change>, size: string -> Option<nat>, lower: string -> string) {
    exists k :: 0 <= k < |changed| && Bad(changed[k], size, lower)
  }

  /** 2 when some arriving file cannot be sized, else 1 when some change is bad, else 0. */
  method JudgeChanges(changed: seq<Change>, size: string -> Option<nat>, lower: string -> string) returns (rc: int)
    ensures rc == if AnyUnsized(changed, size) then 2 else if AnyBad(changed, size, lower) then 1 else 0
  {
    hide InArtifactDir;
    var violations := 0;
    for k := 0 to |changed|
      invariant violations >= 0 && (violations > 0 <==> AnyBad(changed[..k], size, lower))
      invariant !AnyUnsized(changed[..k], size)
    {
      var c := changed[k];
      assert changed[..k + 1] == changed[..k] + [c];
      JudgedNext(changed, k, size, lower);
      if InArtifactDir(c.path) {
        violations := violations + 1;
      }
      if c.arrives {
        var s := size(c.path);
        if s.None? {
          assert Unsized(changed[k], size);
          return 2;
        }
        if FIXTURES_PREFIX <= c.path {
          if s.value > MAX_FIXTURE_BYTES {
            violations := violations + 1;
          }
        } else if s.value > MAX_ADDED_BYTES {
          violations := violations + 1;
        }
        if EndsWith(lower(c.path), ".jsonl") && !(FIXTURES_PREFIX <= c.path) {
          violations := violations + 1;
        }
      }
    }
    assert changed[..|changed|] == changed;
    rc := if violations > 0 then 1 else 0;
  }

  lemma JudgedNext(changed: seq<Change>, k: nat, size: string -> Option<nat>, lower: string -> string)
    requires k < |changed|
    ensures AnyBad(changed[..k + 1], size, lower) <==> AnyBad(changed[..k], size, lower) || Bad(changed[k], size, lower)
    ensures AnyUnsized(changed[..k + 1], size) <==> AnyUnsized(changed[..k], size) || Unsized(changed[k], size)
  {
    var more, before := changed[..k + 1], changed[..k];
    assert forall j | 0 <= j < k :: more[j] == before[j];
    assert more[k] == changed[k];
  }

  // ---------------------------------------------------------------- the letters, the filter and the sizing

  /** A rename's or a copy's row, whatever its score, has two paths; any other letter's has one. */
  lemma RowsPrintable(score: string, letter: char, path: string, to: string)
    requires NUL !in score && NUL !in path && NUL !in to && letter != NUL
    ensures Printable(Moved("R" + score, path, to)) && Printable(Moved("C" + score, path, to))
    ensures letter != 'R' && letter != 'C' ==> Printable(One([letter] + score, path))
    ensures !Printable(One("R" + score, path)) && !Printable(One("C" + score, path))
  {
  }

  /** The filter keeps the tracked paths, in their order, and no other. */
  lemma {:induction false} TrackedMeans(a: seq<string>, b: seq<string>, tracked: set<string>, path: string)
    ensures Tracked(a + b, tracked) == Tracked(a, tracked) + Tracked(b, tracked)
    ensures path in Tracked(b, tracked) <==> path in b && path in tracked && path != ""
    decreases |b|
  {
    if b == [] {
      assert a + b == a;
    } else {
      var n := |b| - 1;
      assert (a + b)[..|a + b| - 1] == a + b[..n];
      assert b == b[..n] + [b[n]];
      TrackedMeans(a, b[..n], tracked, path);
    }
  }

  /** Some change cannot be sized exactly when some row's new side arrives and has no size. */
  lemma {:induction false} UnsizedMeans(entries: seq<Entry>, size: string -> Option<nat>)
    requires forall e | e in entries :: Printable(e)
    ensures AnyUnsized(Changes(entries), size) <==>
      exists e :: e in entries && e.status != "" && (e.Moved? || e.status[0] == 'A' || e.status[0] == 'M') &&
                  size(NewSide(e)) == None
  {
    var changed := Changes(entries);
    if AnyUnsized(changed, size) {
      var k :| 0 <= k < |changed| && Unsized(changed[k], size);
      ArrivingSides(entries, changed[k]);
      assert changed[k] in changed;
    }
    if e :| e in entries && e.status != "" && (e.Moved? || e.status[0] == 'A' || e.status[0] == 'M') &&
            size(NewSide(e)) == None {
      var c := Change(e.status[0], NewSide(e), true);
      ArrivingSides(entries, c);
      var k :| 0 <= k < |changed| && changed[k] == c;
      assert Unsized(changed[k], size);
    }
  }

  // ---------------------------------------------------------------- the rules, row by row

  /** The path lies in a directory. */
  ghost predicate Under(dir: string, path: string) {
    exists rest :: path == dir + rest
  }

  /** The path lies in a directory that holds run artifacts. */
  ghost predicate UnderArtifacts(path: string) {
    Under("reports/", path) || Under("checkpoints/", path) || Under("logs/", path) || Under("benchmarks/", path)
  }

  /**
   What may not arrive: in the fixtures a file past ten million bytes; elsewhere one past a million, or a record stream.
   */
  ghost predicate MayNotArrive(path: string, bytes: nat, lower: string -> string) {
    if Under("tests/fixtures/", path) then bytes >= 10_000_001
    else bytes >= 1_000_001 || exists stem :: lower(path) == stem + ".jsonl"
  }

  /** A row whose diff the gate refuses: a side among the artifacts, or a new side that may not arrive. */
  ghost predicate Refused(e: Entry, size: string -> Option<nat>, lower: string -> string)
    requires Printable(e)
  {
    || UnderArtifacts(NewSide(e))
    || (e.Moved? && UnderArtifacts(e.from))
    || ((e.Moved? || e.status[0] == 'A' || e.status[0] == 'M') && size(NewSide(e)).Some? &&
        MayNotArrive(NewSide(e), size(NewSide(e)).value, lower))
  }

  lemma UnderMeans(dir: string, path: string)
    ensures Under(dir, path) <==> dir <= path
  {
    if dir <= path {
      assert path == dir + path[|dir|..];
    }
  }

  lemma DirsMean(path: string)
    ensures InArtifactDir(path) <==> UnderArtifacts(path)
  {
    hide Under;
    UnderMeans("reports/", path);
    UnderMeans("checkpoints/", path);
    UnderMeans("logs/", path);
    UnderMeans("benchmarks/", path);
    assert ARTIFACT_DIRS[0] == "reports/" && ARTIFACT_DIRS[1] == "checkpoints/";
    assert ARTIFACT_DIRS[2] == "logs/" && ARTIFACT_DIRS[3] == "benchmarks/";
  }

  /** The two size bounds and the record-stream rule, at their edges. */
  lemma ArrivalMeans(path: string, bytes: nat, lower: string -> string)
    ensures BadArrival(path, bytes, lower) <==> MayNotArrive(path, bytes, lower)
  {
    hide Under;
    UnderMeans("tests/fixtures/", path);
    var folded := lower(path);
    if EndsWith(folded, ".jsonl") {
      assert folded == folded[..|folded| - 6] + ".jsonl";
    }
    if stem :| folded == stem + ".jsonl" {
      assert folded[|folded| - 6..] == ".jsonl";
    }
  }

  lemma RowBad(e: Entry, size: string -> Option<nat>, lower: string -> string)
    requires Printable(e)
    ensures (exists c :: c in ChangesOf(e) && Bad(c, size, lower)) <==> Refused(e, size, lower)
  {
    hide UnderArtifacts, InArtifactDir, MayNotArrive, BadArrival;
    forall c | c in ChangesOf(e)
      ensures InArtifactDir(c.path) <==> UnderArtifacts(c.path)
      ensures forall bytes :: BadArrival(c.path, bytes, lower) <==> MayNotArrive(c.path, bytes, lower)
    {
      DirsMean(c.path);
      forall bytes ensures BadArrival(c.path, bytes, lower) <==> MayNotArrive(c.path, bytes, lower) {
        ArrivalMeans(c.path, bytes, lower);
      }
    }
    match e
    case One(_, _) => assert ChangesOf(e)[0] in ChangesOf(e);
    case Moved(_, _, _) => assert ChangesOf(e)[0] in ChangesOf(e) && ChangesOf(e)[1] in ChangesOf(e);
  }

  /** A diff breaks a rule exactly when one of its rows is refused. */
  lemma {:induction false} GateMeans(entries: seq<Entry>, size: string -> Option<nat>, lower: string -> string)
    requires forall e | e in entries :: Printable(e)
    ensures AnyBad(Changes(entries), size, lower) <==>
      exists i :: 0 <= i < |entries| && Printable(entries[i]) && Refused(entries[i], size, lower)
  {
    hide Bad, Refused;
    if entries != [] {
      var head, rest := entries[0], entries[1..];
      assert Printable(head);
      GateMeans(rest, size, lower);
      RowBad(head, size, lower);
      BadJoin(ChangesOf(head), Changes(rest), size, lower);
      forall i | 0 <= i < |rest| && Printable(rest[i]) && Refused(rest[i], size, lower)
        ensures entries[i + 1] == rest[i]
      {
      }
      if i :| 0 <= i < |entries| && Printable(entries[i]) && Refused(entries[i], size, lower) {
        if i > 0 {
          assert rest[i - 1] == entries[i];
        }
      }
    }
  }

  lemma BadJoin(a: seq<Change>, b: seq<Change>, size: string -> Option<nat>, lower: string -> string)
    ensures AnyBad(a + b, size, lower) <==> (exists c :: c in a && Bad(c, size, lower)) || AnyBad(b, size, lower)
  {
    hide Bad;
    if k :| 0 <= k < |a + b| && Bad((a + b)[k], size, lower) {
      assert k < |a| ==> (a + b)[k] in a;
      assert k >= |a| ==> (a + b)[k] == b[k - |a|];
    }
    if c :| c in a && Bad(c, size, lower) {
      var k :| 0 <= k < |a| && a[k] == c;
      assert (a + b)[k] == c;
    }
    if k :| 0 <= k < |b| && Bad(b[k], size, lower) {
      assert (a + b)[|a| + k] == b[k];
    }
  }
}
