/**
 A session's results read off its events alone: which start put each game on and on which side, and which finishes were
 scored as won, lost or aborted. The counters and the receipts of every run are those.
 */
module LadderOutcomes {
  import opened Lattice
  import opened LadderBoard
  import opened LadderBook
  import opened LadderSession
  import opened Wrappers

  /** The start that put a game on, by its place among the events; None for a game that is not on. */
  ghost function StartOf(o: Options, events: seq<Event>, id: string): Option<nat> {
    if events == [] then None
    else
      var n := |events| - 1;
      var before, last := StartOf(o, events[..n], id), events[n];
      if !Run(o, events[..n]).status.Running? then before
      else if last.GameStart? && last.gameId == id && before.None? && !Run(o, events).status.Failed? then Some(n)
      else if last.GameFinish? && last.gameId == id then None
      else before
  }

  lemma {:induction false} StartIsStart(o: Options, events: seq<Event>, id: string)
    ensures var k := StartOf(o, events, id);
            k.Some? ==> k.value < |events| && events[k.value].GameStart? && events[k.value].gameId == id
  {
    if events != [] {
      StartIsStart(o, events[..|events| - 1], id);
    }
  }

  /** A game's receipt carries the side and the opponent of the start that put it on. */
  ghost predicate Seated(o: Options, events: seq<Event>, s: State, id: string) {
    SeatedAt(events, StartOf(o, events, id), s, id)
  }

  ghost predicate SeatedAt(events: seq<Event>, k: Option<nat>, s: State, id: string) {
    match k
    case None => id !in s.games
    case Some(i) =>
      && id in s.games && i < |events| && events[i].GameStart?
      && s.games[id].side == events[i].side && s.games[id].opponent == events[i].opponent
  }

  /** The games on are those the events put on, each on the side its start gave. */
  lemma {:induction false} GamesOn(o: Options, events: seq<Event>, id: string)
    ensures Seated(o, events, Run(o, events), id)
  {
    if events != [] {
      var n := |events| - 1;
      GamesOn(o, events[..n], id);
      SeatedStep(o, events, id);
    }
  }

  /** Where the start of the game on is, one event on. */
  ghost function NextStart(before: Option<nat>, s: State, e: Event, t: State, n: nat, id: string): Option<nat> {
    if !s.status.Running? then before
    else if e.GameStart? && e.gameId == id && before.None? && !t.status.Failed? then Some(n)
    else if e.GameFinish? && e.gameId == id then None
    else before
  }

  lemma LastStep(o: Options, events: seq<Event>)
    requires events != []
    ensures var n := |events| - 1; Run(o, events) == Step(o, Run(o, events[..n]), events[n])
  {
    hide Run, Step;
    RunNext(o, events, |events| - 1);
    assert events[..|events| - 1 + 1] == events;
  }

  lemma SeatedStep(o: Options, events: seq<Event>, id: string)
    requires events != [] && Seated(o, events[..|events| - 1], Run(o, events[..|events| - 1]), id)
    ensures Seated(o, events, Run(o, events), id)
  {
    var n := |events| - 1;
    hide Run, Step, GameMoves, SeatedAt;
    var s, t, e := Run(o, events[..n]), Run(o, events), events[n];
    var before := StartOf(o, events[..n], id);
    LastStep(o, events);
    assert StartOf(o, events, id) == NextStart(before, s, e, t, n, id);
    hide StartOf, NextStart;
    StepGames(o, s, e, id);
    SeatedMoves(events, s, t, before, id);
  }

  lemma SeatedMoves(events: seq<Event>, s: State, t: State, before: Option<nat>, id: string)
    requires events != []
    requires SeatedAt(events[..|events| - 1], before, s, id) && GameMoves(s, events[|events| - 1], t, id)
    ensures SeatedAt(events, NextStart(before, s, events[|events| - 1], t, |events| - 1, id), t, id)
  {
    var earlier := events[..|events| - 1];
    assert forall i | 0 <= i < |earlier| :: earlier[i] == events[i];
  }

  /** What an event does to the game under `id`. */
  ghost predicate GameMoves(s: State, e: Event, t: State, id: string) {
    if !s.status.Running? then t == s
    else if e.GameStart? && e.gameId == id && id !in s.games && !t.status.Failed? then
      id in t.games && t.games[id].side == e.side && t.games[id].opponent == e.opponent
    else if e.GameFinish? && e.gameId == id then id !in t.games
    else
      && (id in t.games <==> id in s.games)
      && (id in s.games && id in t.games ==>
            t.games[id].side == s.games[id].side && t.games[id].opponent == s.games[id].opponent)
  }

  lemma StepGames(o: Options, s: State, e: Event, id: string)
    ensures GameMoves(s, e, Step(o, s, e), id)
  {
    StepShape(o, s, e);
    if s.status.Running? {
      HandleIs(o, s, e);
      hide Handle, Start, Move, Finish, Open, EndChallenge;
      match e {
        case GameStart(_, _, _, _) => StartSeats(o, s, e); hide Step;
        case MoveRequest(_, _, _, _, _) => hide Step; MoveFrame(o, s, e);
        case GameFinish(_, _, _, _) => hide Step; FinishFrame(o, s, e); ClosedGames(s, e); hide Closed;
        case _ => hide Step; ChallengeFrame(o, s, e);
      }
    }
  }

  /** A start seats its game on the side it gives, unless the game is on or the book has no opening. */
  lemma StartSeats(o: Options, s: State, e: Event)
    requires e.GameStart? && s.status.Running?
    ensures var t := Step(o, s, e);
            && (e.gameId in s.games ==> t.games == s.games)
            && (e.gameId !in s.games && t.status.Failed? ==> t.games == s.games)
            && (e.gameId !in s.games && !t.status.Failed? ==>
                  && t.games.Keys == s.games.Keys + {e.gameId}
                  && t.games[e.gameId].side == e.side && t.games[e.gameId].opponent == e.opponent
                  && forall id | id in s.games :: t.games[id] == s.games[id])
  {
    hide LadderOpening, Ordinal, PlanDone;
  }

  lemma ClosedGames(s: State, e: Event)
    requires e.GameFinish?
    ensures Closed(s, e).games == s.games - {e.gameId}
  {
    hide Recorded, OutcomeFor;
  }

  // ---------------------------------------------------------------- the finishes scored

  /**
   The `i`-th event is the finish of a game on, heard by a running session that could read or do without the record.
   */
  ghost predicate Scored(o: Options, events: seq<Event>, i: nat) {
    && i < |events| && events[i].GameFinish? && !events[i].record.RecordDropped?
    && Run(o, events[..i]).status.Running? && StartOf(o, events[..i], events[i].gameId).Some?
  }

  /** The side the game's start gave the session. */
  ghost function SideOf(o: Options, events: seq<Event>, i: nat): Player
    requires Scored(o, events, i)
  {
    StartIsStart(o, events[..i], events[i].gameId);
    events[StartOf(o, events[..i], events[i].gameId).value].side
  }

  /** How the game came out for the session, as its finish tells. */
  ghost predicate CameOut(o: Options, events: seq<Event>, i: nat, r: Outcome) {
    Scored(o, events, i) &&
    match r
    case Win => events[i].winner == Some(SideOf(o, events, i))
    case Loss => events[i].winner == Some(Other(SideOf(o, events, i)))
    case Aborted => events[i].winner == None
  }

  /** A scored game comes out one way. */
  lemma OneOutcome(o: Options, events: seq<Event>, i: nat)
    requires Scored(o, events, i)
    ensures exists r :: CameOut(o, events, i, r)
    ensures forall r, t | CameOut(o, events, i, r) && CameOut(o, events, i, t) :: r == t
  {
    var winner := events[i].winner;
    if winner == None {
      assert CameOut(o, events, i, Aborted);
    } else if winner == Some(SideOf(o, events, i)) {
      assert CameOut(o, events, i, Win);
    } else {
      assert winner == Some(winner.value) && (winner.value == P1 || winner.value == P2);
      assert CameOut(o, events, i, Loss);
    }
  }

  lemma NoOutcome(o: Options, events: seq<Event>, i: nat)
    requires !Scored(o, events, i)
    ensures forall r :: !CameOut(o, events, i, r)
  {
    hide Scored;
  }

  /** The finishes that came out one way. */
  ghost function Finishes(o: Options, events: seq<Event>, r: Outcome): set<nat> {
    set i: nat | i < |events| && CameOut(o, events, i, r)
  }

  /** The scored finishes, in order. */
  ghost function ScoredList(o: Options, events: seq<Event>): seq<nat> {
    if events == [] then []
    else
      var n := |events| - 1;
      ScoredList(o, events[..n]) + if Scored(o, events, n) then [n] else []
  }

  /** Each receipt written is its finish's game, with the side its start gave and the way it came out. */
  ghost predicate Written(o: Options, events: seq<Event>, receipts: seq<Body>) {
    var list := ScoredList(o, events);
    |receipts| == |list| &&
    forall k | 0 <= k < |list| :: WrittenFor(o, events, list[k], receipts[k])
  }

  ghost predicate WrittenFor(o: Options, events: seq<Event>, i: nat, body: Body) {
    CameOut(o, events, i, body.outcome) && body.gameId == events[i].gameId && body.receipt.side == SideOf(o, events, i)
  }

  ghost predicate Counted(o: Options, events: seq<Event>, m: Summary) {
    && m.wins == |Finishes(o, events, Win)| && m.losses == |Finishes(o, events, Loss)|
    && m.aborted == |Finishes(o, events, Aborted)| && m.games == |ScoredList(o, events)|
  }

  /** What is scored of an event does not depend on the events after it. */
  lemma ScoredPrefix(o: Options, events: seq<Event>, i: nat)
    requires i < |events| - 1
    ensures var before := events[..|events| - 1];
            && Scored(o, before, i) == Scored(o, events, i)
            && (forall r :: CameOut(o, before, i, r) <==> CameOut(o, events, i, r))
            && (forall body :: WrittenFor(o, before, i, body) <==> WrittenFor(o, events, i, body))
  {
    assert events[..|events| - 1][..i] == events[..i];
    if events[i].GameFinish? {
      StartIsStart(o, events[..i], events[i].gameId);
    }
  }

  lemma FinishesNext(o: Options, events: seq<Event>, r: Outcome)
    requires events != []
    ensures var n := |events| - 1;
            |Finishes(o, events, r)| == |Finishes(o, events[..n], r)| + if CameOut(o, events, n, r) then 1 else 0
  {
    var n := |events| - 1;
    hide CameOut, Run, Scored, WrittenFor;
    var before := Finishes(o, events[..n], r);
    forall i: nat | i < n ensures CameOut(o, events[..n], i, r) <==> CameOut(o, events, i, r) {
      ScoredPrefix(o, events, i);
    }
    assert Finishes(o, events, r) == before + if CameOut(o, events, n, r) then {n} else {};
  }

  /** An unscored event writes nothing. */
  lemma Unscored(o: Options, events: seq<Event>)
    requires events != [] && !Scored(o, events, |events| - 1)
    ensures var s, t := Run(o, events[..|events| - 1]).summary, Run(o, events).summary;
            && t.receipts == s.receipts && t.games == s.games
            && t.wins == s.wins && t.losses == s.losses && t.aborted == s.aborted
  {
    var n := |events| - 1;
    var s, e := Run(o, events[..n]), events[n];
    GamesOn(o, events[..n], if e.GameFinish? then e.gameId else "");
    LastStep(o, events);
    hide Run, Seated, StartOf;
    StepShape(o, s, e);
    if s.status.Running? {
      HandleIs(o, s, e);
      hide Step, Handle, Start, Move, Finish, Open, EndChallenge;
      match e {
        case GameStart(_, _, _, _) => StartKeepsCount(o, s, e);
        case MoveRequest(_, _, _, _, _) => MoveFrame(o, s, e);
        case GameFinish(_, _, _, _) => assert Seated(o, events[..n], s, e.gameId); UnscoredFinish(o, events, s, e);
        case _ => ChallengeFrame(o, s, e);
      }
    }
  }

  lemma UnscoredFinish(o: Options, events: seq<Event>, s: State, e: Event)
    requires events != [] && e == events[|events| - 1] && s == Run(o, events[..|events| - 1])
    requires e.GameFinish? && s.status.Running? && !Scored(o, events, |events| - 1)
    requires Seated(o, events[..|events| - 1], s, e.gameId)
    ensures var t := Finish(o, s, e).summary; t.(issued := s.summary.issued) == s.summary
  {
    hide Run, StartOf, Recorded, OutcomeFor, Finish;
    FinishFrame(o, s, e);
  }

  /** A scored event writes its game's receipt and counts it. */
  lemma ScoredWrites(o: Options, events: seq<Event>)
    requires events != [] && Scored(o, events, |events| - 1)
    ensures var n := |events| - 1;
            var s, t := Run(o, events[..n]).summary, Run(o, events).summary;
            && |t.receipts| == |s.receipts| + 1 && t.receipts[..|s.receipts|] == s.receipts
            && WrittenFor(o, events, n, t.receipts[|s.receipts|])
            && t.games == s.games + 1
            && t.wins == s.wins + (if CameOut(o, events, n, Win) then 1 else 0)
            && t.losses == s.losses + (if CameOut(o, events, n, Loss) then 1 else 0)
            && t.aborted == s.aborted + (if CameOut(o, events, n, Aborted) then 1 else 0)
  {
    var n := |events| - 1;
    var s, e := Run(o, events[..n]), events[n];
    GamesOn(o, events[..n], e.gameId);
    LastStep(o, events);
    hide Run, StartOf;
    StepShape(o, s, e);
    HandleIs(o, s, e);
    hide Step, Handle, Finish;
    FinishFrame(o, s, e);
  }

  /**
   Over every run, the counters are the numbers of finishes won, lost and aborted, told from the sides the starts gave,
   and the receipts are those games' own, in order.
   */
  lemma {:induction false} RunResults(o: Options, events: seq<Event>)
    ensures Counted(o, events, Run(o, events).summary) && Written(o, events, Run(o, events).summary.receipts)
  {
    if events != [] {
      var n := |events| - 1;
      RunResults(o, events[..n]);
      ResultsNext(o, events);
    }
  }

  lemma ResultsNext(o: Options, events: seq<Event>)
    requires events != []
    requires var s := Run(o, events[..|events| - 1]).summary;
             Counted(o, events[..|events| - 1], s) && Written(o, events[..|events| - 1], s.receipts)
    ensures Counted(o, events, Run(o, events).summary) && Written(o, events, Run(o, events).summary.receipts)
  {
    var n := |events| - 1;
    hide Run, Finishes, CameOut, Scored, WrittenFor;
    FinishesNext(o, events, Win);
    FinishesNext(o, events, Loss);
    FinishesNext(o, events, Aborted);
    if Scored(o, events, n) {
      ScoredWrites(o, events);
    } else {
      Unscored(o, events);
      NoOutcome(o, events, n);
    }
    WrittenNext(o, events, Run(o, events[..n]).summary.receipts, Run(o, events).summary.receipts);
  }

  lemma WrittenNext(o: Options, events: seq<Event>, before: seq<Body>, after: seq<Body>)
    requires events != [] && Written(o, events[..|events| - 1], before)
    requires var n := |events| - 1;
             if Scored(o, events, n) then
               |after| == |before| + 1 && after[..|before|] == before && WrittenFor(o, events, n, after[|before|])
             else after == before
    ensures Written(o, events, after)
  {
    hide Run, CameOut, Scored, WrittenFor;
    var n := |events| - 1;
    var list := ScoredList(o, events[..n]);
    ScoredInside(o, events[..n]);
    forall k | 0 <= k < |list| ensures ScoredList(o, events)[k] == list[k] && WrittenFor(o, events, list[k], after[k]) {
      ScoredPrefix(o, events, list[k]);
      assert after[k] == before[k];
    }
  }

  lemma {:induction false} ScoredInside(o: Options, events: seq<Event>)
    ensures forall k | 0 <= k < |ScoredList(o, events)| :: ScoredList(o, events)[k] < |events|
  {
    if events != [] {
      ScoredInside(o, events[..|events| - 1]);
    }
  }

  // ---------------------------------------------------------------- the plan

  /** The `i`-th event is a finish the plan counts: any heard by a running session, but one whose record was lost. */
  ghost predicate CountsForPlan(o: Options, events: seq<Event>, i: nat) {
    && i < |events| && events[i].GameFinish? && Run(o, events[..i]).status.Running?
    && (events[i].record.RecordDropped? ==> StartOf(o, events[..i], events[i].gameId).None?)
  }

  ghost function PlanFinishes(o: Options, events: seq<Event>): set<nat> {
    set i: nat | i < |events| && CountsForPlan(o, events, i)
  }

  lemma PlanFinishesNext(o: Options, events: seq<Event>)
    requires events != []
    ensures var n := |events| - 1;
            |PlanFinishes(o, events)| ==
            |PlanFinishes(o, events[..n])| + if CountsForPlan(o, events, n) then 1 else 0
  {
    hide Run, StartOf;
    var n := |events| - 1;
    var before := PlanFinishes(o, events[..n]);
    forall i: nat | i < n ensures CountsForPlan(o, events[..n], i) <==> CountsForPlan(o, events, i) {
      assert events[..n][..i] == events[..i];
    }
    hide CountsForPlan;
    assert PlanFinishes(o, events) == before + if CountsForPlan(o, events, n) then {n} else {};
  }

  /** Where a session with a plan of `games` games stands: short of them while it runs, and at them when it is done. */
  ghost predicate PlanKept(games: int, reconnect: bool, s: State) {
    && s.finished <= games
    && (s.status.Running? ==> s.finished < games)
    && (s.status.Returned? ==> s.finished == games || !reconnect)
  }

  /**
   A session with a plan counts exactly the finishes the plan counts, never more than the plan's games, and returns for
   having played them, or for a stream lost when it may not reconnect.
   */
  lemma {:induction false} PlanIsPlayed(o: Options, events: seq<Event>)
    requires o.plan.Some? && o.plan.value.games > 0
    ensures PlanKept(o.plan.value.games, o.reconnect, Run(o, events))
    ensures Run(o, events).finished == |PlanFinishes(o, events)|
  {
    if events == [] {
      RunNothingYet(o);
    } else {
      hide Run, Step, PlanFinishes;
      var n := |events| - 1;
      PlanIsPlayed(o, events[..n]);
      PlanFinishesNext(o, events);
      LastStep(o, events);
      if events[n].GameFinish? {
        GamesOn(o, events[..n], events[n].gameId);
      }
      hide StartOf;
      StepCounts(o, Run(o, events[..n]), events[n]);
    }
  }

  /** A handler that ends the session for good has the plan done or may not reconnect. */
  ghost predicate EndsRight(o: Options, t: State) {
    t.status.Returned? ==> PlanDone(o, t.finished) || !o.reconnect
  }

  lemma IssueEnds(o: Options, s: State, answer: ChallengeAnswer)
    requires s.status.Running?
    ensures EndsRight(o, Issue(o, s, answer)) && Issue(o, s, answer).finished == s.finished
  {
    hide PlanDone, Asked;
  }

  lemma MoveEnds(o: Options, s: State, e: Event)
    requires s.status.Running? && e.MoveRequest?
    ensures EndsRight(o, Move(o, s, e)) && Move(o, s, e).finished == s.finished
  {
    hide PlanDone, WellFormed, Placeable, ForcedStones, Forced, Searched, AnswerMove, Answers;
  }

  lemma StartEnds(o: Options, s: State, e: Event)
    requires s.status.Running? && e.GameStart?
    ensures EndsRight(o, Start(o, s, e)) && Start(o, s, e).finished == s.finished
  {
    hide PlanDone, LadderOpening, Ordinal;
  }

  lemma FinishEnds(o: Options, s: State, e: Event)
    requires s.status.Running? && e.GameFinish? && o.plan.Some?
    ensures EndsRight(o, Finish(o, s, e))
    ensures Finish(o, s, e).finished == s.finished + if e.gameId in s.games && e.record.RecordDropped? then 0 else 1
  {
    ClosedStatus(s, e);
    FinishFrame(o, s, e);
    ClosedChallenges(s, e);
    hide Closed, PlanDone, Issue;
    var c := Closed(s, e);
    var counted := c.(finished := s.finished + 1, outgoing := None,
                      history := c.history.(strays := s.history.strays + if s.outgoing.None? then 1 else 0));
    IssueEnds(o, counted, e.answer);
  }

  lemma ClosedStatus(s: State, e: Event)
    requires e.GameFinish?
    ensures Closed(s, e).status == s.status
  {
    hide Recorded, OutcomeFor;
  }

  lemma OtherEnds(o: Options, s: State, e: Event)
    requires s.status.Running? && !e.GameStart? && !e.MoveRequest? && !e.GameFinish?
    ensures EndsRight(o, Handle(o, s, e)) && Handle(o, s, e).finished == s.finished
  {
    hide PlanDone, Issue;
    HandleIs(o, s, e);
    match e {
      case StreamOpen(answer) => hide Handle; IssueEnds(o, s, answer);
      case ChallengeEnded(_, answer) =>
        hide Handle;
        var over := s.history.over + {e.challengeId};
        IssueEnds(o, s.(outgoing := None, history := s.history.(over := over, ended := s.history.ended + 1)), answer);
      case _ =>
    }
  }

  lemma HandlerEnds(o: Options, s: State, e: Event)
    requires s.status.Running? && o.plan.Some?
    ensures EndsRight(o, Handle(o, s, e))
    ensures Handle(o, s, e).finished == s.finished +
              if e.GameFinish? && (e.gameId in s.games ==> !e.record.RecordDropped?) then 1 else 0
  {
    hide Handle, Start, Move, Finish, PlanDone;
    HandleIs(o, s, e);
    match e {
      case GameStart(_, _, _, _) => StartEnds(o, s, e);
      case MoveRequest(_, _, _, _, _) => MoveEnds(o, s, e);
      case GameFinish(_, _, _, _) => FinishEnds(o, s, e);
      case _ => OtherEnds(o, s, e);
    }
  }

  /** One event counts for the plan at most once, and ends the session that has played it. */
  lemma StepCounts(o: Options, s: State, e: Event)
    requires o.plan.Some? && PlanKept(o.plan.value.games, o.reconnect, s)
    ensures var t := Step(o, s, e);
            && PlanKept(o.plan.value.games, o.reconnect, t)
            && t.finished == s.finished +
                 if s.status.Running? && e.GameFinish? && (e.gameId in s.games ==> !e.record.RecordDropped?) then 1
                 else 0
  {
    if s.status.Running? {
      HandlerEnds(o, s, e);
    }
    hide Handle;
  }

  /** A stream lost ends the session exactly when it may not reconnect or has played its plan. */
  lemma LostStreamEnds(o: Options, events: seq<Event>)
    requires Run(o, events).status.Running?
    ensures Run(o, events + [StreamDown]).status.Running? <==>
      o.reconnect && (o.plan.Some? ==> Run(o, events).finished < o.plan.value.games)
    ensures !Run(o, events + [StreamDown]).status.Failed?
  {
    hide Run;
    var longer := events + [StreamDown];
    assert longer[..|longer| - 1] == events;
    LastStep(o, longer);
  }

  /** No call to issue a challenge was lost by the network. */
  ghost predicate IssuesHeard(e: Event) {
    match e
    case StreamOpen(answer) => !answer.CallDropped?
    case GameFinish(_, _, _, answer) => !answer.CallDropped?
    case ChallengeEnded(_, answer) => !answer.CallDropped?
    case _ => true
  }

  /** While its plan runs, a session whose stream was opened and whose issuing calls were heard has a challenge out. */
  lemma {:induction false} AlwaysAsking(o: Options, events: seq<Event>)
    requires o.plan.Some? && o.plan.value.games > 0
    requires events != [] && events[0].StreamOpen? && forall i | 0 <= i < |events| :: IssuesHeard(events[i])
    ensures Run(o, events).status.Running? ==> Run(o, events).outgoing.Some?
    decreases |events|
  {
    hide Run, Step, PlanKept, PlanFinishes;
    var n := |events| - 1;
    LastStep(o, events);
    if n == 0 {
      assert events[..0] == [];
      RunNothingYet(o);
      OpenAsks(o, events[0]);
    } else {
      AlwaysAsking(o, events[..n]);
      StepAsks(o, Run(o, events[..n]), events[n]);
    }
  }

  lemma OpenAsks(o: Options, e: Event)
    requires o.plan.Some? && o.plan.value.games > 0 && e.StreamOpen? && IssuesHeard(e)
    ensures var t := Step(o, Initial(), e); t.status.Running? ==> t.outgoing.Some?
  {
  }

  lemma StepAsks(o: Options, s: State, e: Event)
    requires o.plan.Some? && IssuesHeard(e) && (s.status.Running? ==> s.outgoing.Some?)
    ensures var t := Step(o, s, e); t.status.Running? ==> t.outgoing.Some?
  {
    if s.status.Running? {
      HandleIs(o, s, e);
      hide Handle, Start, Move;
      match e {
        case GameStart(_, _, _, _) => hide Step; StepShape(o, s, e); StartKeepsCount(o, s, e);
        case MoveRequest(_, _, _, _, _) => hide Step; StepShape(o, s, e); MoveFrame(o, s, e);
        case GameFinish(_, _, _, _) => FinishAsks(o, s, e); hide Finish;
        case StreamOpen(_) => hide Step, Issue; StepShape(o, s, e);
        case ChallengeEnded(_, _) => EndAsks(o, s, e); hide EndChallenge;
        case _ => hide Step; StepShape(o, s, e); StatusAlone(o, s, e);
      }
    }
  }

  lemma FinishAsks(o: Options, s: State, e: Event)
    requires o.plan.Some? && e.GameFinish? && IssuesHeard(e) && s.outgoing.Some?
    ensures var t := Finish(o, s, e);
            t.status.Running? ==> t.outgoing.Some? || PlanDone(o, t.finished)
  {
    hide Closed, PlanDone;
    ClosedChallenges(s, e);
  }

  lemma EndAsks(o: Options, s: State, e: Event)
    requires o.plan.Some? && e.ChallengeEnded? && IssuesHeard(e) && s.outgoing.Some?
    ensures var t := EndChallenge(o, s, e);
            t.status.Running? ==> t.outgoing.Some? || PlanDone(o, t.finished)
  {
    hide PlanDone;
  }

  // ---------------------------------------------------------------- refused moves

  /** The `i`-th event asks for a move that the session sends and the server refuses. */
  ghost predicate RefusedAt(o: Options, events: seq<Event>, i: nat) {
    && i < |events| && events[i].MoveRequest? && events[i].reply.Rejected?
    && Run(o, events[..i]).status.Running? && Answers(Run(o, events[..i]), events[i])
  }

  ghost function RefusedMoves(o: Options, events: seq<Event>): set<nat> {
    set i: nat | i < |events| && RefusedAt(o, events, i)
  }

  lemma RefusedNext(o: Options, events: seq<Event>)
    requires events != []
    ensures var n := |events| - 1;
            |RefusedMoves(o, events)| ==
            |RefusedMoves(o, events[..n])| + if RefusedAt(o, events, n) then 1 else 0
  {
    hide Run, Answers;
    var n := |events| - 1;
    var before := RefusedMoves(o, events[..n]);
    forall i: nat | i < n ensures RefusedAt(o, events[..n], i) <==> RefusedAt(o, events, i) {
      assert events[..n][..i] == events[..i];
    }
    hide RefusedAt;
    assert RefusedMoves(o, events) == before + if RefusedAt(o, events, n) then {n} else {};
  }

  /** The rejections counted are the moves sent and refused. */
  lemma {:induction false} RejectionsCounted(o: Options, events: seq<Event>)
    ensures Run(o, events).summary.rejections == |RefusedMoves(o, events)|
  {
    hide Run, Step, RefusedMoves, Answers;
    if events == [] {
      RunNothingYet(o);
      NoRefusals(o);
    } else {
      var n := |events| - 1;
      RejectionsCounted(o, events[..n]);
      RefusedNext(o, events);
      LastStep(o, events);
      StepRejects(o, Run(o, events[..n]), events[n]);
    }
  }

  lemma NoRefusals(o: Options)
    ensures RefusedMoves(o, []) == {}
  {
  }

  lemma StepRejects(o: Options, s: State, e: Event)
    ensures Step(o, s, e).summary.rejections == s.summary.rejections +
              if s.status.Running? && e.MoveRequest? && e.reply.Rejected? && Answers(s, e) then 1 else 0
  {
    StepShape(o, s, e);
    if s.status.Running? {
      HandleIs(o, s, e);
      hide Step, Handle, Start, Finish, Open, EndChallenge;
      match e {
        case GameStart(_, _, _, _) => hide Move; StartKeepsCount(o, s, e);
        case MoveRequest(_, _, _, _, _) => MoveRejects(o, s, e); hide Move;
        case GameFinish(_, _, _, _) => hide Move; FinishFrame(o, s, e); ClosedRejects(s, e);
        case _ => hide Move; ChallengeFrame(o, s, e);
      }
    }
  }

  lemma MoveRejects(o: Options, s: State, e: Event)
    requires e.MoveRequest?
    ensures Move(o, s, e).summary.rejections ==
            s.summary.rejections + if e.reply.Rejected? && Answers(s, e) then 1 else 0
  {
    hide PlanDone, WellFormed, Placeable, ForcedStones, Forced, Searched, AnswerMove;
  }

  lemma ClosedRejects(s: State, e: Event)
    requires e.GameFinish?
    ensures Closed(s, e).summary.rejections == s.summary.rejections
  {
    hide OutcomeFor;
  }

  // ---------------------------------------------------------------- one turn, one call

  /** The turn sent: the book's stones first, each stone of the search chosen on the board that it is placed on. */
  lemma TurnSent(choose: seq<Cell> -> Cell, cells: seq<Cell>, forced: seq<Cell>)
    requires |forced| <= 2
    ensures var (a, b) := TurnStones(forced, Searched(choose, cells, forced));
            && a == (if |forced| > 0 then forced[0] else choose(cells))
            && b == (if |forced| > 1 then forced[1] else choose(cells + [a]))
  {
  }

  /**
   A move call that is answered leaves the session running, refused or not; so does a lost one, or a resignation lost
   after a refusal that is not stale, where the session may reconnect, and else it returns. Any other error fails it.
   */
  lemma CallEnds(o: Options, s: State, e: Event)
    requires s.status.Running? && e.MoveRequest? && Answers(s, e)
    requires o.plan.Some? ==> s.finished < o.plan.value.games
    ensures Step(o, s, e).status ==
            match e.reply
            case Accepted => Running
            case Rejected(true, _) => Running
            case Rejected(false, false) => Running
            case Rejected(false, true) => if o.reconnect then Running else Returned
            case Lost(_) => if o.reconnect then Running else Returned
            case Errored(_) => Failed
  {
    hide WellFormed, Placeable, ForcedStones, Forced, Searched, AnswerMove;
  }
}
