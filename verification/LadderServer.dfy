/**
 A server that plays each challenge once and as it was asked, whether or not the challenger heard that it was made: what
 it sends the challenger, and what every run against it keeps.
 */
module LadderServer {
  import opened Lattice
  import opened LadderBook
  import opened LadderSession
  import opened Wrappers

  function SideFor(first: FirstPlayer): Player {
    if first == Challenger then P1 else P2
  }

  /** Which challenge each game plays, by its place among those made. */
  type Played = seq<nat>

  /** The next game plays challenge `i`, which no game has played and which has not ended, seated as it asks. */
  ghost predicate PlaysNext(h: History, led: Played, side: Player) {
    && |h.starts| < |led|
    && var i := led[|h.starts|];
       && i < |h.made| && i !in led[..|h.starts|]
       && h.made[i].id !in h.over && side == SideFor(h.made[i].first)
  }

  /** No game has played a challenge of this id. */
  ghost predicate NotPlayed(h: History, led: Played, id: string) {
    forall j | 0 <= j < |h.starts| && j < |led| && led[j] < |h.made| :: h.made[led[j]].id != id
  }

  ghost predicate NewId(h: History, id: string) {
    id !in h.over && forall i | 0 <= i < |h.made| :: h.made[i].id != id
  }

  /** A challenge made in answer has an id of its own. */
  ghost predicate NewAnswer(h: History, answer: ChallengeAnswer) {
    match answer
    case Created(id) => NewId(h, id)
    case CallDropped(Some(id)) => NewId(h, id)
    case _ => true
  }

  /**
   What an honest server sends a challenger that plays its plan's games alone: a game for any challenge made, one for
   each, with the first player it asks; the finish of a game that is on; the end of a challenge no game has played.
   */
  ghost predicate HonestEvent(o: Options, s: State, led: Played, e: Event) {
    match e
    case GameStart(id, opponent, side, _) =>
      id in s.games || (o.plan.Some? && opponent == o.plan.value.profile && PlaysNext(s.history, led, side))
    case GameFinish(id, _, _, answer) => id in s.games && NewAnswer(s.history, answer)
    case ChallengeEnded(id, answer) =>
      NotPlayed(s.history, led, id) && NewAnswer(s.history.(over := s.history.over + {id}), answer)
    case StreamOpen(answer) => NewAnswer(s.history, answer)
    case _ => true
  }

  ghost predicate Honest(o: Options, events: seq<Event>, led: Played) {
    forall i | 0 <= i < |events| :: HonestEvent(o, Run(o, events[..i]), led, events[i])
  }

  // ---------------------------------------------------------------- what every run keeps

  /** Each game plays a challenge of its own, not ended, and is seated as it asks. */
  ghost predicate Seated(h: History, led: Played) {
    && |h.starts| <= |led|
    && (forall j | 0 <= j < |h.starts| ::
          led[j] < |h.made| && h.made[led[j]].id !in h.over && h.starts[j].side == SideFor(h.made[led[j]].first))
    && forall i, j | 0 <= i < j < |h.starts| :: led[i] != led[j]
  }

  ghost predicate OwnIds(made: seq<Made>) {
    forall i, j | 0 <= i < j < |made| :: made[i].id != made[j].id
  }

  /** The challenge held for out was made and has not ended. */
  ghost predicate OutMade(h: History, out: Option<string>) {
    out.Some? ==> out.value !in h.over && exists i :: 0 <= i < |h.made| && h.made[i].id == out.value
  }

  /** The challenges made that have ended, by place. */
  function Ended(h: History): set<nat> {
    set i: nat | i < |h.made| && h.made[i].id in h.over
  }

  /** Every finish is a recorded game's; while the challenge out has been played, its game is on or its record lost. */
  ghost predicate FinishesRecorded(s: State, led: Played) {
    && s.finished == s.summary.games
    && ((exists j :: 0 <= j < |s.history.starts| && j < |led| && led[j] < |s.history.made| &&
                     s.outgoing == Some(s.history.made[led[j]].id)) ==>
          s.games.Keys != {} || s.history.lost >= 1)
  }

  /** Later games have as many challenges ended before them or more, and never more than all. */
  ghost predicate EndedInOrder(starts: seq<Started>, ended: nat) {
    && (forall i, j | 0 <= i <= j < |starts| :: starts[i].endedBefore <= starts[j].endedBefore)
    && forall i | 0 <= i < |starts| :: starts[i].endedBefore <= ended
  }

  ghost predicate AllAgainst(starts: seq<Started>, opponent: string) {
    forall j | 0 <= j < |starts| :: starts[j].opponent == opponent
  }

  ghost predicate OwnGames(o: Options, s: State) {
    o.plan.Some? ==> AllAgainst(s.history.starts, o.plan.value.profile)
  }

  /** The session heard of every challenge made. */
  predicate AllHeard(s: State) {
    |s.history.made| == s.summary.issued
  }

  /** The last challenge issued has neither led to a game nor ended. */
  predicate Waiting(s: State) {
    s.summary.issued == |s.history.starts| + s.history.ended + 1
  }

  /** Challenge `i` was played, ended, or is the last one and waits. */
  ghost predicate Settled(s: State, led: Played, i: nat) {
    || (exists j :: 0 <= j < |s.history.starts| && j < |led| && led[j] == i)
    || (i < |s.history.made| && s.history.made[i].id in s.history.over)
    || (Waiting(s) && i == |s.history.made| - 1)
  }

  /**
   With every challenge heard of they are played, ended or waiting one at a time, games are on one at a time, and the
   j-th game plays challenge j counting past those that ended before it.
   */
  ghost predicate OneAtATime(s: State, led: Played) {
    var h := s.history;
    && (Waiting(s) || s.summary.issued == |h.starts| + h.ended)
    && (Waiting(s) ==> s.outgoing.Some? && s.games.Keys == {})
    && (s.outgoing.None? ==> s.games.Keys == {})
    && (forall a, b | a in s.games && b in s.games :: a == b)
    && (forall i: nat | i < |h.made| :: Settled(s, led, i))
    && (s.outgoing.Some? ==> h.made != [] && h.made[|h.made| - 1].id == s.outgoing.value)
    && forall j | 0 <= j < |h.starts| && j < |led| :: led[j] == j + h.starts[j].endedBefore
  }

  ghost predicate Orderly(o: Options, s: State, led: Played) {
    && ChallengesAddUp(s) && OwnGames(o, s)
    && Seated(s.history, led) && OwnIds(s.history.made) && OutMade(s.history, s.outgoing)
    && |Ended(s.history)| >= s.history.ended && FinishesRecorded(s, led)
    && EndedInOrder(s.history.starts, s.history.ended)
    && (AllHeard(s) ==> OneAtATime(s, led))
  }

  // ---------------------------------------------------------------- one event at a time

  /** Nothing the order reads changes but the receipts. */
  lemma SameOrder(o: Options, s: State, led: Played, t: State)
    requires Orderly(o, s, led) && t.games.Keys == s.games.Keys && t.outgoing == s.outgoing && t.finished == s.finished
    requires t.summary.issued == s.summary.issued && t.summary.games == s.summary.games && t.history == s.history
    ensures Orderly(o, t, led)
  {
    hide Seated, AllAgainst, EndedInOrder, OwnIds, Ended;
    if AllHeard(t) {
      forall i: nat | i < |t.history.made| ensures Settled(t, led, i) {
        assert Settled(s, led, i);
      }
    }
  }

  /** One challenge more made, under an id of its own. */
  lemma MoreMade(h: History, led: Played, m: Made)
    requires Seated(h, led) && OwnIds(h.made) && NewId(h, m.id)
    ensures var t := h.(made := h.made + [m]);
            Seated(t, led) && OwnIds(t.made) && Ended(t) == Ended(h) && OutMade(t, Some(m.id)) &&
            forall j | 0 <= j < |h.starts| :: t.made[led[j]].id != m.id
  {
    var t := h.(made := h.made + [m]);
    assert t.made[|h.made|].id == m.id;
    forall i: nat ensures i in Ended(t) <==> i in Ended(h) {
    }
  }

  lemma IssueOrderly(o: Options, s: State, led: Played, answer: ChallengeAnswer)
    requires Orderly(o, s, led) && s.outgoing.None? && NewAnswer(s.history, answer)
    ensures Orderly(o, Issue(o, s, answer), led)
  {
    hide ChallengesAddUp, Orderly, NewId, PlanDone, Asked;
    match answer {
      case Created(id) => CreatedOrderly(o, s, led, id);
      case CallDropped(Some(id)) => UnheardOrderly(o, s, led, id);
      case _ => SameOrder(o, s, led, Issue(o, s, answer));
    }
  }

  lemma CreatedOrderly(o: Options, s: State, led: Played, id: string)
    requires Orderly(o, s, led) && s.outgoing.None? && NewId(s.history, id)
    ensures Orderly(o, Issue(o, s, Created(id)), led)
  {
    var t := Issue(o, s, Created(id));
    OrderlyAddsUp(o, s, led);
    IssueAddsUp(o, s, Created(id));
    if AllHeard(t) {
      CreatedSettled(o, s, led, id);
    }
    hide Orderly, NewId, ChallengesAddUp, OneAtATime, NextFirst;
    MadeOrderly(o, s, led, t, Asked(s, id, true));
  }

  lemma UnheardOrderly(o: Options, s: State, led: Played, id: string)
    requires Orderly(o, s, led) && s.outgoing.None? && NewId(s.history, id)
    ensures Orderly(o, Issue(o, s, CallDropped(Some(id))), led)
  {
    OrderlyAddsUp(o, s, led);
    IssueAddsUp(o, s, CallDropped(Some(id)));
    HeardAtMost(s.history.made);
    AddsUpHeard(s);
    hide Orderly, NewId, ChallengesAddUp, OneAtATime, NextFirst, PlanDone;
    MadeOrderly(o, s, led, Issue(o, s, CallDropped(Some(id))), Asked(s, id, false));
  }

  /** A challenge more on the server, held for out if it was heard of. */
  lemma MadeOrderly(o: Options, s: State, led: Played, t: State, m: Made)
    requires Orderly(o, s, led) && s.outgoing.None? && NewId(s.history, m.id) && ChallengesAddUp(t)
    requires t.history == s.history.(made := s.history.made + [m]) && t.games == s.games && t.finished == s.finished
    requires t.summary.games == s.summary.games && (t.outgoing.None? || t.outgoing == Some(m.id))
    requires AllHeard(t) ==> OneAtATime(t, led)
    ensures Orderly(o, t, led)
  {
    MoreMade(s.history, led, m);
    SeatedInside(s.history, led);
    hide ChallengesAddUp, OneAtATime, AllAgainst, EndedInOrder, Seated, OwnIds, Ended, NewId;
  }

  lemma AddsUpHeard(s: State)
    requires ChallengesAddUp(s)
    ensures HeardOf(s.history.made) == s.summary.issued
  {
  }

  lemma SeatedInside(h: History, led: Played)
    requires Seated(h, led)
    ensures |h.starts| <= |led| && forall j | 0 <= j < |h.starts| :: led[j] < |h.made|
  {
  }

  lemma HeardAtMost(made: seq<Made>)
    ensures HeardOf(made) <= |made|
  {
  }

  lemma CreatedSettled(o: Options, s: State, led: Played, id: string)
    requires Orderly(o, s, led) && s.outgoing.None? && AllHeard(s)
    ensures OneAtATime(Issue(o, s, Created(id)), led)
  {
    hide ChallengesAddUp, AllAgainst, EndedInOrder, OwnIds, Ended, OutMade, NextFirst;
    var t := Issue(o, s, Created(id));
    forall i: nat | i < |t.history.made| ensures Settled(t, led, i) {
      if i < |s.history.made| {
        assert Settled(s, led, i);
      }
    }
  }

  lemma StartOrderly(o: Options, s: State, led: Played, e: Event)
    requires Orderly(o, s, led) && e.GameStart? && HonestEvent(o, s, led, e)
    ensures Orderly(o, Start(o, s, e), led)
  {
    hide Orderly, PlaysNext, AllAgainst;
    var t := Start(o, s, e);
    if t.history.starts == s.history.starts {
      StartSame(o, s, e);
      SameOrder(o, s, led, t);
    } else {
      StartedFacts(o, s, e);
      OrderlyAddsUp(o, s, led);
      StartChallenges(o, s, e);
      hide Start, ChallengesAddUp;
      StartedOrderly(o, s, led, t, t.history.starts[|s.history.starts|], e.gameId);
    }
  }

  lemma OrderlyAddsUp(o: Options, s: State, led: Played)
    requires Orderly(o, s, led)
    ensures ChallengesAddUp(s)
  {
  }

  lemma StartSame(o: Options, s: State, e: Event)
    requires e.GameStart? && Start(o, s, e).history.starts == s.history.starts
    ensures var t := Start(o, s, e);
            && t.games.Keys == s.games.Keys && t.outgoing == s.outgoing && t.finished == s.finished
            && t.summary == s.summary && t.history == s.history
  {
    hide LadderOpening, Ordinal;
  }

  /** What a game begun changes. */
  lemma StartedFacts(o: Options, s: State, e: Event)
    requires e.GameStart? && Start(o, s, e).history.starts != s.history.starts
    ensures e.gameId !in s.games
    ensures var t, n := Start(o, s, e), |s.history.starts|;
            && t.outgoing == s.outgoing && t.finished == s.finished && t.summary == s.summary
            && t.games.Keys == s.games.Keys + {e.gameId} && |t.history.starts| == n + 1
            && t.history == s.history.(starts := s.history.starts + [t.history.starts[n]])
            && t.history.starts[n].side == e.side && t.history.starts[n].opponent == e.opponent
            && t.history.starts[n].endedBefore == s.history.ended
  {
    hide LadderOpening, Ordinal;
  }

  lemma StartedOrderly(o: Options, s: State, led: Played, t: State, g: Started, id: string)
    requires Orderly(o, s, led) && ChallengesAddUp(t) && PlaysNext(s.history, led, g.side)
    requires o.plan.Some? && g.opponent == o.plan.value.profile && g.endedBefore == s.history.ended
    requires t.history == s.history.(starts := s.history.starts + [g]) && t.games.Keys == s.games.Keys + {id}
    requires t.outgoing == s.outgoing && t.finished == s.finished && t.summary == s.summary
    ensures Orderly(o, t, led)
  {
    hide ChallengesAddUp, Ended, OneAtATime;
    SameEnded(s.history, t.history);
    var n := |s.history.starts|;
    assert forall j | 0 <= j < n :: led[j] in led[..n];
    if AllHeard(t) {
      StartedSettled(s, led, t, g, id);
    }
  }

  lemma SameEnded(h: History, t: History)
    requires t.made == h.made && t.over == h.over
    ensures Ended(t) == Ended(h)
  {
  }

  lemma StartedSettled(s: State, led: Played, t: State, g: Started, id: string)
    requires Seated(s.history, led) && OneAtATime(s, led) && AllHeard(s) && PlaysNext(s.history, led, g.side)
    requires g.endedBefore == s.history.ended
    requires t.history == s.history.(starts := s.history.starts + [g]) && t.games.Keys == s.games.Keys + {id}
    requires t.outgoing == s.outgoing && t.summary == s.summary
    ensures OneAtATime(t, led)
  {
    hide Seated;
    var n := |s.history.starts|;
    var next := led[n];
    assert Settled(s, led, next);
    assert forall j | 0 <= j < n :: led[j] in led[..n];
    assert Waiting(s) && next == |s.history.made| - 1;
    forall i: nat | i < |t.history.made| ensures Settled(t, led, i) {
      assert Settled(s, led, i);
    }
  }

  /** The state after a finish, before the next challenge is issued. */
  function Counted(s: State, e: Event): State
    requires e.GameFinish?
  {
    var c := Closed(s, e);
    c.(finished := s.finished + 1, outgoing := None,
       history := c.history.(strays := s.history.strays + if s.outgoing.None? then 1 else 0))
  }

  /** What a finish takes out and counts. */
  lemma ClosedFacts(s: State, e: Event)
    requires e.GameFinish? && e.gameId in s.games
    ensures var c := Closed(s, e);
            && c.games.Keys == s.games.Keys - {e.gameId}
            && c.summary.games == s.summary.games + (if e.record.RecordDropped? then 0 else 1)
            && c.history.lost == s.history.lost + (if e.record.RecordDropped? then 1 else 0)
  {
  }

  /** A game closed, its finish counted or its record lost: the order among the challenges stays. */
  lemma ClosedOrderly(o: Options, s: State, led: Played, t: State, id: string)
    requires Orderly(o, s, led) && ChallengesAddUp(t) && id in s.games && t.games.Keys == s.games.Keys - {id}
    requires t.history.(lost := s.history.lost, strays := s.history.strays) == s.history
    requires t.summary.issued == s.summary.issued && t.finished == t.summary.games
    requires t.outgoing.None? || (t.outgoing == s.outgoing && t.history.lost >= 1)
    ensures Orderly(o, t, led)
  {
    hide ChallengesAddUp, OwnIds, AllAgainst, EndedInOrder, Ended;
    SameEnded(s.history, t.history);
    if AllHeard(t) {
      assert forall a | a in s.games :: a == id;
      forall i: nat | i < |t.history.made| ensures Settled(t, led, i) {
        assert Settled(s, led, i);
      }
    }
  }

  lemma FinishOrderly(o: Options, s: State, led: Played, e: Event)
    requires Orderly(o, s, led) && o.plan.Some? && e.GameFinish? && HonestEvent(o, s, led, e)
    ensures Orderly(o, Finish(o, s, e), led)
  {
    hide NewAnswer;
    ClosedChallenges(s, e);
    ClosedFacts(s, e);
    OrderlyAddsUp(o, s, led);
    assert s.finished == s.summary.games;
    hide Closed, Orderly, Issue, PlanDone, NewId;
    if e.record.RecordDropped? {
      ClosedOrderly(o, s, led, Finish(o, s, e), e.gameId);
    } else {
      var t := Counted(s, e);
      ClosedOrderly(o, s, led, t, e.gameId);
      SameNew(s.history, t.history, e.answer);
      IssueOrderly(o, t, led, e.answer);
    }
  }

  lemma SameNew(h: History, t: History, answer: ChallengeAnswer)
    requires NewAnswer(h, answer) && t.made == h.made && t.over == h.over
    ensures NewAnswer(t, answer)
  {
  }

  lemma OpenOrderly(o: Options, s: State, led: Played, e: Event)
    requires Orderly(o, s, led) && e.StreamOpen? && HonestEvent(o, s, led, e)
    ensures Orderly(o, Open(o, s, e), led)
  {
    hide Issue, Orderly, PlanDone, NewAnswer;
    if s.outgoing.None? {
      IssueOrderly(o, s, led, e.answer);
    }
  }

  /** The end of a challenge no game has played: the one held for out, or another. */
  lemma OverOrderly(o: Options, s: State, led: Played, t: State, id: string)
    requires Orderly(o, s, led) && ChallengesAddUp(t) && NotPlayed(s.history, led, id)
    requires t.games.Keys == s.games.Keys && t.finished == s.finished && t.summary == s.summary
    requires if s.outgoing == Some(id)
             then t.outgoing.None? &&
                  t.history == s.history.(over := s.history.over + {id}, ended := s.history.ended + 1)
             else t.outgoing == s.outgoing && t.history == s.history.(over := s.history.over + {id})
    ensures Orderly(o, t, led)
  {
    OverEnded(s, t, id);
    OverSeated(s.history, led, t.history, id);
    if AllHeard(t) {
      OverSettled(s, led, t, id);
    }
    EndedMore(s.history.starts, s.history.ended);
    hide ChallengesAddUp, OwnIds, AllAgainst, Ended, Seated, OneAtATime, NotPlayed, EndedInOrder;
  }

  lemma EndedMore(starts: seq<Started>, ended: nat)
    requires EndedInOrder(starts, ended)
    ensures EndedInOrder(starts, ended + 1)
  {
  }

  lemma OverSeated(h: History, led: Played, t: History, id: string)
    requires Seated(h, led) && NotPlayed(h, led, id)
    requires t.starts == h.starts && t.made == h.made && t.over == h.over + {id}
    ensures Seated(t, led)
  {
  }

  lemma OverEnded(s: State, t: State, id: string)
    requires OutMade(s.history, s.outgoing) && t.history.made == s.history.made
    requires t.history.over == s.history.over + {id}
    ensures |Ended(t.history)| >= |Ended(s.history)| + if s.outgoing == Some(id) then 1 else 0
  {
    var was, now := Ended(s.history), Ended(t.history);
    if s.outgoing == Some(id) {
      var i :| 0 <= i < |s.history.made| && s.history.made[i].id == id;
      assert was + {i} <= now && i !in was;
      Subsets(was + {i}, now);
    } else {
      assert was <= now;
      Subsets(was, now);
    }
  }

  lemma {:induction false} Subsets(a: set<nat>, b: set<nat>)
    requires a <= b
    ensures |a| <= |b|
  {
    assert b == a + (b - a);
  }

  lemma OverSettled(s: State, led: Played, t: State, id: string)
    requires Seated(s.history, led) && OneAtATime(s, led) && AllHeard(s) && OutMade(s.history, s.outgoing)
    requires NotPlayed(s.history, led, id) && t.games.Keys == s.games.Keys && t.summary == s.summary
    requires if s.outgoing == Some(id)
             then t.outgoing.None? &&
                  t.history == s.history.(over := s.history.over + {id}, ended := s.history.ended + 1)
             else t.outgoing == s.outgoing && t.history == s.history.(over := s.history.over + {id})
    ensures OneAtATime(t, led)
  {
    if s.outgoing == Some(id) {
      assert Settled(s, led, |s.history.made| - 1);
      assert Waiting(s);
    }
    forall i: nat | i < |t.history.made| ensures Settled(t, led, i) {
      assert Settled(s, led, i);
    }
  }

  lemma EndOrderly(o: Options, s: State, led: Played, e: Event)
    requires Orderly(o, s, led) && o.plan.Some? && e.ChallengeEnded? && HonestEvent(o, s, led, e)
    ensures Orderly(o, EndChallenge(o, s, e), led)
  {
    hide Issue, Orderly, PlanDone, NewAnswer, NotPlayed;
    OrderlyAddsUp(o, s, led);
    var over := s.history.over + {e.challengeId};
    if s.outgoing == Some(e.challengeId) {
      var t := s.(outgoing := None, history := s.history.(over := over, ended := s.history.ended + 1));
      OverOrderly(o, s, led, t, e.challengeId);
      SameNew(s.history.(over := over), t.history, e.answer);
      IssueOrderly(o, t, led, e.answer);
    } else {
      OverOrderly(o, s, led, s.(history := s.history.(over := over)), e.challengeId);
    }
  }

  lemma StepOrderly(o: Options, s: State, led: Played, e: Event)
    requires o.plan.Some? && Orderly(o, s, led) && HonestEvent(o, s, led, e)
    ensures Orderly(o, Step(o, s, e), led)
  {
    StepShape(o, s, e);
    HandleIs(o, s, e);
    hide Orderly, HonestEvent, Step, Handle, Start, Move, Finish, EndChallenge, Open;
    if s.status.Running? {
      var t := Step(o, s, e);
      match e {
        case GameStart(_, _, _, _) => StartOrderly(o, s, led, e); SameOrder(o, Start(o, s, e), led, t);
        case MoveRequest(_, _, _, _, _) => MoveFrame(o, s, e); SameOrder(o, s, led, t);
        case GameFinish(_, _, _, _) => FinishOrderly(o, s, led, e); SameOrder(o, Finish(o, s, e), led, t);
        case ChallengeEnded(_, _) => EndOrderly(o, s, led, e); SameOrder(o, EndChallenge(o, s, e), led, t);
        case StreamOpen(_) => OpenOrderly(o, s, led, e); SameOrder(o, Open(o, s, e), led, t);
        case _ => StatusAlone(o, s, e); SameOrder(o, s, led, t);
      }
    }
  }

  /**
   Over every run against such a server each game is seated as the challenge it plays asks; while every challenge was
   heard of, challenges and games come one at a time.
   */
  lemma {:induction false} HonestRunOrderly(o: Options, events: seq<Event>, led: Played)
    requires o.plan.Some? && Honest(o, events, led)
    ensures Orderly(o, Run(o, events), led)
  {
    hide Orderly, HonestEvent, Step, Initial;
    if events == [] {
      InitialOrderly(o, Run(o, []), led);
    } else {
      var before := events[..|events| - 1];
      assert Honest(o, before, led) by {
        forall i | 0 <= i < |before| ensures HonestEvent(o, Run(o, before[..i]), led, before[i]) {
          assert before[..i] == events[..i] && HonestEvent(o, Run(o, events[..i]), led, events[i]);
        }
      }
      HonestRunOrderly(o, before, led);
      assert HonestEvent(o, Run(o, before), led, events[|before|]);
      StepOrderly(o, Run(o, before), led, events[|before|]);
    }
  }

  lemma InitialOrderly(o: Options, s: State, led: Played)
    requires s == Initial()
    ensures Orderly(o, s, led)
  {
    assert s.games.Keys == {} && s.outgoing.None? && s.summary.issued == 0 && s.summary.games == 0 &&
           s.history == History([], [], {}, 0, 0, 0) && s.finished == 0;
    hide Initial;
  }
}
