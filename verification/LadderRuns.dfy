/** Two runs against an honest server in which the games of a pair do not change colours. */
module LadderRuns {
  import opened Lattice
  import opened LadderBook
  import opened LadderPairing
  import opened LadderServer
  import opened LadderSession
  import opened Wrappers

  /** Where a challenger that has played no other opponent stands. */
  datatype Stand = Stand(on: set<string>, out: Option<string>, finished: nat, issued: nat, starts: seq<Started>,
                         made: seq<Made>, over: set<string>, ended: nat)

  ghost predicate Stands(s: State, p: string, at: Stand) {
    && s.status.Running? && s.games.Keys == at.on && s.outgoing == at.out && s.finished == at.finished
    && s.summary.issued == at.issued && s.history.made == at.made && s.history.starts == at.starts
    && s.history.over == at.over && s.history.ended == at.ended && Ordinal(s.ordinals, p) == |at.starts|
  }

  const NOWHERE := Stand({}, None, 0, 0, [], [], {}, 0)

  lemma Begins(o: Options, p: string)
    ensures Stands(Run(o, []), p, NOWHERE)
  {
    RunNothingYet(o);
    var s := Initial();
    assert s.games.Keys == {} && s.ordinals.Keys == {};
  }

  /** The next challenge made, as asked there. */
  function Makes(at: Stand, id: string, heard: bool): Stand {
    var made := at.made + [Made(id, NextFirst(at.issued), at.issued, heard)];
    if heard then at.(out := Some(id), issued := at.issued + 1, made := made) else at.(made := made)
  }

  lemma StreamOpens(o: Options, s: State, p: string, at: Stand, id: string, heard: bool)
    requires Stands(s, p, at) && at.out.None? && o.plan.Some? && o.reconnect && !PlanDone(o, at.finished)
    ensures var answer := if heard then Created(id) else CallDropped(Some(id));
            Stands(Step(o, s, StreamOpen(answer)), p, Makes(at, id, heard))
  {
    hide Ordinal;
  }

  function Begun(at: Stand, g: Started): Stand {
    at.(on := at.on + {g.gameId}, starts := at.starts + [g])
  }

  lemma GameBegins(o: Options, s: State, e: Event, at: Stand)
    requires e.GameStart? && Stands(s, e.opponent, at) && e.gameId !in at.on && !PlanDone(o, at.finished)
    requires LadderOpening(o.book, o.matchOffset + |at.starts| / 2).Some?
    ensures var opening := LadderOpening(o.book, o.matchOffset + |at.starts| / 2).value;
            Stands(Step(o, s, e), e.opponent, Begun(at, Started(e.gameId, e.opponent, e.side, opening, at.ended)))
  {
    hide LadderOpening;
  }

  /** The one game on finished, and the next challenge made. */
  lemma GameEnds(o: Options, s: State, e: Event, p: string, at: Stand, c: string)
    requires e.GameFinish? && Stands(s, p, at) && at.on == {e.gameId} && !PlanDone(o, at.finished + 1)
    requires e.record.Found? && e.answer == Created(c) && o.plan.Some?
    ensures Stands(Step(o, s, e), p, Makes(at.(on := {}, finished := at.finished + 1), c, true))
  {
    hide OutcomeFor, Ordinal;
    assert (s.games - {e.gameId}).Keys == {};
  }

  lemma ChallengeDeclined(o: Options, s: State, e: Event, p: string, at: Stand, c: string)
    requires e.ChallengeEnded? && Stands(s, p, at) && at.out == Some(e.challengeId) && !PlanDone(o, at.finished)
    requires e.answer == Created(c) && o.plan.Some?
    ensures Stands(Step(o, s, e), p, Makes(at.(over := at.over + {e.challengeId}, ended := at.ended + 1), c, true))
  {
    hide Ordinal;
  }

  /** What honesty asks there. */
  ghost predicate HonestAt(o: Options, at: Stand, led: Played, e: Event) {
    var h := History(at.starts, at.made, at.over, at.ended, 0, 0);
    match e
    case GameStart(_, opponent, side, _) =>
      o.plan.Some? && opponent == o.plan.value.profile && PlaysNext(h, led, side)
    case GameFinish(id, _, _, answer) => id in at.on && NewAnswer(h, answer)
    case ChallengeEnded(id, answer) => NotPlayed(h, led, id) && NewAnswer(h.(over := h.over + {id}), answer)
    case StreamOpen(answer) => NewAnswer(h, answer)
    case _ => true
  }

  lemma HonestThere(o: Options, s: State, p: string, led: Played, e: Event, at: Stand)
    requires Stands(s, p, at) && HonestAt(o, at, led, e)
    ensures HonestEvent(o, s, led, e)
  {
  }

  lemma StartsThere(s: State, p: string, at: Stand)
    requires Stands(s, p, at)
    ensures s.history.starts == at.starts && s.history.ended == at.ended
  {
  }

  /** A pair on one opening and one side. */
  ghost predicate OneSide(games: seq<Started>) {
    |games| == 2 && games[0].opening == games[1].opening && games[0].side == P1 == games[1].side
  }

  // ---------------------------------------------------------------- a challenge declined between the two games

  /** One game played, the next challenge declined, and the game of the one after it begun. */
  function DeclinedBetween(p: string): seq<Event> {
    [StreamOpen(Created("a")), GameStart("g", p, P1, None), GameFinish("g", None, Found, Created("b")),
     ChallengeEnded("b", Created("c")), GameStart("h", p, P1, None)]
  }

  /** Where the run stands after `n` of its events. */
  function DeclinedAt(p: string, opening: Opening, n: nat): Stand
    requires n <= 5
  {
    var at1 := Makes(NOWHERE, "a", true);
    var at2 := Begun(at1, Started("g", p, P1, opening, 0));
    var at3 := Makes(at2.(on := {}, finished := 1), "b", true);
    var at4 := Makes(at3.(over := {"b"}, ended := 1), "c", true);
    [NOWHERE, at1, at2, at3, at4, Begun(at4, Started("h", p, P1, opening, 1))][n]
  }

  lemma DeclinedStands(o: Options, p: string)
    requires o.plan.Some? && o.plan.value.profile == p && o.plan.value.games > 1 && o.reconnect
    requires LadderOpening(o.book, o.matchOffset).Some?
    ensures var opening := LadderOpening(o.book, o.matchOffset).value;
            forall n: nat | n <= 5 :: Stands(Run(o, DeclinedBetween(p)[..n]), p, DeclinedAt(p, opening, n))
  {
    hide LadderOpening, Step, Run, Stands;
    var events, opening := DeclinedBetween(p), LadderOpening(o.book, o.matchOffset).value;
    assert events[..0] == [];
    Begins(o, p);
    RunNext(o, events, 0);
    StreamOpens(o, Run(o, []), p, NOWHERE, "a", true);
    RunNext(o, events, 1);
    GameBegins(o, Run(o, events[..1]), events[1], DeclinedAt(p, opening, 1));
    assert DeclinedAt(p, opening, 2).on == {"g"};
    RunNext(o, events, 2);
    GameEnds(o, Run(o, events[..2]), events[2], p, DeclinedAt(p, opening, 2), "b");
    RunNext(o, events, 3);
    ChallengeDeclined(o, Run(o, events[..3]), events[3], p, DeclinedAt(p, opening, 3), "c");
    assert DeclinedAt(p, opening, 3).over + {"b"} == {"b"};
    RunNext(o, events, 4);
    GameBegins(o, Run(o, events[..4]), events[4], DeclinedAt(p, opening, 4));
  }

  lemma DeclinedHonest(o: Options, p: string, opening: Opening, n: nat)
    requires o.plan.Some? && o.plan.value.profile == p && n < 5
    ensures HonestAt(o, DeclinedAt(p, opening, n), [0, 2], DeclinedBetween(p)[n])
  {
  }

  /** Every challenge heard of, and one that ended between the games: the challenger plays first in both. */
  lemma DeclineKeepsColours(o: Options, p: string)
    requires o.plan.Some? && o.plan.value.profile == p && o.plan.value.games > 1 && o.reconnect
    requires LadderOpening(o.book, o.matchOffset).Some?
    ensures Honest(o, DeclinedBetween(p), [0, 2])
    ensures OneSide(GamesAgainst(o, DeclinedBetween(p), p)) && Run(o, DeclinedBetween(p)).history.ended == 1
  {
    hide LadderOpening, Step, Run, Stands, HonestEvent, HonestAt, Against;
    var events, opening := DeclinedBetween(p), LadderOpening(o.book, o.matchOffset).value;
    DeclinedStands(o, p);
    forall n: nat | n < 5 ensures HonestEvent(o, Run(o, events[..n]), [0, 2], events[n]) {
      DeclinedHonest(o, p, opening, n);
      HonestThere(o, Run(o, events[..n]), p, [0, 2], events[n], DeclinedAt(p, opening, n));
    }
    assert events[..5] == events;
    StartsThere(Run(o, events), p, DeclinedAt(p, opening, 5));
    var first, second := Started("g", p, P1, opening, 0), Started("h", p, P1, opening, 1);
    assert DeclinedAt(p, opening, 5).starts == [first, second];
    AgainstAll([first, second], p);
  }

  // ---------------------------------------------------------------- a challenge made and not heard of

  /** A challenge made whose answer is lost, the next one made on reconnecting, and the games of both. */
  function UnheardFirst(p: string): seq<Event> {
    [StreamOpen(CallDropped(Some("a"))), StreamOpen(Created("b")), GameStart("g", p, P1, None),
     GameFinish("g", None, Found, Created("c")), GameStart("h", p, P1, None)]
  }

  /** Where the run stands after `n` of its events. */
  function UnheardAt(p: string, opening: Opening, n: nat): Stand
    requires n <= 5
  {
    var at1 := Makes(NOWHERE, "a", false);
    var at2 := Makes(at1, "b", true);
    var at3 := Begun(at2, Started("g", p, P1, opening, 0));
    var at4 := Makes(at3.(on := {}, finished := 1), "c", true);
    [NOWHERE, at1, at2, at3, at4, Begun(at4, Started("h", p, P1, opening, 0))][n]
  }

  lemma UnheardStands(o: Options, p: string)
    requires o.plan.Some? && o.plan.value.profile == p && o.plan.value.games > 1 && o.reconnect
    requires LadderOpening(o.book, o.matchOffset).Some?
    ensures var opening := LadderOpening(o.book, o.matchOffset).value;
            forall n: nat | n <= 5 :: Stands(Run(o, UnheardFirst(p)[..n]), p, UnheardAt(p, opening, n))
  {
    hide LadderOpening, Step, Run, Stands;
    var events, opening := UnheardFirst(p), LadderOpening(o.book, o.matchOffset).value;
    assert events[..0] == [];
    Begins(o, p);
    RunNext(o, events, 0);
    StreamOpens(o, Run(o, []), p, NOWHERE, "a", false);
    RunNext(o, events, 1);
    StreamOpens(o, Run(o, events[..1]), p, UnheardAt(p, opening, 1), "b", true);
    RunNext(o, events, 2);
    GameBegins(o, Run(o, events[..2]), events[2], UnheardAt(p, opening, 2));
    assert UnheardAt(p, opening, 3).on == {"g"};
    RunNext(o, events, 3);
    GameEnds(o, Run(o, events[..3]), events[3], p, UnheardAt(p, opening, 3), "c");
    RunNext(o, events, 4);
    GameBegins(o, Run(o, events[..4]), events[4], UnheardAt(p, opening, 4));
  }

  lemma UnheardHonest(o: Options, p: string, opening: Opening, n: nat)
    requires o.plan.Some? && o.plan.value.profile == p && n < 5
    ensures HonestAt(o, UnheardAt(p, opening, n), [0, 1], UnheardFirst(p)[n])
  {
  }

  /** No challenge ended, and one was made unheard of: both name the challenger first, and so are both games seated. */
  lemma UnheardKeepsColours(o: Options, p: string)
    requires o.plan.Some? && o.plan.value.profile == p && o.plan.value.games > 1 && o.reconnect
    requires LadderOpening(o.book, o.matchOffset).Some?
    ensures Honest(o, UnheardFirst(p), [0, 1])
    ensures OneSide(GamesAgainst(o, UnheardFirst(p), p)) && Run(o, UnheardFirst(p)).history.ended == 0
  {
    hide LadderOpening, Step, Run, Stands, HonestEvent, HonestAt, Against;
    var events, opening := UnheardFirst(p), LadderOpening(o.book, o.matchOffset).value;
    UnheardStands(o, p);
    forall n: nat | n < 5 ensures HonestEvent(o, Run(o, events[..n]), [0, 1], events[n]) {
      UnheardHonest(o, p, opening, n);
      HonestThere(o, Run(o, events[..n]), p, [0, 1], events[n], UnheardAt(p, opening, n));
    }
    assert events[..5] == events;
    StartsThere(Run(o, events), p, UnheardAt(p, opening, 5));
    var first, second := Started("g", p, P1, opening, 0), Started("h", p, P1, opening, 0);
    assert UnheardAt(p, opening, 5).starts == [first, second];
    AgainstAll([first, second], p);
  }
}
