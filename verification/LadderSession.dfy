/**
 A ladder session as the machine its events drive: games started, answered and finished, challenges issued one at a
 time. The server is an open event source; its answers to the session's own calls come with the event that makes the
 call.
 */
module LadderSession {
  import opened Lattice
  import opened LadderBoard
  import opened LadderBook
  import opened Wrappers

  datatype Plan = Plan(profile: string, games: int)

  datatype Options = Options(plan: Option<Plan>, reconnect: bool, matchOffset: nat, book: seq<seq<Cell>>)

  datatype Outcome = Win | Loss | Aborted

  /** A receipt written. */
  datatype Body = Body(gameId: string, outcome: Outcome, receipt: Receipt)

  datatype Summary = Summary(games: nat, wins: nat, losses: nat, aborted: nat, rejections: nat, issued: nat,
                             receipts: seq<Body>)

  /** Running; returned; or ended by an error that is not the network's. */
  datatype Status = Running | Returned | Failed

  datatype FirstPlayer = Challenger | Challenged

  datatype Started = Started(gameId: string, opponent: string, side: Player, opening: Opening, endedBefore: nat)

  /**
   A challenge on the server: its id, the player it asks to go first, how many the session had issued before it, and
   whether it heard of this one.
   */
  datatype Made = Made(id: string, first: FirstPlayer, count: nat, heard: bool)

  /**
   What happened, kept for the statements only: the games started, each with how many challenges had ended without a
   game by then, the challenges made, heard of or not, the ids of the challenges that ended, how many of those were the
   one held for out, the games finished with no challenge out, and those whose record the network lost.
   */
  datatype History = History(starts: seq<Started>, made: seq<Made>, over: set<string>, ended: nat, strays: nat,
                             lost: nat)

  datatype State = State(games: map<string, Receipt>, openings: map<string, Opening>, wakeAt: map<string, Option<nat>>,
                         ordinals: map<string, nat>, outgoing: Option<string>, finished: nat, summary: Summary,
                         status: Status, history: History)

  function Initial(): State {
    State(map[], map[], map[], map[], None, 0, Summary(0, 0, 0, 0, 0, 0, []), Running, History([], [], {}, 0, 0, 0))
  }

  /**
   How the issuing of a challenge came out, once any retries are over; a dropped call may have made one all the same.
   */
  datatype ChallengeAnswer = Created(challengeId: string) | Refusal | CallDropped(made: Option<string>)

  /** How the reading of the server's record came out. */
  datatype RecordAnswer = Found | Unavailable | RecordDropped

  /** How the accepting or declining of another bot's challenge came out. */
  datatype CallAnswer = Answered | CallLost | CallRefused

  /**
   A line of the stream, with the answers to the calls its handling makes; or the stream opened, refused, closed by the
   server or lost.
   */
  datatype Event =
    | StreamOpen(answer: ChallengeAnswer)
    | GameStart(gameId: string, opponent: string, side: Player, wake: Option<nat>)
    | MoveRequest(gameId: string, board: WireBoard, choose: seq<Cell> -> Cell, legal: (seq<Cell>, Cell) -> bool,
                  reply: MoveReply)
    | GameFinish(gameId: string, winner: Option<Player>, record: RecordAnswer, answer: ChallengeAnswer)
    | ChallengeEnded(challengeId: string, answer: ChallengeAnswer)
    | ChallengeOffer(call: CallAnswer)
    | StreamDown
    | StreamRefused
    | OtherEvent

  // ---------------------------------------------------------------- one event

  predicate PlanDone(o: Options, finished: nat) {
    o.plan.Some? && finished >= o.plan.value.games
  }

  /** The stream dropped under the session. */
  function Dropped(o: Options, s: State): State {
    s.(status := if PlanDone(o, s.finished) || !o.reconnect then Returned else Running)
  }

  function NextFirst(issued: nat): FirstPlayer {
    if issued % 2 == 0 then Challenger else Challenged
  }

  /** The challenge the session asks for, on the server under `id`. */
  function Asked(s: State, id: string, heard: bool): Made {
    Made(id, NextFirst(s.summary.issued), s.summary.issued, heard)
  }

  function Issue(o: Options, s: State, answer: ChallengeAnswer): State {
    match answer
    case Created(id) =>
      s.(outgoing := Some(id), summary := s.summary.(issued := s.summary.issued + 1),
         history := s.history.(made := s.history.made + [Asked(s, id, true)]))
    case Refusal => s.(status := Failed)
    case CallDropped(None) => Dropped(o, s)
    case CallDropped(Some(id)) =>
      Dropped(o, s.(history := s.history.(made := s.history.made + [Asked(s, id, false)])))
  }

  function Ordinal(ordinals: map<string, nat>, opponent: string): nat {
    if opponent in ordinals then ordinals[opponent] else 0
  }

  function Start(o: Options, s: State, e: Event): State
    requires e.GameStart?
  {
    if e.gameId in s.games then s
    else
      var n := Ordinal(s.ordinals, e.opponent);
      var counted := s.(ordinals := s.ordinals[e.opponent := n + 1]);
      var opening := LadderOpening(o.book, o.matchOffset + n / 2);
      if opening.None? then counted.(status := Failed)
      else
        var started := Started(e.gameId, e.opponent, e.side, opening.value, s.history.ended);
        counted.(openings := s.openings[e.gameId := opening.value],
                 games := s.games[e.gameId := Fresh(e.side, e.opponent, opening.value)],
                 wakeAt := s.wakeAt[e.gameId := e.wake],
                 history := s.history.(starts := s.history.starts + [started]))
  }

  /** What the search places: its first choice, and its choice after the turn's first stone. */
  function Searched(choose: seq<Cell> -> Cell, cells: seq<Cell>, forced: seq<Cell>): (Cell, Cell) {
    (choose(cells), choose(cells + [Stone(choose, cells, forced, 0)]))
  }

  ghost predicate Placeable(legal: (seq<Cell>, Cell) -> bool, cells: seq<Cell>, forced: seq<Cell>) {
    forall i | 0 <= i < |forced| :: legal(cells + forced[..i], forced[i])
  }

  /**
   How a move call's end leaves the session: the stream dropped under it, an error that is not the network's, or
   neither.
   */
  function Called(o: Options, s: State, reply: MoveReply): State {
    match reply
    case Lost(_) => Dropped(o, s)
    case Errored(_) => s.(status := Failed)
    case Rejected(stale, resignLost) => if !stale && resignLost then Dropped(o, s) else s
    case Accepted => s
  }

  /** A running session's request for a game that is on, whose board replays and whose forced stones are legal. */
  ghost predicate Answers(s: State, e: Event)
    requires e.MoveRequest?
  {
    && e.gameId in s.games && e.gameId in s.openings && WellFormed(e.board)
    && Placeable(e.legal, CellsOf(e.board), Forced(s.openings[e.gameId], CellsOf(e.board)))
  }

  ghost function Move(o: Options, s: State, e: Event): State
    requires e.MoveRequest?
  {
    if e.gameId !in s.games || e.gameId !in s.openings then s
    else if !WellFormed(e.board) then s.(status := Failed)
    else
      var cells, opening, receipt := CellsOf(e.board), s.openings[e.gameId], s.games[e.gameId];
      if !Answers(s, e) then
        var marked := if ForcedStones(opening, cells).None? then MarkOffBook(receipt, |cells|) else receipt;
        s.(status := Failed, games := s.games[e.gameId := marked])
      else
        var searched := Searched(e.choose, cells, Forced(opening, cells));
        var rejections := s.summary.rejections + if e.reply.Rejected? then 1 else 0;
        var answered := s.(games := s.games[e.gameId := AnswerMove(receipt, cells, searched, e.reply).0],
                           summary := s.summary.(rejections := rejections));
        Called(o, answered, e.reply)
  }

  function OutcomeFor(side: Player, winner: Option<Player>): Outcome {
    if winner.None? then Aborted else if winner.value == side then Win else Loss
  }

  function Recorded(m: Summary, body: Body): Summary {
    m.(games := m.games + 1, wins := m.wins + (if body.outcome.Win? then 1 else 0),
       losses := m.losses + (if body.outcome.Loss? then 1 else 0),
       aborted := m.aborted + (if body.outcome.Aborted? then 1 else 0), receipts := m.receipts + [body])
  }

  /** The game's receipt taken out and written. */
  function Closed(s: State, e: Event): State
    requires e.GameFinish?
  {
    var out := s.(games := s.games - {e.gameId}, openings := s.openings - {e.gameId}, wakeAt := s.wakeAt - {e.gameId});
    if e.gameId !in s.games then out
    else if e.record.RecordDropped? then out.(history := s.history.(lost := s.history.lost + 1))
    else
      var receipt := s.games[e.gameId];
      out.(summary := Recorded(s.summary, Body(e.gameId, OutcomeFor(receipt.side, e.winner), receipt)))
  }

  function Finish(o: Options, s: State, e: Event): State
    requires e.GameFinish?
  {
    var closed := Closed(s, e);
    if e.gameId in s.games && e.record.RecordDropped? then Dropped(o, closed)
    else if o.plan.None? then closed
    else
      var strays := s.history.strays + if s.outgoing.None? then 1 else 0;
      var counted := closed.(finished := s.finished + 1, outgoing := None,
                             history := closed.history.(strays := strays));
      if PlanDone(o, s.finished + 1) then counted else Issue(o, counted, e.answer)
  }

  function EndChallenge(o: Options, s: State, e: Event): State
    requires e.ChallengeEnded?
  {
    var over := s.history.over + {e.challengeId};
    if o.plan.Some? && s.outgoing == Some(e.challengeId) then
      var ended := s.(outgoing := None, history := s.history.(over := over, ended := s.history.ended + 1));
      if PlanDone(o, s.finished) then ended else Issue(o, ended, e.answer)
    else s.(history := s.history.(over := over))
  }

  function Open(o: Options, s: State, e: Event): State
    requires e.StreamOpen?
  {
    if o.plan.Some? && s.outgoing.None? && !PlanDone(o, s.finished) then Issue(o, s, e.answer) else s
  }

  /** Another bot's challenge taken or declined: no field changes. */
  function Replied(o: Options, s: State, call: CallAnswer): State {
    match call
    case Answered => s
    case CallLost => Dropped(o, s)
    case CallRefused => s.(status := Failed)
  }

  ghost function Handle(o: Options, s: State, e: Event): State {
    match e
    case StreamOpen(_) => Open(o, s, e)
    case GameStart(_, _, _, _) => Start(o, s, e)
    case MoveRequest(_, _, _, _, _) => Move(o, s, e)
    case GameFinish(_, _, _, _) => Finish(o, s, e)
    case ChallengeEnded(_, _) => EndChallenge(o, s, e)
    case ChallengeOffer(call) => Replied(o, s, call)
    case StreamDown => Dropped(o, s)
    case StreamRefused => s.(status := Failed)
    case OtherEvent => s
  }

  /** One stream line handled while the session runs; it returns once the plan is done. */
  ghost function Step(o: Options, s: State, e: Event): State {
    if !s.status.Running? then s
    else
      var t := Handle(o, s, e);
      if t.status.Running? && !e.StreamOpen? && PlanDone(o, t.finished) then t.(status := Returned) else t
  }

  ghost function Run(o: Options, events: seq<Event>): State {
    if events == [] then Initial() else Step(o, Run(o, events[..|events| - 1]), events[|events| - 1])
  }

  // ---------------------------------------------------------------- what every event keeps

  /** The games started against an opponent, in order. */
  function Against(starts: seq<Started>, opponent: string): seq<Started> {
    if starts == [] then []
    else
      var last := starts[|starts| - 1];
      Against(starts[..|starts| - 1], opponent) + if last.opponent == opponent then [last] else []
  }

  function CountOutcome(receipts: seq<Body>, o: Outcome): nat {
    if receipts == [] then 0
    else CountOutcome(receipts[..|receipts| - 1], o) + if receipts[|receipts| - 1].outcome == o then 1 else 0
  }

  /** The three tables list the same games, each with its receipt's opening. */
  ghost predicate TablesAgree(s: State) {
    && s.games.Keys == s.openings.Keys == s.wakeAt.Keys
    && forall id | id in s.games && id in s.openings :: s.games[id].opening == s.openings[id]
  }

  /** The counters are the receipts', and every game started is active, recorded or lost. */
  ghost predicate GamesAddUp(s: State) {
    var m := s.summary;
    && m.games == m.wins + m.losses + m.aborted == |m.receipts|
    && m.wins == CountOutcome(m.receipts, Win) && m.losses == CountOutcome(m.receipts, Loss)
    && m.aborted == CountOutcome(m.receipts, Aborted)
    && |s.history.starts| == |s.games| + m.games + s.history.lost
  }

  /** The challenges the session heard of. */
  function HeardOf(made: seq<Made>): nat {
    if made == [] then 0 else HeardOf(made[..|made| - 1]) + if made[|made| - 1].heard then 1 else 0
  }

  ghost predicate MadeInTurn(made: seq<Made>) {
    forall i | 0 <= i < |made| :: made[i].count == HeardOf(made[..i]) && made[i].first == NextFirst(made[i].count)
  }

  /**
   Every challenge issued led to a finish, ended or is out, but for the finishes no challenge led to; each challenge
   made counts those heard of before it.
   */
  ghost predicate ChallengesAddUp(s: State) {
    var h := s.history;
    && s.summary.issued + h.strays == s.finished + h.ended + (if s.outgoing.Some? then 1 else 0)
    && MadeInTurn(h.made) && HeardOf(h.made) == s.summary.issued
  }

  /** A challenge is out only while the plan has games to play. */
  ghost predicate OutgoingNeeded(o: Options, s: State) {
    s.outgoing.Some? ==> o.plan.Some? && !PlanDone(o, s.finished)
  }

  /** The n-th game against an opponent has opening `matchOffset` + n / 2, and the next ordinal is n + 1. */
  ghost predicate OpeningsPaired(o: Options, s: State) {
    && (!s.status.Failed? ==> forall p: string :: Ordinal(s.ordinals, p) == |Against(s.history.starts, p)|)
    && forall p: string, n: nat | n < |Against(s.history.starts, p)| ::
         Some(Against(s.history.starts, p)[n].opening) == LadderOpening(o.book, o.matchOffset + n / 2)
  }

  /** A receipt a reader will take: every turn answered a board between turns, with at most two stones of the book. */
  ghost predicate Readable(r: Receipt) {
    forall i | 0 <= i < |r.moves| :: r.moves[i].stones % 2 == 1 && r.moves[i].bookStones <= 2
  }

  ghost predicate AllReadable(s: State) {
    (forall id | id in s.games :: Readable(s.games[id])) &&
    forall i | 0 <= i < |s.summary.receipts| :: Readable(s.summary.receipts[i].receipt)
  }

  ghost predicate Sound(o: Options, s: State) {
    TablesAgree(s) && GamesAddUp(s) && ChallengesAddUp(s) && OutgoingNeeded(o, s) && OpeningsPaired(o, s) &&
    AllReadable(s)
  }

  // ---------------------------------------------------------------- what an event leaves alone

  /** A step is the handler's, but for the status. */
  lemma StepShape(o: Options, s: State, e: Event)
    ensures Step(o, s, e) == if s.status.Running? then Handle(o, s, e).(status := Step(o, s, e).status) else s
    ensures Handle(o, s, e).status.Failed? && s.status.Running? ==> Step(o, s, e).status.Failed?
  {
    hide Handle;
  }

  /** The handler of each kind of event. */
  lemma HandleIs(o: Options, s: State, e: Event)
    ensures e.StreamOpen? ==> Handle(o, s, e) == Open(o, s, e)
    ensures e.GameStart? ==> Handle(o, s, e) == Start(o, s, e)
    ensures e.MoveRequest? ==> Handle(o, s, e) == Move(o, s, e)
    ensures e.GameFinish? ==> Handle(o, s, e) == Finish(o, s, e)
    ensures e.ChallengeEnded? ==> Handle(o, s, e) == EndChallenge(o, s, e)
  {
    hide Open, Start, Move, Finish, EndChallenge, Replied, Dropped;
  }

  lemma IssueFrame(o: Options, s: State, answer: ChallengeAnswer)
    ensures var t := Issue(o, s, answer);
            && t.games == s.games && t.openings == s.openings && t.wakeAt == s.wakeAt && t.ordinals == s.ordinals
            && t.finished == s.finished && t.summary.(issued := s.summary.issued) == s.summary
            && t.history.(made := s.history.made) == s.history
  {
    hide PlanDone, Asked;
  }

  /** Whatever an event does, the games' tables are those of its first part. */
  lemma FinishFrame(o: Options, s: State, e: Event)
    requires e.GameFinish?
    ensures var t, c := Finish(o, s, e), Closed(s, e);
            && t.games == c.games && t.openings == c.openings && t.wakeAt == c.wakeAt && t.ordinals == c.ordinals
            && t.summary.(issued := c.summary.issued) == c.summary
            && t.history.starts == c.history.starts && t.history.lost == c.history.lost
            && t.finished == s.finished +
                 if o.plan.Some? && (e.gameId in s.games ==> !e.record.RecordDropped?) then 1 else 0
  {
    hide Closed, Issue, PlanDone;
    ClosedChallenges(s, e);
    var c := Closed(s, e);
    var counted := c.(finished := s.finished + 1, outgoing := None,
                      history := c.history.(strays := s.history.strays + if s.outgoing.None? then 1 else 0));
    IssueFrame(o, counted, e.answer);
  }

  /** A challenge's end, or a stream opened, touches the challenge's own fields alone. */
  lemma ChallengeFrame(o: Options, s: State, e: Event)
    requires !e.GameStart? && !e.MoveRequest? && !e.GameFinish?
    ensures var t := Handle(o, s, e);
            && t.games == s.games && t.openings == s.openings && t.wakeAt == s.wakeAt && t.ordinals == s.ordinals
            && t.summary.(issued := s.summary.issued) == s.summary
            && t.history.starts == s.history.starts && t.history.lost == s.history.lost
  {
    hide Issue, PlanDone;
    HandleIs(o, s, e);
    hide Handle;
    match e {
      case StreamOpen(answer) => IssueFrame(o, s, answer);
      case ChallengeEnded(_, answer) =>
        var over := s.history.over + {e.challengeId};
        IssueFrame(o, s.(outgoing := None, history := s.history.(over := over, ended := s.history.ended + 1)), answer);
      case _ => StatusAlone(o, s, e);
    }
  }

  lemma MoveFrame(o: Options, s: State, e: Event)
    requires e.MoveRequest?
    ensures var t := Move(o, s, e);
            && t.openings == s.openings && t.wakeAt == s.wakeAt && t.ordinals == s.ordinals && t.outgoing == s.outgoing
            && t.finished == s.finished && t.summary.(rejections := s.summary.rejections) == s.summary
            && t.history == s.history && t.games.Keys == s.games.Keys
            && (forall id | id in s.games && id != e.gameId :: t.games[id] == s.games[id])
            && (e.gameId in s.games ==>
                  && t.games[e.gameId].opening == s.games[e.gameId].opening
                  && t.games[e.gameId].side == s.games[e.gameId].side
                  && t.games[e.gameId].opponent == s.games[e.gameId].opponent)
  {
    hide WellFormed, Placeable, ForcedStones, Forced, Searched, AnswerMove, Called, Answers;
    if e.gameId in s.games && e.gameId in s.openings && Answers(s, e) {
      var cells, r := CellsOf(e.board), s.games[e.gameId];
      var searched := Searched(e.choose, cells, Forced(s.openings[e.gameId], cells));
      var receipt := AnswerMove(r, cells, searched, e.reply).0;
      AnswerKeepsOpening(r, cells, searched, e.reply);
      var summary := s.summary.(rejections := s.summary.rejections + if e.reply.Rejected? then 1 else 0);
      CalledFrame(o, s.(games := s.games[e.gameId := receipt], summary := summary), e.reply);
    }
  }

  lemma AnswerKeepsOpening(r: Receipt, cells: seq<Cell>, searched: (Cell, Cell), reply: MoveReply)
    ensures var t := AnswerMove(r, cells, searched, reply).0;
            t.opening == r.opening && t.side == r.side && t.opponent == r.opponent
  {
    hide ForcedStones, TurnStones;
  }

  lemma CalledFrame(o: Options, s: State, reply: MoveReply)
    ensures Called(o, s, reply) == s.(status := Called(o, s, reply).status)
  {
    hide PlanDone;
  }

  /** Another bot's challenge, a stream lost or refused and a line of no known kind change the status at most. */
  lemma StatusAlone(o: Options, s: State, e: Event)
    requires e.ChallengeOffer? || e.StreamDown? || e.StreamRefused? || e.OtherEvent?
    ensures Handle(o, s, e) == s.(status := Handle(o, s, e).status)
  {
    hide PlanDone;
  }

  // ---------------------------------------------------------------- one event at a time

  lemma TablesStayAgreed(o: Options, s: State, e: Event)
    requires TablesAgree(s)
    ensures TablesAgree(Step(o, s, e))
  {
    hide LadderOpening, Move, Finish, Open, EndChallenge;
    StepShape(o, s, e);
    hide Step;
    match e {
      case GameStart(_, _, _, _) => hide Handle; StartTables(o, s, e); HandleIs(o, s, e);
      case MoveRequest(_, _, _, _, _) => MoveFrame(o, s, e);
      case GameFinish(_, _, _, _) => FinishFrame(o, s, e); ClosedTables(s, e);
      case _ => hide Handle; ChallengeFrame(o, s, e);
    }
  }

  lemma StartTables(o: Options, s: State, e: Event)
    requires TablesAgree(s) && e.GameStart?
    ensures TablesAgree(Start(o, s, e))
  {
    hide LadderOpening;
  }

  lemma ClosedTables(s: State, e: Event)
    requires TablesAgree(s) && e.GameFinish?
    ensures TablesAgree(Closed(s, e))
  {
  }

  lemma CountsAppend(receipts: seq<Body>, b: Body, o: Outcome)
    ensures CountOutcome(receipts + [b], o) == CountOutcome(receipts, o) + if b.outcome == o then 1 else 0
  {
    assert (receipts + [b])[..|receipts|] == receipts;
  }

  lemma GamesStayAddedUp(o: Options, s: State, e: Event)
    requires GamesAddUp(s)
    ensures GamesAddUp(Step(o, s, e))
  {
    hide LadderOpening, Move, Finish, Open, EndChallenge, CountOutcome, Start, Closed;
    StepShape(o, s, e);
    hide Step;
    match e {
      case GameStart(_, _, _, _) => StartAddsUp(o, s, e);
      case MoveRequest(_, _, _, _, _) => MoveFrame(o, s, e); SameSize(s.games, Move(o, s, e).games);
      case GameFinish(_, _, _, _) => FinishFrame(o, s, e); ClosedAddsUp(s, e);
      case _ => hide Handle; ChallengeFrame(o, s, e);
    }
  }

  lemma SameSize<V, W>(m: map<string, V>, n: map<string, W>)
    requires m.Keys == n.Keys
    ensures |m| == |n|
  {
    assert |m.Keys| == |m| && |n.Keys| == |n|;
  }

  lemma OneFewer<V>(m: map<string, V>, id: string)
    ensures |m - {id}| == if id in m then |m| - 1 else |m|
  {
    assert |(m - {id}).Keys| == |m - {id}| && |m.Keys| == |m|;
    if id in m {
      assert m.Keys == (m - {id}).Keys + {id};
    } else {
      assert m - {id} == m;
    }
  }

  lemma OneMore<V>(m: map<string, V>, id: string, v: V)
    requires id !in m
    ensures |m[id := v]| == |m| + 1
  {
    assert |m[id := v].Keys| == |m[id := v]| && |m.Keys| == |m|;
    assert m[id := v].Keys == m.Keys + {id};
  }

  lemma StartAddsUp(o: Options, s: State, e: Event)
    requires GamesAddUp(s) && e.GameStart?
    ensures GamesAddUp(Start(o, s, e))
  {
    hide LadderOpening, CountOutcome, Ordinal;
    var opening := LadderOpening(o.book, o.matchOffset + Ordinal(s.ordinals, e.opponent) / 2);
    if e.gameId !in s.games && opening.Some? {
      OneMore(s.games, e.gameId, Fresh(e.side, e.opponent, opening.value));
    }
  }

  lemma ClosedAddsUp(s: State, e: Event)
    requires GamesAddUp(s) && e.GameFinish?
    ensures GamesAddUp(Closed(s, e))
  {
    hide CountOutcome;
    OneFewer(s.games, e.gameId);
    if e.gameId in s.games {
      var body := Body(e.gameId, OutcomeFor(s.games[e.gameId].side, e.winner), s.games[e.gameId]);
      CountsAppend(s.summary.receipts, body, Win);
      CountsAppend(s.summary.receipts, body, Loss);
      CountsAppend(s.summary.receipts, body, Aborted);
    }
  }

  lemma IssueAddsUp(o: Options, s: State, answer: ChallengeAnswer)
    requires ChallengesAddUp(s) && s.outgoing.None?
    ensures ChallengesAddUp(Issue(o, s, answer))
  {
    hide MadeInTurn, HeardOf, NextFirst, PlanDone;
    match answer {
      case Created(id) => OneMade(s.history.made, Asked(s, id, true));
      case CallDropped(Some(id)) => OneMade(s.history.made, Asked(s, id, false));
      case _ =>
    }
  }

  lemma OneMade(made: seq<Made>, m: Made)
    requires MadeInTurn(made) && m.count == HeardOf(made) && m.first == NextFirst(m.count)
    ensures MadeInTurn(made + [m]) && HeardOf(made + [m]) == HeardOf(made) + if m.heard then 1 else 0
  {
    var more := made + [m];
    assert more[..|made|] == made;
    assert forall i | 0 <= i < |made| :: more[..i] == made[..i];
  }

  lemma ChallengesStayAddedUp(o: Options, s: State, e: Event)
    requires ChallengesAddUp(s)
    ensures ChallengesAddUp(Step(o, s, e))
  {
    hide Move, Start, Finish, Open, EndChallenge;
    StepShape(o, s, e);
    HandleIs(o, s, e);
    hide Step, Handle;
    match e {
      case GameStart(_, _, _, _) => StartChallenges(o, s, e);
      case MoveRequest(_, _, _, _, _) => MoveFrame(o, s, e);
      case StreamOpen(_) => OpenAddsUp(o, s, e);
      case ChallengeEnded(_, _) => EndAddsUp(o, s, e);
      case GameFinish(_, _, _, _) => FinishAddsUp(o, s, e);
      case _ => StatusAlone(o, s, e);
    }
  }

  lemma OpenAddsUp(o: Options, s: State, e: Event)
    requires ChallengesAddUp(s) && e.StreamOpen?
    ensures ChallengesAddUp(Open(o, s, e))
  {
    hide Issue, PlanDone, ChallengesAddUp;
    if s.outgoing.None? {
      IssueAddsUp(o, s, e.answer);
    }
  }

  lemma EndAddsUp(o: Options, s: State, e: Event)
    requires ChallengesAddUp(s) && e.ChallengeEnded?
    ensures ChallengesAddUp(EndChallenge(o, s, e))
  {
    hide Issue, PlanDone;
    if s.outgoing.Some? {
      var over := s.history.over + {e.challengeId};
      IssueAddsUp(o, s.(outgoing := None, history := s.history.(over := over, ended := s.history.ended + 1)), e.answer);
    }
  }

  lemma ClosedChallenges(s: State, e: Event)
    requires e.GameFinish?
    ensures var c := Closed(s, e);
            c.outgoing == s.outgoing && c.finished == s.finished && c.summary.issued == s.summary.issued &&
            c.history.(lost := s.history.lost) == s.history
  {
  }

  lemma StartChallenges(o: Options, s: State, e: Event)
    requires ChallengesAddUp(s) && e.GameStart?
    ensures ChallengesAddUp(Start(o, s, e))
    ensures Start(o, s, e).outgoing == s.outgoing && Start(o, s, e).finished == s.finished
  {
    hide LadderOpening, Ordinal;
  }

  lemma FinishAddsUp(o: Options, s: State, e: Event)
    requires ChallengesAddUp(s) && e.GameFinish?
    ensures ChallengesAddUp(Finish(o, s, e))
  {
    hide Closed, Issue, PlanDone;
    ClosedChallenges(s, e);
    var c := Closed(s, e);
    var counted := c.(finished := s.finished + 1, outgoing := None,
                      history := c.history.(strays := s.history.strays + if s.outgoing.None? then 1 else 0));
    IssueAddsUp(o, counted, e.answer);
  }

  lemma StaysNeeded(o: Options, s: State, e: Event)
    requires OutgoingNeeded(o, s)
    ensures OutgoingNeeded(o, Step(o, s, e))
  {
    hide Move, Start, Finish, Open, EndChallenge, PlanDone;
    StepShape(o, s, e);
    HandleIs(o, s, e);
    hide Step, Handle;
    match e {
      case GameStart(_, _, _, _) => StartKeepsCount(o, s, e);
      case MoveRequest(_, _, _, _, _) => MoveFrame(o, s, e);
      case GameFinish(_, _, _, _) => FinishNeeded(o, s, e);
      case StreamOpen(_) => OpenNeeded(o, s, e);
      case ChallengeEnded(_, _) => EndNeeded(o, s, e);
      case _ => StatusAlone(o, s, e);
    }
  }

  lemma StartKeepsCount(o: Options, s: State, e: Event)
    requires e.GameStart?
    ensures var t := Start(o, s, e);
            t.outgoing == s.outgoing && t.finished == s.finished && t.summary == s.summary
  {
    hide LadderOpening, Ordinal;
  }

  lemma FinishNeeded(o: Options, s: State, e: Event)
    requires OutgoingNeeded(o, s) && e.GameFinish?
    ensures OutgoingNeeded(o, Finish(o, s, e))
  {
    hide Closed, PlanDone;
    ClosedChallenges(s, e);
  }

  lemma OpenNeeded(o: Options, s: State, e: Event)
    requires OutgoingNeeded(o, s) && e.StreamOpen?
    ensures OutgoingNeeded(o, Open(o, s, e))
  {
    hide PlanDone;
  }

  lemma EndNeeded(o: Options, s: State, e: Event)
    requires OutgoingNeeded(o, s) && e.ChallengeEnded?
    ensures OutgoingNeeded(o, EndChallenge(o, s, e))
  {
    hide PlanDone;
  }

  /** The openings depend on the ordinals, the starts and whether the session failed. */
  lemma PairedFrame(o: Options, s: State, t: State)
    requires OpeningsPaired(o, s) && t.ordinals == s.ordinals && t.history.starts == s.history.starts
    requires t.status.Failed? || !s.status.Failed?
    ensures OpeningsPaired(o, t)
  {
  }

  lemma OpeningsStayPaired(o: Options, s: State, e: Event)
    requires OpeningsPaired(o, s)
    ensures OpeningsPaired(o, Step(o, s, e))
  {
    hide OpeningsPaired, Move, Finish, Start, Open, EndChallenge, Closed;
    StepShape(o, s, e);
    hide Step;
    if s.status.Running? {
      var t := Step(o, s, e);
      match e {
        case GameStart(_, _, _, _) => StartPaired(o, s, e); PairedFrame(o, Start(o, s, e), t);
        case MoveRequest(_, _, _, _, _) => MoveFrame(o, s, e); PairedFrame(o, s, t);
        case GameFinish(_, _, _, _) => FinishFrame(o, s, e); ClosedStarts(s, e); PairedFrame(o, s, t);
        case _ => hide Handle; ChallengeFrame(o, s, e); PairedFrame(o, s, t);
      }
    }
  }

  lemma ClosedStarts(s: State, e: Event)
    requires e.GameFinish?
    ensures Closed(s, e).ordinals == s.ordinals && Closed(s, e).history.starts == s.history.starts
  {
  }

  lemma AgainstAppend(starts: seq<Started>, g: Started, p: string)
    ensures Against(starts + [g], p) == Against(starts, p) + if g.opponent == p then [g] else []
  {
    assert (starts + [g])[..|starts|] == starts;
  }

  lemma StartPaired(o: Options, s: State, e: Event)
    requires OpeningsPaired(o, s) && s.status.Running? && e.GameStart?
    ensures OpeningsPaired(o, Start(o, s, e))
  {
    hide LadderOpening, Against;
    var n := Ordinal(s.ordinals, e.opponent);
    var opening := LadderOpening(o.book, o.matchOffset + n / 2);
    if e.gameId !in s.games && opening.Some? {
      var g := Started(e.gameId, e.opponent, e.side, opening.value, s.history.ended);
      assert n == |Against(s.history.starts, e.opponent)|;
      var starts := s.history.starts;
      forall p: string ensures Against(starts + [g], p) == Against(starts, p) + if e.opponent == p then [g] else [] {
        AgainstAppend(starts, g, p);
      }
    }
  }

  lemma AnswerReadable(r: Receipt, cells: seq<Cell>, searched: (Cell, Cell), reply: MoveReply)
    requires Readable(r) && |cells| % 2 == 1
    ensures Readable(AnswerMove(r, cells, searched, reply).0)
  {
    ForcedMeans(r.opening, cells);
    hide ForcedStones;
  }

  lemma MoveReadable(o: Options, s: State, e: Event)
    requires AllReadable(s) && e.MoveRequest?
    ensures AllReadable(Move(o, s, e))
  {
    hide AnswerMove, Forced, Searched, Placeable, ForcedStones, Readable;
    MoveFrame(o, s, e);
    if e.gameId in s.games && e.gameId in s.openings && WellFormed(e.board) {
      var cells, r := CellsOf(e.board), s.games[e.gameId];
      AnswerReadable(r, cells, Searched(e.choose, cells, Forced(s.openings[e.gameId], cells)), e.reply);
      MarkReadable(r, |cells|);
    }
  }

  lemma MarkReadable(r: Receipt, stones: nat)
    requires Readable(r)
    ensures Readable(MarkOffBook(r, stones))
  {
  }

  lemma StaysReadable(o: Options, s: State, e: Event)
    requires AllReadable(s)
    ensures AllReadable(Step(o, s, e))
  {
    hide Move, Finish, Open, EndChallenge, Readable, LadderOpening, Ordinal;
    StepShape(o, s, e);
    hide Step;
    match e {
      case GameStart(_, _, _, _) => FreshReadable();
      case MoveRequest(_, _, _, _, _) =>
        hide AllReadable;
        MoveReadable(o, s, e);
        SameReadable(if s.status.Running? then Move(o, s, e) else s, Step(o, s, e));
      case GameFinish(_, _, _, _) => FinishFrame(o, s, e);
      case _ => hide Handle; ChallengeFrame(o, s, e);
    }
  }

  lemma FreshReadable()
    ensures forall side, opponent, opening :: Readable(Fresh(side, opponent, opening))
  {
  }

  lemma SameReadable(s: State, t: State)
    requires AllReadable(s) && t.games == s.games && t.summary == s.summary
    ensures AllReadable(t)
  {
  }

  /** Over every run of events and answers, the tables, the counters, the challenges and the openings keep together. */
  lemma {:induction false} EveryRunSound(o: Options, events: seq<Event>)
    ensures Sound(o, Run(o, events))
  {
    hide TablesAgree, GamesAddUp, ChallengesAddUp, OutgoingNeeded, OpeningsPaired, AllReadable, Step;
    if events == [] {
      StartSound(o);
    } else {
      EveryRunSound(o, events[..|events| - 1]);
      var s, e := Run(o, events[..|events| - 1]), events[|events| - 1];
      TablesStayAgreed(o, s, e);
      GamesStayAddedUp(o, s, e);
      ChallengesStayAddedUp(o, s, e);
      StaysNeeded(o, s, e);
      OpeningsStayPaired(o, s, e);
      StaysReadable(o, s, e);
    }
  }

  lemma StartSound(o: Options)
    ensures Sound(o, Initial())
  {
    hide Sound;
    EmptySound(o, Initial());
  }

  lemma EmptySound(o: Options, s: State)
    requires s.games.Keys == s.openings.Keys == s.wakeAt.Keys == s.ordinals.Keys == {}
    requires s.outgoing.None? && s.finished == 0 && s.status.Running?
    requires s.summary == Summary(0, 0, 0, 0, 0, 0, []) && s.history == History([], [], {}, 0, 0, 0)
    ensures Sound(o, s)
  {
    hide LadderOpening, Readable, Against, Ordinal, CountOutcome, NextFirst, PlanDone;
    NoOutcomes();
    NoStarts(s.ordinals);
    assert |s.games.Keys| == |s.games|;
  }

  lemma NoOutcomes()
    ensures forall o :: CountOutcome([], o) == 0
  {
  }

  lemma NoStarts(ordinals: map<string, nat>)
    requires ordinals.Keys == {}
    ensures forall p: string :: Against([], p) == [] && Ordinal(ordinals, p) == 0
  {
  }

  // ---------------------------------------------------------------- what a run shows

  /** Challenges never outnumber the plan's games and those that ended without one. */
  lemma ChallengesBounded(o: Options, events: seq<Event>)
    requires o.plan.Some? && o.plan.value.games >= 0
    ensures var s := Run(o, events);
            var asked, games := s.summary.issued + s.history.strays, o.plan.value.games;
            asked == s.finished + s.history.ended + (if s.outgoing.Some? then 1 else 0) &&
            (s.finished <= games ==> asked <= games + s.history.ended)
  {
    EveryRunSound(o, events);
  }

  /** A start replayed for a game still on changes nothing: the game keeps its receipt, its opening and its ordinal. */
  lemma ReplayIgnored(o: Options, s: State, e: Event)
    requires s.status.Running? && e.GameStart? && e.gameId in s.games
    ensures Step(o, s, e).(status := s.status) == s
  {
    hide LadderOpening, Move, Finish, Open, EndChallenge;
  }

  /** The three events of a challenge made, its game started and its end lost with the record. */
  function LostGame(challenge: string, game: string, opponent: string, side: Player,
                    winner: Option<Player>): seq<Event> {
    [StreamOpen(Created(challenge)), GameStart(game, opponent, side, None),
     GameFinish(game, winner, RecordDropped, Refusal)]
  }

  /**
   The game is finished, no receipt of it written, the challenge still held for out and no game of the plan counted.
   */
  lemma LostRecordReached(o: Options, c: string, g: string, opponent: string, side: Player, winner: Option<Player>)
    requires o.plan.Some? && o.plan.value.games > 0 && o.reconnect && LadderOpening(o.book, o.matchOffset).Some?
    ensures var s := Run(o, LostGame(c, g, opponent, side, winner));
            && s.status.Running? && s.games == map[] && s.summary.receipts == [] && s.history.lost == 1
            && s.outgoing == Some(c) && s.summary.issued == 1 && s.finished == 0
  {
    hide LadderOpening, Step, Run;
    var events := LostGame(c, g, opponent, side, winner);
    RunNothingYet(o);
    assert events[..0] == [] && events[..3] == events;
    RunNext(o, events, 0);
    OpenIssues(o, Run(o, []), c);
    RunNext(o, events, 1);
    FirstStart(o, Run(o, events[..1]), events[1]);
    RunNext(o, events, 2);
    LostFinish(o, Run(o, events[..2]), events[2]);
  }

  lemma RunNothingYet(o: Options)
    ensures Run(o, []) == Initial()
  {
    hide Initial;
  }

  lemma OpenIssues(o: Options, s: State, c: string)
    requires s == Initial() && o.plan.Some? && o.plan.value.games > 0
    ensures var t := Step(o, s, StreamOpen(Created(c)));
            && t.status.Running? && t.games == map[] && t.ordinals == map[] && t.summary.receipts == []
            && t.outgoing == Some(c) && t.summary.issued == 1 && t.finished == 0 && t.history.lost == 0
  {
  }

  lemma FirstStart(o: Options, s: State, e: Event)
    requires e.GameStart? && s.status.Running? && s.games == map[] && s.ordinals == map[]
    requires LadderOpening(o.book, o.matchOffset).Some? && !PlanDone(o, s.finished)
    ensures var t := Step(o, s, e);
            && t.status.Running? && t.games.Keys == {e.gameId} && t.outgoing == s.outgoing && t.finished == s.finished
            && t.summary == s.summary && t.history.lost == s.history.lost
  {
    hide LadderOpening;
  }

  lemma LostFinish(o: Options, s: State, e: Event)
    requires e.GameFinish? && e.record.RecordDropped? && s.status.Running? && s.games.Keys == {e.gameId}
    requires o.reconnect && !PlanDone(o, s.finished)
    ensures var t := Step(o, s, e);
            && t.status.Running? && t.games == map[] && t.outgoing == s.outgoing && t.finished == s.finished
            && t.summary == s.summary && t.history.lost == s.history.lost + 1
  {
    hide PlanDone;
    assert (s.games - {e.gameId}).Keys == {};
  }

  /** An event that says nothing of challenge `c`'s game or end. */
  predicate SaysNothingOf(c: string, e: Event) {
    !e.GameFinish? && !(e.ChallengeEnded? && e.challengeId == c)
  }

  /**
   A challenge held for out stays out, and no other is issued, over every continuation in which the server neither
   finishes a game nor ends that challenge, however many streams are opened in it.
   */
  lemma {:induction false} OutstandingWaits(o: Options, before: seq<Event>, more: seq<Event>, c: string)
    requires Run(o, before).outgoing == Some(c) && forall e | e in more :: SaysNothingOf(c, e)
    ensures var s, t := Run(o, before), Run(o, before + more);
            t.outgoing == s.outgoing && t.summary.issued == s.summary.issued && t.finished == s.finished
  {
    hide Run, Step;
    if more == [] {
      assert before + more == before;
    } else {
      var last := |more| - 1;
      OutstandingWaits(o, before, more[..last], c);
      var events := before + more;
      assert events[..|before| + last] == before + more[..last] && events[..|before| + last + 1] == events;
      RunNext(o, events, |before| + last);
      OutstandingStays(o, Run(o, before + more[..last]), more[last], c);
    }
  }

  lemma OutstandingStays(o: Options, s: State, e: Event, c: string)
    requires s.outgoing == Some(c) && SaysNothingOf(c, e)
    ensures var t := Step(o, s, e);
            t.outgoing == s.outgoing && t.summary.issued == s.summary.issued && t.finished == s.finished
  {
    hide Move, Start, PlanDone;
    StepShape(o, s, e);
    HandleIs(o, s, e);
    hide Step, Handle;
    match e {
      case GameStart(_, _, _, _) => StartKeepsCount(o, s, e);
      case MoveRequest(_, _, _, _, _) => MoveFrame(o, s, e);
      case StreamOpen(_) =>
      case ChallengeEnded(_, _) =>
      case _ => StatusAlone(o, s, e);
    }
  }

  /**
   After a game whose record is lost the challenger waits on the challenge it holds for out: reopened streams issue no
   other, until the server finishes a game or ends that challenge.
   */
  lemma LostRecordWaits(o: Options, c: string, g: string, opponent: string, side: Player, winner: Option<Player>,
                        more: seq<Event>)
    requires o.plan.Some? && o.plan.value.games > 0 && o.reconnect && LadderOpening(o.book, o.matchOffset).Some?
    requires forall e | e in more :: SaysNothingOf(c, e)
    ensures var t := Run(o, LostGame(c, g, opponent, side, winner) + more);
            t.outgoing == Some(c) && t.summary.issued == 1 && t.finished == 0
  {
    hide Run, LostGame, LadderOpening;
    LostRecordReached(o, c, g, opponent, side, winner);
    OutstandingWaits(o, LostGame(c, g, opponent, side, winner), more, c);
  }

  /**
   The end of a game that is on writes its receipt, and counts for the plan so that its challenge is let go, exactly
   when the reading of the record is not dropped; dropped, both the summary and the challenge stay as they were.
   */
  lemma FinishWritesUnlessLost(o: Options, s: State, e: Event)
    requires s.status.Running? && e.GameFinish? && e.gameId in s.games
    ensures var t := Step(o, s, e);
            var body := Body(e.gameId, OutcomeFor(s.games[e.gameId].side, e.winner), s.games[e.gameId]);
            && e.gameId !in t.games
            && (t.summary.receipts == s.summary.receipts + [body] <==> !e.record.RecordDropped?)
            && (o.plan.Some? ==> (t.finished == s.finished + 1 <==> !e.record.RecordDropped?))
            && (e.record.RecordDropped? ==>
                  t.summary == s.summary && t.outgoing == s.outgoing && t.finished == s.finished)
  {
    hide PlanDone, OutcomeFor, Issue, Handle;
    HandleIs(o, s, e);
    StepShape(o, s, e);
    hide Step;
    FinishWrites(o, s, e);
  }

  lemma FinishWrites(o: Options, s: State, e: Event)
    requires e.GameFinish? && e.gameId in s.games
    ensures var t := Finish(o, s, e);
            && e.gameId !in t.games
            && (e.record.RecordDropped? ==>
                  t.summary == s.summary && t.outgoing == s.outgoing && t.finished == s.finished)
            && (!e.record.RecordDropped? ==>
                  && t.summary.receipts == s.summary.receipts +
                       [Body(e.gameId, OutcomeFor(s.games[e.gameId].side, e.winner), s.games[e.gameId])]
                  && (o.plan.Some? ==> t.finished == s.finished + 1))
  {
    hide PlanDone, OutcomeFor, Issue;
    FinishFrame(o, s, e);
  }

  /** The games against an opponent, as a run leaves them. */
  ghost function GamesAgainst(o: Options, events: seq<Event>, opponent: string): seq<Started> {
    Against(Run(o, events).history.starts, opponent)
  }

  /** Games 2k and 2k + 1 against an opponent share opening `matchOffset` + k. */
  lemma PairSharesOpening(o: Options, events: seq<Event>, opponent: string, k: nat)
    requires 2 * k + 1 < |GamesAgainst(o, events, opponent)|
    ensures var games := GamesAgainst(o, events, opponent);
            games[2 * k].opening == games[2 * k + 1].opening && games[2 * k].opening.index == o.matchOffset + k
  {
    hide LadderOpening, Run, Against, TablesAgree, GamesAddUp, ChallengesAddUp, OutgoingNeeded, AllReadable;
    EveryRunSound(o, events);
    OpeningRoundTrip(o.book, o.matchOffset + k);
    assert 2 * k / 2 == k && (2 * k + 1) / 2 == k;
  }

  /**
   Two sessions that start from the same place in the same book share the opening of their n-th game against each other,
   though neither tells the other.
   */
  lemma SessionsShareOpening(oa: Options, ea: seq<Event>, a: string, ob: Options, eb: seq<Event>, b: string, n: nat)
    requires oa.book == ob.book && oa.matchOffset == ob.matchOffset
    requires n < |GamesAgainst(oa, ea, b)| && n < |GamesAgainst(ob, eb, a)|
    ensures GamesAgainst(oa, ea, b)[n].opening == GamesAgainst(ob, eb, a)[n].opening
  {
    hide LadderOpening, Run, Against, TablesAgree, GamesAddUp, ChallengesAddUp, OutgoingNeeded, AllReadable;
    EveryRunSound(oa, ea);
    EveryRunSound(ob, eb);
  }

  lemma RunNext(o: Options, events: seq<Event>, i: nat)
    requires i < |events|
    ensures Run(o, events[..i + 1]) == Step(o, Run(o, events[..i]), events[i])
    ensures !Run(o, events[..i]).status.Running? ==> Run(o, events[..i + 1]) == Run(o, events[..i])
  {
    hide Handle;
    assert events[..i + 1][..i] == events[..i];
  }
}
