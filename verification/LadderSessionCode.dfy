/** The session's event handlers as they update its fields, each doing what the machine's event does. */
module LadderSessionCode {
  import opened Lattice
  import opened LadderBoard
  import opened LadderBook
  import LadderOutcomes
  import opened LadderSession
  import opened Wrappers

  class Session {
    const options: Options
    var games: map<string, Receipt>
    var openings: map<string, Opening>
    var wakeAt: map<string, Option<nat>>
    var ordinals: map<string, nat>
    var outgoing: Option<string>
    var finished: nat
    var summary: Summary
    var status: Status
    ghost var history: History

    constructor (o: Options)
      ensures options == o && Value() == Initial()
    {
      options := o;
      games, openings, wakeAt, ordinals := map[], map[], map[], map[];
      outgoing, finished, summary, status := None, 0, Summary(0, 0, 0, 0, 0, 0, []), Running;
      history := History([], [], {}, 0, 0, 0);
    }

    ghost function Value(): State
      reads this
    {
      State(games, openings, wakeAt, ordinals, outgoing, finished, summary, status, history)
    }

    method Drop()
      modifies this`status
      ensures Value() == Dropped(options, old(Value()))
    {
      status := if PlanDone(options, finished) || !options.reconnect then Returned else Running;
    }

    method IssueChallenge(answer: ChallengeAnswer)
      modifies this
      ensures Value() == Issue(options, old(Value()), answer)
    {
      var first := if summary.issued % 2 == 0 then Challenger else Challenged;
      match answer {
        case Created(id) =>
          history := history.(made := history.made + [Made(id, first, summary.issued, true)]);
          outgoing := Some(id);
          summary := summary.(issued := summary.issued + 1);
        case Refusal => status := Failed;
        case CallDropped(None) => Drop();
        case CallDropped(Some(id)) =>
          history := history.(made := history.made + [Made(id, first, summary.issued, false)]);
          Drop();
      }
    }

    /** The opening of the next game against an opponent, and its ordinal used up. */
    method OpeningFor(opponent: string) returns (opening: Option<Opening>)
      modifies this`ordinals
      ensures var n := Ordinal(old(ordinals), opponent);
              ordinals == old(ordinals)[opponent := n + 1] &&
              opening == LadderOpening(options.book, options.matchOffset + n / 2)
    {
      var ordinal := if opponent in ordinals then ordinals[opponent] else 0;
      ordinals := ordinals[opponent := ordinal + 1];
      opening := LadderOpening(options.book, options.matchOffset + ordinal / 2);
    }

    method OnStart(e: Event)
      requires e.GameStart?
      modifies this
      ensures Value() == Start(options, old(Value()), e)
    {
      if e.gameId in games {
        return;
      }
      var opening := OpeningFor(e.opponent);
      if opening.None? {
        status := Failed;
        return;
      }
      openings := openings[e.gameId := opening.value];
      games := games[e.gameId := Fresh(e.side, e.opponent, opening.value)];
      wakeAt := wakeAt[e.gameId := e.wake];
      ghost var started := Started(e.gameId, e.opponent, e.side, opening.value, history.ended);
      history := history.(starts := history.starts + [started]);
    }

    /** The turn played through the backend on the replayed board, the book's stones first. */
    method PlayTurn(cells: seq<Cell>, board: Board, e: Event, forced: seq<Cell>)
        returns (turn: Option<(Cell, Cell)>, book: nat)
      requires e.MoveRequest? && board.Valid() && board.stones == cells && |forced| <= 2
      ensures turn.Some? <==> Placeable(e.legal, cells, forced)
      ensures turn.Some? ==> turn.value == TurnStones(forced, Searched(e.choose, cells, forced)) && book == |forced|
    {
      var r := TwoStones(board, e.choose, e.legal, forced);
      match r {
        case Ok(t) => return Some((t.first, t.second)), t.bookStones;
        case Err(_) => return None, 0;
      }
    }

    /** What came of the move call put in the receipt and the counters; a lost call drops the stream. */
    method Hear(e: Event, receipt: Receipt, row: MoveRow)
      requires e.MoveRequest?
      modifies this
      ensures var s := old(Value());
              var rejections := s.summary.rejections + if e.reply.Rejected? then 1 else 0;
              Value() == Called(options, s.(games := s.games[e.gameId := Heard(receipt, row, e.reply)],
                                            summary := s.summary.(rejections := rejections)), e.reply)
    {
      games := games[e.gameId := Heard(receipt, row, e.reply)];
      match e.reply {
        case Accepted =>
        case Rejected(stale, resignLost) =>
          summary := summary.(rejections := summary.rejections + 1);
          if !stale && resignLost {
            Drop();
          }
        case Lost(_) => Drop();
        case Errored(_) => status := Failed;
      }
    }

    method OnMove(e: Event)
      requires e.MoveRequest?
      requires TablesAgree(Value())
      modifies this
      ensures Value() == Move(options, old(Value()), e)
    {
      hide WellFormed, ForcedStones, TurnStones, Searched, Placeable, Called, Heard;
      if e.gameId !in games {
        return;
      }
      var replayed := BoardFromWire(e.board);
      if replayed.Err? {
        status := Failed;
        return;
      }
      var receipt, opening, cells := games[e.gameId], openings[e.gameId], CellsOf(e.board);
      var forced := ForcedStones(opening, cells);
      ForcedMeans(opening, cells);
      if forced.None? {
        receipt := MarkOffBook(receipt, |cells|);
      }
      var stones := if forced.None? then [] else forced.value;
      games := games[e.gameId := receipt];
      var turn, book := PlayTurn(cells, replayed.value, e, stones);
      if turn.None? {
        status := Failed;
        return;
      }
      var row := MoveRow(|cells|, turn.value.0, turn.value.1, book);
      assert games[e.gameId := Heard(receipt, row, e.reply)] == old(games)[e.gameId := Heard(receipt, row, e.reply)];
      Hear(e, receipt, row);
    }

    /** The game's receipt taken out of the tables, and written unless the network loses its record. */
    method CloseGame(e: Event) returns (dropped: bool)
      requires e.GameFinish?
      modifies this
      ensures Value() == Closed(old(Value()), e)
      ensures dropped <==> e.gameId in old(games) && e.record.RecordDropped?
    {
      var known, receipt := e.gameId in games, if e.gameId in games then Some(games[e.gameId]) else None;
      games, openings, wakeAt := games - {e.gameId}, openings - {e.gameId}, wakeAt - {e.gameId};
      if !known {
        return false;
      }
      if e.record.RecordDropped? {
        history := history.(lost := history.lost + 1);
        return true;
      }
      summary := Recorded(summary, Body(e.gameId, OutcomeFor(receipt.value.side, e.winner), receipt.value));
      return false;
    }

    method OnFinish(e: Event)
      requires e.GameFinish?
      modifies this
      ensures Value() == Finish(options, old(Value()), e)
    {
      hide Closed, Issue, Dropped;
      ClosedChallenges(Value(), e);
      var dropped := CloseGame(e);
      if dropped {
        Drop();
        return;
      }
      if options.plan.Some? {
        history := history.(strays := history.strays + if outgoing.None? then 1 else 0);
        finished := finished + 1;
        outgoing := None;
        if !PlanDone(options, finished) {
          IssueChallenge(e.answer);
        }
      }
    }

    method OnChallengeEnded(e: Event)
      requires e.ChallengeEnded?
      modifies this
      ensures Value() == EndChallenge(options, old(Value()), e)
    {
      hide Issue;
      history := history.(over := history.over + {e.challengeId});
      if options.plan.Some? && outgoing == Some(e.challengeId) {
        outgoing := None;
        history := history.(ended := history.ended + 1);
        if !PlanDone(options, finished) {
          IssueChallenge(e.answer);
        }
      }
    }

    method OnOpen(e: Event)
      requires e.StreamOpen?
      modifies this
      ensures Value() == Open(options, old(Value()), e)
    {
      if options.plan.Some? && outgoing.None? && !PlanDone(options, finished) {
        IssueChallenge(e.answer);
      }
    }

    /** Another bot's challenge accepted or declined; or the stream itself lost or refused. */
    method OnCall(e: Event)
      requires e.ChallengeOffer? || e.StreamDown? || e.StreamRefused?
      modifies this`status
      ensures Value() == Handle(options, old(Value()), e)
    {
      if e.StreamDown? || (e.ChallengeOffer? && e.call.CallLost?) {
        Drop();
      } else if e.StreamRefused? || e.call.CallRefused? {
        status := Failed;
      }
    }

    /** One event handled, and the plan's end noticed. */
    method OnEvent(e: Event)
      requires status.Running? && TablesAgree(Value())
      modifies this
      ensures Value() == Step(options, old(Value()), e) && TablesAgree(Value())
    {
      hide Start, Move, Finish, EndChallenge, Open, PlanDone, TablesAgree;
      TablesStayAgreed(options, Value(), e);
      match e {
        case StreamOpen(_) => OnOpen(e);
        case GameStart(_, _, _, _) => OnStart(e);
        case MoveRequest(_, _, _, _, _) => OnMove(e);
        case GameFinish(_, _, _, _) => OnFinish(e);
        case ChallengeEnded(_, _) => OnChallengeEnded(e);
        case OtherEvent =>
        case _ => OnCall(e);
      }
      if status.Running? && !e.StreamOpen? && PlanDone(options, finished) {
        status := Returned;
      }
    }
  }

  /** A whole stream: the session stops at the event after which it does not run. */
  method RunStream(o: Options, events: seq<Event>) returns (summary: Summary)
    ensures summary == Run(o, events).summary
    ensures LadderOutcomes.Counted(o, events, summary) && LadderOutcomes.Written(o, events, summary.receipts)
  {
    hide Step, TablesAgree, Run, Initial, LadderOutcomes.Counted, LadderOutcomes.Written;
    var session := new Session(o);
    RunNothing(o);
    for i := 0 to |events|
      invariant fresh(session) && session.options == o && TablesAgree(session.Value())
      invariant session.Value() == Run(o, events[..i])
    {
      RunNext(o, events, i);
      if session.status.Running? {
        session.OnEvent(events[i]);
      }
    }
    assert events[..|events|] == events;
    summary := session.summary;
    LadderOutcomes.RunResults(o, events);
  }

  lemma RunNothing(o: Options)
    ensures Run(o, []) == Initial() && TablesAgree(Initial())
  {
    hide Sound, TablesAgree;
    StartSound(o);
    SoundTables(o, Initial());
  }

  lemma SoundTables(o: Options, s: State)
    requires Sound(o, s)
    ensures TablesAgree(s)
  {
  }
}
