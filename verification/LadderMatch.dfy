/**
 One game between two sessions: the server's lines to both, in any interleaving, and the board it keeps. What each
 session records of the game is what the duel of `LadderBook` says of it.
 */
module LadderMatch {
  import opened Lattice
  import opened LadderBoard
  import opened LadderBook
  import opened LadderSession
  import opened Wrappers

  /**
   A bot in the game: its name, the ids of the games against the other it saw begin before, and the opening it plays.
   */
  datatype Seating = Seating(bot: string, before: seq<string>, opening: Opening)

  /** The game: its id, who plays first and second, and the origin stone. */
  datatype Game = Game(id: string, first: Seating, second: Seating, origin: Cell)

  function Own(g: Game, side: Player): Seating {
    if side == P1 then g.first else g.second
  }

  function Rival(g: Game, side: Player): string {
    Own(g, Other(side)).bot
  }

  /** A line of one bot's stream. */
  datatype Line = ToFirst(event: Event) | ToSecond(event: Event)

  /** Both sessions, and the requests of the game they have answered. */
  datatype Match = Match(one: State, two: State, asked: seq<Request>)

  /** The server's board of the game, and the receipts the answers amount to. */
  function DuelOf(g: Game, asked: seq<Request>): Duel {
    Play(Opened(g.origin, g.first.bot, g.second.bot, g.first.opening, g.second.opening), asked)
  }

  /** The game's request that a session answers on this event, if any. */
  ghost function RequestOf(g: Game, s: State, e: Event): seq<Request> {
    if e.MoveRequest? && e.gameId == g.id && s.status.Running? && Answers(s, e) then
      var cells := CellsOf(e.board);
      [Request(Searched(e.choose, cells, Forced(s.openings[g.id], cells)), e.reply)]
    else []
  }

  ghost function Next(one: Options, two: Options, g: Game, m: Match, l: Line): Match {
    match l
    case ToFirst(e) => Match(Step(one, m.one, e), m.two, m.asked + RequestOf(g, m.one, e))
    case ToSecond(e) => Match(m.one, Step(two, m.two, e), m.asked + RequestOf(g, m.two, e))
  }

  ghost function Meet(one: Options, two: Options, g: Game, lines: seq<Line>): Match {
    if lines == [] then Match(Initial(), Initial(), [])
    else Next(one, two, g, Meet(one, two, g, lines[..|lines| - 1]), lines[|lines| - 1])
  }

  predicate Began(s: State, id: string) {
    exists i :: 0 <= i < |s.history.starts| && s.history.starts[i].gameId == id
  }

  function GameIds(starts: seq<Started>): seq<string> {
    seq(|starts|, i requires 0 <= i < |starts| => starts[i].gameId)
  }

  /**
   What the game's server sends the bot on `side`: a start once, replays aside, after the games the seating lists; and
   requests with the board it keeps, when that side is to move. Of other games anything at all.
   */
  ghost predicate Fair(g: Game, side: Player, s: State, d: Duel, e: Event) {
    match e
    case GameStart(id, opponent, p, _) =>
      id == g.id && id !in s.games ==>
        && p == side && opponent == Rival(g, side)
        && GameIds(Against(s.history.starts, opponent)) == Own(g, side).before && !Began(s, id)
    case MoveRequest(id, board, _, _, _) =>
      id == g.id ==> CellsOf(board) == d.cells && PlayerForStone(|d.cells|) == side
    case _ => true
  }

  ghost predicate FairLine(g: Game, m: Match, l: Line) {
    if l.ToFirst? then Fair(g, P1, m.one, DuelOf(g, m.asked), l.event)
    else Fair(g, P2, m.two, DuelOf(g, m.asked), l.event)
  }

  ghost predicate FairLines(one: Options, two: Options, g: Game, lines: seq<Line>) {
    forall i | 0 <= i < |lines| :: FairLine(g, Meet(one, two, g, lines[..i]), lines[i])
  }

  /** The session holds `r` for the game, or has written it. */
  ghost predicate Records(s: State, id: string, r: Receipt) {
    || (id in s.games && s.games[id] == r)
    || exists i :: 0 <= i < |s.summary.receipts| &&
                   s.summary.receipts[i].gameId == id && s.summary.receipts[i].receipt == r
  }

  /** Nothing but `r` is held or written of the game, and it is a fresh receipt until the game begins. */
  ghost predicate Follows(g: Game, side: Player, s: State, r: Receipt) {
    && TablesAgree(s)
    && (g.id in s.games ==> s.games[g.id] == r && Began(s, g.id))
    && (forall i | 0 <= i < |s.summary.receipts| ::
          s.summary.receipts[i].gameId == g.id ==>
            s.summary.receipts[i].receipt == r && Began(s, g.id) && g.id !in s.games)
    && (!Began(s, g.id) ==> r == Fresh(side, Rival(g, side), Own(g, side).opening))
  }

  /** The book has the opening of this seating at its place. */
  predicate HasOpening(o: Options, own: Seating) {
    LadderOpening(o.book, o.matchOffset + |own.before| / 2) == Some(own.opening)
  }

  // ---------------------------------------------------------------- one line at a time

  /** Where the game's tables, receipts and starts are the same, so is what follows. */
  lemma SameFollows(g: Game, side: Player, s: State, t: State, r: Receipt)
    requires Follows(g, side, s, r) && TablesAgree(t) && t.history.starts == s.history.starts
    requires t.summary.receipts == s.summary.receipts
    requires g.id in t.games ==> g.id in s.games && t.games[g.id] == s.games[g.id]
    ensures Follows(g, side, t, r)
  {
    hide TablesAgree;
  }

  lemma StartFollows(o: Options, g: Game, side: Player, s: State, d: Duel, e: Event)
    requires Follows(g, side, s, Seat(d, side)) && Fair(g, side, s, d, e) && HasOpening(o, Own(g, side)) && e.GameStart?
    requires OpeningsPaired(o, s) && s.status.Running?
    ensures Follows(g, side, Start(o, s, e), Seat(d, side))
  {
    StartTables(o, s, e);
    BeganStays(o, s, e, g.id);
    if e.gameId == g.id && e.gameId !in s.games {
      OrdinalCounts(o, s, e.opponent);
    }
    StartChanges(o, s, e);
    hide Start, LadderOpening, Seat, OpeningsPaired, Ordinal, Against, TablesAgree, Began;
  }

  /** A start adds the fresh receipt of its game, if that was not on, and writes nothing. */
  lemma StartChanges(o: Options, s: State, e: Event)
    requires e.GameStart?
    ensures var t := Start(o, s, e);
            && t.summary == s.summary
            && (forall id | id != e.gameId ::
                  (id in t.games <==> id in s.games) && (id in s.games ==> t.games[id] == s.games[id]))
            && (e.gameId in s.games ==> t == s)
            && (e.gameId in t.games && e.gameId !in s.games ==>
                  var opening := LadderOpening(o.book, o.matchOffset + Ordinal(s.ordinals, e.opponent) / 2);
                  opening.Some? && t.games[e.gameId] == Fresh(e.side, e.opponent, opening.value))
  {
    hide LadderOpening, Ordinal;
  }

  /** A game begun is remembered, and no game is begun but the event's. */
  lemma BeganStays(o: Options, s: State, e: Event, id: string)
    requires e.GameStart?
    ensures var t := Start(o, s, e);
            && (Began(s, id) ==> Began(t, id)) && (id != e.gameId ==> (Began(t, id) ==> Began(s, id)))
            && (e.gameId in t.games && e.gameId !in s.games ==> Began(t, e.gameId))
  {
    hide LadderOpening, Ordinal;
    var t := Start(o, s, e);
    if t.history.starts != s.history.starts {
      assert t.history.starts[|s.history.starts|].gameId == e.gameId;
      forall i | 0 <= i < |s.history.starts| ensures t.history.starts[i] == s.history.starts[i] {
      }
    }
  }

  lemma OrdinalCounts(o: Options, s: State, opponent: string)
    requires OpeningsPaired(o, s) && s.status.Running?
    ensures Ordinal(s.ordinals, opponent) == |GameIds(Against(s.history.starts, opponent))|
  {
    hide LadderOpening;
  }

  lemma FinishFollows(o: Options, g: Game, side: Player, s: State, e: Event, r: Receipt)
    requires Follows(g, side, s, r) && e.GameFinish?
    ensures Follows(g, side, Finish(o, s, e), r)
  {
    ClosedTables(s, e);
    FinishFrame(o, s, e);
    hide Finish, TablesAgree, OutcomeFor;
  }

  /** A request of the game answered: the session's receipt goes as the duel's. */
  lemma AnswerFollows(o: Options, g: Game, side: Player, s: State, d: Duel, e: Event)
    requires Follows(g, side, s, Seat(d, side)) && Fair(g, side, s, d, e)
    requires e.MoveRequest? && e.gameId == g.id && Answers(s, e)
    ensures var q := Request(Searched(e.choose, CellsOf(e.board), Forced(s.openings[g.id], CellsOf(e.board))), e.reply);
            Move(o, s, e).games[g.id] == Seat(Ask(d, q), side) && Seat(Ask(d, q), Other(side)) == Seat(d, Other(side))
  {
    hide WellFormed, Placeable, ForcedStones, Forced, Searched, TurnStones, Heard, Began, PlayerForStone;
    var cells := CellsOf(e.board);
    var searched := Searched(e.choose, cells, Forced(s.openings[g.id], cells));
    MoveIs(o, s, e);
  }

  lemma MoveIs(o: Options, s: State, e: Event)
    requires e.MoveRequest? && Answers(s, e)
    ensures var cells := CellsOf(e.board);
            var searched := Searched(e.choose, cells, Forced(s.openings[e.gameId], cells));
            Move(o, s, e).games == s.games[e.gameId := AnswerMove(s.games[e.gameId], cells, searched, e.reply).0]
  {
    hide WellFormed, Placeable, ForcedStones, Forced, Searched, AnswerMove;
  }

  /** A request not answered leaves the game's receipt as it is. */
  lemma UnansweredFollows(o: Options, s: State, e: Event)
    requires e.MoveRequest? && e.gameId in s.games && !Answers(s, e)
    ensures Move(o, s, e).games == s.games
  {
    hide WellFormed, ForcedStones, Searched, AnswerMove, MarkOffBook;
    if e.gameId in s.openings && WellFormed(e.board) {
      assert ForcedStones(s.openings[e.gameId], CellsOf(e.board)).Some?;
    }
  }

  /** The session's receipt of a game that is on goes from `r` to `r'`. */
  lemma NextFollows(g: Game, side: Player, s: State, t: State, r: Receipt, r': Receipt)
    requires Follows(g, side, s, r) && TablesAgree(t) && t.history.starts == s.history.starts
    requires t.summary.receipts == s.summary.receipts && g.id in s.games && g.id in t.games && t.games[g.id] == r'
    ensures Follows(g, side, t, r')
  {
    hide TablesAgree;
  }

  lemma MoveFollows(o: Options, g: Game, side: Player, s: State, d: Duel, e: Event)
    requires Follows(g, side, s, Seat(d, side)) && Fair(g, side, s, d, e) && e.MoveRequest? && s.status.Running?
    ensures var d' := if RequestOf(g, s, e) == [] then d else Ask(d, RequestOf(g, s, e)[0]);
            Follows(g, side, Step(o, s, e), Seat(d', side)) && Seat(d', Other(side)) == Seat(d, Other(side))
  {
    TablesStayAgreed(o, s, e);
    StepShape(o, s, e);
    HandleIs(o, s, e);
    MoveFrame(o, s, e);
    hide Step, Handle, TablesAgree, Answers, Fair, Ask, Move, Searched, Forced, CellsOf, Follows, Seat;
    var t := Step(o, s, e);
    if e.gameId == g.id && Answers(s, e) {
      InGames(s, e);
      AnswerFollows(o, g, side, s, d, e);
      NextFollows(g, side, s, t, Seat(d, side), Seat(Ask(d, RequestOf(g, s, e)[0]), side));
    } else {
      if e.gameId == g.id && e.gameId in s.games {
        UnansweredFollows(o, s, e);
      }
      SameFollows(g, side, s, t, Seat(d, side));
    }
  }

  lemma InGames(s: State, e: Event)
    requires e.MoveRequest? && Answers(s, e)
    ensures e.gameId in s.games
  {
  }

  /** One line of a bot's stream: its session follows its own seat of the duel, and the other seat stays. */
  lemma LineFollows(o: Options, g: Game, side: Player, s: State, d: Duel, e: Event)
    requires Follows(g, side, s, Seat(d, side)) && Fair(g, side, s, d, e) && HasOpening(o, Own(g, side))
    requires OpeningsPaired(o, s)
    ensures var d' := if RequestOf(g, s, e) == [] then d else Ask(d, RequestOf(g, s, e)[0]);
            Follows(g, side, Step(o, s, e), Seat(d', side)) && Seat(d', Other(side)) == Seat(d, Other(side))
  {
    hide Seat, Follows, Fair, HasOpening, Ask, OpeningsPaired;
    if s.status.Running? && e.MoveRequest? {
      MoveFollows(o, g, side, s, d, e);
    } else if s.status.Running? {
      OtherFollows(o, g, side, s, d, e);
    } else {
      StepShape(o, s, e);
    }
  }

  lemma OtherFollows(o: Options, g: Game, side: Player, s: State, d: Duel, e: Event)
    requires Follows(g, side, s, Seat(d, side)) && Fair(g, side, s, d, e) && HasOpening(o, Own(g, side))
    requires OpeningsPaired(o, s)
    requires !e.MoveRequest? && s.status.Running?
    ensures Follows(g, side, Step(o, s, e), Seat(d, side))
  {
    StepShape(o, s, e);
    HandleIs(o, s, e);
    FollowsTables(g, side, s, Seat(d, side));
    TablesStayAgreed(o, s, e);
    hide Step, Handle, Start, Finish, Fair, Follows, Seat, TablesAgree, HasOpening, OpeningsPaired;
    match e {
      case GameStart(_, _, _, _) =>
        StartFollows(o, g, side, s, d, e);
        SameFollows(g, side, Start(o, s, e), Step(o, s, e), Seat(d, side));
      case GameFinish(_, _, _, _) =>
        FinishFollows(o, g, side, s, e, Seat(d, side));
        SameFollows(g, side, Finish(o, s, e), Step(o, s, e), Seat(d, side));
      case _ =>
        ChallengeFrame(o, s, e);
        SameFollows(g, side, s, Step(o, s, e), Seat(d, side));
    }
  }

  lemma FollowsTables(g: Game, side: Player, s: State, r: Receipt)
    requires Follows(g, side, s, r)
    ensures TablesAgree(s)
  {
  }

  // ---------------------------------------------------------------- over every interleaving

  ghost predicate BothFollow(g: Game, m: Match) {
    var d := DuelOf(g, m.asked);
    Follows(g, P1, m.one, d.one) && Follows(g, P2, m.two, d.two)
  }

  lemma NextAsked(g: Game, asked: seq<Request>, q: seq<Request>)
    requires |q| <= 1
    ensures DuelOf(g, asked + q) == if q == [] then DuelOf(g, asked) else Ask(DuelOf(g, asked), q[0])
  {
    hide Ask;
    if q == [] {
      assert asked + q == asked;
    } else {
      assert (asked + q)[..|asked|] == asked && (asked + q)[|asked|] == q[0];
    }
  }

  lemma NextBothFollow(one: Options, two: Options, g: Game, m: Match, l: Line)
    requires BothFollow(g, m) && FairLine(g, m, l) && HasOpening(one, g.first) && HasOpening(two, g.second)
    requires OpeningsPaired(one, m.one) && OpeningsPaired(two, m.two)
    ensures BothFollow(g, Next(one, two, g, m, l))
  {
    hide Follows, DuelOf, HasOpening, Step, Fair, RequestOf, Ask, OpeningsPaired;
    var d := DuelOf(g, m.asked);
    match l {
      case ToFirst(e) =>
        OneAnswer(g, m.one, e);
        NextAsked(g, m.asked, RequestOf(g, m.one, e));
        LineFollows(one, g, P1, m.one, d, e);
      case ToSecond(e) =>
        OneAnswer(g, m.two, e);
        NextAsked(g, m.asked, RequestOf(g, m.two, e));
        LineFollows(two, g, P2, m.two, d, e);
    }
  }

  lemma OneAnswer(g: Game, s: State, e: Event)
    ensures |RequestOf(g, s, e)| <= 1
  {
  }

  lemma {:induction false} MeetFollows(one: Options, two: Options, g: Game, lines: seq<Line>)
    requires FairLines(one, two, g, lines) && HasOpening(one, g.first) && HasOpening(two, g.second)
    ensures BothFollow(g, Meet(one, two, g, lines))
  {
    hide BothFollow, FairLine, HasOpening, Next, OpeningsPaired;
    if lines == [] {
      NothingYet(one, two, g);
    } else {
      var before := lines[..|lines| - 1];
      assert FairLines(one, two, g, before) by {
        forall i | 0 <= i < |before| ensures FairLine(g, Meet(one, two, g, before[..i]), before[i]) {
          assert before[..i] == lines[..i] && FairLine(g, Meet(one, two, g, lines[..i]), lines[i]);
        }
      }
      MeetFollows(one, two, g, before);
      MeetPaired(one, two, g, before);
      assert FairLine(g, Meet(one, two, g, before), lines[|before|]);
      NextBothFollow(one, two, g, Meet(one, two, g, before), lines[|before|]);
    }
  }

  lemma NothingYet(one: Options, two: Options, g: Game)
    ensures BothFollow(g, Meet(one, two, g, []))
  {
    var s := Initial();
    assert s.games.Keys == s.openings.Keys == s.wakeAt.Keys == {} && s.summary.receipts == [] && s.history.starts == [];
    hide Initial;
    PlayNothing(g);
  }

  /** The events of one bot's stream. */
  function Events(lines: seq<Line>, first: bool): seq<Event> {
    if lines == [] then []
    else
      var l := lines[|lines| - 1];
      Events(lines[..|lines| - 1], first) + if l.ToFirst? == first then [l.event] else []
  }

  lemma RunMore(o: Options, events: seq<Event>, e: Event)
    ensures Run(o, events + [e]) == Step(o, Run(o, events), e)
  {
    hide Step;
    assert (events + [e])[..|events|] == events;
  }

  /** Each session runs on its own stream alone. */
  lemma {:induction false} MeetIsRuns(one: Options, two: Options, g: Game, lines: seq<Line>)
    ensures Meet(one, two, g, lines).one == Run(one, Events(lines, true))
    ensures Meet(one, two, g, lines).two == Run(two, Events(lines, false))
  {
    hide Step, Run, Initial, RequestOf;
    if lines == [] {
      RunNothingYet(one);
      RunNothingYet(two);
    } else {
      var before := lines[..|lines| - 1];
      MeetIsRuns(one, two, g, before);
      assert forall b :: Events(before, b) + [] == Events(before, b);
      RunMore(one, Events(before, true), lines[|before|].event);
      RunMore(two, Events(before, false), lines[|before|].event);
    }
  }

  lemma MeetPaired(one: Options, two: Options, g: Game, lines: seq<Line>)
    ensures OpeningsPaired(one, Meet(one, two, g, lines).one) && OpeningsPaired(two, Meet(one, two, g, lines).two)
  {
    hide OpeningsPaired, TablesAgree, GamesAddUp, ChallengesAddUp, OutgoingNeeded, AllReadable, Run, Meet;
    MeetIsRuns(one, two, g, lines);
    EveryRunSound(one, Events(lines, true));
    EveryRunSound(two, Events(lines, false));
  }

  lemma PlayNothing(g: Game)
    ensures DuelOf(g, []) == Opened(g.origin, g.first.bot, g.second.bot, g.first.opening, g.second.opening)
  {
  }

  /** What either session holds or writes of the game is the duel's receipt. */
  lemma RecordsAreDuels(one: Options, two: Options, g: Game, lines: seq<Line>, r1: Receipt, r2: Receipt)
    requires HasOpening(one, g.first) && HasOpening(two, g.second) && FairLines(one, two, g, lines)
    requires Records(Run(one, Events(lines, true)), g.id, r1) && Records(Run(two, Events(lines, false)), g.id, r2)
    ensures var d := DuelOf(g, Meet(one, two, g, lines).asked);
            r1 == d.one && r2 == d.two
  {
    hide Run, Meet, DuelOf, FairLines, TablesAgree, HasOpening;
    MeetFollows(one, two, g, lines);
    MeetIsRuns(one, two, g, lines);
  }

  /**
   Two sessions from the same place in the same book, each on its own stream and in any interleaving of the two, that
   saw the same games between them begin before this one: they play it from one opening, whatever either records of it
   is the duel's receipt, never off the book; and the two together record the book's plies on the server's board but the
   origin, exactly when no turn was placed unheard while the book ran.
   */
  lemma SessionsPlayTogether(one: Options, two: Options, g: Game, lines: seq<Line>, r1: Receipt, r2: Receipt)
    requires one.book == two.book && one.matchOffset == two.matchOffset && g.first.before == g.second.before
    requires HasOpening(one, g.first) && HasOpening(two, g.second) && FairLines(one, two, g, lines)
    requires Records(Run(one, Events(lines, true)), g.id, r1) && Records(Run(two, Events(lines, false)), g.id, r2)
    ensures var asked := Meet(one, two, g, lines).asked;
            var d := DuelOf(g, asked);
            var start, opening := DuelOf(g, []), g.first.opening;
            var plies := Least(|d.cells|, |opening.relative|) - 1;
            && g.second.opening == opening
            && r1 == d.one && r2 == d.two && r1.offBookAt.None? && r2.offBookAt.None?
            && InBook(opening.relative, g.origin, d.cells)
            && BookStones(r1.moves) + BookStones(r2.moves) + d.oneMissed + d.twoMissed == plies
            && (BookStones(r1.moves) + BookStones(r2.moves) == plies <==> !exists i :: BookTurnUnheard(start, asked, i))
  {
    hide Run, Meet, Play, DuelOf, FairLines, BookTurnUnheard, InBook, BookStones, Records, LadderOpening;
    SameOpening(one, two, g);
    RecordsAreDuels(one, two, g, lines, r1, r2);
    hide HasOpening;
    OneBookDuel(g, Meet(one, two, g, lines).asked);
  }

  lemma SameOpening(one: Options, two: Options, g: Game)
    requires one.book == two.book && one.matchOffset == two.matchOffset && g.first.before == g.second.before
    requires HasOpening(one, g.first) && HasOpening(two, g.second)
    ensures g.second.opening == g.first.opening
    ensures g.first.opening.relative != [] && g.first.opening.relative[0] == Cell(0, 0)
  {
    OpeningRoundTrip(one.book, one.matchOffset + |g.first.before| / 2);
    hide LadderOpening;
  }

  /** A duel between two seats on one opening stays on the book and records its plies but for those unheard of. */
  lemma OneBookDuel(g: Game, asked: seq<Request>)
    requires g.second.opening == g.first.opening
    requires g.first.opening.relative != [] && g.first.opening.relative[0] == Cell(0, 0)
    ensures var d, start, opening := DuelOf(g, asked), DuelOf(g, []), g.first.opening;
            var plies := Least(|d.cells|, |opening.relative|) - 1;
            && d.one.offBookAt.None? && d.two.offBookAt.None? && InBook(opening.relative, g.origin, d.cells)
            && BookStones(d.one.moves) + BookStones(d.two.moves) + d.oneMissed + d.twoMissed == plies
            && (BookStones(d.one.moves) + BookStones(d.two.moves) == plies <==>
                  !exists i :: BookTurnUnheard(start, asked, i))
  {
    PlayNothing(g);
    hide Play, BookTurnUnheard, InBook, BookStones;
    var opening := g.first.opening;
    PlayedTogether(g.origin, g.first.bot, g.second.bot, opening, opening, asked);
    BookStonesAddUp(g.origin, g.first.bot, g.second.bot, opening, opening, asked);
  }

  /**
   From the same place in the same book two bots play one opening exactly when the games they saw begin before halve
   alike: one start missed parts them exactly when the fuller count is even.
   */
  lemma OpeningsAgree(one: Options, two: Options, g: Game)
    requires one.book == two.book && one.matchOffset == two.matchOffset
    requires HasOpening(one, g.first) && HasOpening(two, g.second)
    ensures var m, n := |g.first.before|, |g.second.before|;
            && (g.first.opening == g.second.opening <==> m / 2 == n / 2)
            && (m == n + 1 ==> (g.first.opening == g.second.opening <==> m % 2 == 1))
  {
    OpeningRoundTrip(one.book, one.matchOffset + |g.first.before| / 2);
    OpeningRoundTrip(one.book, one.matchOffset + |g.second.before| / 2);
    hide LadderOpening;
  }

  /**
   Whatever each bot saw begin before, and whichever opening that gives it, what it records of the game is marked by the
   first board it was shown off its own opening, if there was one.
   */
  lemma RecordsMarked(one: Options, two: Options, g: Game, lines: seq<Line>, r1: Receipt, r2: Receipt)
    requires HasOpening(one, g.first) && HasOpening(two, g.second) && FairLines(one, two, g, lines)
    requires Records(Run(one, Events(lines, true)), g.id, r1) && Records(Run(two, Events(lines, false)), g.id, r2)
    ensures var asked := Meet(one, two, g, lines).asked;
            MarkRight(DuelOf(g, []), asked, P1, r1.offBookAt) && MarkRight(DuelOf(g, []), asked, P2, r2.offBookAt)
  {
    hide Run, Meet, FairLines, TablesAgree, HasOpening, MarkRight, Records, DuelOf;
    var asked := Meet(one, two, g, lines).asked;
    RecordsAreDuels(one, two, g, lines, r1, r2);
    DuelMarked(g, asked);
  }

  lemma DuelMarked(g: Game, asked: seq<Request>)
    ensures var d := DuelOf(g, asked);
            MarkRight(DuelOf(g, []), asked, P1, d.one.offBookAt) && MarkRight(DuelOf(g, []), asked, P2, d.two.offBookAt)
  {
    PlayNothing(g);
    hide Play, MarkRight;
    MarkedExactly(g.origin, g.first.bot, g.second.bot, g.first.opening, g.second.opening, asked, P1);
    MarkedExactly(g.origin, g.first.bot, g.second.bot, g.first.opening, g.second.opening, asked, P2);
  }
}
