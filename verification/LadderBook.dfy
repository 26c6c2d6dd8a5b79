/**
 The ladder's opening: two bots follow one line of the book from wherever the server starts, without exchanging it. One
 game is a run of move requests, each answered by the bot to move from the board it is shown and its own receipt.
 */
module LadderBook {
  import opened Lattice
  import opened Wrappers

  /** Opening `index` of the book, moved so that it starts at zero. */
  datatype Opening = Opening(index: nat, relative: seq<Cell>)

  /** The opening translated onto an origin stone. */
  function OnOrigin(o: Opening, origin: Cell): (full: seq<Cell>)
    ensures |full| == |o.relative|
  {
    seq(|o.relative|, k requires 0 <= k < |o.relative| => Moved(o.relative[k], origin))
  }

  /** Opening `index` of a book in file order, nothing past its end. */
  function LadderOpening(book: seq<seq<Cell>>, index: int): Option<Opening> {
    if 0 <= index < |book| && book[index] != [] then
      var moves := book[index];
      var first := moves[0];
      Some(Opening(index,
                   seq(|moves|, k requires 0 <= k < |moves| => Cell(moves[k].q - first.q, moves[k].r - first.r))))
    else None
  }

  function Take(s: seq<Cell>, n: nat): seq<Cell> {
    if n <= |s| then s[..n] else s
  }

  /**
   What the book has the next turn play: at most two stones, none at its end, and no answer for a board that left it.
   */
  function ForcedStones(o: Opening, cells: seq<Cell>): Option<seq<Cell>> {
    if cells == [] then None
    else
      var full, n := OnOrigin(o, cells[0]), |cells|;
      if Take(cells, |full|) != Take(full, n) then None
      else Some(if n <= |full| then Take(full[n..], 2) else [])
  }

  /** The book's stones for a board, none off the book. */
  function Forced(o: Opening, cells: seq<Cell>): seq<Cell> {
    var forced := ForcedStones(o, cells);
    if forced.None? then [] else forced.value
  }

  /** Ply `k` of the board is not the book's. */
  predicate Departs(o: Opening, cells: seq<Cell>, k: nat) {
    cells != [] && k < |cells| && k < |o.relative| && cells[k] != Moved(o.relative[k], cells[0])
  }

  /** Put back on its own first stone, the opening is the book's; and the relative opening starts at zero. */
  lemma OpeningRoundTrip(book: seq<seq<Cell>>, index: int)
    ensures LadderOpening(book, index).Some? <==> 0 <= index < |book| && book[index] != []
    ensures LadderOpening(book, index).Some? ==>
      var o := LadderOpening(book, index).value;
      o.index == index && o.relative != [] && o.relative[0] == Cell(0, 0) && OnOrigin(o, book[index][0]) == book[index]
  {
  }

  /**
   A board is off the book exactly when some ply departs; on it, the forced stones are the book's next, two at most.
   */
  lemma ForcedMeans(o: Opening, cells: seq<Cell>)
    ensures ForcedStones(o, cells).None? <==> cells == [] || exists k :: Departs(o, cells, k)
    ensures ForcedStones(o, cells).Some? ==>
      var f, n, l := ForcedStones(o, cells).value, |cells|, |o.relative|;
      |f| == (if n >= l then 0 else if n + 2 <= l then 2 else 1) &&
      forall k | 0 <= k < |f| :: f[k] == Moved(o.relative[n + k], cells[0])
  {
    if cells != [] {
      var full, n := OnOrigin(o, cells[0]), |cells|;
      var a, b := Take(cells, |full|), Take(full, n);
      assert |a| == |b|;
      if a != b {
        var k :| 0 <= k < |a| && a[k] != b[k];
        assert Departs(o, cells, k);
      } else {
        forall k: nat ensures !Departs(o, cells, k) {
          if k < |cells| && k < |full| {
            assert a[k] == b[k];
          }
        }
      }
    }
  }

  /** A board off the book stays off it. */
  lemma OffBookStays(o: Opening, cells: seq<Cell>, more: seq<Cell>)
    requires cells != [] && ForcedStones(o, cells).None?
    ensures ForcedStones(o, cells + more).None?
  {
    ForcedMeans(o, cells);
    ForcedMeans(o, cells + more);
    var k :| Departs(o, cells, k);
    assert Departs(o, cells + more, k);
  }

  /** Wherever the server puts its origin stone, the forced stones move with it. */
  lemma ForcedShifts(o: Opening, cells: seq<Cell>, t: Cell)
    ensures ForcedStones(o, cells).None? <==> ForcedStones(o, Shifted(cells, t)).None?
    ensures ForcedStones(o, cells).Some? ==>
      ForcedStones(o, Shifted(cells, t)) == Some(Shifted(ForcedStones(o, cells).value, t))
  {
    var moved := Shifted(cells, t);
    ForcedMeans(o, cells);
    ForcedMeans(o, moved);
    assert forall k :: Departs(o, cells, k) <==> Departs(o, moved, k);
    if ForcedStones(o, cells).Some? {
      assert ForcedStones(o, moved).value == Shifted(ForcedStones(o, cells).value, t);
    }
  }

  // ---------------------------------------------------------------- receipts

  /** An accepted turn: the size of the board it was asked on, its two stones, and how many of them the book forced. */
  datatype MoveRow = MoveRow(stones: nat, first: Cell, second: Cell, bookStones: nat)

  /** What one bot records of one game. */
  datatype Receipt = Receipt(side: Player, opponent: string, opening: Opening, offBookAt: Option<nat>,
                             moves: seq<MoveRow>, rejections: nat)

  /** The first stone count off the book; later calls keep it. */
  function MarkOffBook(r: Receipt, stones: nat): Receipt {
    if r.offBookAt.None? then r.(offBookAt := Some(stones)) else r
  }

  /**
   How a move call ends: taken; refused, a stale refusal passed over and any other answered by a resignation, whose own
   call the network may lose; or with no acceptance heard, because the network lost the answer or the server sent some
   other error, though it may have placed the turn.
   */
  datatype MoveReply = Accepted | Rejected(stale: bool, resignLost: bool) | Lost(placed: bool) | Errored(placed: bool)

  /** No answer to the turn was heard. */
  predicate Unheard(reply: MoveReply) {
    reply.Lost? || reply.Errored?
  }

  /** The turn is on the server's board. */
  predicate Placed(reply: MoveReply) {
    reply.Accepted? || (Unheard(reply) && reply.placed)
  }

  /** The turn played: the forced stones, then the searched ones. */
  function TurnStones(forced: seq<Cell>, searched: (Cell, Cell)): (Cell, Cell) {
    (if |forced| > 0 then forced[0] else searched.0, if |forced| > 1 then forced[1] else searched.1)
  }

  /**
   A turn sent: its row when it was taken, one more rejection when it was refused, nothing when no answer was heard.
   */
  function Heard(r: Receipt, row: MoveRow, reply: MoveReply): Receipt {
    match reply
    case Accepted => r.(moves := r.moves + [row])
    case Rejected(_, _) => r.(rejections := r.rejections + 1)
    case _ => r
  }

  /** One move request answered: the receipt marked when off the book, and what was heard of the turn recorded. */
  function AnswerMove(r: Receipt, cells: seq<Cell>, searched: (Cell, Cell), reply: MoveReply): (Receipt, (Cell, Cell)) {
    var marked := if ForcedStones(r.opening, cells).None? then MarkOffBook(r, |cells|) else r;
    var forced := Forced(r.opening, cells);
    var turn := TurnStones(forced, searched);
    (Heard(marked, MoveRow(|cells|, turn.0, turn.1, |forced|), reply), turn)
  }

  /** The book stones on the board that no receipt records: those of a turn placed whose acceptance was not heard. */
  function Missed(o: Opening, cells: seq<Cell>, reply: MoveReply): nat {
    if Placed(reply) && Unheard(reply) then |Forced(o, cells)| else 0
  }

  function BookStones(moves: seq<MoveRow>): nat {
    if moves == [] then 0 else BookStones(moves[..|moves| - 1]) + moves[|moves| - 1].bookStones
  }

  // ---------------------------------------------------------------- one game between two bots

  /** The server's board, both bots' receipts of the game, and the book stones each placed that its receipt missed. */
  datatype Duel = Duel(cells: seq<Cell>, one: Receipt, two: Receipt, oneMissed: nat, twoMissed: nat)

  /** A request to the bot to move: what its search would place, and how its call ends. */
  datatype Request = Request(searched: (Cell, Cell), reply: MoveReply)

  /** The bot to move answers from the board; the server places the turn or not. */
  function Ask(d: Duel, q: Request): Duel {
    var ones := PlayerForStone(|d.cells|) == P1;
    var asked := if ones then d.one else d.two;
    var (receipt, turn) := AnswerMove(asked, d.cells, q.searched, q.reply);
    var missed := Missed(asked.opening, d.cells, q.reply);
    var cells := if Placed(q.reply) then d.cells + [turn.0, turn.1] else d.cells;
    if ones then d.(cells := cells, one := receipt, oneMissed := d.oneMissed + missed)
    else d.(cells := cells, two := receipt, twoMissed := d.twoMissed + missed)
  }

  function Play(d: Duel, requests: seq<Request>): Duel {
    if requests == [] then d else Ask(Play(d, requests[..|requests| - 1]), requests[|requests| - 1])
  }

  /** The receipt of a game just started. */
  function Fresh(side: Player, opponent: string, opening: Opening): Receipt {
    Receipt(side, opponent, opening, None, [], 0)
  }

  /** The origin stone on the board, between bot `a` to play first and bot `b`. */
  function Opened(origin: Cell, a: string, b: string, one: Opening, two: Opening): Duel {
    Duel([origin], Fresh(P1, b, one), Fresh(P2, a, two), 0, 0)
  }

  function Least(a: nat, b: nat): nat {
    if a < b then a else b
  }

  /** Of plies 1 to `n` - 1, how many are `p`'s. */
  function PliesOf(p: Player, n: nat): nat {
    if n <= 1 then 0 else PliesOf(p, n - 1) + if PlayerForStone(n - 1) == p then 1 else 0
  }

  lemma {:induction false} PliesOfBoth(n: nat)
    ensures PliesOf(P1, n) + PliesOf(P2, n) == if n == 0 then 0 else n - 1
  {
    if n > 1 {
      PliesOfBoth(n - 1);
    }
  }

  /**
   The receipt is of this opening, never marked off the book, and has recorded the book plies its player placed but
   `missed`.
   */
  ghost predicate OwnShare(r: Receipt, relative: seq<Cell>, p: Player, stones: nat, missed: nat) {
    && r.opening.relative == relative && r.offBookAt.None?
    && BookStones(r.moves) + missed == PliesOf(p, Least(stones, |relative|))
  }

  /**
   The board starts at the origin stone, stands between turns, and agrees with the translated opening while that lasts.
   */
  ghost predicate InBook(relative: seq<Cell>, origin: Cell, cells: seq<Cell>) {
    && |cells| % 2 == 1 && cells[0] == origin
    && forall k | 0 <= k < |cells| && k < |relative| :: cells[k] == Moved(relative[k], origin)
  }

  ghost predicate Together(d: Duel, relative: seq<Cell>, origin: Cell) {
    && InBook(relative, origin, d.cells)
    && OwnShare(d.one, relative, P1, |d.cells|, d.oneMissed)
    && OwnShare(d.two, relative, P2, |d.cells|, d.twoMissed)
  }

  /** In the book, the turn played is the book's next stones. */
  lemma TurnInBook(r: Receipt, origin: Cell, cells: seq<Cell>, q: Request)
    requires InBook(r.opening.relative, origin, cells) && r.offBookAt.None?
    ensures var (s, turn) := AnswerMove(r, cells, q.searched, q.reply);
            var relative, n := r.opening.relative, |cells|;
            && s.opening == r.opening && s.offBookAt.None?
            && InBook(relative, origin, cells + [turn.0, turn.1])
            && BookStones(s.moves) + Missed(r.opening, cells, q.reply) == BookStones(r.moves) +
                 if Placed(q.reply) then Least(n + 2, |relative|) - Least(n, |relative|) else 0
  {
    var relative, n := r.opening.relative, |cells|;
    ForcedMeans(r.opening, cells);
    assert forall k :: !Departs(r.opening, cells, k);
    var forced := ForcedStones(r.opening, cells).value;
    var (s, turn) := AnswerMove(r, cells, q.searched, q.reply);
    assert q.reply.Accepted? ==> s.moves[..|s.moves| - 1] == r.moves;
    var more := cells + [turn.0, turn.1];
    forall k | 0 <= k < |more| && k < |relative| ensures more[k] == Moved(relative[k], origin) {
      if k >= n {
        assert more[k] == forced[k - n];
      }
    }
  }

  /** A turn's two plies are both the mover's. */
  lemma TurnPlies(p: Player, n: nat, l: nat)
    requires n % 2 == 1
    ensures PliesOf(p, Least(n + 2, l)) == PliesOf(p, Least(n, l)) +
              if PlayerForStone(n) == p then Least(n + 2, l) - Least(n, l) else 0
  {
    assert PlayerForStone(n + 1) == PlayerForStone(n);
  }

  lemma StaysTogether(d: Duel, relative: seq<Cell>, origin: Cell, q: Request)
    requires Together(d, relative, origin)
    ensures Together(Ask(d, q), relative, origin)
  {
    hide AnswerMove, PlayerForStone, PliesOf, BookStones, InBook;
    var mover, n := PlayerForStone(|d.cells|), |d.cells|;
    InBookOdd(relative, origin, d.cells);
    TurnInBook(if mover == P1 then d.one else d.two, origin, d.cells, q);
    TurnPlies(P1, n, |relative|);
    TurnPlies(P2, n, |relative|);
  }

  lemma InBookOdd(relative: seq<Cell>, origin: Cell, cells: seq<Cell>)
    requires InBook(relative, origin, cells)
    ensures |cells| % 2 == 1
  {
  }

  /**
   From the origin stone, with both bots on the same opening and whatever their searches place and the server refuses or
   the network loses, every board agrees with the translated opening until it is exhausted, neither receipt is ever
   marked off the book, and each has recorded just the book plies its own player placed, but those whose acceptance it
   did not hear.
   */
  lemma {:induction false} PlayedTogether(origin: Cell, a: string, b: string, one: Opening, two: Opening,
                                          requests: seq<Request>)
    requires one.relative == two.relative && one.relative != [] && one.relative[0] == Cell(0, 0)
    ensures Together(Play(Opened(origin, a, b, one, two), requests), one.relative, origin)
  {
    hide Ask;
    if requests != [] {
      var before := requests[..|requests| - 1];
      PlayedTogether(origin, a, b, one, two, before);
      StaysTogether(Play(Opened(origin, a, b, one, two), before), one.relative, origin, requests[|requests| - 1]);
    }
  }

  /** The two receipts' book stones. */
  function Booked(d: Duel): nat {
    BookStones(d.one.moves) + BookStones(d.two.moves)
  }

  /** The two receipts' book stones and the missed come to the book's plies on the board but the origin. */
  lemma TogetherAddsUp(d: Duel, relative: seq<Cell>, origin: Cell)
    requires Together(d, relative, origin) && relative != []
    ensures Booked(d) + d.oneMissed + d.twoMissed == Least(|d.cells|, |relative|) - 1
  {
    PliesOfBoth(Least(|d.cells|, |relative|));
  }

  /** Request `i` had its turn placed on a board the book still ran on, and the acceptance was not heard. */
  predicate BookTurnUnheard(d: Duel, requests: seq<Request>, i: nat) {
    && i < |requests| && Placed(requests[i].reply) && Unheard(requests[i].reply)
    && |Play(d, requests[..i]).cells| < |d.one.opening.relative|
  }

  /** Stones are missed exactly through the turns on a running book that were placed and not heard of. */
  lemma {:induction false} MissedExactly(origin: Cell, a: string, b: string, one: Opening, two: Opening,
                                         requests: seq<Request>)
    requires one.relative == two.relative && one.relative != [] && one.relative[0] == Cell(0, 0)
    ensures var start := Opened(origin, a, b, one, two);
            var d := Play(start, requests);
            d.oneMissed + d.twoMissed > 0 <==> exists i :: BookTurnUnheard(start, requests, i)
  {
    hide Together, ForcedStones, TurnStones;
    var start := Opened(origin, a, b, one, two);
    if requests != [] {
      var last := |requests| - 1;
      var before, q := requests[..last], requests[last];
      MissedExactly(origin, a, b, one, two, before);
      PlayedTogether(origin, a, b, one, two, before);
      MissedByOne(Play(start, before), one.relative, origin, q);
      forall i: nat ensures BookTurnUnheard(start, requests, i) <==>
                            BookTurnUnheard(start, before, i) || (i == last && BookTurnUnheard(start, requests, last)) {
        if i < last {
          assert before[..i] == requests[..i];
        }
      }
    }
  }

  lemma MissedByOne(d: Duel, relative: seq<Cell>, origin: Cell, q: Request)
    requires Together(d, relative, origin)
    ensures var m := Ask(d, q).oneMissed + Ask(d, q).twoMissed - d.oneMissed - d.twoMissed;
            m >= 0 && (m > 0 <==> Placed(q.reply) && Unheard(q.reply) && |d.cells| < |relative|)
  {
    hide PliesOf, BookStones;
    var r := if PlayerForStone(|d.cells|) == P1 then d.one else d.two;
    ForcedMeans(r.opening, d.cells);
    assert forall k :: !Departs(r.opening, d.cells, k);
  }

  /**
   The two receipts' book stones come to the book's plies on the board but the origin (all but one of the opening, at
   its end) exactly when no turn was placed unheard while the book ran.
   */
  lemma BookStonesAddUp(origin: Cell, a: string, b: string, one: Opening, two: Opening, requests: seq<Request>)
    requires one.relative == two.relative && one.relative != [] && one.relative[0] == Cell(0, 0)
    ensures var start := Opened(origin, a, b, one, two);
            var d := Play(start, requests);
            var plies := Least(|d.cells|, |one.relative|) - 1;
            && Booked(d) + d.oneMissed + d.twoMissed == plies
            && (Booked(d) == plies <==> !exists i :: BookTurnUnheard(start, requests, i))
  {
    PlayedTogether(origin, a, b, one, two, requests);
    TogetherAddsUp(Play(Opened(origin, a, b, one, two), requests), one.relative, origin);
    MissedExactly(origin, a, b, one, two, requests);
  }

  function Three(): Opening {
    Opening(0, [Cell(0, 0), Cell(1, 0), Cell(0, 1)])
  }

  lemma ThirdForced(o: Opening)
    requires |o.relative| == 3 && o.relative[0] == Cell(0, 0)
    ensures Forced(o, [Cell(0, 0)]) == o.relative[1..]
  {
    var cells := [Cell(0, 0)];
    ForcedMeans(o, cells);
    hide ForcedStones, OnOrigin;
    assert forall k :: !Departs(o, cells, k);
    var f := Forced(o, cells);
    assert |f| == 2 && f[0] == o.relative[1] && f[1] == o.relative[2];
  }

  /** One move call lost with its turn placed: three plies of the book on the board and no book stone recorded. */
  lemma LostReplyMissesBook(a: string, b: string, searched: (Cell, Cell))
    ensures var d := Play(Opened(Cell(0, 0), a, b, Three(), Three()), [Request(searched, Lost(true))]);
            d.cells == Three().relative && Booked(d) == 0
  {
    var start, q := Opened(Cell(0, 0), a, b, Three(), Three()), Request(searched, Lost(true));
    assert [q][..0] == [] && Play(start, [q]) == Ask(start, q);
    ThirdForced(Three());
    LostAsk(start, q);
  }

  /** One lost call with the turn placed: the book's two stones on the board, both receipts as they were. */
  lemma LostAsk(d: Duel, q: Request)
    requires d.cells == [Cell(0, 0)] && d.two.opening == Three() && q.reply == Lost(true)
    requires d.one.moves == d.two.moves == [] && Forced(Three(), [Cell(0, 0)]) == [Cell(1, 0), Cell(0, 1)]
    ensures Ask(d, q).cells == Three().relative && Booked(Ask(d, q)) == 0
  {
    hide Forced, ForcedStones;
    assert PlayerForStone(1) == P2;
    assert Ask(d, q).cells == [Cell(0, 0)] + [Cell(1, 0), Cell(0, 1)];
    assert BookStones([]) == 0;
  }

  // ---------------------------------------------------------------- what the receipts hold

  /** How many of the requests ended in one of these ways. */
  ghost function Replies(requests: seq<Request>, ended: MoveReply -> bool): nat {
    if requests == [] then 0
    else
      Replies(requests[..|requests| - 1], ended) + if ended(requests[|requests| - 1].reply) then 1 else 0
  }

  /**
   Over a whole game the two receipts hold a row for each turn whose acceptance was heard and a rejection for each
   refused, and the board two stones for each turn placed, heard of or not, beside the origin's.
   */
  lemma ReceiptsTell(origin: Cell, a: string, b: string, one: Opening, two: Opening, requests: seq<Request>)
    ensures var e := Play(Opened(origin, a, b, one, two), requests);
            && |e.one.moves| + |e.two.moves| == Replies(requests, r => r == Accepted)
            && e.one.rejections + e.two.rejections == Replies(requests, (r: MoveReply) => r.Rejected?)
            && |e.cells| == 1 + 2 * Replies(requests, r => r == Accepted || r == Lost(true) || r == Errored(true))
  {
    PlayTells(Opened(origin, a, b, one, two), requests);
  }

  lemma {:induction false} PlayTells(d: Duel, requests: seq<Request>)
    ensures var e := Play(d, requests);
            && |e.one.moves| + |e.two.moves| == |d.one.moves| + |d.two.moves| + Replies(requests, r => r == Accepted)
            && e.one.rejections + e.two.rejections ==
               d.one.rejections + d.two.rejections + Replies(requests, (r: MoveReply) => r.Rejected?)
            && |e.cells| == |d.cells| +
                 2 * Replies(requests, r => r == Accepted || r == Lost(true) || r == Errored(true))
  {
    if requests != [] {
      var n := |requests| - 1;
      PlayTells(d, requests[..n]);
      AskTells(Play(d, requests[..n]), requests[n]);
      hide Ask;
    }
  }

  lemma AskTells(d: Duel, q: Request)
    ensures var e := Ask(d, q);
            && |e.one.moves| + |e.two.moves| == |d.one.moves| + |d.two.moves| + (if q.reply == Accepted then 1 else 0)
            && e.one.rejections + e.two.rejections ==
               d.one.rejections + d.two.rejections + (if q.reply.Rejected? then 1 else 0)
            && |e.cells| == |d.cells| +
                 if q.reply == Accepted || q.reply == Lost(true) || q.reply == Errored(true) then 2 else 0
  {
    hide ForcedStones, Forced, TurnStones, PlayerForStone, Missed;
  }

  // ---------------------------------------------------------------- two openings

  function Seat(d: Duel, side: Player): Receipt {
    if side == P1 then d.one else d.two
  }

  /** Request `i` was put to `side` on a board that its own opening has left. */
  predicate AskedOff(d: Duel, requests: seq<Request>, i: nat, side: Player) {
    && i < |requests|
    && var cells := Play(d, requests[..i]).cells;
       PlayerForStone(|cells|) == side && ForcedStones(Seat(d, side).opening, cells).None?
  }

  ghost predicate FirstOff(d: Duel, requests: seq<Request>, i: nat, side: Player) {
    i < |requests| && AskedOff(d, requests, i, side) && forall j: nat | j < i :: !AskedOff(d, requests, j, side)
  }

  /** The receipt's mark is the stone count of the first request its bot was put off its opening, if there was one. */
  ghost predicate MarkRight(d: Duel, requests: seq<Request>, side: Player, mark: Option<nat>) {
    match mark
    case None => forall i: nat :: !AskedOff(d, requests, i, side)
    case Some(n) => exists i: nat :: FirstOff(d, requests, i, side) && |Play(d, requests[..i]).cells| == n
  }

  /**
   Whatever the two openings, each bot's receipt is marked by the first board it is shown that its opening has left.
   */
  lemma {:induction false} MarkedExactly(origin: Cell, a: string, b: string, one: Opening, two: Opening,
                                         requests: seq<Request>, side: Player)
    ensures var start := Opened(origin, a, b, one, two);
            var r := Seat(Play(start, requests), side);
            r.opening == Seat(start, side).opening && MarkRight(start, requests, side, r.offBookAt)
  {
    var start := Opened(origin, a, b, one, two);
    if requests != [] {
      var last := |requests| - 1;
      var before := requests[..last];
      MarkedExactly(origin, a, b, one, two, before, side);
      AskMarks(Play(start, before), requests[last], side);
      hide Ask, Seat, ForcedStones;
      var was, now := Seat(Play(start, before), side), Seat(Play(start, requests), side);
      MarkGoesOn(start, requests, side, was.offBookAt);
      hide MarkRight;
      AskedBefore(start, requests, side);
      hide AskedOff;
      assert now.offBookAt == if was.offBookAt.None? && AskedOff(start, requests, last, side)
                              then Some(|Play(start, before).cells|) else was.offBookAt;
    }
  }

  lemma FirstOffStays(d: Duel, requests: seq<Request>, i: nat, side: Player)
    requires requests != [] && FirstOff(d, requests[..|requests| - 1], i, side)
    ensures FirstOff(d, requests, i, side) && i < |requests| - 1 && requests[..|requests| - 1][..i] == requests[..i]
  {
    AskedBefore(d, requests, side);
    hide AskedOff;
  }

  lemma LastIsFirstOff(d: Duel, requests: seq<Request>, side: Player)
    requires requests != [] && MarkRight(d, requests[..|requests| - 1], side, None)
    ensures var last := |requests| - 1;
            if AskedOff(d, requests, last, side) then FirstOff(d, requests, last, side)
            else forall i: nat :: !AskedOff(d, requests, i, side)
  {
    AskedBefore(d, requests, side);
    hide AskedOff;
  }

  lemma MarkGoesOn(d: Duel, requests: seq<Request>, side: Player, mark: Option<nat>)
    requires requests != [] && MarkRight(d, requests[..|requests| - 1], side, mark)
    ensures var last := |requests| - 1;
            MarkRight(d, requests, side,
                      if mark.None? && AskedOff(d, requests, last, side)
                      then Some(|Play(d, requests[..last]).cells|) else mark)
  {
    hide AskedOff, Play;
    var last := |requests| - 1;
    if mark.Some? {
      var i: nat :| FirstOff(d, requests[..last], i, side) && |Play(d, requests[..last][..i]).cells| == mark.value;
      FirstOffStays(d, requests, i, side);
    } else {
      LastIsFirstOff(d, requests, side);
    }
  }

  /** Among the earlier requests it is the same question. */
  lemma AskedBefore(d: Duel, requests: seq<Request>, side: Player)
    requires requests != []
    ensures var last := |requests| - 1;
            && (forall i: nat | i < last :: AskedOff(d, requests, i, side) <==> AskedOff(d, requests[..last], i, side))
            && (forall i: nat | i >= last :: !AskedOff(d, requests[..last], i, side))
            && (forall i: nat | i > last :: !AskedOff(d, requests, i, side))
            && (AskedOff(d, requests, last, side) <==>
                  var cells := Play(d, requests[..last]).cells;
                  PlayerForStone(|cells|) == side && ForcedStones(Seat(d, side).opening, cells).None?)
  {
    forall i: nat | i < |requests| - 1
      ensures AskedOff(d, requests, i, side) <==> AskedOff(d, requests[..|requests| - 1], i, side)
    {
      assert requests[..|requests| - 1][..i] == requests[..i];
    }
  }

  /** One request marks the receipt of the bot it is put to, and no other, when its board has left the opening. */
  lemma AskMarks(d: Duel, q: Request, side: Player)
    ensures var r, s := Seat(d, side), Seat(Ask(d, q), side);
            var off := PlayerForStone(|d.cells|) == side && ForcedStones(r.opening, d.cells).None?;
            s.opening == r.opening && s.offBookAt == if off && r.offBookAt.None? then Some(|d.cells|) else r.offBookAt
  {
    hide ForcedStones, TurnStones;
  }

  lemma {:induction false} BoardGrows(d: Duel, requests: seq<Request>, i: nat)
    requires i <= |requests|
    ensures Play(d, requests[..i]).cells <= Play(d, requests).cells
  {
    if i == |requests| {
      assert requests[..i] == requests;
    } else {
      var before := requests[..|requests| - 1];
      BoardGrows(d, before, i);
      assert before[..i] == requests[..i];
      AskGrows(Play(d, before), requests[|requests| - 1]);
    }
  }

  lemma AskGrows(d: Duel, q: Request)
    ensures d.cells <= Ask(d, q).cells
  {
    hide AnswerMove, PlayerForStone, Missed;
  }

  /**
   Two openings that differ at ply `k`: once each bot has been asked on a board past that ply, one of the receipts is
   marked off the book.
   */
  lemma PartedIsMarked(origin: Cell, a: string, b: string, one: Opening, two: Opening, requests: seq<Request>,
                       k: nat, i: nat, j: nat)
    requires k < |one.relative| && k < |two.relative| && one.relative[k] != two.relative[k]
    requires i < |requests| && j < |requests|
    requires var start := Opened(origin, a, b, one, two);
             var shown, seen := Play(start, requests[..i]).cells, Play(start, requests[..j]).cells;
             k < |shown| && k < |seen| && PlayerForStone(|shown|) == P1 && PlayerForStone(|seen|) == P2
    ensures var d := Play(Opened(origin, a, b, one, two), requests);
            d.one.offBookAt.Some? || d.two.offBookAt.Some?
  {
    var start := Opened(origin, a, b, one, two);
    var d := Play(start, requests);
    MarkedExactly(origin, a, b, one, two, requests, P1);
    MarkedExactly(origin, a, b, one, two, requests, P2);
    BoardGrows(start, requests, i);
    BoardGrows(start, requests, j);
    var shown, seen := Play(start, requests[..i]).cells, Play(start, requests[..j]).cells;
    ForcedMeans(one, shown);
    ForcedMeans(two, seen);
    hide ForcedStones, PlayerForStone, Play, FirstOff;
    assert shown[0] == seen[0] == d.cells[0] && shown[k] == seen[k] == d.cells[k];
    if Departs(one, shown, k) {
      assert AskedOff(start, requests, i, P1);
    } else {
      assert Departs(two, seen, k);
      assert AskedOff(start, requests, j, P2);
    }
  }
}
