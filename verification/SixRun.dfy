/** The corpus audit's run scanner, and the counters of its convention check. */
module SixRun {
  import opened Lattice
  import opened Windows
  import opened RootTactics
  import opened Wrappers

  /** The `n` cells from `c` along axis `a` are all in the set. */
  ghost predicate Run(cells: set<Cell>, a: int, c: Cell, n: nat) {
    forall k | 0 <= k < n :: Along(a, c, k) in cells
  }

  /** Six consecutive cells of some axis are all in the set. */
  ghost predicate HasRun(cells: set<Cell>) {
    exists a, c :: 0 <= a < 3 && Run(cells, a, c, WIN)
  }

  /** From a cell with a run of six ahead, walking back inside the set reaches a run's start with six ahead. */
  lemma {:induction false} RunFromStart(cells: set<Cell>, seen: set<Cell>, a: int, c: Cell) returns (s: Cell)
    requires 0 <= a < 3 && Run(cells, a, c, WIN)
    requires seen <= cells && c !in seen && forall x | x in seen :: exists k :: k > 0 && Along(a, c, k) == x
    ensures s in cells && Along(a, s, -1) !in cells && Run(cells, a, s, WIN)
    decreases cells - seen
  {
    var back := Along(a, c, -1);
    assert Along(a, c, 0) == c;
    if back !in cells {
      s := c;
    } else {
      forall x | x in seen + {c} ensures exists k :: k > 0 && Along(a, back, k) == x {
        if x == c {
          assert Along(a, back, 1) == x;
        } else {
          var k :| k > 0 && Along(a, c, k) == x;
          assert Along(a, back, k + 1) == x;
        }
      }
      forall k | 0 <= k < WIN ensures Along(a, back, k) in cells {
        if k > 0 {
          assert Along(a, back, k) == Along(a, c, k - 1);
        } else {
          assert Along(a, back, 0) == back;
        }
      }
      assert back !in seen + {c} by {
        assert forall k | k > 0 :: Along(a, c, k) != back;
      }
      s := RunFromStart(cells, seen + {c}, a, back);
    }
  }

  /** How far the run from `c` goes, up to six. */
  method RunLength(cells: set<Cell>, a: int, c: Cell) returns (full: bool)
    requires 0 <= a < 3
    ensures full <==> Run(cells, a, c, WIN)
  {
    var n, cell := 0, c;
    assert Along(a, c, 0) == c;
    while cell in cells
      invariant n < WIN && cell == Along(a, c, n) && Run(cells, a, c, n)
      decreases WIN - n
    {
      n := n + 1;
      if n >= WIN {
        return true;
      }
      cell := Along(a, cell, 1);
    }
    return false;
  }

  /** Only cells with nothing behind them on the axis are tried; that finds every run. */
  method HasSixRun(cells: set<Cell>) returns (has: bool)
    ensures has <==> HasRun(cells)
  {
    for a := 0 to 3
      invariant forall b, c | 0 <= b < a :: !Run(cells, b, c, WIN)
    {
      var todo := cells;
      while todo != {}
        invariant todo <= cells
        invariant forall c | c in cells && c !in todo && Along(a, c, -1) !in cells :: !Run(cells, a, c, WIN)
      {
        var c :| c in todo;
        todo := todo - {c};
        if Along(a, c, -1) in cells {
          continue;
        }
        var full := RunLength(cells, a, c);
        if full {
          return true;
        }
      }
      forall c ensures !Run(cells, a, c, WIN) {
        if Run(cells, a, c, WIN) {
          var s := RunFromStart(cells, {}, a, c);
          assert false;
        }
      }
    }
    return false;
  }

  /** The cells one side holds. */
  function CellsOf(colour: map<Cell, Player>, who: Player): set<Cell> {
    set c | c in colour && colour[c] == who
  }

  /** The run scanner and the window table see the same thing: a run of six is a window with six of one side. */
  lemma RunIsFullWindow(colour: map<Cell, Player>, who: Player)
    ensures HasRun(CellsOf(colour, who)) <==> exists a, start :: 0 <= a < 3 && Count(colour, a, start, who) == WIN
  {
    forall a, start ensures Run(CellsOf(colour, who), a, start, WIN) <==> Count(colour, a, start, who) == WIN {
      CountFull(colour, a, start, who, WIN);
    }
  }

  // ---------------------------------------------------------------- the convention check

  /** A game record: its moves and its declared winner (1 and -1 are the two players; 0 is a draw). */
  datatype Game = Game(moves: seq<Cell>, winner: int)

  datatype Verdict = NotChecked | Consistent | Inverted | Unresolved

  /**
   The audit's figures: how the decided games' runs compare, how often each winner value is seen, the draws, the first
   games with a winner outside the domain or a cell played twice, the ranges of both coordinates, and the games that
   leave the nominal window.
   */
  datatype Audit = Audit(holds: nat, lacks: nat, flipped: nat, neither: nat, both: nat, seen: map<int, nat>, draws: nat,
                         outsideDomain: seq<nat>, repeated: seq<nat>, q: Option<(int, int)>, r: Option<(int, int)>,
                         outsideWindow: nat)

  const LISTED := 20
  const NOMINAL_WINDOW_HALF := 9

  predicate Decided(g: Game) {
    g.winner == 1 || g.winner == -1
  }

  function SideOf(winner: int): Player {
    if winner == 1 then P1 else P2
  }

  /** The cells the moves give a player by the audit's cadence. */
  function Played(moves: seq<Cell>, who: Player): set<Cell> {
    set k | 0 <= k < |moves| && MoverOfPly(k) == who :: moves[k]
  }

  ghost predicate WinnerHolds(g: Game) {
    HasRun(Played(g.moves, SideOf(g.winner)))
  }

  ghost predicate LoserHolds(g: Game) {
    HasRun(Played(g.moves, SideOf(-g.winner)))
  }

  /** How many of the games are decided and have the property. */
  ghost function Tally(games: seq<Game>, p: Game -> bool): nat {
    if games == [] then 0
    else
      var g := games[|games| - 1];
      Tally(games[..|games| - 1], p) + if Decided(g) && p(g) then 1 else 0
  }

  // ---------------------------------------------------------------- the other figures

  ghost function CountGames(games: seq<Game>, p: Game -> bool): nat {
    if games == [] then 0
    else CountGames(games[..|games| - 1], p) + if p(games[|games| - 1]) then 1 else 0
  }

  /** The games with a property, by place. */
  ghost function Places(games: seq<Game>, p: Game -> bool): seq<nat> {
    if games == [] then []
    else
      var n := |games| - 1;
      Places(games[..n], p) + if p(games[n]) then [n] else []
  }

  /** At most the first so many. */
  function Take(s: seq<nat>, n: nat): seq<nat> {
    if |s| <= n then s else s[..n]
  }

  predicate OutsideDomain(g: Game) {
    g.winner != 0 && !Decided(g)
  }

  /** Some cell is played twice. */
  ghost predicate Repeats(moves: seq<Cell>) {
    exists i, j :: 0 <= i < j < |moves| && moves[i] == moves[j]
  }

  predicate FarOut(c: Cell) {
    Abs(c.q) > NOMINAL_WINDOW_HALF || Abs(c.r) > NOMINAL_WINDOW_HALF
  }

  predicate LeavesWindow(moves: seq<Cell>) {
    exists k :: 0 <= k < |moves| && FarOut(moves[k])
  }

  /** Every cell of the moves. */
  function AllOf(moves: seq<Cell>): set<Cell> {
    set c | c in moves
  }

  /** Every cell some game plays. */
  ghost function Cells(games: seq<Game>): set<Cell> {
    if games == [] then {}
    else Cells(games[..|games| - 1]) + AllOf(games[|games| - 1].moves)
  }

  /** The least and the greatest value of a coordinate over some cells; none over no cell. */
  ghost predicate Ranges(range: Option<(int, int)>, cells: set<Cell>, at: Cell -> int) {
    match range
    case None => cells == {}
    case Some((lo, hi)) =>
      && (exists c :: c in cells && at(c) == lo) && (exists c :: c in cells && at(c) == hi)
      && forall c | c in cells :: lo <= at(c) <= hi
  }

  function Widened(range: Option<(int, int)>, v: int): Option<(int, int)> {
    match range
    case None => Some((v, v))
    case Some((lo, hi)) => Some((if v < lo then v else lo, if v > hi then v else hi))
  }

  lemma WidenedRanges(range: Option<(int, int)>, cells: set<Cell>, at: Cell -> int, c: Cell)
    requires Ranges(range, cells, at)
    ensures Ranges(Widened(range, at(c)), cells + {c}, at)
  {
    var more := cells + {c};
    assert c in more;
    if range.Some? {
      var lo: Cell :| lo in cells && at(lo) == range.value.0;
      var hi: Cell :| hi in cells && at(hi) == range.value.1;
      assert lo in more && hi in more;
    }
  }

  const Q: Cell -> int := (c: Cell) => c.q
  const R: Cell -> int := (c: Cell) => c.r

  /** What one game's moves show: both sides' cells, whether a cell repeats or leaves the window, the ranges widened. */
  method Replay(moves: seq<Cell>, q0: Option<(int, int)>, r0: Option<(int, int)>, ghost before: set<Cell>)
      returns (mine: set<Cell>, theirs: set<Cell>, repeated: bool, outside: bool, q: Option<(int, int)>,
               r: Option<(int, int)>)
    requires Ranges(q0, before, Q) && Ranges(r0, before, R)
    ensures mine == Played(moves, P1) && theirs == Played(moves, P2)
    ensures repeated <==> Repeats(moves)
    ensures outside <==> LeavesWindow(moves)
    ensures Ranges(q, before + AllOf(moves), Q) && Ranges(r, before + AllOf(moves), R)
  {
    hide Ranges, Widened, MoverOfPly, FarOut;
    var occupied: set<Cell> := {};
    mine, theirs, repeated, outside, q, r := {}, {}, false, false, q0, r0;
    assert before + AllOf(moves[..0]) == before;
    for i := 0 to |moves|
      invariant occupied == AllOf(moves[..i])
      invariant mine == Played(moves[..i], P1) && theirs == Played(moves[..i], P2)
      invariant repeated <==> Repeats(moves[..i])
      invariant outside <==> LeavesWindow(moves[..i])
      invariant Ranges(q, before + AllOf(moves[..i]), Q) && Ranges(r, before + AllOf(moves[..i]), R)
    {
      var c := moves[i];
      OneMorePlayed(moves, i);
      if c in occupied {
        repeated := true;
      }
      occupied := occupied + {c};
      if MoverOfPly(i) == P1 {
        mine := mine + {c};
      } else {
        theirs := theirs + {c};
      }
      WidenedRanges(q, before + AllOf(moves[..i]), Q, c);
      WidenedRanges(r, before + AllOf(moves[..i]), R, c);
      assert before + AllOf(moves[..i]) + {c} == before + AllOf(moves[..i + 1]);
      q, r := Widened(q, c.q), Widened(r, c.r);
      if FarOut(c) {
        outside := true;
      }
    }
    assert moves[..|moves|] == moves;
  }

  /** What one move more adds. */
  lemma OneMorePlayed(moves: seq<Cell>, i: nat)
    requires i < |moves|
    ensures AllOf(moves[..i + 1]) == AllOf(moves[..i]) + {moves[i]}
    ensures forall who ::
              Played(moves[..i + 1], who) == Played(moves[..i], who) + if MoverOfPly(i) == who then {moves[i]} else {}
    ensures Repeats(moves[..i + 1]) <==> Repeats(moves[..i]) || moves[i] in moves[..i]
    ensures LeavesWindow(moves[..i + 1]) <==> LeavesWindow(moves[..i]) || FarOut(moves[i])
  {
    hide FarOut, MoverOfPly;
    var before, now := moves[..i], moves[..i + 1];
    assert now == before + [moves[i]];
    assert forall k | 0 <= k < i :: now[k] == before[k];
    forall who, c
      ensures c in Played(now, who) <==> c in Played(before, who) || (MoverOfPly(i) == who && c == moves[i])
    {
      if c in Played(now, who) {
        var k :| 0 <= k < |now| && MoverOfPly(k) == who && now[k] == c;
        assert k < i ==> before[k] == c;
      }
      if c in Played(before, who) {
        var k :| 0 <= k < |before| && MoverOfPly(k) == who && before[k] == c;
        assert now[k] == c;
      }
      assert now[i] == moves[i];
    }
    if Repeats(before) {
      var j, k :| 0 <= j < k < |before| && before[j] == before[k];
      assert now[j] == now[k];
    }
    if moves[i] in before {
      var j :| 0 <= j < |before| && before[j] == moves[i];
      assert now[j] == now[i];
    }
    if Repeats(now) {
      var j, k :| 0 <= j < k < |now| && now[j] == now[k];
      assert k < i ==> before[j] == before[k];
      assert k == i ==> before[j] == moves[i];
    }
    if LeavesWindow(before) {
      var k :| 0 <= k < |before| && FarOut(before[k]);
      assert FarOut(now[k]);
    }
    assert now[i] == moves[i];
  }

  /** How often each winner value is seen. */
  ghost predicate SeenRight(games: seq<Game>, seen: map<int, nat>) {
    && (forall w :: w in seen <==> CountGames(games, (g: Game) => g.winner == w) > 0)
    && (forall w | w in seen :: seen[w] == CountGames(games, (g: Game) => g.winner == w))
  }

  ghost function Draws(games: seq<Game>): nat {
    CountGames(games, (g: Game) => g.winner == 0)
  }

  ghost function OutsideGames(games: seq<Game>): seq<nat> {
    Places(games, g => OutsideDomain(g))
  }

  ghost function RepeatGames(games: seq<Game>): seq<nat> {
    Places(games, (g: Game) => Repeats(g.moves))
  }

  ghost function FarGames(games: seq<Game>): nat {
    CountGames(games, (g: Game) => LeavesWindow(g.moves))
  }

  /** Every figure beside the runs is what it is named for. */
  ghost predicate FiguresRight(games: seq<Game>, out: Audit) {
    && SeenRight(games, out.seen) && out.draws == Draws(games)
    && out.outsideDomain == Take(OutsideGames(games), LISTED) && out.repeated == Take(RepeatGames(games), LISTED)
    && Ranges(out.q, Cells(games), Q) && Ranges(out.r, Cells(games), R)
    && out.outsideWindow == FarGames(games)
  }

  function OneSeen(seen: map<int, nat>, w: int): map<int, nat> {
    seen[w := (if w in seen then seen[w] else 0) + 1]
  }

  lemma SeenNext(games: seq<Game>, i: nat, seen: map<int, nat>)
    requires i < |games| && SeenRight(games[..i], seen)
    ensures SeenRight(games[..i + 1], OneSeen(seen, games[i].winner))
  {
    assert games[..i + 1][..i] == games[..i];
  }

  /** What the next game adds to each figure. */
  lemma FiguresNext(games: seq<Game>, i: nat)
    requires i < |games|
    ensures Draws(games[..i + 1]) == Draws(games[..i]) + if games[i].winner == 0 then 1 else 0
    ensures OutsideGames(games[..i + 1]) == OutsideGames(games[..i]) + if OutsideDomain(games[i]) then [i] else []
    ensures RepeatGames(games[..i + 1]) == RepeatGames(games[..i]) + if Repeats(games[i].moves) then [i] else []
    ensures FarGames(games[..i + 1]) == FarGames(games[..i]) + if LeavesWindow(games[i].moves) then 1 else 0
  {
    hide Repeats, LeavesWindow;
    assert games[..i + 1][..i] == games[..i];
  }

  /** The counters of the run comparison are the tallies of what they are named for. */
  ghost predicate RunsRight(games: seq<Game>, out: Audit) {
    && out.holds == Tally(games, WinnerHolds)
    && out.lacks == Tally(games, g => !WinnerHolds(g))
    && out.flipped == Tally(games, g => !WinnerHolds(g) && LoserHolds(g))
    && out.neither == Tally(games, g => !WinnerHolds(g) && !LoserHolds(g))
    && out.both == Tally(games, g => WinnerHolds(g) && LoserHolds(g))
  }

  lemma TakeMore(s: seq<nat>, x: nat)
    ensures Take(s + [x], LISTED) == if |Take(s, LISTED)| < LISTED then Take(s, LISTED) + [x] else Take(s, LISTED)
  {
  }

  /** One game's figures added. */
  method CountFigures(games: seq<Game>, i: nat, before: Audit, repeated: bool, outside: bool, q: Option<(int, int)>,
                      r: Option<(int, int)>) returns (out: Audit)
    requires i < |games| && FiguresRight(games[..i], before)
    requires repeated == Repeats(games[i].moves) && outside == LeavesWindow(games[i].moves)
    requires Ranges(q, Cells(games[..i + 1]), Q) && Ranges(r, Cells(games[..i + 1]), R)
    ensures FiguresRight(games[..i + 1], out) && SameRuns(out, before)
  {
    hide SeenRight, Draws, OutsideGames, RepeatGames, FarGames, Repeats, LeavesWindow, Ranges, Cells, OneSeen;
    var g := games[i];
    SeenNext(games, i, before.seen);
    FiguresNext(games, i);
    TakeMore(OutsideGames(games[..i]), i);
    TakeMore(RepeatGames(games[..i]), i);
    assert OutsideGames(games[..i]) + [] == OutsideGames(games[..i]) &&
           RepeatGames(games[..i]) + [] == RepeatGames(games[..i]);
    hide Take;
    out := before.(seen := OneSeen(before.seen, g.winner), q := q, r := r);
    if g.winner == 0 {
      out := out.(draws := out.draws + 1);
    } else if !(g.winner == 1 || g.winner == -1) {
      if |out.outsideDomain| < LISTED {
        out := out.(outsideDomain := out.outsideDomain + [i]);
      }
    }
    if repeated && |out.repeated| < LISTED {
      out := out.(repeated := out.repeated + [i]);
    }
    if outside {
      out := out.(outsideWindow := out.outsideWindow + 1);
    }
  }

  predicate SameRuns(a: Audit, b: Audit) {
    a.holds == b.holds && a.lacks == b.lacks && a.flipped == b.flipped && a.neither == b.neither && a.both == b.both
  }

  /** A decided game's runs compared. */
  method CompareRuns(games: seq<Game>, i: nat, before: Audit, mine: set<Cell>, theirs: set<Cell>) returns (out: Audit)
    requires i < |games| && RunsRight(games[..i], before)
    requires mine == Played(games[i].moves, P1) && theirs == Played(games[i].moves, P2)
    ensures RunsRight(games[..i + 1], out)
    ensures out == before.(holds := out.holds, lacks := out.lacks, flipped := out.flipped, neither := out.neither,
                           both := out.both)
  {
    hide HasRun, Played;
    var g := games[i];
    assert games[..i + 1][..i] == games[..i];
    out := before;
    if g.winner == 1 || g.winner == -1 {
      var win := HasSixRun(if g.winner == 1 then mine else theirs);
      var lose := HasSixRun(if g.winner == 1 then theirs else mine);
      if win && lose {
        out := out.(both := out.both + 1);
      }
      if win {
        out := out.(holds := out.holds + 1);
      } else {
        out := out.(lacks := out.lacks + 1);
        if lose {
          out := out.(flipped := out.flipped + 1);
        } else {
          out := out.(neither := out.neither + 1);
        }
      }
    }
  }

  /** Every figure is what it is named for, and the verdict is read off the counters. */
  method AuditConventions(games: seq<Game>) returns (out: Audit, verdict: Verdict)
    ensures RunsRight(games, out) && FiguresRight(games, out)
    ensures verdict == VerdictOf(out)
  {
    hide RunsRight, FiguresRight, Played, Ranges, Repeats, LeavesWindow, Cells;
    out := Audit(0, 0, 0, 0, 0, map[], 0, [], [], None, None, 0);
    NothingAudited(out);
    for i := 0 to |games|
      invariant RunsRight(games[..i], out) && FiguresRight(games[..i], out)
    {
      RangesKnown(games[..i], out);
      var mine, theirs, repeated, outside, q, r := Replay(games[i].moves, out.q, out.r, Cells(games[..i]));
      CellsNext(games, i);
      ghost var was := out;
      out := CountFigures(games, i, out, repeated, outside, q, r);
      RunsCarry(games[..i], was, out);
      var figures := out;
      out := CompareRuns(games, i, out, mine, theirs);
      FiguresCarry(games[..i + 1], figures, out);
    }
    assert games[..|games|] == games;
    verdict := VerdictOf(out);
  }

  lemma NothingAudited(out: Audit)
    requires out.holds == out.lacks == out.flipped == out.neither == out.both == 0
    requires out.seen == map[] && out.draws == out.outsideWindow == 0 && out.outsideDomain == out.repeated == []
    requires out.q.None? && out.r.None?
    ensures RunsRight([], out) && FiguresRight([], out)
  {
    NothingSeen();
    assert RunsRight([], out);
    hide RunsRight, SeenRight, Draws, OutsideGames, RepeatGames, FarGames, Cells;
    assert Take([], LISTED) == [];
  }

  lemma NothingSeen()
    ensures SeenRight([], map[]) && Draws([]) == 0 == FarGames([]) && OutsideGames([]) == [] == RepeatGames([]) &&
            Cells([]) == {}
  {
  }

  lemma RangesKnown(games: seq<Game>, out: Audit)
    requires FiguresRight(games, out)
    ensures Ranges(out.q, Cells(games), Q) && Ranges(out.r, Cells(games), R)
  {
  }

  lemma CellsNext(games: seq<Game>, i: nat)
    requires i < |games|
    ensures Cells(games[..i + 1]) == Cells(games[..i]) + AllOf(games[i].moves)
  {
    assert games[..i + 1][..i] == games[..i];
  }

  lemma RunsCarry(games: seq<Game>, a: Audit, b: Audit)
    requires RunsRight(games, a) && SameRuns(b, a)
    ensures RunsRight(games, b)
  {
  }

  lemma FiguresCarry(games: seq<Game>, a: Audit, b: Audit)
    requires FiguresRight(games, a)
    requires b == a.(holds := b.holds, lacks := b.lacks, flipped := b.flipped, neither := b.neither, both := b.both)
    ensures FiguresRight(games, b)
  {
  }

  // ---------------------------------------------------------------- the figures, told by the games

  /** The decided games with a property, by place. */
  ghost function DecidedWith(games: seq<Game>, p: Game -> bool): set<nat> {
    set i: nat | i < |games| && games[i].winner in {1, -1} && p(games[i])
  }

  ghost function GamesWith(games: seq<Game>, p: Game -> bool): set<nat> {
    set i: nat | i < |games| && p(games[i])
  }

  lemma {:induction false} TallyIs(games: seq<Game>, p: Game -> bool)
    ensures Tally(games, p) == |DecidedWith(games, p)|
  {
    if games == [] {
      assert DecidedWith(games, p) == {};
    } else {
      var n := |games| - 1;
      TallyIs(games[..n], p);
      var now := if games[n].winner in {1, -1} && p(games[n]) then {n} else {};
      assert DecidedWith(games, p) == DecidedWith(games[..n], p) + now;
    }
  }

  lemma {:induction false} CountIs(games: seq<Game>, p: Game -> bool)
    ensures CountGames(games, p) == |GamesWith(games, p)|
  {
    if games == [] {
      assert GamesWith(games, p) == {};
    } else {
      var n := |games| - 1;
      CountIs(games[..n], p);
      assert GamesWith(games, p) == GamesWith(games[..n], p) + if p(games[n]) then {n} else {};
    }
  }

  lemma {:induction false} PlacesAre(games: seq<Game>, p: Game -> bool)
    ensures forall i: nat :: i in Places(games, p) <==> i < |games| && p(games[i])
    ensures forall j, k | 0 <= j < k < |Places(games, p)| :: Places(games, p)[j] < Places(games, p)[k]
  {
    if games != [] {
      var before := Places(games[..|games| - 1], p);
      PlacesAre(games[..|games| - 1], p);
      assert forall j | 0 <= j < |before| :: before[j] in before && before[j] < |games| - 1;
    }
  }

  /** The cells a player places by the board's own cadence. */
  ghost function PlacedBy(moves: seq<Cell>, who: Player): set<Cell> {
    set k | 0 <= k < |moves| && TurnAfter(k).player == who :: moves[k]
  }

  lemma PlayedIs(moves: seq<Cell>, who: Player)
    ensures Played(moves, who) == PlacedBy(moves, who)
  {
    forall k: nat ensures TurnAfter(k).player == MoverOfPly(k) {
      CadencesAgree(k);
    }
    hide TurnAfter, MoverOfPly;
    forall c ensures c in Played(moves, who) <==> c in PlacedBy(moves, who) {
    }
  }

  /** The side of a declared winner is the board's mover: 1 the opener, -1 the other. */
  lemma SidesMean(g: Game)
    ensures g.winner == 1 ==>
              (WinnerHolds(g) <==> HasRun(PlacedBy(g.moves, P1))) && (LoserHolds(g) <==> HasRun(PlacedBy(g.moves, P2)))
    ensures g.winner == -1 ==>
              (WinnerHolds(g) <==> HasRun(PlacedBy(g.moves, P2))) && (LoserHolds(g) <==> HasRun(PlacedBy(g.moves, P1)))
  {
    PlayedIs(g.moves, P1);
    PlayedIs(g.moves, P2);
    hide HasRun, Played, PlacedBy;
  }

  /** A cell beyond nine of the origin on some axis of the board's two. */
  ghost predicate BeyondNine(g: Game) {
    exists c :: c in g.moves && (c.q <= -10 || c.q >= 10 || c.r <= -10 || c.r >= 10)
  }

  /** The first twenty places with a property, or all of them. */
  ghost predicate FirstTwenty(list: seq<nat>, games: seq<Game>, p: Game -> bool) {
    && |list| <= 20
    && (forall j, k | 0 <= j < k < |list| :: list[j] < list[k])
    && (forall i | i in list :: i < |games| && p(games[i]))
    && (forall i: nat | i < |games| && p(games[i]) && i !in list :: |list| == 20 && list[19] < i)
  }

  lemma TakenFirst(games: seq<Game>, p: Game -> bool)
    ensures FirstTwenty(Take(Places(games, p), 20), games, p)
  {
    PlacesAre(games, p);
    hide Places;
    var all := Places(games, p);
    var list := Take(all, 20);
    assert forall i | i in list :: i in all;
    assert forall m | 0 <= m < |list| :: all[m] == list[m] && list[m] in list;
    forall i: nat | i < |games| && p(games[i]) && i !in list ensures |list| == 20 && list[19] < i {
      assert i in all;
      var j :| 0 <= j < |all| && all[j] == i;
      assert j >= |list|;
    }
  }

  /** The figures beside the runs, told by the games alone. */
  lemma FiguresMean(games: seq<Game>, out: Audit)
    requires FiguresRight(games, out)
    ensures out.draws == |GamesWith(games, (g: Game) => g.winner == 0)|
    ensures out.outsideWindow == |GamesWith(games, (g: Game) => BeyondNine(g))|
    ensures FirstTwenty(out.outsideDomain, games, (g: Game) => g.winner !in {-1, 0, 1})
    ensures FirstTwenty(out.repeated, games, (g: Game) => Repeats(g.moves))
  {
    hide Ranges, Cells, SeenRight, Take, FirstTwenty, Places;
    CountIs(games, (g: Game) => g.winner == 0);
    CountIs(games, (g: Game) => LeavesWindow(g.moves));
    assert GamesWith(games, (g: Game) => LeavesWindow(g.moves)) == GamesWith(games, (g: Game) => BeyondNine(g)) by {
      forall g: Game ensures LeavesWindow(g.moves) <==> BeyondNine(g) {
        WindowMeans(g);
      }
    }
    TakenFirst(games, g => OutsideDomain(g));
    TakenFirst(games, (g: Game) => Repeats(g.moves));
    SameFirst(out.outsideDomain, games, g => OutsideDomain(g), (g: Game) => g.winner !in {-1, 0, 1});
  }

  lemma WindowMeans(g: Game)
    ensures LeavesWindow(g.moves) <==> BeyondNine(g)
  {
    if BeyondNine(g) {
      var c :| c in g.moves && (c.q <= -10 || c.q >= 10 || c.r <= -10 || c.r >= 10);
      var k :| 0 <= k < |g.moves| && g.moves[k] == c;
      assert FarOut(g.moves[k]);
    }
    if LeavesWindow(g.moves) {
      var k :| 0 <= k < |g.moves| && FarOut(g.moves[k]);
      assert g.moves[k] in g.moves;
    }
  }

  lemma SameFirst(list: seq<nat>, games: seq<Game>, p: Game -> bool, q: Game -> bool)
    requires FirstTwenty(list, games, p) && forall g :: p(g) == q(g)
    ensures FirstTwenty(list, games, q)
  {
  }

  function VerdictOf(out: Audit): Verdict {
    if out.holds + out.lacks == 0 then NotChecked
    else if out.lacks != 0 && out.flipped == out.lacks then Inverted
    else if out.lacks != 0 then Unresolved
    else Consistent
  }

  /** The counters partition the decided games. */
  lemma {:induction false} CountersPartition(games: seq<Game>)
    ensures Tally(games, WinnerHolds) + Tally(games, g => !WinnerHolds(g)) == Tally(games, g => true)
    ensures Tally(games, g => !WinnerHolds(g) && LoserHolds(g)) + Tally(games, g => !WinnerHolds(g) && !LoserHolds(g))
      == Tally(games, g => !WinnerHolds(g))
  {
    if games != [] {
      CountersPartition(games[..|games| - 1]);
    }
  }

  ghost predicate SomeGame(games: seq<Game>, p: Game -> bool) {
    exists i :: 0 <= i < |games| && Decided(games[i]) && p(games[i])
  }

  /** A tally is zero exactly when no decided game has the property. */
  lemma {:induction false} TallyZero(games: seq<Game>, p: Game -> bool)
    ensures Tally(games, p) == 0 <==> !SomeGame(games, p)
  {
    if games != [] {
      var before := games[..|games| - 1];
      TallyZero(before, p);
      if i :| 0 <= i < |before| && Decided(before[i]) && p(before[i]) {
        assert games[i] == before[i];
      }
      if i :| 0 <= i < |games| && Decided(games[i]) && p(games[i]) {
        assert i < |before| ==> before[i] == games[i];
      }
    }
  }

  /**
   What each verdict says of the corpus: INVERTED exactly when some declared winner lacks a run and in every such game
   the other side holds one; CONSISTENT exactly when some game is decided and every declared winner holds a run; nothing
   is claimed exactly when no game is decided.
   */
  lemma VerdictsMean(games: seq<Game>, out: Audit)
    requires RunsRight(games, out)
    ensures VerdictOf(out) == Inverted <==>
      SomeGame(games, g => !WinnerHolds(g)) && !SomeGame(games, g => !WinnerHolds(g) && !LoserHolds(g))
    ensures VerdictOf(out) == Consistent <==> SomeGame(games, g => true) && !SomeGame(games, g => !WinnerHolds(g))
    ensures VerdictOf(out) == NotChecked <==> !SomeGame(games, g => true)
  {
    CountersPartition(games);
    TallyZero(games, g => !WinnerHolds(g));
    TallyZero(games, g => !WinnerHolds(g) && !LoserHolds(g));
    TallyZero(games, g => true);
  }
}
