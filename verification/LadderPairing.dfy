/**
 Colour-swapped pairs: the challenger's games 2k and 2k + 1 share an opening, and change colours according to what the
 session knew when the two challenges they play were made.
 */
module LadderPairing {
  import opened Lattice
  import opened LadderBook
  import opened LadderServer
  import opened LadderSession
  import opened Wrappers

  lemma {:induction false} AgainstAll(starts: seq<Started>, opponent: string)
    requires AllAgainst(starts, opponent)
    ensures Against(starts, opponent) == starts
  {
    if starts != [] {
      var last := |starts| - 1;
      AgainstAll(starts[..last], opponent);
      assert starts == starts[..last] + [starts[last]] && starts[last].opponent == opponent;
    }
  }

  /** The challenges that ended between games `i` and `j`. */
  function EndedBetween(games: seq<Started>, i: nat, j: nat): int
    requires i < |games| && j < |games|
  {
    games[j].endedBefore - games[i].endedBefore
  }

  /**
   The games of pair `k` change seats exactly when the counts of challenges issued, at the making of the two they play,
   differ in parity; each count is that of the challenges heard of before.
   */
  ghost predicate SwapsByCount(g: seq<Started>, made: seq<Made>, led: Played, k: nat) {
    && 2 * k + 1 < |g| && 2 * k + 1 < |led| && led[2 * k] != led[2 * k + 1]
    && led[2 * k] < |made| && led[2 * k + 1] < |made|
    && var a, b := made[led[2 * k]].count, made[led[2 * k + 1]].count;
       && a == HeardOf(made[..led[2 * k]]) && b == HeardOf(made[..led[2 * k + 1]])
       && (g[2 * k].side == P1 <==> a % 2 == 0)
       && (g[2 * k + 1].side == Other(g[2 * k].side) <==> (a + b) % 2 == 1)
  }

  /** Exactly when the challenges that ended between the two games are even in number. */
  ghost predicate SwapsByEnded(g: seq<Started>, ended: nat, k: nat) {
    && 2 * k + 1 < |g| && 0 <= EndedBetween(g, 2 * k, 2 * k + 1) <= ended
    && (g[2 * k].side == P1 <==> g[2 * k].endedBefore % 2 == 0)
    && (g[2 * k + 1].side == Other(g[2 * k].side) <==> EndedBetween(g, 2 * k, 2 * k + 1) % 2 == 0)
  }

  lemma SwappedExactly(o: Options, events: seq<Event>, led: Played, k: nat)
    requires o.plan.Some? && Honest(o, events, led)
    requires 2 * k + 1 < |GamesAgainst(o, events, o.plan.value.profile)|
    ensures SwapsByCount(GamesAgainst(o, events, o.plan.value.profile), Run(o, events).history.made, led, k)
  {
    hide Run, Honest, NextFirst, SideFor, HeardOf, ChallengesAddUp, OneAtATime, EndedInOrder, Ended, AllAgainst;
    var s := Run(o, events);
    HonestRunOrderly(o, events, led);
    AgainstAll(s.history.starts, o.plan.value.profile);
    MadeAt(s, led[2 * k]);
    MadeAt(s, led[2 * k + 1]);
    SeatsByParity(s.history.made[led[2 * k]].count, s.history.made[led[2 * k + 1]].count);
  }

  lemma MadeAt(s: State, i: nat)
    requires ChallengesAddUp(s) && i < |s.history.made|
    ensures var m := s.history.made[i]; m.count == HeardOf(s.history.made[..i]) && m.first == NextFirst(m.count)
  {
  }

  lemma SeatsByParity(a: nat, b: nat)
    ensures SideFor(NextFirst(a)) == P1 <==> a % 2 == 0
    ensures SideFor(NextFirst(b)) == Other(SideFor(NextFirst(a))) <==> (a + b) % 2 == 1
  {
  }

  /** With every challenge heard of: exactly when the challenges that ended between the two games are even in number. */
  lemma SwappedWhenHeard(o: Options, events: seq<Event>, led: Played, k: nat)
    requires o.plan.Some? && Honest(o, events, led) && AllHeard(Run(o, events))
    requires 2 * k + 1 < |GamesAgainst(o, events, o.plan.value.profile)|
    ensures SwapsByEnded(GamesAgainst(o, events, o.plan.value.profile), Run(o, events).history.ended, k)
  {
    SwappedExactly(o, events, led, k);
    HonestRunOrderly(o, events, led);
    hide Run, Honest, Orderly, SwapsByCount, SwapsByEnded, AllHeard, Against;
    HeardSwaps(o, Run(o, events), led, k);
  }

  lemma HeardSwaps(o: Options, s: State, led: Played, k: nat)
    requires o.plan.Some? && Orderly(o, s, led) && AllHeard(s)
    requires SwapsByCount(Against(s.history.starts, o.plan.value.profile), s.history.made, led, k)
    ensures SwapsByEnded(Against(s.history.starts, o.plan.value.profile), s.history.ended, k)
  {
    hide Orderly, HeardOf, AllHeard, Against;
    HeardSeat(o, s, led, 2 * k);
    HeardSeat(o, s, led, 2 * k + 1);
    EndedBefore(o, s, led, 2 * k);
    var g := Against(s.history.starts, o.plan.value.profile);
    Parities(k, g[2 * k].endedBefore, g[2 * k + 1].endedBefore);
  }

  lemma Parities(k: nat, a: nat, b: nat)
    ensures (2 * k + a) % 2 == 0 <==> a % 2 == 0
    ensures (2 * k + a + (2 * k + 1 + b)) % 2 == 1 <==> (b - a) % 2 == 0
  {
  }

  /** With every challenge heard of, the count at the making of the j-th game's challenge. */
  lemma HeardSeat(o: Options, s: State, led: Played, j: nat)
    requires o.plan.Some? && Orderly(o, s, led) && AllHeard(s) && j < |Against(s.history.starts, o.plan.value.profile)|
    ensures j < |led| && led[j] <= |s.history.made| &&
            HeardOf(s.history.made[..led[j]]) == j + Against(s.history.starts, o.plan.value.profile)[j].endedBefore
  {
    AgainstAll(s.history.starts, o.plan.value.profile);
    AddsUpHeard(s);
    hide ChallengesAddUp, Ended, AllAgainst, OwnIds, FinishesRecorded, Settled, HeardOf, Against;
    AllOfThem(s.history.made, led[j]);
  }

  lemma EndedBefore(o: Options, s: State, led: Played, j: nat)
    requires o.plan.Some? && Orderly(o, s, led) && j + 1 < |Against(s.history.starts, o.plan.value.profile)|
    ensures var g := Against(s.history.starts, o.plan.value.profile);
            g[j].endedBefore <= g[j + 1].endedBefore <= s.history.ended
  {
    AgainstAll(s.history.starts, o.plan.value.profile);
    hide ChallengesAddUp, Ended, AllAgainst, OwnIds, FinishesRecorded, OneAtATime, Seated, OutMade, Against;
  }

  /** Where every challenge was heard of, so was every one before the i-th. */
  lemma {:induction false} AllOfThem(made: seq<Made>, i: nat)
    requires HeardOf(made) == |made| && i <= |made|
    ensures HeardOf(made[..i]) == i
  {
    if i == |made| {
      assert made[..i] == made;
    } else {
      HeardAtMost(made[..|made| - 1]);
      AllOfThem(made[..|made| - 1], i);
      assert made[..|made| - 1][..i] == made[..i];
    }
  }

  // ---------------------------------------------------------------- both bots

  /** The games between two bots in the order the server starts them: each one's id and the first bot's side. */
  datatype Listed = Listed(id: string, side: Player)

  function Flipped(list: seq<Listed>): seq<Listed> {
    seq(|list|, i requires 0 <= i < |list| => list[i].(side := Other(list[i].side)))
  }

  /** A stream whose new games against `opponent` are those of the list, in its order. */
  ghost predicate Follows(o: Options, events: seq<Event>, opponent: string, list: seq<Listed>) {
    forall i | 0 <= i < |events| :: FollowsOn(Run(o, events[..i]), events[i], opponent, list)
  }

  ghost predicate FollowsOn(s: State, e: Event, opponent: string, list: seq<Listed>) {
    e.GameStart? && e.opponent == opponent && e.gameId !in s.games && s.status.Running? ==>
      var n := |Against(s.history.starts, opponent)|;
      n < |list| && list[n] == Listed(e.gameId, e.side)
  }

  ghost predicate AsListed(games: seq<Started>, list: seq<Listed>) {
    |games| <= |list| && forall j | 0 <= j < |games| :: Listed(games[j].gameId, games[j].side) == list[j]
  }

  /** The games the session records against the opponent are the first of the list. */
  lemma {:induction false} GamesAsListed(o: Options, events: seq<Event>, opponent: string, list: seq<Listed>)
    requires Follows(o, events, opponent, list)
    ensures AsListed(GamesAgainst(o, events, opponent), list)
  {
    hide Step, Against, AsListed, FollowsOn, Initial;
    if events == [] {
      NoneListed(o, opponent, list);
    } else {
      var last := |events| - 1;
      var before := events[..last];
      assert Follows(o, before, opponent, list) by {
        forall i | 0 <= i < |before| ensures FollowsOn(Run(o, before[..i]), before[i], opponent, list) {
          assert before[..i] == events[..i] && FollowsOn(Run(o, events[..i]), events[i], opponent, list);
        }
      }
      GamesAsListed(o, before, opponent, list);
      assert FollowsOn(Run(o, before), events[last], opponent, list);
      StepAsListed(o, Run(o, before), events[last], opponent, list);
    }
  }

  lemma NoneListed(o: Options, opponent: string, list: seq<Listed>)
    ensures AsListed(Against(Run(o, []).history.starts, opponent), list)
  {
    RunNothingYet(o);
    assert Initial().history.starts == [];
    hide Initial;
  }

  lemma StepAsListed(o: Options, s: State, e: Event, opponent: string, list: seq<Listed>)
    requires AsListed(Against(s.history.starts, opponent), list) && FollowsOn(s, e, opponent, list)
    ensures AsListed(Against(Step(o, s, e).history.starts, opponent), list)
  {
    StepShape(o, s, e);
    HandleIs(o, s, e);
    hide Step, Handle, Start, Move, Finish, Closed, Against;
    if s.status.Running? {
      match e {
        case GameStart(_, _, _, _) =>
          if Start(o, s, e).history.starts != s.history.starts {
            StartedFacts(o, s, e);
            AgainstAppend(s.history.starts, Start(o, s, e).history.starts[|s.history.starts|], opponent);
            StartedId(o, s, e);
          }
        case MoveRequest(_, _, _, _, _) => MoveFrame(o, s, e);
        case GameFinish(_, _, _, _) => FinishFrame(o, s, e); ClosedStarts(s, e);
        case _ => ChallengeFrame(o, s, e);
      }
    }
  }

  lemma StartedId(o: Options, s: State, e: Event)
    requires e.GameStart? && Start(o, s, e).history.starts != s.history.starts
    ensures Start(o, s, e).history.starts[|s.history.starts|].gameId == e.gameId
  {
    hide LadderOpening, Ordinal;
  }

  /** Games 2k and 2k + 1 are the same two for both bots, on one opening, that of this index, and on opposite sides. */
  ghost predicate OnePair(g: seq<Started>, h: seq<Started>, index: nat, k: nat) {
    && 2 * k + 1 < |g| && 2 * k + 1 < |h|
    && g[2 * k].gameId == h[2 * k].gameId && g[2 * k + 1].gameId == h[2 * k + 1].gameId
    && g[2 * k].opening == g[2 * k + 1].opening == h[2 * k].opening == h[2 * k + 1].opening
    && g[2 * k].opening.index == index
    && g[2 * k].side == Other(h[2 * k].side) && g[2 * k + 1].side == Other(h[2 * k + 1].side)
  }

  /**
   A challenger and the bot it challenges, from the same place in the same book, their games started in one order: games
   2k and 2k + 1 are the same two games for both, with opening `matchOffset` + k, on opposite sides; and both bots
   change sides between the two exactly when the challenges played were made at issued counts of different parity. With
   every challenge heard of and none ended, the challenger plays first and then second.
   */
  lemma PairsOnBothBots(oa: Options, ea: seq<Event>, led: Played, ob: Options, eb: seq<Event>, a: string,
                        list: seq<Listed>, k: nat)
    requires oa.plan.Some? && Honest(oa, ea, led) && oa.book == ob.book && oa.matchOffset == ob.matchOffset
    requires Follows(oa, ea, oa.plan.value.profile, list) && Follows(ob, eb, a, Flipped(list))
    requires 2 * k + 1 < |GamesAgainst(oa, ea, oa.plan.value.profile)| && 2 * k + 1 < |GamesAgainst(ob, eb, a)|
    ensures OnePair(GamesAgainst(oa, ea, oa.plan.value.profile), GamesAgainst(ob, eb, a), oa.matchOffset + k, k)
    ensures SwapsByCount(GamesAgainst(oa, ea, oa.plan.value.profile), Run(oa, ea).history.made, led, k)
    ensures AllHeard(Run(oa, ea)) && Run(oa, ea).history.ended == 0 ==>
              var g := GamesAgainst(oa, ea, oa.plan.value.profile);
              g[2 * k].side == P1 && g[2 * k + 1].side == P2
  {
    hide Run, Honest, Follows, GamesAgainst, LadderOpening, AllHeard, HeardOf, AsListed, Flipped;
    var b := oa.plan.value.profile;
    GamesAsListed(oa, ea, b, list);
    GamesAsListed(ob, eb, a, Flipped(list));
    Opposite(GamesAgainst(oa, ea, b), GamesAgainst(ob, eb, a), list, 2 * k);
    Opposite(GamesAgainst(oa, ea, b), GamesAgainst(ob, eb, a), list, 2 * k + 1);
    PairSharesOpening(oa, ea, b, k);
    PairSharesOpening(ob, eb, a, k);
    SessionsShareOpening(oa, ea, a, ob, eb, b, 2 * k);
    SwappedExactly(oa, ea, led, k);
    if AllHeard(Run(oa, ea)) && Run(oa, ea).history.ended == 0 {
      SwappedWhenHeard(oa, ea, led, k);
      FirstSeat(oa, ea, led, k);
    }
  }

  lemma Opposite(g: seq<Started>, h: seq<Started>, list: seq<Listed>, j: nat)
    requires AsListed(g, list) && AsListed(h, Flipped(list)) && j < |g| && j < |h|
    ensures g[j].gameId == h[j].gameId && g[j].side == Other(h[j].side)
  {
    assert Flipped(list)[j] == list[j].(side := Other(list[j].side));
  }

  lemma FirstSeat(o: Options, events: seq<Event>, led: Played, k: nat)
    requires o.plan.Some? && Honest(o, events, led) && Run(o, events).history.ended == 0
    requires 2 * k < |GamesAgainst(o, events, o.plan.value.profile)|
    ensures GamesAgainst(o, events, o.plan.value.profile)[2 * k].endedBefore == 0
  {
    hide Run, Honest;
    HonestRunOrderly(o, events, led);
    AgainstAll(Run(o, events).history.starts, o.plan.value.profile);
  }

  // ---------------------------------------------------------------- the count of challenges

  /** The challenges made that the session did not hear of. */
  function Unheard(s: State): int {
    |s.history.made| - s.summary.issued
  }

  /**
   No more games than challenges made; every challenge issued led to a game finished, ended or is out, but for finishes
   with none out, and those are no more than the challenges made unheard of: none when every challenge was heard of.
   */
  lemma ChallengesExact(o: Options, events: seq<Event>, led: Played)
    requires o.plan.Some? && Honest(o, events, led)
    ensures var s := Run(o, events);
            && |s.history.starts| <= |s.history.made|
            && s.summary.issued + s.history.strays ==
               s.finished + s.history.ended + (if s.outgoing.Some? then 1 else 0)
            && s.summary.issued + s.history.strays <= |s.history.made|
  {
    HonestRunOrderly(o, events, led);
    EveryRunSound(o, events);
    hide Run, Honest, TablesAgree, AllReadable, OpeningsPaired, OutgoingNeeded, EndedInOrder, OneAtATime, AllAgainst;
    StraysFew(o, Run(o, events), led);
  }

  lemma StraysFew(o: Options, s: State, led: Played)
    requires Orderly(o, s, led) && GamesAddUp(s)
    ensures |s.history.starts| <= |s.history.made| && s.history.strays <= Unheard(s)
  {
    hide MadeInTurn, HeardOf, EndedInOrder, OneAtATime, AllAgainst, CountOutcome;
    var h := s.history;
    PlayedAndEnded(h, led, s.outgoing);
    if s.outgoing.Some? && Taken(h, led, s.outgoing.value) {
      assert s.games.Keys != {} || h.lost >= 1;
      assert |s.games.Keys| == |s.games|;
    }
  }

  /** Some game plays the challenge of this id. */
  ghost predicate Taken(h: History, led: Played, id: string) {
    exists j :: 0 <= j < |h.starts| && j < |led| && led[j] < |h.made| && h.made[led[j]].id == id
  }

  /** Played, ended and out without a game are different challenges. */
  lemma PlayedAndEnded(h: History, led: Played, out: Option<string>)
    requires Seated(h, led) && OwnIds(h.made) && OutMade(h, out)
    ensures |h.starts| + |Ended(h)| + (if out.Some? && !Taken(h, led, out.value) then 1 else 0) <= |h.made|
  {
    var n := |h.starts|;
    DistinctPlaces(led, n);
    Apart(h, led);
    var used := PlayedPlaces(led, n) + Ended(h);
    hide OwnIds, Seated, Ended, PlayedPlaces;
    if out.Some? && !Taken(h, led, out.value) {
      var i :| 0 <= i < |h.made| && h.made[i].id == out.value;
      OutApart(h, led, i);
      Subsets(used + {i}, Places(|h.made|));
    } else {
      Subsets(used, Places(|h.made|));
    }
  }

  lemma OutApart(h: History, led: Played, i: nat)
    requires Seated(h, led) && i < |h.made| && h.made[i].id !in h.over && !Taken(h, led, h.made[i].id)
    ensures i !in PlayedPlaces(led, |h.starts|) + Ended(h)
  {
  }

  lemma Apart(h: History, led: Played)
    requires Seated(h, led)
    ensures PlayedPlaces(led, |h.starts|) !! Ended(h)
    ensures PlayedPlaces(led, |h.starts|) + Ended(h) <= Places(|h.made|)
  {
  }

  function PlayedPlaces(led: Played, n: nat): set<nat>
    requires n <= |led|
  {
    set j | 0 <= j < n :: led[j]
  }

  function Places(n: nat): (r: set<nat>)
    ensures |r| == n && forall i: nat :: i in r <==> i < n
  {
    if n == 0 then {} else Places(n - 1) + {n - 1}
  }

  lemma {:induction false} DistinctPlaces(led: Played, n: nat)
    requires n <= |led| && forall i, j | 0 <= i < j < n :: led[i] != led[j]
    ensures |PlayedPlaces(led, n)| == n
  {
    if n > 0 {
      DistinctPlaces(led, n - 1);
      assert led[n - 1] !in PlayedPlaces(led, n - 1);
      assert PlayedPlaces(led, n) == PlayedPlaces(led, n - 1) + {led[n - 1]};
    }
  }
}
