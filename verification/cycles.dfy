/**
  Rounds whose cycle is reconfigured while the activity runs. A tick that finds a new cycle in
  the configuration opens the very next round, chained from the close of the current one.
 */
module Cycles {
  import opened Arithmetic
  import opened Options
  import opened Rounds

  /** What every tick keeps, whatever cycles the configuration provides. */
  predicate Sound(s: RoundState) {
    && ValidTimes(s)
    && s.round >= 1
    && s.totalOpen <= s.roundOpen < s.roundClose <= s.totalClose
  }

  lemma OnGridIsSound(s: RoundState)
    requires OnGrid(s)
    ensures Sound(s)
  {
    GridTilesTheActivity(s, s.round);
    MulMonotone(0, s.round - 1, CycleMs(s.cycleMinutes));
  }

  /**
    One tick, any configuration and any outcome of its calls. The round and its window either
    stay as they are or move to a later round that opens no earlier than the current one closes;
    what was served, written to Redis and queued for Mongo last is the window now in the state.
   */
  lemma TickMovesForward(s: RoundState, now: int, env: TickEnv)
    requires Sound(s)
    ensures
      var r := Tick(s, now, env);
      && Sound(r.state)
      && r.state.totalOpen == s.totalOpen && r.state.totalClose == s.totalClose
      && (r.served.None? ==>
            && r.state == s.(cycleMinutes := r.state.cycleMinutes)
            && r.curRound.None?)
      && (r.served.Some? ==>
            && s.roundClose <= now < s.totalClose
            && r.served.value == Served(r.state.round, Window(r.state.roundOpen, r.state.roundClose))
            && r.curRound == Some(r.state.round)
            && r.state.round > s.round
            && r.state.roundOpen >= s.roundClose
            && r.saves != [] && r.saves[|r.saves| - 1] == r.state)
  {
    var changes := ChangesCycle(s, env);
    var s1 := if changes then s.(cycleMinutes := env.provided.value) else s;
    var next := if changes then s.round + 1 else NextAdvanceRound(s, now);
    MulMonotone(0, next - s.round - 1, CycleMs(s1.cycleMinutes));
  }

  // ---------------------------------------------------------------- whole runs

  /** The rounds a node serves over a run of ticks. */
  function History(s: RoundState, ticks: seq<(int, TickEnv)>): seq<Served>
    decreases |ticks|
  {
    if ticks == [] then []
    else
      var r := Tick(s, ticks[0].0, ticks[0].1);
      var later := History(r.state, ticks[1..]);
      if r.served.Some? then [r.served.value] + later else later
  }

  /** These rounds come after the current one of `s`, inside its activity, in order and apart. */
  ghost predicate FollowInOrder(s: RoundState, h: seq<Served>) {
    && (forall i | 0 <= i < |h| ::
          && h[i].round > s.round
          && s.roundClose <= h[i].window.open < h[i].window.close <= s.totalClose)
    && (forall i, j | 0 <= i < j < |h| ::
          h[i].round < h[j].round && h[i].window.close <= h[j].window.open)
  }

  /** What `TickMovesForward` says of one tick, as a relation between states. */
  predicate MovesTo(s: RoundState, s': RoundState, served: Option<Served>) {
    && s'.totalClose == s.totalClose
    && match served
       case None => s'.round == s.round && s'.roundClose == s.roundClose
       case Some(v) =>
         && v == Served(s'.round, Window(s'.roundOpen, s'.roundClose))
         && s'.round > s.round
         && s.roundClose <= s'.roundOpen < s'.roundClose <= s.totalClose
  }

  lemma FollowInOrderStep(s: RoundState, s': RoundState, served: Option<Served>, later: seq<Served>)
    requires MovesTo(s, s', served) && FollowInOrder(s', later)
    ensures FollowInOrder(s, (if served.Some? then [served.value] else []) + later)
  {
    if served.Some? {
      var h := [served.value] + later;
      assert forall i | 1 <= i < |h| :: h[i] == later[i - 1];
    } else {
      assert [] + later == later;
    }
  }

  /**
    Over any run of ticks at any moments, with any positive cycles configured in between (also
    right before an advance that is refused or whose registration fails), the served rounds
    have rising numbers, and their windows are not empty, lie inside the activity, follow one
    another and do not overlap; all of them come after the window current at the start.
   */
  lemma {:induction false} ServedWindowsAreDisjointAndOrdered(s: RoundState, ticks: seq<(int, TickEnv)>)
    requires Sound(s)
    ensures FollowInOrder(s, History(s, ticks))
    decreases |ticks|
  {
    if ticks != [] {
      var r := Tick(s, ticks[0].0, ticks[0].1);
      assert Sound(r.state) && MovesTo(s, r.state, r.served) by {
        TickMovesForward(s, ticks[0].0, ticks[0].1);
      }
      ServedWindowsAreDisjointAndOrdered(r.state, ticks[1..]);
      FollowInOrderStep(s, r.state, r.served, History(r.state, ticks[1..]));
      assert [] + History(r.state, ticks[1..]) == History(r.state, ticks[1..]);
    }
  }

  /** So for every activity, from its registration at any moment. */
  lemma {:induction false} NewActivityServesDisjointWindows(cycleMinutes: int, totalOpen: int, totalClose: int,
                                                            now: int, ticks: seq<(int, TickEnv)>)
    requires 0 <= totalOpen < totalClose && cycleMinutes > 0
    ensures
      var s := NewState(cycleMinutes, totalOpen, totalClose, now);
      Sound(s) && FollowInOrder(s, History(s, ticks))
  {
    var s := NewState(cycleMinutes, totalOpen, totalClose, now);
    NewStateIsOnGrid(cycleMinutes, totalOpen, totalClose, now);
    OnGridIsSound(s);
    ServedWindowsAreDisjointAndOrdered(s, ticks);
  }

  // ---------------------------------------------------------------- does the window contain now?

  /** How far the chained windows have drifted from the grid of the current cycle. */
  function Drift(s: RoundState): int {
    s.roundClose - (s.totalOpen + s.round * CycleMs(s.cycleMinutes))
  }

  /** How long the grid's current round has been running. */
  function Phase(s: RoundState, now: int): int
    requires s.cycleMinutes > 0
  {
    (now - s.totalOpen) % CycleMs(s.cycleMinutes)
  }

  /** An advance that meets no obstacle and no new cycle. */
  function PlainAdvance(s: RoundState, now: int): RoundState {
    Tick(s, now, TickEnv(true, true, None, true)).state
  }

  lemma AdvancedWindow(s: RoundState, now: int)
    requires Sound(s) && s.roundClose <= now < s.totalClose
    ensures
      var cd := CycleMs(s.cycleMinutes);
      && (ComputeRoundAt(s, now) > s.round ==>
            ComputeRoundWindow(s, ComputeRoundAt(s, now)) == Clip(s, now - Phase(s, now) + Drift(s), cd))
      && ComputeRoundWindow(s, s.round + 1) == Clip(s, s.roundClose, cd)
  {
    var cd := CycleMs(s.cycleMinutes);
    var at := ComputeRoundAt(s, now);
    var x := now - s.totalOpen;
    ExactlyOneRoundContains(s, now, MaxRound(s)) by { RoundsStartBeforeClose(s, 1); }
    ExactlyOneRoundContains(s, now, at);
    QuotientIsUnique(x, cd, at - 1) by { assert (at - 1 + 1) * cd == (at - 1) * cd + cd; }
    assert x == (at - 1) * cd + Phase(s, now);
    assert s.round * cd + (at - s.round - 1) * cd == (at - 1) * cd;
  }

  /**
    Exactly when an advance opens a window that contains the present. If the clock is in a later
    round than the state, it does iff the drift lies between the phase minus one cycle and the
    phase; if not, the very next round is opened, and it does iff the state is less than one
    cycle late.
   */
  lemma AdvanceContainsNowIff(s: RoundState, now: int)
    requires Sound(s) && s.roundClose <= now < s.totalClose
    ensures
      var s' := PlainAdvance(s, now);
      var cd := CycleMs(s.cycleMinutes);
      Window(s'.roundOpen, s'.roundClose).Contains(now) <==>
        if ComputeRoundAt(s, now) > s.round
        then Phase(s, now) - cd < Drift(s) <= Phase(s, now)
        else now - s.roundClose < cd
  {
    AdvancedWindow(s, now);
  }

  /** With no drift the advance always lands on the present: the fixed-cycle case again. */
  lemma NoDriftNoGap(s: RoundState, now: int)
    requires OnGrid(s) && s.roundClose <= now < s.totalClose
    ensures Drift(s) == 0
    ensures Phase(s, now) - CycleMs(s.cycleMinutes) < Drift(s) <= Phase(s, now)
  {
    var cd := CycleMs(s.cycleMinutes);
    assert s.round * cd == (s.round - 1) * cd + cd;
  }

  const HOUR := 60 * MS_PER_MINUTE

  /**
    A cycle shortened from 60 to 30 minutes: the round opened at 120 minutes is [120, 150), and
    the tick at 150 minutes opens round 6 with a window, [210, 240), that lies in the future.
   */
  lemma ShortenedCycleOpensTheFuture()
    ensures
      var s := RoundState(60, 60, 1, 1 + 24 * HOUR, 2, 1 + HOUR, 1 + 2 * HOUR);
      var s1 := Tick(s, 1 + 2 * HOUR, TickEnv(true, true, Some(30), true)).state;
      var s2 := PlainAdvance(s1, s1.roundClose);
      && OnGrid(s)
      && (s1.round, s1.roundOpen, s1.roundClose) == (3, 1 + 2 * HOUR, 1 + 2 * HOUR + HOUR / 2)
      && (s2.round, s2.roundOpen) == (6, 1 + 3 * HOUR + HOUR / 2)
      && s2.roundOpen > s1.roundClose
  {
    var s := RoundState(60, 60, 1, 1 + 24 * HOUR, 2, 1 + HOUR, 1 + 2 * HOUR);
    var s1 := Tick(s, 1 + 2 * HOUR, TickEnv(true, true, Some(30), true)).state;
    QuotientIsUnique(24 * HOUR - 1, HOUR, 23);
    QuotientIsUnique(2 * HOUR + HOUR / 2, HOUR / 2, 5);
    QuotientIsUnique(24 * HOUR - 1, HOUR / 2, 47);
  }

  /**
    Two nodes after cycle changes. With one cycle now, they agree on the window of a round that is
    still ahead of both if and only if their drifts are the same.
   */
  lemma SameCycleWindowsAgreeIff(s: RoundState, t: RoundState, round: int)
    requires Sound(s) && Sound(t) && s.cycleMinutes == t.cycleMinutes
    requires s.totalOpen == t.totalOpen && s.totalClose == t.totalClose
    requires round > s.round && round > t.round
    ensures ComputeRoundWindow(s, round) == ComputeRoundWindow(t, round) <==> Drift(s) == Drift(t)
  {
    ChainedWindow(s, round);
    ChainedWindow(t, round);
  }

  /** A later round opens on the grid of the current cycle, shifted by the drift. */
  lemma ChainedWindow(s: RoundState, round: int)
    requires Sound(s) && round > s.round
    ensures
      var cd := CycleMs(s.cycleMinutes);
      ComputeRoundWindow(s, round) == Clip(s, s.totalOpen + (round - 1) * cd + Drift(s), cd)
  {
    var cd := CycleMs(s.cycleMinutes);
    assert s.round * cd + (round - s.round - 1) * cd == (round - 1) * cd;
  }

  /** Serving a round keeps the drift, unless the end of the activity cuts the round short. */
  lemma ServingKeepsTheDrift(s: RoundState, round: int)
    requires Sound(s) && AdvanceToRound(s, round).1
    ensures
      var s' := AdvanceToRound(s, round).0;
      Drift(s') == Drift(s) <==> s'.roundClose == s'.roundOpen + CycleMs(s.cycleMinutes)
  {
    var cd := CycleMs(s.cycleMinutes);
    ChainedWindow(s, round);
    assert round * cd == (round - 1) * cd + cd;
  }

  // ---------------------------------------------------------------- cycles that only grow

  /** The current round closes no later than on the grid of the current cycle. */
  predicate NotLate(s: RoundState) {
    Sound(s) && Drift(s) <= 0
  }

  predicate Grows(s: RoundState, env: TickEnv) {
    ChangesCycle(s, env) ==> env.provided.value >= s.cycleMinutes
  }

  /** A longer cycle only moves the grid away from the current round. */
  lemma LongerCycleIsNotLate(s: RoundState, cycleMinutes: int)
    requires NotLate(s) && s.cycleMinutes <= cycleMinutes
    ensures NotLate(s.(cycleMinutes := cycleMinutes))
  {
    MulMonotone(CycleMs(s.cycleMinutes), CycleMs(cycleMinutes), s.round);
    assert s.round * CycleMs(s.cycleMinutes) <= s.round * CycleMs(cycleMinutes);
  }

  /** The next round, chained to a round that is not late, opens in the past and is not late. */
  lemma NextRoundIsNotLate(s: RoundState, now: int)
    requires NotLate(s) && s.roundClose <= now < s.totalClose
    ensures ComputeRoundWindow(s, s.round + 1) == Clip(s, s.roundClose, CycleMs(s.cycleMinutes))
    ensures AdvanceToRound(s, s.round + 1).1 && NotLate(AdvanceToRound(s, s.round + 1).0)
  {
    var cd := CycleMs(s.cycleMinutes);
    assert (s.round + 1) * cd == s.round * cd + cd;
  }

  /** So does the clock's round, if it is later than the current one. */
  lemma ClockRoundIsNotLate(s: RoundState, now: int)
    requires NotLate(s) && s.roundClose <= now < s.totalClose
    requires s.round < ComputeRoundAt(s, now)
    ensures ComputeRoundWindow(s, ComputeRoundAt(s, now)).open <= now
    ensures
      var (s', ok) := AdvanceToRound(s, ComputeRoundAt(s, now));
      ok && NotLate(s')
  {
    var cd := CycleMs(s.cycleMinutes);
    var at := ComputeRoundAt(s, now);
    var w := ComputeRoundWindow(s, at);
    var k := at - s.round - 1;
    assert w == Clip(s, s.roundClose + k * cd, cd);
    assert at * cd == s.round * cd + k * cd + cd;
    assert k * cd >= 0;
    assert w.open <= now by { AdvancedWindow(s, now); }
  }

  /**
    As long as reconfiguration only lengthens the cycle, no tick ever opens a window that lies
    in the future.
   */
  lemma GrowingCyclesNeverOpenTheFuture(s: RoundState, now: int, env: TickEnv)
    requires NotLate(s) && Grows(s, env)
    ensures
      var r := Tick(s, now, env);
      && NotLate(r.state)
      && (r.served.Some? ==> r.served.value.window.open <= now)
  {
    if s.roundClose <= now < s.totalClose {
      if ChangesCycle(s, env) {
        LongerCycleIsNotLate(s, env.provided.value);
        NextRoundIsNotLate(s.(cycleMinutes := env.provided.value), now);
      } else {
        if ComputeRoundAt(s, now) > s.round {
          ClockRoundIsNotLate(s, now);
        } else {
          NextRoundIsNotLate(s, now);
        }
      }
    }
  }

  /** A state on the grid closes its round on the grid, or earlier where the activity ends. */
  lemma OnGridIsNotLate(s: RoundState)
    requires OnGrid(s)
    ensures NotLate(s)
  {
    OnGridIsSound(s);
    assert s.round * CycleMs(s.cycleMinutes) == (s.round - 1) * CycleMs(s.cycleMinutes) + CycleMs(s.cycleMinutes);
  }

  /** No tick of the run meets a shorter cycle than the one before it. */
  predicate GrowsThroughout(s: RoundState, ticks: seq<(int, TickEnv)>)
    decreases |ticks|
  {
    ticks != [] ==>
      && Grows(s, ticks[0].1)
      && GrowsThroughout(Tick(s, ticks[0].0, ticks[0].1).state, ticks[1..])
  }

  /** When a round was opened, and the round. */
  datatype Opening = Opening(at: int, served: Served)

  /** The history of a run of ticks, with the moments. */
  function Openings(s: RoundState, ticks: seq<(int, TickEnv)>): (h: seq<Opening>)
    ensures |h| == |History(s, ticks)|
    ensures forall i | 0 <= i < |h| :: h[i].served == History(s, ticks)[i]
    decreases |ticks|
  {
    if ticks == [] then []
    else
      var r := Tick(s, ticks[0].0, ticks[0].1);
      var later := Openings(r.state, ticks[1..]);
      if r.served.Some? then [Opening(ticks[0].0, r.served.value)] + later else later
  }

  lemma {:induction false} OpeningsAreNotInTheFuture(s: RoundState, ticks: seq<(int, TickEnv)>)
    requires NotLate(s) && GrowsThroughout(s, ticks)
    ensures forall o <- Openings(s, ticks) :: o.served.window.open <= o.at
    decreases |ticks|
  {
    if ticks != [] {
      GrowingCyclesNeverOpenTheFuture(s, ticks[0].0, ticks[0].1);
      OpeningsAreNotInTheFuture(Tick(s, ticks[0].0, ticks[0].1).state, ticks[1..]);
    }
  }

  /**
    From the registration of an activity, over any run of ticks at any moments with any outcome,
    in which the configured cycle never shrinks: every round served was opened in its past.
   */
  lemma {:induction false} GrowingActivityNeverOpensTheFuture(cycleMinutes: int, totalOpen: int, totalClose: int,
                                                              now: int, ticks: seq<(int, TickEnv)>)
    requires 0 <= totalOpen < totalClose && cycleMinutes > 0
    requires GrowsThroughout(NewState(cycleMinutes, totalOpen, totalClose, now), ticks)
    ensures
      forall o <- Openings(NewState(cycleMinutes, totalOpen, totalClose, now), ticks) :: o.served.window.open <= o.at
  {
    var s := NewState(cycleMinutes, totalOpen, totalClose, now);
    NewStateIsOnGrid(cycleMinutes, totalOpen, totalClose, now);
    OnGridIsNotLate(s);
    OpeningsAreNotInTheFuture(s, ticks);
  }

  /** Unobstructed ticks at one frozen moment, under one configuration, until none is due. */
  function CatchUp(s: RoundState, now: int, provided: Option<int>): RoundState
    requires NotLate(s) && Grows(s, TickEnv(true, true, provided, true))
    requires s.roundOpen <= now < s.totalClose
    decreases s.totalClose - s.roundClose
  {
    var env := TickEnv(true, true, provided, true);
    var s' := Tick(s, now, env).state;
    TickMovesForward(s, now, env);
    GrowingCyclesNeverOpenTheFuture(s, now, env);
    if now < s.roundClose then s
    else
      UnobstructedTickServes(s, now, env);
      CatchUp(s', now, provided)
  }

  /** A tick that is due and meets no obstacle opens a round. */
  lemma UnobstructedTickServes(s: RoundState, now: int, env: TickEnv)
    requires NotLate(s) && Grows(s, env)
    requires env.locked && env.serviceFound && env.replaceOk
    requires s.roundClose <= now < s.totalClose
    ensures Tick(s, now, env).served.Some?
    ensures Tick(s, now, env).state.cycleMinutes == if ChangesCycle(s, env) then env.provided.value else s.cycleMinutes
  {
    if ChangesCycle(s, env) {
      LongerCycleIsNotLate(s, env.provided.value);
      NextRoundIsNotLate(s.(cycleMinutes := env.provided.value), now);
    } else {
      if ComputeRoundAt(s, now) > s.round {
        ClockRoundIsNotLate(s, now);
      } else {
        NextRoundIsNotLate(s, now);
      }
    }
  }

  /**
    Ticks at a frozen moment stop after finitely many advances (each raises the close of the
    round, which the close of the activity bounds), and they stop in a window that contains the
    moment.
   */
  lemma {:induction false} CatchUpReachesThePresent(s: RoundState, now: int, provided: Option<int>)
    requires NotLate(s) && Grows(s, TickEnv(true, true, provided, true))
    requires s.roundOpen <= now < s.totalClose
    ensures
      var s' := CatchUp(s, now, provided);
      && NotLate(s')
      && Window(s'.roundOpen, s'.roundClose).Contains(now)
      && s'.round >= s.round
    decreases s.totalClose - s.roundClose
  {
    if s.roundClose <= now {
      var env := TickEnv(true, true, provided, true);
      TickMovesForward(s, now, env);
      GrowingCyclesNeverOpenTheFuture(s, now, env);
      UnobstructedTickServes(s, now, env);
      CatchUpReachesThePresent(Tick(s, now, env).state, now, provided);
    }
  }
}
