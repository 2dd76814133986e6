/**
  Round arithmetic of a periodic leaderboard. An activity [totalOpen, totalClose) is cut into
  rounds; a state remembers the current round and its window and derives all other rounds from
  it. Times are Unix milliseconds, cycles are minutes.
 */
module Rounds {
  import opened Arithmetic
  import opened Options

  const MS_PER_MINUTE := 60_000

  /** The persisted form of a periodic state (PeriodicSavedState). */
  datatype RoundState = RoundState(
    cycleMinutes: int,
    baseCycleMinutes: int,
    totalOpen: int,
    totalClose: int,
    round: int,
    roundOpen: int,
    roundClose: int)

  datatype Window = Window(open: int, close: int) {
    predicate Contains(t: int) {
      open <= t < close
    }
  }

  function CycleMs(minutes: int): int {
    minutes * MS_PER_MINUTE
  }

  function Clip(s: RoundState, open: int, cycleMs: int): Window {
    Window(open, if open + cycleMs > s.totalClose then s.totalClose else open + cycleMs)
  }

  /** The window of a round: saved, chained from the current one, or computed from the start. */
  function ComputeRoundWindow(s: RoundState, round: int): Window {
    if s.cycleMinutes <= 0 then
      Window(s.totalOpen, s.totalClose)
    else if round == s.round && s.roundOpen > 0 then
      Window(s.roundOpen, s.roundClose)
    else if round > s.round && s.roundClose > 0 then
      Clip(s, s.roundClose + (round - s.round - 1) * CycleMs(s.cycleMinutes), CycleMs(s.cycleMinutes))
    else
      var minutes := if s.baseCycleMinutes > 0 && round < s.round then s.baseCycleMinutes else s.cycleMinutes;
      Clip(s, s.totalOpen + (round - 1) * CycleMs(minutes), CycleMs(minutes))
  }

  function MaxRound(s: RoundState): int {
    if s.cycleMinutes <= 0 then 1
    else if s.totalClose - s.totalOpen <= 0 then 1
    else (s.totalClose - s.totalOpen - 1) / CycleMs(s.cycleMinutes) + 1
  }

  /** The round a moment belongs to. */
  function ComputeRoundAt(s: RoundState, now: int): int {
    if s.cycleMinutes <= 0 || now <= s.totalOpen then 1
    else
      var round := (now - s.totalOpen) / CycleMs(s.cycleMinutes) + 1;
      if round > MaxRound(s) then MaxRound(s) else round
  }

  function NextAdvanceRound(s: RoundState, now: int): int {
    var target := ComputeRoundAt(s, now);
    if target <= s.round then s.round + 1 else target
  }

  function AdvanceToRound(s: RoundState, round: int): (r: (RoundState, bool)) {
    var w := ComputeRoundWindow(s, round);
    if round <= s.round || w.open >= s.totalClose then (s, false)
    else (s.(round := round, roundOpen := w.open, roundClose := w.close), true)
  }

  /** A new activity starts in the round of the current moment. */
  function NewState(cycleMinutes: int, totalOpen: int, totalClose: int, now: int): RoundState {
    var s := RoundState(cycleMinutes, cycleMinutes, totalOpen, totalClose, 0, 0, 0);
    var round := ComputeRoundAt(s, now);
    var w := ComputeRoundWindow(s.(round := round), round);
    s.(round := round, roundOpen := w.open, roundClose := w.close)
  }

  /** Old documents lack the base cycle. */
  function FromSaved(saved: RoundState): RoundState {
    if saved.baseCycleMinutes == 0 then saved.(baseCycleMinutes := saved.cycleMinutes) else saved
  }

  // ---------------------------------------------------------------- what a tick does

  /** What a tick meets: the lock, the service, the configured cycle, the registration of a round. */
  datatype TickEnv = TickEnv(locked: bool, serviceFound: bool, provided: Option<int>, replaceOk: bool)

  datatype Served = Served(round: int, window: Window)

  /** What a tick leaves behind: the state, the round it opened, and what it wrote. */
  datatype TickResult = TickResult(
    state: RoundState,
    served: Option<Served>,
    curRound: Option<int>,      // written to Redis
    saves: seq<RoundState>)     // queued for Mongo

  predicate ChangesCycle(s: RoundState, env: TickEnv) {
    env.provided.Some? && env.provided.value > 0 && env.provided.value != s.cycleMinutes
  }

  function AdvanceRound(s: RoundState, now: int, env: TickEnv): TickResult {
    if !env.locked || !env.serviceFound || now >= s.totalClose then
      TickResult(s, None, None, [])
    else
      var changes := ChangesCycle(s, env);
      var s1 := if changes then s.(cycleMinutes := env.provided.value) else s;
      var next := if changes then s.round + 1 else NextAdvanceRound(s, now);
      var saves := if changes then [s1] else [];
      var w := ComputeRoundWindow(s1, next);
      if w.open >= s.totalClose || !env.replaceOk then
        TickResult(s1, None, None, saves)
      else
        var s2 := AdvanceToRound(s1, next).0;
        TickResult(s2, Some(Served(next, w)), Some(next), saves + [s2])
  }

  function Tick(s: RoundState, now: int, env: TickEnv): TickResult {
    if now >= s.roundClose then AdvanceRound(s, now, env) else TickResult(s, None, None, [])
  }

  // ---------------------------------------------------------------- one fixed cycle

  predicate ValidTimes(s: RoundState) {
    0 <= s.totalOpen < s.totalClose && s.cycleMinutes > 0
  }

  /** The closed form of a round's window under one fixed cycle. */
  function Grid(s: RoundState, round: int): Window {
    Clip(s, s.totalOpen + (round - 1) * CycleMs(s.cycleMinutes), CycleMs(s.cycleMinutes))
  }

  /** A state as the code reaches it while the cycle stays fixed. */
  predicate OnGrid(s: RoundState) {
    && ValidTimes(s)
    && s.baseCycleMinutes == s.cycleMinutes
    && 1 <= s.round <= MaxRound(s)
    && Window(s.roundOpen, s.roundClose) == Grid(s, s.round)
  }

  /** The rounds that exist are those that start before the activity closes. */
  lemma RoundsStartBeforeClose(s: RoundState, round: int)
    requires ValidTimes(s)
    ensures round <= MaxRound(s) <==> Grid(s, round).open < s.totalClose
    ensures MaxRound(s) >= 1
  {
    var cd := CycleMs(s.cycleMinutes);
    AtMostQuotient(s.totalClose - s.totalOpen - 1, cd, round - 1);
    AtMostQuotient(s.totalClose - s.totalOpen - 1, cd, 0);
  }

  /**
    Tiling. The windows of the rounds 1..MaxRound are not empty, the first starts with the
    activity, the last ends with it, and each starts where the one before it ended.
   */
  lemma GridTilesTheActivity(s: RoundState, round: int)
    requires ValidTimes(s) && 1 <= round <= MaxRound(s)
    ensures Grid(s, round).open < Grid(s, round).close <= s.totalClose
    ensures Grid(s, 1).open == s.totalOpen
    ensures Grid(s, MaxRound(s)).close == s.totalClose
    ensures round < MaxRound(s) ==> Grid(s, round).close == Grid(s, round + 1).open
  {
    var cd := CycleMs(s.cycleMinutes);
    RoundsStartBeforeClose(s, round);
    RoundsStartBeforeClose(s, round + 1);
    RoundsStartBeforeClose(s, MaxRound(s) + 1);
    assert round * cd == (round - 1) * cd + cd;
    assert MaxRound(s) * cd == (MaxRound(s) - 1) * cd + cd;
  }

  /** An earlier round closes before a later one opens. */
  lemma EarlierRoundsCloseFirst(s: RoundState, earlier: int, later: int)
    requires ValidTimes(s) && 1 <= earlier < later <= MaxRound(s)
    ensures Grid(s, earlier).close <= Grid(s, later).open
  {
    MulMonotone(earlier, later - 1, CycleMs(s.cycleMinutes));
    GridTilesTheActivity(s, earlier);
  }

  /** Every moment of the activity lies in the window of exactly one round: the computed one. */
  lemma ExactlyOneRoundContains(s: RoundState, t: int, round: int)
    requires ValidTimes(s) && s.totalOpen <= t < s.totalClose
    requires 1 <= round <= MaxRound(s)
    ensures 1 <= ComputeRoundAt(s, t) <= MaxRound(s)
    ensures Grid(s, round).Contains(t) <==> round == ComputeRoundAt(s, t)
  {
    var cd := CycleMs(s.cycleMinutes);
    var x := t - s.totalOpen;
    var at := x / cd + 1;
    DivBounds(x, cd);
    RoundsStartBeforeClose(s, at);
    assert at == ComputeRoundAt(s, t) by {
      if t == s.totalOpen { QuotientIsUnique(0, cd, 0); }
    }
    assert at >= 1 by {
      if at < 1 { MulMonotone(at, 0, cd); }
    }
    assert round * cd == (round - 1) * cd + cd;
    assert (at - 1) * cd <= x < at * cd;
    if Grid(s, round).Contains(t) {
      QuotientIsUnique(x, cd, round - 1);
    }
  }

  /** After the activity, and before it, the computed round is the last and the first. */
  lemma RoundAtOutsideTheActivity(s: RoundState, t: int)
    requires ValidTimes(s)
    ensures t <= s.totalOpen ==> ComputeRoundAt(s, t) == 1
    ensures t >= s.totalClose ==> ComputeRoundAt(s, t) == MaxRound(s)
    ensures 1 <= ComputeRoundAt(s, t) <= MaxRound(s)
  {
    RoundsStartBeforeClose(s, 1);
    if s.totalOpen <= t < s.totalClose {
      ExactlyOneRoundContains(s, t, 1);
    } else if t >= s.totalClose {
      var cd := CycleMs(s.cycleMinutes);
      DivBounds(t - s.totalOpen, cd);
      DivBounds(s.totalClose - s.totalOpen - 1, cd);
      if (t - s.totalOpen) / cd < MaxRound(s) - 1 {
        MulMonotone((t - s.totalOpen) / cd + 1, MaxRound(s) - 1, cd);
      }
    }
  }

  /** The computed round never goes back while time goes on. */
  lemma RoundAtIsMonotone(s: RoundState, t1: int, t2: int)
    requires ValidTimes(s) && t1 <= t2
    ensures ComputeRoundAt(s, t1) <= ComputeRoundAt(s, t2)
  {
    RoundAtOutsideTheActivity(s, t1);
    RoundAtOutsideTheActivity(s, t2);
    var cd := CycleMs(s.cycleMinutes);
    var q1, q2 := (t1 - s.totalOpen) / cd, (t2 - s.totalOpen) / cd;
    DivBounds(t1 - s.totalOpen, cd);
    DivBounds(t2 - s.totalOpen, cd);
    if q1 > q2 {
      MulMonotone(q2 + 1, q1, cd);
    }
  }

  /**
    With a fixed cycle, the three ways of computing a window (saved, chained from the current
    round, from the start with the base cycle) give one and the same function of the round.
   */
  lemma ThreeBranchesAgree(s: RoundState, round: int)
    requires OnGrid(s) && 1 <= round <= MaxRound(s)
    ensures ComputeRoundWindow(s, round) == Grid(s, round)
  {
    var cd := CycleMs(s.cycleMinutes);
    GridTilesTheActivity(s, s.round);
    if round > s.round {
      assert s.roundClose == s.totalOpen + s.round * cd by {
        assert s.round * cd == (s.round - 1) * cd + cd;
      }
      assert s.round * cd + (round - s.round - 1) * cd == (round - 1) * cd;
      MulMonotone(0, s.round, cd);
    }
  }

  lemma NewStateIsOnGrid(cycleMinutes: int, totalOpen: int, totalClose: int, now: int)
    requires 0 <= totalOpen < totalClose && cycleMinutes > 0
    ensures OnGrid(NewState(cycleMinutes, totalOpen, totalClose, now))
    ensures
      var s := NewState(cycleMinutes, totalOpen, totalClose, now);
      s.round == ComputeRoundAt(s, now)
  {
    var s := RoundState(cycleMinutes, cycleMinutes, totalOpen, totalClose, 0, 0, 0);
    RoundAtOutsideTheActivity(s, now);
  }

  /**
    Catching up. With a fixed cycle, one advance at any moment between the close of the current
    round and the close of the activity, however many rounds late, opens the round of that
    moment: the window contains the moment, and neither the cap of the round number nor the
    "at least one round forward" fallback takes part.
   */
  lemma OneAdvanceCatchesUp(s: RoundState, now: int)
    requires OnGrid(s) && s.roundClose <= now < s.totalClose
    ensures NextAdvanceRound(s, now) == ComputeRoundAt(s, now) == (now - s.totalOpen) / CycleMs(s.cycleMinutes) + 1
    ensures
      var (s', ok) := AdvanceToRound(s, NextAdvanceRound(s, now));
      && ok && OnGrid(s')
      && s'.round == ComputeRoundAt(s, now)
      && Window(s'.roundOpen, s'.roundClose).Contains(now)
  {
    var cd := CycleMs(s.cycleMinutes);
    GridTilesTheActivity(s, s.round);
    MulMonotone(0, s.round - 1, cd);
    var at := ComputeRoundAt(s, now);
    ExactlyOneRoundContains(s, now, s.round);
    ExactlyOneRoundContains(s, now, at);
    DivBounds(now - s.totalOpen, cd);
    RoundsStartBeforeClose(s, (now - s.totalOpen) / cd + 1);
    assert s.round < at by {
      if at < s.round {
        MulMonotone(at, s.round - 1, cd);
      }
    }
    ThreeBranchesAgree(s, at);
  }

  /** The round numbers of an activity shorter than 2^31 minutes fit the source's int32. */
  lemma RoundsFitInt32(s: RoundState, now: int)
    requires ValidTimes(s) && s.totalOpen <= now < s.totalClose
    requires s.totalClose - s.totalOpen <= 0x7fff_ffff * MS_PER_MINUTE
    ensures 1 <= (now - s.totalOpen) / CycleMs(s.cycleMinutes) + 1 <= MaxRound(s) <= 0x7fff_ffff
  {
    var cd := CycleMs(s.cycleMinutes);
    var span := s.totalClose - s.totalOpen;
    ExactlyOneRoundContains(s, now, MaxRound(s)) by { RoundsStartBeforeClose(s, 1); }
    DivBounds(now - s.totalOpen, cd);
    RoundsStartBeforeClose(s, (now - s.totalOpen) / cd + 1);
    DivBounds(span - 1, cd);
    if (span - 1) / cd >= 0x7fff_ffff {
      MulMonotone(0x7fff_ffff, (span - 1) / cd, cd);
    }
    if (now - s.totalOpen) / cd < 0 {
      MulMonotone((now - s.totalOpen) / cd + 1, 0, cd);
    }
  }
}
