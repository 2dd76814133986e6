/**
  What one tick does and when it must do nothing: the lock, the service, the registration of the
  next round, and a cycle that was reconfigured.
 */
module Advances {
  import opened Arithmetic
  import opened Options
  import opened Rounds
  import opened Cycles

  // ---------------------------------------------------------------- states and windows

  /** Without a cycle there is one round, and it is the whole activity; an empty activity has one too. */
  lemma WithoutACycleThereIsOneRound(s: RoundState, round: int, now: int)
    ensures s.cycleMinutes <= 0 ==>
              && ComputeRoundWindow(s, round) == Window(s.totalOpen, s.totalClose)
              && MaxRound(s) == 1 && ComputeRoundAt(s, now) == 1
    ensures s.totalClose <= s.totalOpen ==> MaxRound(s) == 1
  {
  }

  /** A state that has no window yet computes all windows from the start of the activity. */
  lemma WindowsBeforeTheFirstRound(s: RoundState, round: int)
    requires s.cycleMinutes > 0 && s.roundOpen <= 0 && s.roundClose <= 0
    ensures
      var minutes := if round < s.round && s.baseCycleMinutes > 0 then s.baseCycleMinutes else s.cycleMinutes;
      var open := s.totalOpen + (round - 1) * (minutes * 60_000);
      ComputeRoundWindow(s, round) == Window(open, Min(open + minutes * 60_000, s.totalClose))
  {
  }

  /** A restored state is the saved one, except that a missing first cycle is the one in use. */
  lemma RestoredStateHasABase(saved: RoundState)
    ensures
      var s := FromSaved(saved);
      && s == saved.(baseCycleMinutes := s.baseCycleMinutes)
      && s.baseCycleMinutes == (if saved.baseCycleMinutes != 0 then saved.baseCycleMinutes else saved.cycleMinutes)
      && FromSaved(s) == s
  {
  }

  /** Exactly when a state moves to a round: it is a later one, and opens before the activity closes. */
  lemma MovesToARoundIff(s: RoundState, round: int)
    ensures
      var (s', ok) := AdvanceToRound(s, round);
      var w := ComputeRoundWindow(s, round);
      && (ok <==> round > s.round && w.open < s.totalClose)
      && s' == (if ok then s.(round := round, roundOpen := w.open, roundClose := w.close) else s)
  {
  }

  // ---------------------------------------------------------------- ticks

  /** The round has expired, the activity has not, and this node holds the lock and the service. */
  predicate MayAdvance(s: RoundState, now: int, env: TickEnv) {
    env.locked && env.serviceFound && s.roundClose <= now < s.totalClose
  }

  /** A tick that may not advance changes nothing, writes nothing and saves nothing. */
  lemma OnlyDueTicksAct(s: RoundState, now: int, env: TickEnv)
    ensures !MayAdvance(s, now, env) ==> Tick(s, now, env) == TickResult(s, None, None, [])
    ensures Tick(s, now, env).served.Some? ==>
              env.locked && env.serviceFound && env.replaceOk && s.roundClose <= now < s.totalClose
  {
  }

  /** If the next round cannot be registered, at most a new cycle is taken over and saved. */
  lemma FailedRegistrationKeepsTheRound(s: RoundState, now: int, env: TickEnv)
    requires !env.replaceOk
    ensures
      var r := Tick(s, now, env);
      && r.served == None && r.curRound == None
      && r.state == s.(cycleMinutes := r.state.cycleMinutes)
      && (r.state == s || env.provided == Some(r.state.cycleMinutes))
      && r.saves == if r.state == s then [] else [r.state]
  {
  }

  /** The configuration names a cycle, and it is not the one in use. */
  predicate NewCycle(s: RoundState, minutes: int, env: TickEnv) {
    env.provided == Some(minutes) && minutes > 0 && minutes != s.cycleMinutes
  }

  /**
    A tick that finds a new cycle, longer or shorter. It saves the state as it is with the new
    cycle; then, if that round can be registered, it opens the very next round, which begins where
    the current one closed and lasts one new cycle, or until the activity closes.
   */
  lemma CycleChangeOpensTheNextRound(s: RoundState, now: int, env: TickEnv, minutes: int)
    requires MayAdvance(s, now, env) && NewCycle(s, minutes, env) && s.roundClose > 0
    ensures
      var r := Tick(s, now, env);
      var changed := s.(cycleMinutes := minutes);
      var close := Min(s.roundClose + minutes * 60_000, s.totalClose);
      if env.replaceOk then
        && r.served == Some(Served(s.round + 1, Window(s.roundClose, close)))
        && r.state == changed.(round := s.round + 1, roundOpen := s.roundClose, roundClose := close)
        && r.curRound == Some(s.round + 1)
        && r.saves == [changed, r.state]
      else
        r == TickResult(changed, None, None, [changed])
  {
  }

  /** A tick that finds no new cycle keeps the one in use. */
  lemma OnlyANewCycleIsTakenOver(s: RoundState, now: int, env: TickEnv)
    ensures Tick(s, now, env).state.cycleMinutes != s.cycleMinutes
       <==> MayAdvance(s, now, env) && exists m :: NewCycle(s, m, env)
  {
    if env.provided.Some? && env.provided.value > 0 && env.provided.value != s.cycleMinutes {
      assert NewCycle(s, env.provided.value, env);
    }
  }

  /** The round an advance without a new cycle goes to: the clock's, or at least the next one. */
  function TargetRound(s: RoundState, now: int): int
    requires s.cycleMinutes > 0
  {
    Max(s.round + 1, (now - s.totalOpen) / (s.cycleMinutes * 60_000) + 1)
  }

  lemma ClockRound(s: RoundState, now: int)
    requires Sound(s) && s.roundClose <= now < s.totalClose
    ensures NextAdvanceRound(s, now) == TargetRound(s, now)
  {
    var cd := CycleMs(s.cycleMinutes);
    DivBounds(now - s.totalOpen, cd);
    RoundsStartBeforeClose(s, (now - s.totalOpen) / cd + 1);
    AtMostQuotient(now - s.totalOpen, cd, 0);
  }

  /**
    A tick that finds no new cycle opens that round, if it opens before the activity closes and
    can be registered. Its window is chained to the current one: as many cycles after its close as
    rounds are skipped. Otherwise the tick changes nothing.
   */
  lemma PlainAdvanceOpensTheTarget(s: RoundState, now: int, env: TickEnv)
    requires Sound(s) && MayAdvance(s, now, env) && !(exists m :: NewCycle(s, m, env))
    ensures
      var r := Tick(s, now, env);
      var cycle := s.cycleMinutes * 60_000;
      var round := TargetRound(s, now);
      var open := s.roundClose + (round - s.round - 1) * cycle;
      var close := Min(open + cycle, s.totalClose);
      if open < s.totalClose && env.replaceOk then
        && r.served == Some(Served(round, Window(open, close)))
        && r.state == s.(round := round, roundOpen := open, roundClose := close)
        && r.curRound == Some(round) && r.saves == [r.state]
      else
        r == TickResult(s, None, None, [])
  {
    ClockRound(s, now);
    if env.provided.Some? && env.provided.value > 0 && env.provided.value != s.cycleMinutes {
      assert NewCycle(s, env.provided.value, env);
    }
  }
}
