/**
  What a node reports about the rounds of an activity, whatever cycles it has gone through: the
  window it served for the current round, and the windows of the first cycle for those before.
 */
module Reports {
  import opened Arithmetic
  import opened Options
  import opened Rounds
  import opened Cycles
  import opened Periodic

  /** The cycle in use and the first one are positive, and the current round has a window. */
  predicate Reportable(s: RoundState) {
    Sound(s) && s.baseCycleMinutes > 0 && s.roundOpen > 0
  }

  /**
    The current round keeps exactly the window that was saved for it, an earlier one has the
    window of the first cycle, cut at the close of the activity.
   */
  lemma StartedRoundsHaveTheseWindows(s: RoundState, round: int)
    requires Reportable(s)
    ensures round == s.round ==> ComputeRoundWindow(s, round) == Window(s.roundOpen, s.roundClose)
    ensures
      var base := s.baseCycleMinutes * 60_000;
      round < s.round ==>
        ComputeRoundWindow(s, round)
        == Window(s.totalOpen + (round - 1) * base, Min(s.totalOpen + round * base, s.totalClose))
  {
    var base := s.baseCycleMinutes * 60_000;
    assert round * base == (round - 1) * base + base;
  }

  /** A change of the cycle moves no round that has started. */
  lemma CycleChangeMovesNoStartedRound(s: RoundState, minutes: int, round: int)
    requires Reportable(s) && minutes > 0 && round <= s.round
    ensures ComputeRoundWindow(s.(cycleMinutes := minutes), round) == ComputeRoundWindow(s, round)
  {
    StartedRoundsHaveTheseWindows(s, round);
    StartedRoundsHaveTheseWindows(s.(cycleMinutes := minutes), round);
  }

  /** The current round is reported with its saved window, and over exactly once that has closed. */
  lemma CurrentRoundIsReported(s: RoundState, redisRound: int, now: int)
    requires Reportable(s) && redisRound <= s.round
    ensures
      CurrentRoundInfo(s, redisRound, now)
      == RoundInfo(s.round, Window(s.roundOpen, s.roundClose), s.roundClose <= now, true)
  {
    StartedRoundsHaveTheseWindows(s, s.round);
  }

  /** Each listed round, field by field. */
  lemma ListedRoundsAreReported(s: RoundState, now: int, infos: seq<RoundInfo>, i: nat)
    requires Reportable(s) && ListsStartedRounds(s, now, infos) && i < |infos|
    ensures infos[i].round == i + 1 <= s.round
    ensures infos[i].current <==> i + 1 == s.round
    ensures infos[i].settled <==> i + 1 < s.round || s.roundClose <= now
    ensures i + 1 == s.round ==> infos[i].window == Window(s.roundOpen, s.roundClose)
    ensures
      var base := s.baseCycleMinutes * 60_000;
      i + 1 < s.round ==>
        infos[i].window == Window(s.totalOpen + i * base, Min(s.totalOpen + (i + 1) * base, s.totalClose))
  {
    StartedRoundsHaveTheseWindows(s, i + 1);
  }

  /**
    Exactly when the list is cut short, so that the current round is missing: when the round before
    it would, with the first cycle, open only after the activity has closed.
   */
  lemma ListIsCutShortIff(s: RoundState, now: int, infos: seq<RoundInfo>)
    requires Reportable(s) && ListsStartedRounds(s, now, infos)
    ensures |infos| < s.round
       <==> s.round > 1 && s.totalOpen + (s.round - 2) * (s.baseCycleMinutes * 60_000) >= s.totalClose
  {
    var base := s.baseCycleMinutes * 60_000;
    if |infos| < s.round {
      StartedRoundsHaveTheseWindows(s, |infos| + 1);
      MulMonotone(|infos|, s.round - 2, base);
    } else if s.round > 1 {
      ListedRoundsAreReported(s, now, infos, s.round - 2);
      assert infos[s.round - 2].window.open < s.totalClose;
    }
  }

  /** Such a state, reached by shortening a cycle of one hour to one minute. */
  lemma ShortenedCycleCutsTheList(now: int, infos: seq<RoundInfo>)
    ensures
      var hour := 60 * MS_PER_MINUTE;
      var s0 := RoundState(60, 60, 1, 1 + 2 * hour, 1, 1, 1 + hour);
      var s1 := Tick(s0, 1 + hour, TickEnv(true, true, Some(1), true)).state;
      var s2 := Tick(s1, 1 + hour + MS_PER_MINUTE, TickEnv(true, true, Some(2), true)).state;
      var s3 := Tick(s2, 1 + hour + 3 * MS_PER_MINUTE, TickEnv(true, true, Some(1), true)).state;
      && OnGrid(s0)
      && (s3.round, s3.roundOpen, s3.roundClose) == (4, 1 + hour + 3 * MS_PER_MINUTE, 1 + hour + 4 * MS_PER_MINUTE)
      && (ListsStartedRounds(s3, now, infos) ==> |infos| < 4)
  {
    var hour := 60 * MS_PER_MINUTE;
    var s0 := RoundState(60, 60, 1, 1 + 2 * hour, 1, 1, 1 + hour);
    QuotientIsUnique(2 * hour - 1, hour, 1);
    var s1 := Tick(s0, 1 + hour, TickEnv(true, true, Some(1), true)).state;
    var s2 := Tick(s1, 1 + hour + MS_PER_MINUTE, TickEnv(true, true, Some(2), true)).state;
    var s3 := Tick(s2, 1 + hour + 3 * MS_PER_MINUTE, TickEnv(true, true, Some(1), true)).state;
    if ListsStartedRounds(s3, now, infos) {
      ListIsCutShortIff(s3, now, infos);
    }
  }

  // ---------------------------------------------------------------- after any run

  /** The state a run of ticks leaves. */
  function After(s: RoundState, ticks: seq<(int, TickEnv)>): RoundState
    decreases |ticks|
  {
    if ticks == [] then s else After(Tick(s, ticks[0].0, ticks[0].1).state, ticks[1..])
  }

  /** The last round served is the one in the state; until one is served, the state keeps its own. */
  lemma {:induction false} LastServedIsCurrent(s: RoundState, ticks: seq<(int, TickEnv)>)
    requires Sound(s)
    ensures
      var s', h := After(s, ticks), History(s, ticks);
      && Sound(s') && s'.roundOpen >= s.roundOpen
      && s'.baseCycleMinutes == s.baseCycleMinutes
      && Served(s'.round, Window(s'.roundOpen, s'.roundClose))
         == if h == [] then Served(s.round, Window(s.roundOpen, s.roundClose)) else h[|h| - 1]
    decreases |ticks|
  {
    if ticks != [] {
      TickMovesForward(s, ticks[0].0, ticks[0].1);
      LastServedIsCurrent(Tick(s, ticks[0].0, ticks[0].1).state, ticks[1..]);
    }
  }

  /**
    After any ticks, with any cycles configured in between, a node reports as its current round
    exactly the round it served last, with the window in which it served it, and lists it so.
   */
  lemma {:induction false} LastServedIsReported(s: RoundState, ticks: seq<(int, TickEnv)>, now: int,
                                                infos: seq<RoundInfo>)
    requires Reportable(s) && History(s, ticks) != []
    ensures
      var s', h := After(s, ticks), History(s, ticks);
      var last := h[|h| - 1];
      && Reportable(s') && last.round == s'.round
      && CurrentRoundInfo(s', last.round, now) == RoundInfo(last.round, last.window, last.window.close <= now, true)
      && (ListsStartedRounds(s', now, infos) && |infos| == s'.round ==>
            && infos[last.round - 1].window == last.window && infos[last.round - 1].current
            && (infos[last.round - 1].settled <==> last.window.close <= now))
  {
    LastServedIsCurrent(s, ticks);
    var s' := After(s, ticks);
    CurrentRoundIsReported(s', s'.round, now);
    if ListsStartedRounds(s', now, infos) && |infos| == s'.round {
      ListedRoundsAreReported(s', now, infos, s'.round - 1);
    }
  }
}
