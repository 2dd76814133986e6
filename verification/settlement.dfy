/** The settlement shortcut: a service that is settled stops looking at its groups. */
module Settlement {
  import opened Arithmetic
  import opened Options
  import opened Groups

  predicate WritingIsOver(c: Config, now: int) {
    CanUpdateScore(c, now).Closed? || CanUpdateScore(c, now).Over?
  }

  /** The phases of an activity: three moments cut its time, and a moment that is not set does not. */
  lemma PhasesByTime(c: Config, now: int)
    ensures
      var phase := CanUpdateScore(c, now);
      var hasOpened := c.openTime <= 0 || c.openTime <= now;
      var hasClosed := c.closeTime > 0 && c.closeTime <= now;
      var hasEnded := c.gameEndTime > 0 && c.gameEndTime < now;
      && (phase.Running? <==> hasOpened && !hasClosed && !hasEnded)
      && (phase.Init? <==> !hasOpened)
      && (phase.Closed? <==> hasOpened && hasClosed)
      && (phase.Over? <==> hasOpened && !hasClosed && hasEnded)
    ensures c.gameEndTime > 0 ==> c.SettleAt() == c.gameEndTime
    ensures c.gameEndTime <= 0 ==> c.SettleAt() == c.closeTime
  {
  }

  lemma WritingStaysOver(c: Config, t1: int, t2: int)
    requires WritingIsOver(c, t1) && t1 <= t2
    ensures WritingIsOver(c, t2)
  {
  }

  /** Some moment allows writing. */
  predicate EverOpens(c: Config) {
    (c.closeTime > 0 ==> c.openTime < c.closeTime) && (c.gameEndTime > 0 ==> c.openTime <= c.gameEndTime)
  }

  /** The clock never goes back, the times stay fixed, and no GM settles before the activity opens. */
  predicate Orderly(c: Config, clock: int, ops: seq<(int, Op)>)
    decreases |ops|
  {
    ops != [] ==>
      && clock <= ops[0].0
      && !ops[0].1.EditTimes?
      && (ops[0].1.SettleNow? && CanUpdateScore(c, ops[0].0).Init? ==> !EverOpens(c))
      && Orderly(c, ops[0].0, ops[1..])
  }

  function ClockAfter(clock: int, ops: seq<(int, Op)>): int {
    if ops == [] then clock else ops[|ops| - 1].0
  }

  /** From `clock` on no score is accepted: writing is over, or it never starts. */
  predicate NoMoreWrites(c: Config, clock: int) {
    WritingIsOver(c, clock) || !EverOpens(c)
  }

  lemma NoMoreWritesFrom(c: Config, t1: int, t2: int)
    requires NoMoreWrites(c, t1) && t1 <= t2
    ensures NoMoreWrites(c, t2) && !CanUpdateScore(c, t2).Running?
  {
    if WritingIsOver(c, t1) {
      WritingStaysOver(c, t1, t2);
    }
  }

  /** If the service believes it is settled, it is, and no score can be written any more. */
  predicate Trustworthy(s: ServiceState, clock: int) {
    s.settledAt == s.config.SettleAt() ==> AllSettled(s) && NoMoreWrites(s.config, clock)
  }

  lemma SettledPrefixIsSettled(s: ServiceState, now: int, failAt: Option<nat>)
    ensures !Fails(s.groups, failAt) ==> AllSettled(SettleGroups(s, now, failAt))
  {
  }

  /** A tick before the activity opens does nothing, or the activity never opens. */
  lemma OpStaysTrustworthy(s: ServiceState, clock: int, now: int, op: Op)
    requires Trustworthy(s, clock) && clock <= now && !op.EditTimes?
    requires op.SettleNow? && CanUpdateScore(s.config, now).Init? ==> !EverOpens(s.config)
    ensures Trustworthy(Apply(s, now, op), now) && Apply(s, now, op).config == s.config
  {
    if s.settledAt == s.config.SettleAt() {
      NoMoreWritesFrom(s.config, clock, now);
    }
    if !op.Upsert? {
      SettledPrefixIsSettled(s, now, op.failAt);
    }
  }

  /**
    What a settlement changes: nothing if the service is marked; else the state of the groups, of
    all of them, or, if the call for one that is not settled fails, of those before it and no mark
    is set.
   */
  lemma SettlingChangesTheFront(s: ServiceState, now: int, failAt: Option<nat>, i: nat)
    requires i < |s.groups|
    ensures
      var s' := Settle(s, now, failAt);
      var failing := failAt.Some? && failAt.value < |s.groups| && !s.groups[failAt.value].state.Settled?;
      && |s'.groups| == |s.groups|
      && (s.config, s.members, s.nextGroupID) == (s'.config, s'.members, s'.nextGroupID)
      && (if s.settledAt == s.config.SettleAt() then s' == s
          else if failing && failAt.value <= i then s'.groups[i] == s.groups[i]
          else s'.groups[i] == s.groups[i].(state := Settled))
      && s'.settledAt == (if failing || CanUpdateScore(s.config, now).Running? then s.settledAt
                          else s.config.SettleAt())
  {
  }

  /** A tick before the settlement time leaves the service as it is. */
  lemma EarlyTickDoesNothing(s: ServiceState, now: int, failAt: Option<nat>)
    requires now < s.config.SettleAt()
    ensures Tick(s, now, failAt) == s
  {
  }

  /** No GM settles and nobody edits the times, and it is before the settlement time. */
  predicate OnlyTicksBefore(due: int, ops: seq<(int, Op)>) {
    forall op <- ops :: op.0 < due && (op.1.Upsert? || op.1.TickNow?)
  }

  /** Ticks settle nothing while the activity runs: before the settlement time every group is open or full. */
  lemma {:induction false} NothingIsSettledEarly(c: Config, ops: seq<(int, Op)>)
    requires c.SettleAt() > 0 && OnlyTicksBefore(c.SettleAt(), ops)
    ensures
      var s := Run(NewService(c), ops);
      s.settledAt == 0 && s.config == c && forall g <- s.groups :: !g.state.Settled?
  {
    RunsSettleNothingEarly(NewService(c), ops);
  }

  lemma {:induction false} RunsSettleNothingEarly(s: ServiceState, ops: seq<(int, Op)>)
    requires OnlyTicksBefore(s.config.SettleAt(), ops) && forall g <- s.groups :: !g.state.Settled?
    ensures
      var s' := Run(s, ops);
      s'.settledAt == s.settledAt && s'.config == s.config && forall g <- s'.groups :: !g.state.Settled?
    decreases |ops|
  {
    if ops != [] {
      var s1 := Apply(s, ops[0].0, ops[0].1);
      assert OnlyTicksBefore(s.config.SettleAt(), ops[1..]);
      RunsSettleNothingEarly(s1, ops[1..]);
    }
  }

  /**
    The shortcut is sound. Times are fixed and not all zero; the clock never goes back; ticks come
    at any moments, before the activity opens as well, and only a GM's settlement must wait until
    then, if the activity opens at all; RPCs may fail. Then in every state a run reaches, a
    service that takes itself for settled has settled every group, and no later score is
    accepted, so no later group appears.
   */
  lemma {:induction false} ShortcutIsSound(c: Config, clock: int, ops: seq<(int, Op)>)
    requires c.SettleAt() != 0 && Orderly(c, clock, ops)
    ensures
      var s := Run(NewService(c), ops);
      s.config == c &&
      (s.settledAt == c.SettleAt() ==>
        && AllSettled(s)
        && forall t, user | t >= ClockAfter(clock, ops) ::
             && UpsertScore(s, user, t).0 == s
             && UpsertScore(s, user, t).1 == if CanUpdateScore(c, t).Init? then ErrNotOpen else ErrClosed)
    ensures EverOpens(c) && Run(NewService(c), ops).settledAt == c.SettleAt() ==>
              forall t | t >= ClockAfter(clock, ops) :: !CanUpdateScore(c, t).Init?
  {
    RunsStayTrustworthy(NewService(c), clock, ops);
    var s, now := Run(NewService(c), ops), ClockAfter(clock, ops);
    if s.settledAt == c.SettleAt() {
      forall t | t >= now ensures !CanUpdateScore(c, t).Running? && (EverOpens(c) ==> !CanUpdateScore(c, t).Init?) {
        NoMoreWritesFrom(c, now, t);
      }
    }
  }

  /** What the tick loop does to every service: ticks before the opening satisfy the conditions. */
  lemma {:induction false} TicksBeforeOpeningAreOrderly(c: Config, clock: int, ticks: seq<(int, Op)>)
    requires forall t <- ticks :: t.1.TickNow?
    requires forall i, j | 0 <= i < j < |ticks| :: ticks[i].0 <= ticks[j].0
    requires ticks != [] ==> clock <= ticks[0].0
    ensures Orderly(c, clock, ticks)
    decreases |ticks|
  {
    if ticks != [] {
      TicksBeforeOpeningAreOrderly(c, ticks[0].0, ticks[1..]);
    }
  }

  lemma {:induction false} RunsStayTrustworthy(s: ServiceState, clock: int, ops: seq<(int, Op)>)
    requires Trustworthy(s, clock) && Orderly(s.config, clock, ops)
    ensures Trustworthy(Run(s, ops), ClockAfter(clock, ops)) && Run(s, ops).config == s.config
    decreases |ops|
  {
    if ops != [] {
      OpStaysTrustworthy(s, clock, ops[0].0, ops[0].1);
      RunsStayTrustworthy(Apply(s, ops[0].0, ops[0].1), ops[0].0, ops[1..]);
    }
  }

  /**
    In such a state the shortcut changes no answer: settling with it leaves the groups and the
    mark that settling without it would leave, and the service reports itself settled exactly
    when all its groups are, or when it has none and writing is over or never starts.
   */
  lemma ShortcutIsTransparent(s: ServiceState, clock: int, now: int, failAt: Option<nat>)
    requires Trustworthy(s, clock) && clock <= now
    ensures Settle(s, now, failAt) == SettleGroups(s, now, failAt)
    ensures IsSettled(s, now) <==>
              AllSettled(s) && (s.groups != [] || s.settledAt == s.config.SettleAt())
  {
    if s.settledAt == s.config.SettleAt() {
      NoMoreWritesFrom(s.config, clock, now);
      assert SettledPrefix(s.groups, |s.groups|) == s.groups;
    }
  }

  /**
    Nothing is skipped: whatever happened before, early GM settlements included, a tick at or
    after the settlement time whose RPCs succeed leaves every group settled.
   */
  lemma {:induction false} DueTickSettlesEveryGroup(c: Config, clock: int, ops: seq<(int, Op)>, now: int)
    requires c.SettleAt() > 0 && Orderly(c, clock, ops)
    requires ClockAfter(clock, ops) <= now && c.SettleAt() <= now
    ensures AllSettled(Tick(Run(NewService(c), ops), now, None))
  {
    RunsStayTrustworthy(NewService(c), clock, ops);
    SettledPrefixIsSettled(Run(NewService(c), ops), now, None);
  }

  /**
    While scores may still be written, settling never arms the shortcut, so groups that appear
    after an early settlement are still seen.
   */
  lemma EarlySettlementDoesNotArm(s: ServiceState, now: int, failAt: Option<nat>, user: UserID, later: int)
    requires s.settledAt != s.config.SettleAt() && CanUpdateScore(s.config, now).Running?
    ensures
      var s1 := Settle(s, now, failAt);
      var s2 := UpsertScore(s1, user, later).0;
      && s1.settledAt == s.settledAt && s2.settledAt != s2.config.SettleAt()
      && (later >= s.config.SettleAt() > 0 ==> AllSettled(Tick(s2, later, None)))
  {
    SettledPrefixIsSettled(UpsertScore(Settle(s, now, failAt), user, later).0, later, None);
  }

  // ---------------------------------------------------------------- where the conditions come from

  /**
    Settling before the activity opens arms the shortcut too early: a later user then gets a
    group that no tick will ever settle, exactly when the activity opens at all.
   */
  lemma SettlingBeforeOpeningHarmsIff(s: ServiceState, now: int, user: UserID)
    requires s.config.SettleAt() > 0 && s.settledAt != s.config.SettleAt()
    requires CanUpdateScore(s.config, now).Init?
    requires user !in s.members
    ensures
      (exists t | t >= now :: LeavesUnsettled(Settle(s, now, None), user, t)) <==> EverOpens(s.config)
  {
    var s1 := Settle(s, now, None);
    SettledPrefixIsSettled(s, now, None);
    if EverOpens(s.config) {
      var t := s.config.openTime;
      var i := FirstWithRoom(s1.groups, s1.config.rankPeopleNum);
      var s2 := UpsertScore(s1, user, t).0;
      assert i == |s1.groups|;
      assert s2.groups[i] in s2.groups && !s2.groups[i].state.Settled?;
      assert LeavesUnsettled(s1, user, t);
    }
    forall t | t >= now && LeavesUnsettled(s1, user, t) ensures EverOpens(s.config) {
      assert !CanUpdateScore(s.config, t).Running? ==> UpsertScore(s1, user, t).0 == s1;
    }
  }

  /** No tick settles the groups as they are. */
  ghost predicate Neglected(s: ServiceState) {
    !AllSettled(s) && forall now, failAt :: Tick(s, now, failAt) == s
  }

  /** The user's write at t leaves a group that ticks ignore. */
  ghost predicate LeavesUnsettled(s: ServiceState, user: UserID, t: int) {
    Neglected(UpsertScore(s, user, t).0)
  }

  /**
    What an edit edits: each of the four fields takes a positive value and keeps its own otherwise;
    tiers, infos, groups, members and the mark stay. Twice the same edit is one edit.
   */
  lemma EditTakesPositiveFields(s: ServiceState, rankPeopleNum: int, openTime: int, closeTime: int, gameEndTime: int)
    ensures
      var s' := UpdateConfig(s, rankPeopleNum, openTime, closeTime, gameEndTime);
      var c, c' := s.config, s'.config;
      && (if rankPeopleNum > 0 then c'.rankPeopleNum == rankPeopleNum else c'.rankPeopleNum == c.rankPeopleNum)
      && (if openTime > 0 then c'.openTime == openTime else c'.openTime == c.openTime)
      && (if closeTime > 0 then c'.closeTime == closeTime else c'.closeTime == c.closeTime)
      && (if gameEndTime > 0 then c'.gameEndTime == gameEndTime else c'.gameEndTime == c.gameEndTime)
      && (c'.tiers, c'.infos) == (c.tiers, c.infos)
      && s' == s.(config := c')
      && UpdateConfig(s', rankPeopleNum, openTime, closeTime, gameEndTime) == s'
  {
  }

  /**
    An edit that moves the settlement time disarms the shortcut, and the next tick that is due
    settles whatever groups there are then.
   */
  lemma MovedSettlementTimeDisarms(s: ServiceState, rankPeopleNum: int, openTime: int, closeTime: int, gameEndTime: int,
                                   now: int)
    requires s.settledAt == s.config.SettleAt()
    requires UpdateConfig(s, rankPeopleNum, openTime, closeTime, gameEndTime).config.SettleAt() != s.config.SettleAt()
    ensures
      var s' := UpdateConfig(s, rankPeopleNum, openTime, closeTime, gameEndTime);
      && !Shortcut(s', now)
      && (IsSettled(s', now) <==> s.groups != [] && AllSettled(s))
      && (now >= s'.config.SettleAt() > 0 ==> AllSettled(Tick(s', now, None)))
  {
    SettledPrefixIsSettled(UpdateConfig(s, rankPeopleNum, openTime, closeTime, gameEndTime), now, None);
  }

  /**
    Exactly which edits of a service with an unsettled group silence all later ticks: those that
    leave no settlement time, or the very time the service has already settled for.
   */
  lemma EditSilencesTicksIff(s: ServiceState, rankPeopleNum: int, openTime: int, closeTime: int, gameEndTime: int)
    requires !AllSettled(s)
    ensures
      var s' := UpdateConfig(s, rankPeopleNum, openTime, closeTime, gameEndTime);
      (forall now, failAt :: Tick(s', now, failAt) == s')
      <==> s'.config.SettleAt() <= 0 || s'.config.SettleAt() == s.settledAt
  {
    var s' := UpdateConfig(s, rankPeopleNum, openTime, closeTime, gameEndTime);
    var due := s'.config.SettleAt();
    if due > 0 && due != s.settledAt {
      SettledPrefixIsSettled(s', due, None);
      assert AllSettled(Tick(s', due, None)) && !AllSettled(s');
    }
  }

  /** Scores may be written now or later, under these times. */
  predicate WritableFrom(c: Config, now: int) {
    CanUpdateScore(c, Max(now, c.openTime)).Running?
  }

  lemma WritableFromIff(c: Config, now: int)
    ensures WritableFrom(c, now) <==> exists t | t >= now :: CanUpdateScore(c, t).Running?
  {
  }

  lemma NewUserLeavesAGroup(s: ServiceState, user: UserID, t: int)
    requires AllSettled(s) && user !in s.members && CanUpdateScore(s.config, t).Running?
    requires s.config.SettleAt() <= 0 || s.settledAt == s.config.SettleAt()
    ensures LeavesUnsettled(s, user, t)
  {
    var s' := UpsertScore(s, user, t).0;
    var i := FirstWithRoom(s.groups, s.config.rankPeopleNum);
    assert i == |s.groups|;
    assert s'.groups[i] in s'.groups && !s'.groups[i].state.Settled?;
  }

  /**
    Exactly which edits, of any service at any time, end in a group that no tick will settle, one
    it has or one that a new user will get: those that leave no settlement time, or the very time
    already settled for, while a group is unsettled or the new times allow writing from now on.
   */
  lemma EditNeglectsAGroupIff(s: ServiceState, rankPeopleNum: int, openTime: int, closeTime: int, gameEndTime: int,
                              now: int, user: UserID)
    requires user !in s.members
    ensures
      var s' := UpdateConfig(s, rankPeopleNum, openTime, closeTime, gameEndTime);
      Neglected(s') || (exists t | t >= now :: LeavesUnsettled(s', user, t))
      <==>
      && (s'.config.SettleAt() <= 0 || s'.config.SettleAt() == s.settledAt)
      && (!AllSettled(s) || WritableFrom(s'.config, now))
  {
    var s' := UpdateConfig(s, rankPeopleNum, openTime, closeTime, gameEndTime);
    var due := s'.config.SettleAt();
    if due <= 0 || due == s.settledAt {
      if AllSettled(s) && WritableFrom(s'.config, now) {
        NewUserLeavesAGroup(s', user, Max(now, s'.config.openTime));
      }
      forall t | t >= now && AllSettled(s) && LeavesUnsettled(s', user, t) ensures WritableFrom(s'.config, now) {
        assert !CanUpdateScore(s'.config, t).Running? ==> UpsertScore(s', user, t).0 == s';
        WritableFromIff(s'.config, now);
      }
    } else {
      DueTickChanges(s');
      forall t ensures !LeavesUnsettled(s', user, t) {
        DueTickChanges(UpsertScore(s', user, t).0);
      }
    }
  }

  /** A tick at a settlement time that is not marked settles what is unsettled. */
  lemma DueTickChanges(s: ServiceState)
    requires s.config.SettleAt() > 0 && s.settledAt != s.config.SettleAt()
    ensures AllSettled(Tick(s, s.config.SettleAt(), None))
  {
    SettledPrefixIsSettled(s, s.config.SettleAt(), None);
  }

  /**
    The first kind of such an edit: everything is settled for the end at 100, and an edit of the
    close alone lets a user write at 80.
   */
  lemma ReopenedWritingSkipsAGroup()
    ensures
      var s0 := NewService(Config(10, 1, 50, 100, [], []));
      var s1 := Settle(s0, 60, None);
      var s2 := UpsertScore(UpdateConfig(s1, 0, 0, 90, 0), UserID(7), 80).0;
      && AllSettled(s1) && s1.settledAt == 100 && UserID(7) in s2.members && Neglected(s2)
  {
    var s1 := Settle(NewService(Config(10, 1, 50, 100, [], [])), 60, None);
    var s2 := UpsertScore(UpdateConfig(s1, 0, 0, 90, 0), UserID(7), 80).0;
    assert s2.groups[0] in s2.groups;
  }

  /**
    The other kind, a way back to a time settled for: extend the close from 100 to 200, let a user join, and move the
    close back to 100. The shortcut is armed again, for a group that is still open.
   */
  lemma MovingTheTimeBackSkipsAGroup()
    ensures
      var s0 := NewService(Config(10, 1, 100, 0, [], []));
      var s1 := Tick(s0, 100, None);
      var s2 := UpsertScore(UpdateConfig(s1, 0, 0, 200, 0), UserID(7), 150).0;
      var s3 := UpdateConfig(s2, 0, 0, 100, 0);
      && IsSettled(s1, 100) && UserID(7) in s2.members
      && !AllSettled(s3) && IsSettled(s3, 150)
      && (forall now, failAt :: Tick(s3, now, failAt) == s3)
  {
    var s0 := NewService(Config(10, 1, 100, 0, [], []));
    var s2 := UpsertScore(UpdateConfig(Tick(s0, 100, None), 0, 0, 200, 0), UserID(7), 150).0;
    assert s2.groups[0] in s2.groups;
  }
}
