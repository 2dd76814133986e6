/**
  The mark "settled" with overlapping operations: exactly which steps leave it on a service with
  a group that nobody will settle, and a condition that rules them out.
 */
module MarkSoundness {
  import opened Options
  import opened Groups
  import opened Settlement
  import opened ServiceRuns

  predicate Awaited(settles: map<int, Settling>, g: nat) {
    exists id <- settles :: settles[id].next <= g < settles[id].count
  }

  predicate OtherAwaits(settles: map<int, Settling>, g: nat, id: int) {
    exists j <- settles :: j != id && settles[j].next <= g < settles[j].count
  }

  /** Every group that a settlement has passed, or never copied, is settled or on its account. */
  predicate KeepsAccount(groups: seq<GroupValue>, call: Settling) {
    && call.next <= call.count <= |groups|
    && (forall g: nat | g < |groups| && (g < call.next || call.count <= g) ::
          groups[g].state.Settled? || g in call.missed)
  }

  ghost predicate WellFormed(s: System) {
    && (forall id <- s.upserts :: s.upserts[id].Joining? ==> s.upserts[id].group < |s.service.groups|)
    && (forall id <- s.settles :: KeepsAccount(s.service.groups, s.settles[id]))
  }

  /** If the service is marked, every group is settled, or a settlement under way will come to it. */
  ghost predicate Sound(s: System) {
    s.Marked() ==>
      && NoMoreWrites(s.service.config, s.clock)
      && (forall g: nat | g < |s.service.groups| ::
            s.service.groups[g].state.Settled? || Awaited(s.settles, g))
  }

  /**
    What leaves the mark on a service with a group nobody will settle. A write accepted before
    the close creates its group after the mark; or it fills a group that was settled after it
    picked it; a settlement fails before groups that only it would settle; or a settlement sets
    the mark while a group that a write created or filled behind its back is open, or before the
    activity has opened.
   */
  predicate Harms(s: System, a: Action) {
    match a
    case Pick(id) =>
      && s.Marked() && id in s.upserts && s.upserts[id].Waiting? && !s.Locked()
      && s.upserts[id].user !in s.service.members
      && FirstWithRoom(s.service.groups, s.Limit()) == |s.service.groups|
    case Join(id) =>
      && s.Marked() && id in s.upserts && s.upserts[id].Joining? && s.upserts[id].group < |s.service.groups|
      && var g := s.upserts[id].group;
         && s.service.groups[g].state.Settled? && Joined(s.service.config, s.service.groups[g]).state.Full?
         && !Awaited(s.settles, g)
    case Next(id, ok) =>
      && s.Marked() && !ok && id in s.settles && s.settles[id].next < s.settles[id].count <= |s.service.groups|
      && !s.service.groups[s.settles[id].next].state.Settled?
      && exists g: nat | s.settles[id].next <= g < s.settles[id].count ::
           !s.service.groups[g].state.Settled? && !OtherAwaits(s.settles, g, id)
    case Mark(id) =>
      && !s.Marked() && id in s.settles && s.settles[id].next == s.settles[id].count
      && !CanUpdateScore(s.service.config, s.clock).Running?
      && (|| !NoMoreWrites(s.service.config, s.clock)
          || exists g <- s.settles[id].missed ::
               g < |s.service.groups| && !s.service.groups[g].state.Settled? && !Awaited(s.settles, g))
    case _ => false
  }

  lemma PickStaysWellFormed(s: System, id: int)
    requires WellFormed(s) && id in s.upserts && s.upserts[id].Waiting?
    ensures WellFormed(PickGroup(s, id))
  {
    var s' := PickGroup(s, id);
    forall j <- s'.settles ensures KeepsAccount(s'.service.groups, s'.settles[j]) {
      assert KeepsAccount(s.service.groups, s.settles[j]);
    }
  }

  lemma JoinStaysWellFormed(s: System, id: int)
    requires WellFormed(s) && id in s.upserts && s.upserts[id].Joining?
    requires s.upserts[id].group < |s.service.groups|
    ensures WellFormed(JoinGroup(s, id))
  {
    var s' := JoinGroup(s, id);
    forall j <- s'.settles ensures KeepsAccount(s'.service.groups, s'.settles[j]) {
      assert KeepsAccount(s.service.groups, s.settles[j]);
    }
  }

  lemma NextStaysWellFormed(s: System, id: int, ok: bool)
    requires WellFormed(s) && id in s.settles && s.settles[id].next < s.settles[id].count <= |s.service.groups|
    ensures WellFormed(SettleNext(s, id, ok))
  {
    var s' := SettleNext(s, id, ok);
    forall j <- s'.settles ensures KeepsAccount(s'.service.groups, s'.settles[j]) {
      assert KeepsAccount(s.service.groups, s.settles[j]);
    }
  }

  lemma StepStaysWellFormed(s: System, a: Action)
    requires WellFormed(s)
    ensures WellFormed(Step(s, a))
  {
    match a
    case Pick(id) =>
      if id in s.upserts && s.upserts[id].Waiting? {
        PickStaysWellFormed(s, id);
      }
    case Join(id) =>
      if id in s.upserts && s.upserts[id].Joining? && s.upserts[id].group < |s.service.groups| {
        JoinStaysWellFormed(s, id);
      }
    case Next(id, ok) =>
      if id in s.settles && s.settles[id].next < s.settles[id].count <= |s.service.groups| {
        NextStaysWellFormed(s, id, ok);
      }
    case _ =>
  }

  /** The account does not change who awaits which group. */
  lemma AccountsDoNotMatter(settles: map<int, Settling>, g: nat, h: nat)
    ensures Awaited(MissAll(settles, h), g) == Awaited(settles, g)
    ensures Awaited(MissUnlessDue(settles, h), g) == Awaited(settles, g)
  {
    if Awaited(settles, g) {
      var id :| id in settles && settles[id].next <= g < settles[id].count;
      assert MissAll(settles, h)[id].next <= g < MissAll(settles, h)[id].count;
      assert MissUnlessDue(settles, h)[id].next <= g < MissUnlessDue(settles, h)[id].count;
    }
  }

  lemma PickHarmsIff(s: System, id: int)
    requires WellFormed(s) && Sound(s) && id in s.upserts && s.upserts[id].Waiting? && !s.Locked()
    ensures Sound(PickGroup(s, id)) <==> !Harms(s, Pick(id))
  {
    var s' := PickGroup(s, id);
    var n := |s.service.groups|;
    forall g: nat ensures Awaited(s'.settles, g) == Awaited(s.settles, g) {
      AccountsDoNotMatter(s.settles, g, n);
    }
    if Harms(s, Pick(id)) {
      assert !s'.service.groups[n].state.Settled?;
      assert forall id <- s.settles :: KeepsAccount(s.service.groups, s.settles[id]);
    }
  }

  lemma JoinHarmsIff(s: System, id: int)
    requires WellFormed(s) && Sound(s) && id in s.upserts && s.upserts[id].Joining?
    requires s.upserts[id].group < |s.service.groups|
    ensures Sound(JoinGroup(s, id)) <==> !Harms(s, Join(id))
  {
    var s' := JoinGroup(s, id);
    var n := s.upserts[id].group;
    forall g: nat ensures Awaited(s'.settles, g) == Awaited(s.settles, g) {
      AccountsDoNotMatter(s.settles, g, n);
    }
    if Harms(s, Join(id)) {
      assert !s'.service.groups[n].state.Settled?;
    }
  }

  lemma NextHarmsIff(s: System, id: int, ok: bool)
    requires WellFormed(s) && Sound(s)
    requires id in s.settles && s.settles[id].next < s.settles[id].count <= |s.service.groups|
    ensures Sound(SettleNext(s, id, ok)) <==> !Harms(s, Next(id, ok))
  {
    var s' := SettleNext(s, id, ok);
    forall g: nat
      ensures Awaited(s.settles, g) <==>
                OtherAwaits(s.settles, g, id) || s.settles[id].next <= g < s.settles[id].count
      ensures Awaited(s'.settles, g) <==>
                || OtherAwaits(s.settles, g, id)
                || (id in s'.settles && s.settles[id].next < g < s.settles[id].count)
    {
      OthersStillAwait(s, s', id, g);
    }
  }

  /** If only the call `id` moved on or ended, the others still await what they awaited. */
  lemma OthersStillAwait(s: System, s': System, id: int, g: nat)
    requires id in s.settles
    requires s'.settles == s.settles - {id}
          || s'.settles == s.settles[id := s.settles[id].(next := s.settles[id].next + 1)]
    ensures Awaited(s.settles, g) <==>
              OtherAwaits(s.settles, g, id) || s.settles[id].next <= g < s.settles[id].count
    ensures Awaited(s'.settles, g) <==>
              || OtherAwaits(s.settles, g, id)
              || (id in s'.settles && s.settles[id].next < g < s.settles[id].count)
  {
    if OtherAwaits(s.settles, g, id) {
      var j :| j in s.settles && j != id && s.settles[j].next <= g < s.settles[j].count;
      assert j in s'.settles && s'.settles[j] == s.settles[j];
    }
    if id in s'.settles && s.settles[id].next < g < s.settles[id].count {
      assert s'.settles[id].next <= g < s'.settles[id].count;
    }
  }

  lemma MarkHarmsIff(s: System, id: int)
    requires WellFormed(s) && Sound(s) && id in s.settles && s.settles[id].next == s.settles[id].count
    ensures Sound(SetMark(s, id)) <==> !Harms(s, Mark(id))
  {
    var s' := SetMark(s, id);
    assert KeepsAccount(s.service.groups, s.settles[id]);
    forall g: nat ensures Awaited(s'.settles, g) == Awaited(s.settles, g) {
      OthersStillAwait(s, s', id, g);
    }
  }

  /** Exactly which steps, of all that overlapping writes and settlements can take, lose a group. */
  lemma StepHarmsIff(s: System, a: Action)
    requires WellFormed(s) && Sound(s)
    ensures Sound(Step(s, a)) <==> !Harms(s, a)
  {
    match a
    case Pick(id) =>
      if id in s.upserts && s.upserts[id].Waiting? && !s.Locked() {
        PickHarmsIff(s, id);
      }
    case Join(id) =>
      if id in s.upserts && s.upserts[id].Joining? && s.upserts[id].group < |s.service.groups| {
        JoinHarmsIff(s, id);
      }
    case Next(id, ok) =>
      if id in s.settles && s.settles[id].next < s.settles[id].count <= |s.service.groups| {
        NextHarmsIff(s, id, ok);
      }
    case Mark(id) =>
      if id in s.settles && s.settles[id].next == s.settles[id].count {
        MarkHarmsIff(s, id);
      }
    case Pass(ms) =>
      if s.Marked() {
        NoMoreWritesFrom(s.service.config, s.clock, s.clock + ms);
      }
    case BeginUpsert(_, _) =>
    case BeginSettle(_) =>
    case BeginTick(_) =>
  }

  predicate NoHarm(s: System, actions: seq<Action>)
    decreases |actions|
  {
    actions != [] ==> !Harms(s, actions[0]) && NoHarm(Step(s, actions[0]), actions[1..])
  }

  lemma {:induction false} RunsStaySound(s: System, actions: seq<Action>)
    requires WellFormed(s) && Sound(s) && NoHarm(s, actions)
    ensures WellFormed(Steps(s, actions)) && Sound(Steps(s, actions))
    decreases |actions|
  {
    if actions != [] {
      StepStaysWellFormed(s, actions[0]);
      StepHarmsIff(s, actions[0]);
      RunsStaySound(Step(s, actions[0]), actions[1..]);
    }
  }

  /**
    The shortcut with overlapping operations. From a new service whose settlement time is not
    zero, over any run without one of those steps: once the service is marked, no score is
    accepted, and when the settlements under way have ended every group is settled.
   */
  lemma {:induction false} OverlappingShortcutIsSound(c: Config, clock: int, actions: seq<Action>)
    requires c.SettleAt() != 0 && NoHarm(NewSystem(c, clock), actions)
    ensures
      var s := Steps(NewSystem(c, clock), actions);
      s.Marked() ==>
        && NoMoreWrites(s.service.config, s.clock)
        && (s.settles == map[] ==> AllSettled(s.service))
  {
    RunsStaySound(NewSystem(c, clock), actions);
    var s := Steps(NewSystem(c, clock), actions);
    if s.Marked() && s.settles == map[] {
      forall g <- s.service.groups ensures g.state.Settled? {
        var i :| 0 <= i < |s.service.groups| && s.service.groups[i] == g;
        assert !Awaited(s.settles, i);
      }
    }
  }

  // ---------------------------------------------------------------- a condition that rules them out

  /** Settlements begin only after the last score write that was accepted has ended. */
  predicate Quiet(s: System, actions: seq<Action>)
    decreases |actions|
  {
    actions != [] ==>
      && (actions[0].BeginSettle? || actions[0].BeginTick? ==>
            s.upserts == map[] && NoMoreWrites(s.service.config, s.clock))
      && Quiet(Step(s, actions[0]), actions[1..])
  }

  /** Once a settlement has begun, or the mark is set, nothing is written any more. */
  ghost predicate Still(s: System) {
    && (s.Marked() || s.settles != map[] ==> s.upserts == map[] && NoMoreWrites(s.service.config, s.clock))
    && (forall id <- s.settles ::
          && s.settles[id].next <= s.settles[id].count == |s.service.groups|
          && (forall g: nat | g < s.settles[id].next :: s.service.groups[g].state.Settled?))
    && (s.Marked() ==> forall g: nat | g < |s.service.groups| :: s.service.groups[g].state.Settled?)
  }

  lemma StepStaysStill(s: System, a: Action)
    requires Still(s)
    requires a.BeginSettle? || a.BeginTick? ==> s.upserts == map[] && NoMoreWrites(s.service.config, s.clock)
    ensures Still(Step(s, a))
  {
    if s.Marked() || s.settles != map[] {
      NoMoreWritesFrom(s.service.config, s.clock, if a.Pass? then s.clock + a.ms else s.clock);
    }
  }

  lemma {:induction false} RunsStayStill(s: System, actions: seq<Action>)
    requires Still(s) && Quiet(s, actions)
    ensures Still(Steps(s, actions))
    decreases |actions|
  {
    if actions != [] {
      StepStaysStill(s, actions[0]);
      RunsStayStill(Step(s, actions[0]), actions[1..]);
    }
  }

  /**
    If settlements begin only then, they may overlap one another and fail, and ticks and GMs may
    start them: a marked service has settled every group.
   */
  lemma {:induction false} QuietShortcutIsSound(c: Config, clock: int, actions: seq<Action>)
    requires c.SettleAt() != 0 && Quiet(NewSystem(c, clock), actions)
    ensures
      var s := Steps(NewSystem(c, clock), actions);
      s.Marked() ==> AllSettled(s.service) && NoMoreWrites(s.service.config, s.clock)
  {
    RunsStayStill(NewSystem(c, clock), actions);
  }

  // ---------------------------------------------------------------- runs that lose a group

  /** The service is marked over an unsettled group, and no tick will look at it. */
  ghost predicate Lost(s: System) {
    s.Marked() && Neglected(s.service)
  }

  const USER := UserID(7)

  /** Open from 1 to 100. */
  function Example(rankPeopleNum: int): Config {
    Config(rankPeopleNum, 1, 100, 0, [], [])
  }

  /** A write accepted at 99 creates its group after the tick at 100 has set the mark. */
  lemma LateWriteIsLost() returns (actions: seq<Action>)
    ensures Lost(Steps(NewSystem(Example(10), 99), actions))
  {
    var s0 := NewSystem(Example(10), 99);
    actions := [];
    var s := s0;
    actions, s := Continue(s0, actions, s, BeginUpsert(1, USER));
    actions, s := Continue(s0, actions, s, Pass(1));
    actions, s := Continue(s0, actions, s, BeginTick(2));
    actions, s := Continue(s0, actions, s, Mark(2));
    actions, s := Continue(s0, actions, s, Pick(1));
    actions, s := Continue(s0, actions, s, Join(1));
    assert s.service.groups[0] in s.service.groups;
  }

  lemma GroupIsCreatedAfterTheCopy() returns (actions: seq<Action>)
    ensures
      Steps(NewSystem(Example(10), 99), actions)
      == System(ServiceState(Example(10), [GroupValue(1, 1, 0, Open)], map[USER := 1], 1, 0), 99,
                map[], map[2 := Settling(0, 0, {0})])
  {
    var s0 := NewSystem(Example(10), 99);
    actions := [];
    var s := s0;
    actions, s := Continue(s0, actions, s, BeginSettle(2));
    actions, s := Continue(s0, actions, s, BeginUpsert(1, USER));
    actions, s := Continue(s0, actions, s, Pick(1));
    assert s.settles[2].missed == {0};
    assert s.settles == map[2 := Settling(0, 0, {0})];
    actions, s := Continue(s0, actions, s, Join(1));
  }

  /** A GM's settlement copies the groups at 99, a user gets a new one, and the mark is set at 100. */
  lemma UncopiedGroupIsLost() returns (actions: seq<Action>)
    ensures Lost(Steps(NewSystem(Example(10), 99), actions))
  {
    var s0 := NewSystem(Example(10), 99);
    actions := GroupIsCreatedAfterTheCopy();
    var s := Steps(s0, actions);
    actions, s := Continue(s0, actions, s, Pass(1));
    actions, s := Continue(s0, actions, s, Mark(2));
    assert s.service.groups[0] in s.service.groups;
  }

  /** A user in a group of two, which a GM's settlement has copied. */
  lemma HalfFullGroupIsCopied() returns (actions: seq<Action>)
    ensures
      Steps(NewSystem(Example(2), 99), actions)
      == System(ServiceState(Example(2), [GroupValue(1, 1, 0, Open)], map[USER := 1], 1, 0), 99,
                map[], map[2 := Settling(1, 0, {})])
  {
    var s0 := NewSystem(Example(2), 99);
    actions := [];
    var s := s0;
    actions, s := Continue(s0, actions, s, BeginUpsert(1, USER));
    actions, s := Continue(s0, actions, s, Pick(1));
    actions, s := Continue(s0, actions, s, Join(1));
    assert s == System(ServiceState(Example(2), [GroupValue(1, 1, 0, Open)], map[USER := 1], 1, 0), 99, map[], map[]);
    actions, s := Continue(s0, actions, s, BeginSettle(2));
  }

  /** A second user's write picks the group. */
  lemma CopiedGroupIsPicked() returns (actions: seq<Action>)
    ensures
      Steps(NewSystem(Example(2), 99), actions)
      == System(ServiceState(Example(2), [GroupValue(1, 1, 0, Open)], map[USER := 1], 1, 0), 99,
                map[3 := Joining(UserID(8), 0)], map[2 := Settling(1, 0, {})])
  {
    var s0 := NewSystem(Example(2), 99);
    actions := HalfFullGroupIsCopied();
    var s := Steps(s0, actions);
    actions, s := Continue(s0, actions, s, BeginUpsert(3, UserID(8)));
    assert s.upserts == map[3 := Waiting(UserID(8))];
    OnlyWritePicksTheFirstGroup(s, 3, UserID(8));
    actions, s := Continue(s0, actions, s, Pick(3));
  }

  /** A write picks the first group if that has room. */
  lemma PickTakesTheFirstGroup(s: System, id: int)
    requires id in s.upserts && s.upserts[id].Waiting? && s.upserts[id].user !in s.service.members
    requires s.service.groups != [] && HasRoom(s.service.groups[0], s.Limit())
    ensures PickGroup(s, id) == s.(upserts := s.upserts[id := Joining(s.upserts[id].user, 0)])
  {
  }

  lemma OneWaitingWriteLeavesTheLock(s: System, id: int, user: UserID)
    requires s.upserts == map[id := Waiting(user)]
    ensures !s.Locked()
    ensures s.upserts[id := Joining(user, 0)] == map[id := Joining(user, 0)]
  {
    forall i <- s.upserts ensures s.upserts[i].Waiting? {
      assert i == id;
    }
  }

  lemma OnlyWritePicksTheFirstGroup(s: System, id: int, user: UserID)
    requires s.upserts == map[id := Waiting(user)] && user !in s.service.members
    requires s.service.groups != [] && HasRoom(s.service.groups[0], s.Limit())
    ensures Step(s, Pick(id)) == s.(upserts := map[id := Joining(user, 0)])
  {
    OneWaitingWriteLeavesTheLock(s, id, user);
    PickTakesTheFirstGroup(s, id);
  }

  /**
    A group is settled after a write has picked it; the write fills it and declares it full, and
    then the mark is set.
   */
  lemma RefilledGroupIsLost() returns (actions: seq<Action>)
    ensures Lost(Steps(NewSystem(Example(2), 99), actions))
    ensures Steps(NewSystem(Example(2), 99), actions).service.groups == [GroupValue(1, 2, 0, Full)]
  {
    var s0 := NewSystem(Example(2), 99);
    actions := CopiedGroupIsPicked();
    var s := Steps(s0, actions);
    actions, s := Continue(s0, actions, s, Next(2, true));
    assert s.service.groups == [GroupValue(1, 1, 0, Settled)];
    actions, s := Continue(s0, actions, s, Join(3));
    assert s.service.groups == [GroupValue(1, 2, 0, Full)] && s.settles[2].next == s.settles[2].count;
    actions, s := Continue(s0, actions, s, Pass(1));
    actions, s := Continue(s0, actions, s, Mark(2));
    assert s.service.groups[0] in s.service.groups;
  }

  lemma Continue(s0: System, actions: seq<Action>, s: System, a: Action) returns (actions': seq<Action>, s': System)
    requires Steps(s0, actions) == s
    ensures actions' == actions + [a] && s' == Step(s, a) && Steps(s0, actions') == s'
  {
    OneMore(s0, actions, a);
    actions', s' := actions + [a], Step(s, a);
  }
}
