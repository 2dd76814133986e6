/**
  The service with its operations in pieces. A score write checks the time before it takes the
  lock; under the lock it first picks a group and then writes the group's counts and state.
  Settling copies the list of groups under the lock, settles one group after the other without
  it, and reads the clock again at the end. Any number of these run at the same time.
 */
module ServiceRuns {
  import opened Options
  import opened Spawn
  import opened Groups
  import opened GroupAllocation
  import opened Settlement

  /** A write that was accepted and waits for the lock, and one that holds the lock and has picked its group. */
  datatype Upsert = Waiting(user: UserID) | Joining(user: UserID, group: nat)

  /**
    A settlement of the groups 0..count, about to settle the group `next`. `missed` keeps account
    of the groups that writes created since the list was copied, or filled when they were not, or
    not any more, among those to come.
   */
  datatype Settling = Settling(count: nat, next: nat, missed: set<nat>)

  datatype System = System(service: ServiceState, clock: int, upserts: map<int, Upsert>, settles: map<int, Settling>) {
    /** A write holds the lock. */
    predicate Locked() {
      exists id <- upserts :: upserts[id].Joining?
    }

    predicate Marked() {
      service.settledAt == service.config.SettleAt()
    }

    function Limit(): int {
      service.config.rankPeopleNum
    }
  }

  function NewSystem(c: Config, clock: int): System {
    System(NewService(c), clock, map[], map[])
  }

  datatype Action =
    | BeginUpsert(id: int, user: UserID)
    | Pick(id: int)
    | Join(id: int)
    | BeginSettle(id: int)
    | BeginTick(id: int)
    | Next(id: int, ok: bool)     // the next group; its RPC fails unless `ok`
    | Mark(id: int)
    | Pass(ms: nat)

  function MissAll(settles: map<int, Settling>, g: nat): map<int, Settling> {
    map id | id in settles :: settles[id].(missed := settles[id].missed + {g})
  }

  function MissUnlessDue(settles: map<int, Settling>, g: nat): map<int, Settling> {
    map id | id in settles ::
      if settles[id].next <= g < settles[id].count then settles[id]
      else settles[id].(missed := settles[id].missed + {g})
  }

  function PickGroup(s: System, id: int): System
    requires id in s.upserts && s.upserts[id].Waiting?
  {
    var user := s.upserts[id].user;
    if user in s.service.members then s.(upserts := s.upserts - {id})
    else
      var i := FirstWithRoom(s.service.groups, s.Limit());
      s.(service := WithGroup(s.service),
         upserts := s.upserts[id := Joining(user, i)],
         settles := if i == |s.service.groups| then MissAll(s.settles, i) else s.settles)
  }

  function JoinGroup(s: System, id: int): System
    requires id in s.upserts && s.upserts[id].Joining? && s.upserts[id].group < |s.service.groups|
  {
    var g := s.upserts[id].group;
    var joined := JoinAt(s.service, g, s.upserts[id].user);
    s.(service := joined,
       upserts := s.upserts - {id},
       settles := if joined.groups[g].state.Settled? then s.settles else MissUnlessDue(s.settles, g))
  }

  function CopyGroups(s: System, id: int): System {
    if id in s.settles || s.Locked() || s.Marked() then s
    else s.(settles := s.settles[id := Settling(|s.service.groups|, 0, {})])
  }

  function SettleNext(s: System, id: int, ok: bool): System
    requires id in s.settles && s.settles[id].next < s.settles[id].count <= |s.service.groups|
  {
    var call := s.settles[id];
    var g := s.service.groups[call.next];
    if g.state.Settled? then s.(settles := s.settles[id := call.(next := call.next + 1)])
    else if !ok then s.(settles := s.settles - {id})
    else s.(service := s.service.(groups := s.service.groups[call.next := g.Settle()]),
            settles := s.settles[id := call.(next := call.next + 1)])
  }

  function SetMark(s: System, id: int): System {
    s.(service := if CanUpdateScore(s.service.config, s.clock).Running? then s.service
                  else s.service.(settledAt := s.service.config.SettleAt()),
       settles := s.settles - {id})
  }

  function Step(s: System, a: Action): System {
    match a
    case BeginUpsert(id, user) =>
      if id !in s.upserts && CanUpdateScore(s.service.config, s.clock).Running?
      then s.(upserts := s.upserts[id := Waiting(user)]) else s
    case Pick(id) =>
      if id in s.upserts && s.upserts[id].Waiting? && !s.Locked() then PickGroup(s, id) else s
    case Join(id) =>
      if id in s.upserts && s.upserts[id].Joining? && s.upserts[id].group < |s.service.groups|
      then JoinGroup(s, id) else s
    case BeginSettle(id) =>
      CopyGroups(s, id)
    case BeginTick(id) =>
      if s.service.config.SettleAt() > 0 && s.clock >= s.service.config.SettleAt() then CopyGroups(s, id) else s
    case Next(id, ok) =>
      if id in s.settles && s.settles[id].next < s.settles[id].count <= |s.service.groups|
      then SettleNext(s, id, ok) else s
    case Mark(id) =>
      if id in s.settles && s.settles[id].next == s.settles[id].count then SetMark(s, id) else s
    case Pass(ms) =>
      s.(clock := s.clock + ms)
  }

  function Steps(s: System, actions: seq<Action>): System
    decreases |actions|
  {
    if actions == [] then s else Steps(Step(s, actions[0]), actions[1..])
  }

  // ---------------------------------------------------------------- allocation

  /** A write that holds the lock holds a place: nobody else can take it. */
  ghost predicate HoldsPlace(s: System, u: Upsert) {
    u.Joining? ==>
      && u.group < |s.service.groups| && u.user !in s.service.members
      && HasPlace(s.service.groups[u.group], s.Limit())
  }

  ghost predicate WellAllocated(s: System) {
    && Allocated(s.service)
    && (forall i <- s.upserts, j <- s.upserts :: s.upserts[i].Joining? && s.upserts[j].Joining? ==> i == j)
    && (forall i <- s.upserts :: HoldsPlace(s, s.upserts[i]))
  }

  lemma SettlingOneStaysAllocated(s: ServiceState, i: nat)
    requires Allocated(s) && i < |s.groups|
    ensures
      var s' := s.(groups := s.groups[i := s.groups[i].Settle()]);
      Allocated(s') && Keeps(s, s')
  {
    var groups' := s.groups[i := s.groups[i].Settle()];
    ReplacedGroupKeepsOrder(s.groups, i, s.groups[i].Settle(), s.nextGroupID);
    forall u <- s.members ensures HasGroup(groups', s.members[u]) {
      SameIDsSameGroups(s.groups, groups', s.members[u]);
    }
    forall j | 0 <= j < |groups'| ensures GroupOK(groups'[j], s.members, s.config.rankPeopleNum) {
      assert GroupOK(s.groups[j], s.members, s.config.rankPeopleNum);
    }
  }

  lemma PickStaysWellAllocated(s: System, id: int)
    requires WellAllocated(s) && id in s.upserts && s.upserts[id].Waiting? && !s.Locked()
    ensures WellAllocated(PickGroup(s, id)) && Keeps(s.service, PickGroup(s, id).service)
  {
    var s' := PickGroup(s, id);
    WithGroupStaysAllocated(s.service);
    forall i <- s'.upserts | i != id ensures !s'.upserts[i].Joining? {
      assert s.upserts[i] == s'.upserts[i];
    }
  }

  lemma JoinStaysWellAllocated(s: System, id: int)
    requires WellAllocated(s) && id in s.upserts && s.upserts[id].Joining?
    ensures s.upserts[id].group < |s.service.groups|
    ensures WellAllocated(JoinGroup(s, id)) && Keeps(s.service, JoinGroup(s, id).service)
  {
    assert HoldsPlace(s, s.upserts[id]);
    JoinStaysAllocated(s.service, s.upserts[id].group, s.upserts[id].user);
  }

  lemma SettleNextStaysWellAllocated(s: System, id: int, ok: bool)
    requires WellAllocated(s) && id in s.settles && s.settles[id].next < s.settles[id].count <= |s.service.groups|
    ensures WellAllocated(SettleNext(s, id, ok)) && Keeps(s.service, SettleNext(s, id, ok).service)
  {
    SettlingOneStaysAllocated(s.service, s.settles[id].next);
  }

  /** The other actions leave the groups and the members, and let nobody join. */
  lemma OthersStayWellAllocated(s: System, a: Action)
    requires WellAllocated(s) && !a.Pick? && !a.Join? && !a.Next?
    ensures WellAllocated(Step(s, a)) && Keeps(s.service, Step(s, a).service)
  {
    var s' := Step(s, a);
    assert s'.service == s.service.(settledAt := s'.service.settledAt);
    SameGroupsStayWellAllocated(s, s');
  }

  lemma SameGroupsStayWellAllocated(s: System, s': System)
    requires WellAllocated(s) && s'.service == s.service.(settledAt := s'.service.settledAt)
    requires forall i <- s'.upserts :: s'.upserts[i].Joining? ==> i in s.upserts && s.upserts[i] == s'.upserts[i]
    ensures WellAllocated(s') && Keeps(s.service, s'.service)
  {
    forall i <- s'.upserts ensures HoldsPlace(s', s'.upserts[i]) {
      assert i in s.upserts ==> HoldsPlace(s, s.upserts[i]);
    }
  }

  lemma StepStaysWellAllocated(s: System, a: Action)
    requires WellAllocated(s)
    ensures WellAllocated(Step(s, a)) && Keeps(s.service, Step(s, a).service)
  {
    if a.Pick? {
      if a.id in s.upserts && s.upserts[a.id].Waiting? && !s.Locked() {
        PickStaysWellAllocated(s, a.id);
      }
    } else if a.Join? {
      if a.id in s.upserts && s.upserts[a.id].Joining? {
        JoinStaysWellAllocated(s, a.id);
      }
    } else if a.Next? {
      if a.id in s.settles && s.settles[a.id].next < s.settles[a.id].count <= |s.service.groups| {
        SettleNextStaysWellAllocated(s, a.id, a.ok);
      }
    } else {
      OthersStayWellAllocated(s, a);
    }
  }

  lemma KeepsIsTransitive(s1: ServiceState, s2: ServiceState, s3: ServiceState)
    requires Keeps(s1, s2) && Keeps(s2, s3)
    ensures Keeps(s1, s3)
  {
  }

  /**
    The allocator with all operations overlapping: distinct ids, exact counts, capacity, full
    groups full, at most one open group, and every user keeps their group.
   */
  lemma {:induction false} OverlappingRunsStayAllocated(s: System, actions: seq<Action>)
    requires WellAllocated(s)
    ensures WellAllocated(Steps(s, actions)) && Keeps(s.service, Steps(s, actions).service)
    decreases |actions|
  {
    if actions != [] {
      StepStaysWellAllocated(s, actions[0]);
      OverlappingRunsStayAllocated(Step(s, actions[0]), actions[1..]);
      KeepsIsTransitive(s.service, Step(s, actions[0]).service, Steps(s, actions).service);
    }
  }

  /** And with all operations overlapping every group with a player has exactly its robots. */
  lemma {:induction false} OverlappingGroupsHaveTheirRobots(s: System, actions: seq<Action>)
    requires AllHaveTheirRobots(s.service)
    ensures AllHaveTheirRobots(Steps(s, actions).service)
    decreases |actions|
  {
    if actions != [] {
      StepKeepsTheRobots(s, actions[0]);
      OverlappingGroupsHaveTheirRobots(Step(s, actions[0]), actions[1..]);
    }
  }

  lemma StepKeepsTheRobots(s: System, a: Action)
    requires AllHaveTheirRobots(s.service)
    ensures AllHaveTheirRobots(Step(s, a).service)
  {
    if a.Join? && a.id in s.upserts && s.upserts[a.id].Joining? && s.upserts[a.id].group < |s.service.groups| {
      JoinBringsTheRobots(s.service.config, s.service.groups[s.upserts[a.id].group]);
    }
  }

  /** A write is about to join this group, which was settled after the write had picked it. */
  predicate JoinsSettled(s: System, a: Action, g: nat) {
    && a.Join? && a.id in s.upserts && s.upserts[a.id].Joining? && s.upserts[a.id].group == g
    && g < |s.service.groups| && s.service.groups[g].state.Settled?
  }

  /** Exactly when a settled group changes, and when it ceases to be settled. */
  lemma SettledGroupChangesIff(s: System, a: Action, g: nat)
    requires WellAllocated(s) && g < |s.service.groups| && s.service.groups[g].state.Settled?
    ensures |Step(s, a).service.groups| >= |s.service.groups|
    ensures Step(s, a).service.groups[g] != s.service.groups[g] <==> JoinsSettled(s, a, g)
    ensures !Step(s, a).service.groups[g].state.Settled?
       <==> JoinsSettled(s, a, g) && Joined(s.service.config, s.service.groups[g]).state.Full?
  {
  }

  // ---------------------------------------------------------------- operations that nothing interrupts

  /** A run grows by one action at its end. */
  lemma {:induction false} OneMore(s: System, actions: seq<Action>, a: Action)
    ensures Steps(s, actions + [a]) == Step(Steps(s, actions), a)
    decreases |actions|
  {
    if actions == [] {
      assert [a][1..] == [];
      assert [] + [a] == [a];
    } else {
      assert (actions + [a])[1..] == actions[1..] + [a];
      OneMore(Step(s, actions[0]), actions[1..], a);
    }
  }

  /** An uninterrupted score write does what the service's operation does. */
  lemma UninterruptedUpsert(s: System, id: int, user: UserID)
    requires id !in s.upserts && !s.Locked()
    ensures Steps(s, [BeginUpsert(id, user), Pick(id), Join(id)]).service == UpsertScore(s.service, user, s.clock).0
  {
    OneMore(s, [], BeginUpsert(id, user));
    OneMore(s, [BeginUpsert(id, user)], Pick(id));
    OneMore(s, [BeginUpsert(id, user), Pick(id)], Join(id));
    assert [] + [BeginUpsert(id, user)] == [BeginUpsert(id, user)];
    assert [BeginUpsert(id, user)] + [Pick(id)] == [BeginUpsert(id, user), Pick(id)];
    assert [BeginUpsert(id, user), Pick(id)] + [Join(id)] == [BeginUpsert(id, user), Pick(id), Join(id)];
    var s1 := Step(s, BeginUpsert(id, user));
    if CanUpdateScore(s.service.config, s.clock).Running? {
      assert !s1.Locked() by {
        forall i <- s1.upserts ensures !s1.upserts[i].Joining? {
          assert i != id ==> s.upserts[i] == s1.upserts[i];
        }
      }
    }
  }

  function Nexts(id: int, count: nat): seq<Action> {
    seq(count, _ => Next(id, true))
  }

  lemma {:induction false} NextsSettle(s: System, id: int, k: nat)
    requires id in s.settles && s.settles[id].next == 0 && k <= s.settles[id].count == |s.service.groups|
    ensures Steps(s, Nexts(id, k))
         == s.(service := s.service.(groups := SettledPrefix(s.service.groups, k)),
               settles := s.settles[id := s.settles[id].(next := k)])
  {
    if k == 0 {
      assert SettledPrefix(s.service.groups, 0) == s.service.groups;
    } else {
      var before, groups := SettledPrefix(s.service.groups, k - 1), s.service.groups;
      NextsSettle(s, id, k - 1);
      assert Nexts(id, k) == Nexts(id, k - 1) + [Next(id, true)];
      OneMore(s, Nexts(id, k - 1), Next(id, true));
      assert SettledPrefix(groups, k) == before[k - 1 := groups[k - 1].Settle()];
      assert groups[k - 1].state.Settled? ==> groups[k - 1].Settle() == groups[k - 1];
    }
  }

  /** An uninterrupted settlement does what the service's operation does, if no RPC fails. */
  lemma UninterruptedSettle(s: System, id: int)
    requires id !in s.settles && !s.Locked()
    ensures Steps(s, [BeginSettle(id)] + Nexts(id, |s.service.groups|) + [Mark(id)]).service
         == Settle(s.service, s.clock, None)
  {
    var n := |s.service.groups|;
    var s1 := Step(s, BeginSettle(id));
    OneMore(s, [BeginSettle(id)] + Nexts(id, n), Mark(id));
    assert ([BeginSettle(id)] + Nexts(id, n))[1..] == Nexts(id, n);
    if s.Marked() {
      IdleNexts(s, id, n);
    } else {
      NextsSettle(s1, id, n);
    }
  }

  /** And an uninterrupted tick what the service's tick does. */
  lemma UninterruptedTick(s: System, id: int)
    requires id !in s.settles && !s.Locked()
    ensures Steps(s, [BeginTick(id)] + Nexts(id, |s.service.groups|) + [Mark(id)]).service
         == Tick(s.service, s.clock, None)
  {
    var n := |s.service.groups|;
    var s1 := Step(s, BeginTick(id));
    OneMore(s, [BeginTick(id)] + Nexts(id, n), Mark(id));
    assert ([BeginTick(id)] + Nexts(id, n))[1..] == Nexts(id, n);
    if s1 == s {
      IdleNexts(s, id, n);
    } else {
      NextsSettle(s1, id, n);
    }
  }

  lemma {:induction false} IdleNexts(s: System, id: int, k: nat)
    requires id !in s.settles
    ensures Steps(s, Nexts(id, k)) == s
  {
    if k > 0 {
      assert Nexts(id, k)[1..] == Nexts(id, k - 1);
      IdleNexts(s, id, k - 1);
    }
  }
}
