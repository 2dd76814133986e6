/** The group allocator over whole runs: counts, capacity, and who is where. */
module GroupAllocation {
  import opened Arithmetic
  import opened Options
  import opened Spawn
  import opened Groups

  function MembersOf(members: map<UserID, int>, groupID: int): set<UserID> {
    set u <- members | members[u] == groupID
  }

  /** One group is consistent with the map of members and with the capacity. */
  predicate GroupOK(g: GroupValue, members: map<UserID, int>, limit: int) {
    && g.realCount == |MembersOf(members, g.groupID)|
    && g.robotCount >= 0
    && g.TotalCount() <= limit
    && (g.state.Open? ==> g.TotalCount() < limit)
    && (g.state.Full? ==> g.TotalCount() == limit)
  }

  predicate HasGroup(groups: seq<GroupValue>, groupID: int) {
    exists i | 0 <= i < |groups| :: groups[i].groupID == groupID
  }

  /** Ids rise along the list, up to the last one given out. */
  predicate IDsRise(groups: seq<GroupValue>, last: int) {
    && (forall i | 0 <= i < |groups| :: groups[i].groupID <= last)
    && (forall i, j | 0 <= i < j < |groups| :: groups[i].groupID < groups[j].groupID)
  }

  predicate AtMostOneOpen(groups: seq<GroupValue>) {
    forall i, j | 0 <= i < j < |groups| :: !(groups[i].state.Open? && groups[j].state.Open?)
  }

  predicate GroupsOK(groups: seq<GroupValue>, members: map<UserID, int>, limit: int) {
    forall i | 0 <= i < |groups| :: GroupOK(groups[i], members, limit)
  }

  predicate MembersFound(groups: seq<GroupValue>, members: map<UserID, int>) {
    forall u <- members :: HasGroup(groups, members[u])
  }

  predicate Allocated(s: ServiceState) {
    && s.config.rankPeopleNum > 0
    && GroupsOK(s.groups, s.members, s.config.rankPeopleNum)
    && IDsRise(s.groups, s.nextGroupID)
    && AtMostOneOpen(s.groups)
    && MembersFound(s.groups, s.members)
  }

  /** Nothing is taken back: groups keep their place and id, users their group. */
  ghost predicate Keeps(s: ServiceState, s': ServiceState) {
    && s'.config.rankPeopleNum == s.config.rankPeopleNum
    && |s.groups| <= |s'.groups|
    && (forall i | 0 <= i < |s.groups| ::
          s'.groups[i].groupID == s.groups[i].groupID && s'.groups[i].realCount >= s.groups[i].realCount)
    && (forall u <- s.members :: u in s'.members && s'.members[u] == s.members[u])
  }

  /** And settled groups do not change at all. */
  ghost predicate Grows(s: ServiceState, s': ServiceState) {
    && Keeps(s, s')
    && (forall i | 0 <= i < |s.groups| :: s.groups[i].state.Settled? ==> s'.groups[i] == s.groups[i])
  }

  /** A group that a user may have been sent to: it had room, and has been settled since or not. */
  predicate HasPlace(g: GroupValue, limit: int) {
    !g.state.Full? && g.TotalCount() < limit
  }

  lemma JoinKeepsCapacity(c: Config, g: GroupValue)
    requires g.realCount >= 0 && g.robotCount >= 0 && HasPlace(g, c.rankPeopleNum)
    ensures
      var g' := Joined(c, g);
      && g'.groupID == g.groupID && g'.realCount == g.realCount + 1
      && 0 <= g'.robotCount && g'.TotalCount() <= c.rankPeopleNum
      && (g'.state.Open? ==> g'.TotalCount() < c.rankPeopleNum)
      && (g'.state.Full? ==> g'.TotalCount() == c.rankPeopleNum)
      && (g'.state.Open? ==> g.state.Open?)
  {
    PlanFillsTheCapacity(c.tiers, c.rankPeopleNum - 1);
    WantedIsNatural(c.tiers);
  }

  lemma NewMemberIsCounted(members: map<UserID, int>, user: UserID, groupID: int, other: int)
    requires user !in members
    ensures |MembersOf(members[user := groupID], other)|
         == |MembersOf(members, other)| + if other == groupID then 1 else 0
  {
    if other == groupID {
      assert MembersOf(members[user := groupID], other) == MembersOf(members, other) + {user};
    } else {
      assert MembersOf(members[user := groupID], other) == MembersOf(members, other);
    }
  }

  lemma NobodyIsIn(members: map<UserID, int>, groupID: int)
    requires forall u <- members :: members[u] != groupID
    ensures |MembersOf(members, groupID)| == 0
  {
    assert MembersOf(members, groupID) == {};
  }

  lemma SameIDsSameGroups(groups: seq<GroupValue>, groups': seq<GroupValue>, groupID: int)
    requires HasGroup(groups, groupID) && |groups| <= |groups'|
    requires forall i | 0 <= i < |groups| :: groups'[i].groupID == groups[i].groupID
    ensures HasGroup(groups', groupID)
  {
    var i :| 0 <= i < |groups| && groups[i].groupID == groupID;
    assert groups'[i].groupID == groupID;
  }

  /** A fresh group fits: its id is new, nobody is in it, and no other group is open. */
  lemma WithGroupStaysAllocated(s: ServiceState)
    requires Allocated(s)
    ensures Allocated(WithGroup(s)) && Grows(s, WithGroup(s))
    ensures
      var i := FirstWithRoom(s.groups, s.config.rankPeopleNum);
      i < |WithGroup(s).groups| && HasRoom(WithGroup(s).groups[i], s.config.rankPeopleNum)
  {
    if FirstWithRoom(s.groups, s.config.rankPeopleNum) == |s.groups| {
      NobodyIsIn(s.members, s.nextGroupID + 1);
      forall j | 0 <= j < |s.groups| ensures !s.groups[j].state.Open? {
        assert GroupOK(s.groups[j], s.members, s.config.rankPeopleNum);
      }
      forall u <- s.members ensures HasGroup(WithGroup(s).groups, s.members[u]) {
        SameIDsSameGroups(s.groups, WithGroup(s).groups, s.members[u]);
      }
    }
  }

  function JoinAt(s: ServiceState, i: nat, user: UserID): ServiceState
    requires i < |s.groups|
  {
    s.(groups := s.groups[i := Joined(s.config, s.groups[i])], members := s.members[user := s.groups[i].groupID])
  }

  lemma JoinKeepsGroupsOK(s: ServiceState, i: nat, user: UserID)
    requires Allocated(s) && i < |s.groups| && user !in s.members
    requires HasPlace(s.groups[i], s.config.rankPeopleNum)
    ensures GroupsOK(JoinAt(s, i, user).groups, JoinAt(s, i, user).members, s.config.rankPeopleNum)
  {
    var s' := JoinAt(s, i, user);
    forall j | 0 <= j < |s'.groups| ensures GroupOK(s'.groups[j], s'.members, s.config.rankPeopleNum) {
      assert GroupOK(s.groups[i], s.members, s.config.rankPeopleNum);
      assert GroupOK(s.groups[j], s.members, s.config.rankPeopleNum);
      NewMemberIsCounted(s.members, user, s.groups[i].groupID, s.groups[j].groupID);
      JoinKeepsCapacity(s.config, s.groups[i]);
    }
  }

  /** Replacing a group by one with its id, open only if it was. */
  lemma ReplacedGroupKeepsOrder(groups: seq<GroupValue>, i: nat, g: GroupValue, last: int)
    requires i < |groups| && g.groupID == groups[i].groupID && (g.state.Open? ==> groups[i].state.Open?)
    requires IDsRise(groups, last) && AtMostOneOpen(groups)
    ensures IDsRise(groups[i := g], last) && AtMostOneOpen(groups[i := g])
  {
  }

  lemma JoinStaysAllocated(s: ServiceState, i: nat, user: UserID)
    requires Allocated(s) && i < |s.groups| && user !in s.members
    requires HasPlace(s.groups[i], s.config.rankPeopleNum)
    ensures Allocated(JoinAt(s, i, user)) && Keeps(s, JoinAt(s, i, user))
    ensures s.groups[i].state.Open? ==> Grows(s, JoinAt(s, i, user))
  {
    var s' := JoinAt(s, i, user);
    JoinKeepsGroupsOK(s, i, user);
    ReplacedGroupKeepsOrder(s.groups, i, Joined(s.config, s.groups[i]), s.nextGroupID);
    forall u <- s'.members ensures HasGroup(s'.groups, s'.members[u]) {
      assert HasGroup(s.groups, s.groups[i].groupID);
      SameIDsSameGroups(s.groups, s'.groups, s'.members[u]);
    }
  }

  lemma AssignStaysAllocated(s: ServiceState, user: UserID)
    requires Allocated(s)
    ensures Allocated(Assign(s, user)) && Grows(s, Assign(s, user))
    ensures user in Assign(s, user).members
  {
    if user !in s.members {
      var i := FirstWithRoom(s.groups, s.config.rankPeopleNum);
      WithGroupStaysAllocated(s);
      JoinStaysAllocated(WithGroup(s), i, user);
      assert Assign(s, user) == JoinAt(WithGroup(s), i, user);
      GrowsIsTransitive(s, WithGroup(s), Assign(s, user));
    }
  }

  lemma SettledPrefixKeepsGroups(groups: seq<GroupValue>, n: int, members: map<UserID, int>, last: int, limit: int)
    requires GroupsOK(groups, members, limit) && IDsRise(groups, last)
    requires AtMostOneOpen(groups) && MembersFound(groups, members)
    ensures
      var groups' := SettledPrefix(groups, n);
      && GroupsOK(groups', members, limit) && IDsRise(groups', last)
      && AtMostOneOpen(groups') && MembersFound(groups', members)
  {
    var groups' := SettledPrefix(groups, n);
    forall u <- members ensures HasGroup(groups', members[u]) {
      SameIDsSameGroups(groups, groups', members[u]);
    }
    forall j | 0 <= j < |groups'| ensures GroupOK(groups'[j], members, limit) {
      assert GroupOK(groups[j], members, limit);
    }
  }

  lemma SettlingStaysAllocated(s: ServiceState, now: int, failAt: Option<nat>)
    requires Allocated(s)
    ensures Allocated(SettleGroups(s, now, failAt)) && Grows(s, SettleGroups(s, now, failAt))
  {
    var n := if Fails(s.groups, failAt) then failAt.value else |s.groups|;
    SettledPrefixKeepsGroups(s.groups, n, s.members, s.nextGroupID, s.config.rankPeopleNum);
  }

  lemma OpStaysAllocated(s: ServiceState, now: int, op: Op)
    requires Allocated(s)
    ensures Allocated(Apply(s, now, op)) && Grows(s, Apply(s, now, op))
  {
    var s' := Apply(s, now, op);
    if s' != s {
      if op.Upsert? {
        AssignStaysAllocated(s, op.user);
        assert s' == Assign(s, op.user);
      } else if !op.EditTimes? {
        SettlingStaysAllocated(s, now, op.failAt);
        assert s' == SettleGroups(s, now, op.failAt);
      }
    }
  }

  /**
    The allocator over any run of score writes, settlements, ticks and edits of the times, at any
    moments and with any failing RPCs. Group ids are distinct; RealCount is the number of users
    mapped to the group; players and robots together never exceed RankPeopleNum; a group that is
    full has no room left and at most one is open; every user's group exists. And from any moment
    on, users keep their group and settled groups do not change at all.
   */
  lemma {:induction false} RunsStayAllocated(s: ServiceState, ops: seq<(int, Op)>)
    requires Allocated(s)
    ensures Allocated(Run(s, ops)) && Grows(s, Run(s, ops))
    decreases |ops|
  {
    if ops != [] {
      var s1 := Apply(s, ops[0].0, ops[0].1);
      OpStaysAllocated(s, ops[0].0, ops[0].1);
      RunsStayAllocated(s1, ops[1..]);
      GrowsIsTransitive(s, s1, Run(s1, ops[1..]));
    }
  }

  lemma GrowsIsTransitive(s1: ServiceState, s2: ServiceState, s3: ServiceState)
    requires Grows(s1, s2) && Grows(s2, s3)
    ensures Grows(s1, s3)
  {
  }

  /** The same for a service as it is created. */
  lemma {:induction false} NewServiceStaysAllocated(c: Config, ops: seq<(int, Op)>)
    requires c.rankPeopleNum > 0
    ensures Allocated(Run(NewService(c), ops))
  {
    RunsStayAllocated(NewService(c), ops);
  }

  /** A group's robots: none before the first player, then as many as fit beside one and are wanted. */
  predicate HasItsRobots(c: Config, g: GroupValue) {
    if g.realCount >= 1 && c.tiers != [] && c.infos != []
    then g.robotCount == Min(Max(c.rankPeopleNum - 1, 0), Wanted(c.tiers))
    else g.robotCount == 0
  }

  predicate AllHaveTheirRobots(s: ServiceState) {
    forall i | 0 <= i < |s.groups| :: s.groups[i].realCount >= 0 && HasItsRobots(s.config, s.groups[i])
  }

  lemma JoinBringsTheRobots(c: Config, g: GroupValue)
    requires g.realCount >= 0 && HasItsRobots(c, g)
    ensures Joined(c, g).realCount == g.realCount + 1 && HasItsRobots(c, Joined(c, g))
  {
    PlanFillsTheCapacity(c.tiers, c.rankPeopleNum - 1);
  }

  lemma OpKeepsTheRobots(s: ServiceState, now: int, op: Op)
    requires AllHaveTheirRobots(s)
    ensures AllHaveTheirRobots(Apply(s, now, op))
  {
    if op.Upsert? && CanUpdateScore(s.config, now).Running? && op.user !in s.members {
      var i, s1 := FirstWithRoom(s.groups, s.config.rankPeopleNum), WithGroup(s);
      assert AllHaveTheirRobots(s1);
      JoinBringsTheRobots(s.config, s1.groups[i]);
    }
  }

  /**
    Over any run of a new service, edits of the times included, every group that has a player has
    exactly its robots, and every other none.
   */
  lemma {:induction false} GroupsHaveTheirRobots(c: Config, ops: seq<(int, Op)>)
    ensures AllHaveTheirRobots(Run(NewService(c), ops))
  {
    RunsKeepTheRobots(NewService(c), ops);
  }

  lemma {:induction false} RunsKeepTheRobots(s: ServiceState, ops: seq<(int, Op)>)
    requires AllHaveTheirRobots(s)
    ensures AllHaveTheirRobots(Run(s, ops))
    decreases |ops|
  {
    if ops != [] {
      OpKeepsTheRobots(s, ops[0].0, ops[0].1);
      RunsKeepTheRobots(Apply(s, ops[0].0, ops[0].1), ops[1..]);
    }
  }

  /**
    A user who writes a score while writing is allowed has a group from then on, and if they had
    none before, it is the one open group with room, or a new one.
   */
  lemma NewUserJoinsTheOpenGroup(s: ServiceState, user: UserID, now: int)
    requires Allocated(s) && CanUpdateScore(s.config, now).Running? && user !in s.members
    ensures
      var s' := UpsertScore(s, user, now).0;
      && user in s'.members
      && (forall g <- s.groups :: g.state.Open? ==> s'.members[user] == g.groupID)
      && ((forall g <- s.groups :: !g.state.Open?) ==>
            s'.members[user] == s.nextGroupID + 1 && |s'.groups| == |s.groups| + 1)
  {
    var i := FirstWithRoom(s.groups, s.config.rankPeopleNum);
    forall g <- s.groups | g.state.Open? ensures i < |s.groups| && s.groups[i] == g {
      var j :| 0 <= j < |s.groups| && s.groups[j] == g;
      assert GroupOK(s.groups[j], s.members, s.config.rankPeopleNum);
    }
  }
}
