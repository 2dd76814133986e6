/** The service object: groups, members and the settlement mark, updated in place. */
module Service {
  import opened Options
  import opened Spawn
  import opened Groups

  class Group {
    const groupID: int
    var realCount: int
    var robotCount: int
    var state: GroupState

    constructor (groupID: int)
      ensures Value() == GroupValue(groupID, 0, 0, Open)
    {
      this.groupID, realCount, robotCount, state := groupID, 0, 0, Open;
    }

    function Value(): GroupValue
      reads this
    {
      GroupValue(groupID, realCount, robotCount, state)
    }

    /** One more player; the first one brings the planned robots, the last one closes the group. */
    method Join(config: Config)
      modifies this
      ensures Value() == Joined(config, old(Value()))
    {
      realCount := realCount + 1;
      if realCount == 1 && config.HasRobots() {
        var plan := BuildRobotSpawnPlan(config.tiers, config.rankPeopleNum - realCount);
        robotCount := TotalRobotsInPlan(plan);
      }
      if realCount + robotCount >= config.rankPeopleNum {
        state := Full;
      }
    }
  }

  function Values(groups: seq<Group>): seq<GroupValue>
    reads groups
  {
    seq(|groups|, i requires 0 <= i < |groups| reads groups => groups[i].Value())
  }

  class Service {
    var config: Config
    var groups: seq<Group>
    var memberGroup: map<UserID, int>
    var nextGroupID: int
    var settledAt: int
    var activityEnd: int          // the copy of the settlement time that is read without a lock

    ghost predicate Valid()
      reads this
    {
      && activityEnd == config.SettleAt()
      && (forall i, j | 0 <= i < j < |groups| :: groups[i] != groups[j])
    }

    ghost function State(): ServiceState
      reads this, groups
    {
      ServiceState(config, Values(groups), memberGroup, nextGroupID, settledAt)
    }

    constructor (config: Config)
      ensures Valid() && State() == NewService(config) && groups == []
    {
      this.config := config;
      groups, memberGroup := [], map[];
      nextGroupID, settledAt := 0, 0;
      activityEnd := config.SettleAt();
    }

    /** The group a new user joins: the first with room, or a new one. */
    method EnsureGroup() returns (i: nat)
      requires Valid()
      modifies this`groups, this`nextGroupID
      ensures Valid() && State() == WithGroup(old(State()))
      ensures i == FirstWithRoom(old(State()).groups, config.rankPeopleNum) < |groups|
      ensures old(groups) <= groups && fresh(set g <- groups[|old(groups)|..])
    {
      ghost var values := Values(groups);
      i := 0;
      while i < |groups|
        invariant i <= |groups|
        invariant forall j | 0 <= j < i :: !HasRoom(values[j], config.rankPeopleNum)
      {
        if groups[i].state == Open && groups[i].realCount + groups[i].robotCount < config.rankPeopleNum {
          FirstIsFirst(values, config.rankPeopleNum, i);
          return;
        }
        i := i + 1;
      }
      FirstIsFirst(values, config.rankPeopleNum, i);
      nextGroupID := nextGroupID + 1;
      var group := new Group(nextGroupID);
      groups := groups + [group];
      assert Values(groups) == values + [GroupValue(nextGroupID, 0, 0, Open)];
    }

    method UpsertScore(user: UserID, now: int) returns (outcome: Outcome)
      requires Valid()
      modifies this`groups, this`nextGroupID, this`memberGroup, groups
      ensures Valid() && (State(), outcome) == Groups.UpsertScore(old(State()), user, now)
      ensures old(groups) <= groups
    {
      match CanUpdateScore(config, now) {
        case Running =>
        case Closed => return ErrClosed;
        case Over => return ErrClosed;
        case Init => return ErrNotOpen;
      }
      outcome := Accepted;
      if user !in memberGroup {
        var i := EnsureGroup();
        var group := groups[i];
        ghost var before := Values(groups);
        memberGroup := memberGroup[user := group.groupID];
        group.Join(config);
        assert Values(groups) == before[i := group.Value()];
      }
    }

    /** Settle all groups; the call for the group at `failAt` fails, if it is made. */
    method Settle(now: int, failAt: Option<nat>) returns (ok: bool)
      requires Valid()
      modifies this`settledAt, groups
      ensures Valid() && State() == Groups.Settle(old(State()), now, failAt)
      ensures ok <==> old(settledAt) == config.SettleAt() || !Fails(old(State()).groups, failAt)
    {
      var settleAt := activityEnd;
      if settledAt == settleAt {
        return true;
      }
      ghost var before := Values(groups);
      for i := 0 to |groups|
        invariant settledAt == old(settledAt)
        invariant forall j | 0 <= j < |groups| ::
                    groups[j].Value() == if j < i then before[j].Settle() else before[j]
        invariant failAt.Some? && failAt.value < i ==> before[failAt.value].state.Settled?
      {
        if groups[i].state != Settled {
          if failAt == Some(i) {
            assert groups[i].Value() == before[i] && Fails(before, failAt);
            assert Values(groups) == SettledPrefix(before, i);
            return false;
          }
          groups[i].state := Settled;
        }
      }
      assert Values(groups) == SettledPrefix(before, |groups|);
      if CanUpdateScore(config, now) != Running {
        settledAt := settleAt;
      }
      return true;
    }

    method Tick(now: int, failAt: Option<nat>) returns (ok: bool)
      requires Valid()
      modifies this`settledAt, groups
      ensures Valid() && State() == Groups.Tick(old(State()), now, failAt)
    {
      var settleAt := activityEnd;
      if settleAt <= 0 || settledAt == settleAt || now < settleAt {
        return true;
      }
      ok := Settle(now, failAt);
    }

    method IsSettled(now: int) returns (settled: bool)
      requires Valid()
      ensures settled == Groups.IsSettled(State(), now)
    {
      if CanUpdateScore(config, now) != Running && settledAt == activityEnd {
        return true;
      }
      if groups == [] {
        return false;
      }
      for i := 0 to |groups|
        invariant forall j | 0 <= j < i :: State().groups[j].state.Settled?
      {
        assert State().groups[i] == groups[i].Value();
        if groups[i].state != Settled {
          assert State().groups[i] in State().groups;
          return false;
        }
      }
      return true;
    }

    method UpdateConfig(rankPeopleNum: int, openTime: int, closeTime: int, gameEndTime: int)
      requires Valid()
      modifies this`config, this`activityEnd
      ensures Valid()
      ensures State() == Groups.UpdateConfig(old(State()), rankPeopleNum, openTime, closeTime, gameEndTime)
    {
      if rankPeopleNum > 0 {
        config := config.(rankPeopleNum := rankPeopleNum);
      }
      if openTime > 0 {
        config := config.(openTime := openTime);
      }
      if closeTime > 0 {
        config := config.(closeTime := closeTime);
      }
      if gameEndTime > 0 {
        config := config.(gameEndTime := gameEndTime);
      }
      activityEnd := config.SettleAt();
    }
  }

  lemma {:induction false} FirstIsFirst(groups: seq<GroupValue>, limit: int, i: nat)
    requires i <= |groups| && (i < |groups| ==> HasRoom(groups[i], limit))
    requires forall j | 0 <= j < i :: !HasRoom(groups[j], limit)
    ensures i == FirstWithRoom(groups, limit)
  {
  }
}
