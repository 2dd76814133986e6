/**
  Groups of an activity and their settlement, on values. One node without Redis: memory is
  authoritative and every public operation is atomic.
 */
module Groups {
  import opened Options
  import opened Robots
  import opened Spawn

  datatype UserID = UserID(id: int)

  datatype GroupState = Open | Full | Settled

  datatype GroupValue = GroupValue(groupID: int, realCount: int, robotCount: int, state: GroupState) {
    function TotalCount(): int {
      realCount + robotCount
    }

    function Settle(): GroupValue {
      this.(state := Settled)
    }
  }

  datatype Config = Config(
    rankPeopleNum: int,
    openTime: int,
    closeTime: int,
    gameEndTime: int,
    tiers: seq<Tier>,
    infos: seq<int>)
  {
    predicate HasRobots() {
      tiers != [] && infos != []
    }

    /** When the activity settles: at the end of the game, else when it closes. */
    function SettleAt(): int {
      if gameEndTime > 0 then gameEndTime else closeTime
    }
  }

  datatype Phase = Init | Running | Closed | Over

  /** May scores still be written? */
  function CanUpdateScore(c: Config, now: int): Phase {
    if c.openTime > 0 && now < c.openTime then Init
    else if c.closeTime > 0 && now >= c.closeTime then Closed
    else if now > c.gameEndTime && c.gameEndTime > 0 then Over
    else Running
  }

  datatype ServiceState = ServiceState(
    config: Config,
    groups: seq<GroupValue>,
    members: map<UserID, int>,    // user to group
    nextGroupID: int,
    settledAt: int)

  // ---------------------------------------------------------------- operations

  predicate HasRoom(g: GroupValue, limit: int) {
    g.state.Open? && g.TotalCount() < limit
  }

  /** The first group with room, or the number of groups if there is none. */
  function FirstWithRoom(groups: seq<GroupValue>, limit: int): (i: nat)
    ensures i <= |groups|
    ensures i < |groups| ==> HasRoom(groups[i], limit)
    ensures forall j | 0 <= j < i :: !HasRoom(groups[j], limit)
  {
    if groups == [] || HasRoom(groups[0], limit) then 0 else 1 + FirstWithRoom(groups[1..], limit)
  }

  /** A user joins: count them, plan the robots of a new group, close the group if it is full. */
  function Joined(c: Config, g: GroupValue): GroupValue {
    var players := g.realCount + 1;
    var robots := if players == 1 && c.HasRobots()
                  then PlanTotal(SpawnPlan(c.tiers, c.rankPeopleNum - players)) else g.robotCount;
    GroupValue(g.groupID, players, robots, if players + robots >= c.rankPeopleNum then Full else g.state)
  }

  /** The state in which the group a new user will join exists. */
  function WithGroup(s: ServiceState): ServiceState {
    if FirstWithRoom(s.groups, s.config.rankPeopleNum) < |s.groups| then s
    else s.(groups := s.groups + [GroupValue(s.nextGroupID + 1, 0, 0, Open)], nextGroupID := s.nextGroupID + 1)
  }

  function Assign(s: ServiceState, user: UserID): ServiceState {
    if user in s.members then s
    else
      var i := FirstWithRoom(s.groups, s.config.rankPeopleNum);
      var s1 := WithGroup(s);
      var g := s1.groups[i];
      s1.(groups := s1.groups[i := Joined(s.config, g)], members := s.members[user := g.groupID])
  }

  datatype Outcome = Accepted | ErrClosed | ErrNotOpen

  function UpsertScore(s: ServiceState, user: UserID, now: int): (ServiceState, Outcome) {
    match CanUpdateScore(s.config, now)
    case Running => (Assign(s, user), Accepted)
    case Init => (s, ErrNotOpen)
    case Closed => (s, ErrClosed)
    case Over => (s, ErrClosed)
  }

  /** The groups when the first n have been settled. */
  function SettledPrefix(groups: seq<GroupValue>, n: int): seq<GroupValue> {
    seq(|groups|, i requires 0 <= i < |groups| => if i < n then groups[i].Settle() else groups[i])
  }

  /** The RPC for the group at this index fails; groups settled before need no RPC. */
  predicate Fails(groups: seq<GroupValue>, failAt: Option<nat>) {
    failAt.Some? && failAt.value < |groups| && !groups[failAt.value].state.Settled?
  }

  /** Settle every group, then remember for which settlement time, if writing is over. */
  function Settle(s: ServiceState, now: int, failAt: Option<nat>): ServiceState {
    if s.settledAt == s.config.SettleAt() then s
    else SettleGroups(s, now, failAt)
  }

  function SettleGroups(s: ServiceState, now: int, failAt: Option<nat>): ServiceState {
    if Fails(s.groups, failAt) then
      s.(groups := SettledPrefix(s.groups, failAt.value))
    else
      s.(groups := SettledPrefix(s.groups, |s.groups|),
         settledAt := if CanUpdateScore(s.config, now) != Running then s.config.SettleAt() else s.settledAt)
  }

  function Tick(s: ServiceState, now: int, failAt: Option<nat>): ServiceState {
    if s.config.SettleAt() <= 0 || s.settledAt == s.config.SettleAt() || now < s.config.SettleAt() then s
    else Settle(s, now, failAt)
  }

  predicate AllSettled(s: ServiceState) {
    forall g <- s.groups :: g.state.Settled?
  }

  /** The shortcut: settled for the current settlement time, and writing is over. */
  predicate Shortcut(s: ServiceState, now: int) {
    CanUpdateScore(s.config, now) != Running && s.settledAt == s.config.SettleAt()
  }

  predicate IsSettled(s: ServiceState, now: int) {
    Shortcut(s, now) || (s.groups != [] && AllSettled(s))
  }

  /** A GM edits the configuration; absent fields keep their values. */
  function UpdateConfig(s: ServiceState, rankPeopleNum: int, openTime: int, closeTime: int, gameEndTime: int):
    ServiceState
  {
    s.(config := s.config.(
         rankPeopleNum := if rankPeopleNum > 0 then rankPeopleNum else s.config.rankPeopleNum,
         openTime := if openTime > 0 then openTime else s.config.openTime,
         closeTime := if closeTime > 0 then closeTime else s.config.closeTime,
         gameEndTime := if gameEndTime > 0 then gameEndTime else s.config.gameEndTime))
  }

  // ---------------------------------------------------------------- runs

  datatype Op =
    | Upsert(user: UserID)
    | SettleNow(failAt: Option<nat>)
    | TickNow(failAt: Option<nat>)
    | EditTimes(openTime: int, closeTime: int, gameEndTime: int)

  function Apply(s: ServiceState, now: int, op: Op): ServiceState {
    match op
    case Upsert(user) => UpsertScore(s, user, now).0
    case SettleNow(failAt) => Settle(s, now, failAt)
    case TickNow(failAt) => Tick(s, now, failAt)
    case EditTimes(openTime, closeTime, gameEndTime) => UpdateConfig(s, 0, openTime, closeTime, gameEndTime)
  }

  function Run(s: ServiceState, ops: seq<(int, Op)>): ServiceState
    decreases |ops|
  {
    if ops == [] then s else Run(Apply(s, ops[0].0, ops[0].1), ops[1..])
  }

  function NewService(c: Config): ServiceState {
    ServiceState(c, [], map[], 0, 0)
  }
}
