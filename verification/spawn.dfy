/**
  Spawning the robots of a group: how many of which tier, under which member ids, and with which
  display infos.
 */
module Spawn {
  import opened Arithmetic
  import opened Robots

  const ID_STRIDE := 10_000

  datatype PlanEntry = PlanEntry(tierID: int, count: int)

  // ---------------------------------------------------------------- the plan

  /** Tier after tier takes what it wants of the capacity left. */
  function SpawnPlan(tiers: seq<Tier>, capacity: int): seq<PlanEntry> {
    if tiers == [] || capacity <= 0 then []
    else
      var count := Min(tiers[0].num, capacity);
      if count > 0 then [PlanEntry(tiers[0].tierID, count)] + SpawnPlan(tiers[1..], capacity - count)
      else SpawnPlan(tiers[1..], capacity)
  }

  function PlanTotal(plan: seq<PlanEntry>): int {
    if plan == [] then 0 else plan[0].count + PlanTotal(plan[1..])
  }

  /** What the tiers want together; a tier with a negative number wants nothing. */
  function Wanted(tiers: seq<Tier>): int {
    if tiers == [] then 0 else Max(tiers[0].num, 0) + Wanted(tiers[1..])
  }

  method BuildRobotSpawnPlan(tiers: seq<Tier>, capacity: int) returns (plan: seq<PlanEntry>)
    ensures plan == SpawnPlan(tiers, capacity)
  {
    plan := [];
    var remaining := capacity;
    var i := 0;
    while i < |tiers|
      invariant 0 <= i <= |tiers|
      invariant plan + SpawnPlan(tiers[i..], remaining) == SpawnPlan(tiers, capacity)
    {
      if remaining <= 0 {
        return;
      }
      var count := tiers[i].num;
      if count > remaining {
        count := remaining;
      }
      assert tiers[i..][1..] == tiers[i + 1..];
      if count > 0 {
        plan := plan + [PlanEntry(tiers[i].tierID, count)];
        remaining := remaining - count;
      }
      i := i + 1;
    }
  }

  method TotalRobotsInPlan(plan: seq<PlanEntry>) returns (total: int)
    ensures total == PlanTotal(plan)
  {
    total := 0;
    for i := 0 to |plan|
      invariant total + PlanTotal(plan[i..]) == PlanTotal(plan)
    {
      assert plan[i..][1..] == plan[i + 1..];
      total := total + plan[i].count;
    }
  }

  lemma {:induction false} WantedIsNatural(tiers: seq<Tier>)
    ensures Wanted(tiers) >= 0
  {
    if tiers != [] {
      WantedIsNatural(tiers[1..]);
    }
  }

  /** The plan spawns exactly as many robots as fit and as the tiers want; every entry some. */
  lemma {:induction false} PlanFillsTheCapacity(tiers: seq<Tier>, capacity: int)
    ensures PlanTotal(SpawnPlan(tiers, capacity)) == Min(Max(capacity, 0), Wanted(tiers))
    ensures forall e <- SpawnPlan(tiers, capacity) :: e.count > 0
  {
    WantedIsNatural(tiers);
    if tiers != [] && capacity > 0 {
      var count := Min(tiers[0].num, capacity);
      WantedIsNatural(tiers[1..]);
      PlanFillsTheCapacity(tiers[1..], if count > 0 then capacity - count else capacity);
    }
  }

  /**
    The plan is greedy: what the first tiers get does not depend on the tiers behind them. With
    the total above, for each prefix, this says how many robots each single tier gets.
   */
  lemma {:induction false} PlanIsGreedy(tiers: seq<Tier>, capacity: int, k: nat)
    requires k <= |tiers|
    ensures SpawnPlan(tiers[..k], capacity) <= SpawnPlan(tiers, capacity)
  {
    if k > 0 && capacity > 0 {
      var count := Min(tiers[0].num, capacity);
      assert tiers[..k][1..] == tiers[1..][..k - 1];
      PlanIsGreedy(tiers[1..], if count > 0 then capacity - count else capacity, k - 1);
    }
  }

  lemma {:induction false} TotalOfFront(plan: seq<PlanEntry>, k: nat)
    requires k < |plan|
    ensures PlanTotal(plan[..k + 1]) == PlanTotal(plan[..k]) + plan[k].count
  {
    if k == 0 {
      assert plan[..1][1..] == [];
      assert PlanTotal(plan[..1][1..]) == 0;
    } else {
      assert plan[..k + 1][1..] == plan[1..][..k];
      assert plan[..k][1..] == plan[1..][..k - 1];
      TotalOfFront(plan[1..], k - 1);
    }
  }

  /** How many robots of a tier the plan spawns. */
  function PlannedFor(plan: seq<PlanEntry>, tierID: int): int {
    if plan == [] then 0 else (if plan[0].tierID == tierID then plan[0].count else 0) + PlannedFor(plan[1..], tierID)
  }

  /** What is left for each tier with this id after those before it, up to what it wants. */
  function ShareOf(tiers: seq<Tier>, capacity: int, tierID: int): int {
    if tiers == [] then 0
    else
      var wanted := Max(tiers[0].num, 0);
      (if tiers[0].tierID == tierID then Min(wanted, Max(capacity, 0)) else 0)
      + ShareOf(tiers[1..], capacity - wanted, tierID)
  }

  /** The plan gives every tier its share. */
  lemma {:induction false} PlanGivesEachTierItsShare(tiers: seq<Tier>, capacity: int, tierID: int)
    ensures PlannedFor(SpawnPlan(tiers, capacity), tierID) == ShareOf(tiers, capacity, tierID)
  {
    if tiers == [] {
    } else if capacity <= 0 {
      NothingIsLeft(tiers, capacity, tierID);
    } else {
      var count := Min(tiers[0].num, capacity);
      if count > 0 {
        PlanGivesEachTierItsShare(tiers[1..], capacity - count, tierID);
        if tiers[0].num > capacity {
          NothingIsLeft(tiers[1..], capacity - tiers[0].num, tierID);
          NothingIsLeft(tiers[1..], 0, tierID);
        }
      } else {
        PlanGivesEachTierItsShare(tiers[1..], capacity, tierID);
      }
    }
  }

  lemma {:induction false} NothingIsLeft(tiers: seq<Tier>, capacity: int, tierID: int)
    requires capacity <= 0
    ensures ShareOf(tiers, capacity, tierID) == 0
  {
    if tiers != [] {
      NothingIsLeft(tiers[1..], capacity - Max(tiers[0].num, 0), tierID);
    }
  }

  // ---------------------------------------------------------------- member ids

  function RobotMemberID(groupID: int, index: int): int {
    -(groupID * ID_STRIDE + index)
  }

  /** The index a member id has in a group; the inverse of the above. */
  function IndexOf(groupID: int, memberID: int): int {
    -memberID - groupID * ID_STRIDE
  }

  /** Exactly when two robots get the same member id. */
  lemma MemberIDsCollideIff(g1: int, i1: int, g2: int, i2: int)
    ensures RobotMemberID(g1, i1) == RobotMemberID(g2, i2) <==> i1 - i2 == (g2 - g1) * ID_STRIDE
    ensures 0 <= i1 < ID_STRIDE && 0 <= i2 < ID_STRIDE ==>
              (RobotMemberID(g1, i1) == RobotMemberID(g2, i2) <==> g1 == g2 && i1 == i2)
  {
  }

  /** The highest index in use, or 0. */
  function HighestIndex(groupID: int, existing: seq<Robot>): int {
    if existing == [] then 0
    else Max(HighestIndex(groupID, existing[..|existing| - 1]), IndexOf(groupID, existing[|existing| - 1].memberID))
  }

  method NextIndexBase(groupID: int, existing: seq<Robot>) returns (index: int)
    ensures index == HighestIndex(groupID, existing)
  {
    index := 0;
    for i := 0 to |existing|
      invariant index == HighestIndex(groupID, existing[..i])
    {
      assert existing[..i + 1][..i] == existing[..i];
      var idx := IndexOf(groupID, existing[i].memberID);
      if idx > index {
        index := idx;
      }
    }
    assert existing[..|existing|] == existing;
  }

  lemma {:induction false} HighestIndexIsHighest(groupID: int, existing: seq<Robot>)
    ensures HighestIndex(groupID, existing) >= 0
    ensures HighestIndex(groupID, existing) == 0
         || exists r <- existing :: IndexOf(groupID, r.memberID) == HighestIndex(groupID, existing)
    ensures forall r <- existing :: IndexOf(groupID, r.memberID) <= HighestIndex(groupID, existing)
  {
    if existing != [] {
      var front, last := existing[..|existing| - 1], existing[|existing| - 1];
      HighestIndexIsHighest(groupID, front);
      assert last in existing && forall r <- front :: r in existing;
    }
  }

  // ---------------------------------------------------------------- spawning

  /** Any unused info, if there is one. */
  method PickRobotInfo(infos: seq<int>, used: set<int>) returns (infoID: int, ok: bool)
    ensures ok <==> exists info <- infos :: info !in used
    ensures ok ==> infoID in infos && infoID !in used
  {
    var avail := [];
    for i := 0 to |infos|
      invariant forall info <- avail :: info in infos && info !in used
      invariant forall j | 0 <= j < i :: infos[j] in used || infos[j] in avail
    {
      if infos[i] !in used {
        avail := avail + [infos[i]];
      }
    }
    if avail == [] {
      return 0, false;
    }
    var pick :| 0 <= pick < |avail|;
    assert avail[pick] in avail;
    return avail[pick], true;
  }

  method InitRobotScore(min: int, max: int) returns (score: int)
    ensures min <= score <= Max(min, max)
  {
    if max <= min {
      return min;
    }
    score :| min <= score <= max;
  }

  /** A tier is looked up by its id; of several with one id, the last counts. */
  function TierMap(tiers: seq<Tier>): map<int, Tier> {
    if tiers == [] then map[]
    else TierMap(tiers[..|tiers| - 1])[tiers[|tiers| - 1].tierID := tiers[|tiers| - 1]]
  }

  /** An id is found if some tier has it, and then it is the last such tier that counts. */
  lemma {:induction false} TierMapFindsTheLast(tiers: seq<Tier>, k: nat)
    requires k < |tiers| && forall j | k < j < |tiers| :: tiers[j].tierID != tiers[k].tierID
    ensures tiers[k].tierID in TierMap(tiers) && TierMap(tiers)[tiers[k].tierID] == tiers[k]
  {
    if k < |tiers| - 1 {
      TierMapFindsTheLast(tiers[..|tiers| - 1], k);
    }
  }

  lemma {:induction false} TierMapFindsNoOther(tiers: seq<Tier>, tierID: int)
    ensures tierID in TierMap(tiers) <==> exists k | 0 <= k < |tiers| :: tiers[k].tierID == tierID
  {
    if tiers != [] {
      var front := tiers[..|tiers| - 1];
      TierMapFindsNoOther(front, tierID);
      assert forall k | 0 <= k < |front| :: front[k] == tiers[k];
    }
  }

  predicate TooLate(tier: Tier, now: int, gameEndTime: int) {
    gameEndTime > 0 && gameEndTime - now <= tier.lockTokenTimeMs
  }

  predicate CanSpawn(tiers: map<int, Tier>, tierID: int, now: int, gameEndTime: int) {
    tierID in tiers && !TooLate(tiers[tierID], now, gameEndTime)
  }

  /** A robot fresh from the spawn code: its score was drawn from the tier's range and capped. */
  predicate FreshRobot(r: Robot, tiers: map<int, Tier>, now: int, gameEndTime: int) {
    && CanSpawn(tiers, r.tierID, now, gameEndTime)
    && r == Robot(r.memberID, r.tierID, r.infoID, r.score, now, 0, 0, 0)
    && var tier := tiers[r.tierID];
       && r.score <= Min(tier.maxToken, Max(tier.defaultTokenMin, tier.defaultTokenMax))
       && (r.score >= tier.defaultTokenMin || r.score == tier.maxToken)
  }

  /**
    What a fresh robot looks like: its tier is not in its lock window, its score is within the
    tier's range and cap, it is owed nothing, and its cooldown starts now.
   */
  lemma FreshRobotIs(r: Robot, tiers: map<int, Tier>, now: int, gameEndTime: int)
    requires FreshRobot(r, tiers, now, gameEndTime)
    ensures r.tierID in tiers
    ensures
      var tier := tiers[r.tierID];
      && (gameEndTime > 0 ==> gameEndTime - now > tier.lockTokenTimeMs)
      && r.score <= tier.maxToken && r.score <= Max(tier.defaultTokenMin, tier.defaultTokenMax)
      && r.score >= Min(tier.maxToken, tier.defaultTokenMin)
    ensures r.lastGrowAt == now && r.pendingScore == 0 && r.pendingPerSlice == 0 && r.pendingStartAt == 0
  {
  }

  /**
    How a spawned robot enters the ticks: it meets their conditions, and whatever ticks follow, it
    stays within its tier's absolute cap.
   */
  lemma FreshRobotsStayCapped(r: Robot, tiers: map<int, Tier>, now: int, gameEndTime: int, inputs: seq<TickInput>)
    requires FreshRobot(r, tiers, now, gameEndTime)
    ensures Healthy(r, tiers[r.tierID]) && r.Total() <= tiers[r.tierID].maxToken
    ensures Healthy(Run(r, tiers[r.tierID], inputs), tiers[r.tierID])
    ensures Run(r, tiers[r.tierID], inputs).Total() <= tiers[r.tierID].maxToken
  {
    RunsConserveAndCap(r, tiers[r.tierID], inputs);
  }

  /** The new robots, their indices in the group, and the infos they took. */
  ghost predicate Spawned(robots: seq<Robot>, indices: seq<int>, groupID: int, base: int, last: int,
                          infos: seq<int>, used: set<int>, used': set<int>) {
    && |indices| == |robots|
    && (forall i | 0 <= i < |indices| ::
          base < indices[i] <= last && robots[i].memberID == RobotMemberID(groupID, indices[i]))
    && (forall i, j | 0 <= i < j < |indices| :: indices[i] < indices[j])
    && (forall i | 0 <= i < |robots| :: robots[i].infoID in infos && robots[i].infoID !in used)
    && (forall i, j | 0 <= i < j < |robots| :: robots[i].infoID != robots[j].infoID)
    && used' == used + InfoIDs(robots)
  }

  function InfoIDs(robots: seq<Robot>): set<int> {
    set r <- robots :: r.infoID
  }

  lemma AppendSpawned(robots: seq<Robot>, indices: seq<int>, groupID: int, base: int, last: int,
                      infos: seq<int>, used: set<int>, used': set<int>, r: Robot, index: int)
    requires Spawned(robots, indices, groupID, base, last, infos, used, used')
    requires base <= last < index && r.memberID == RobotMemberID(groupID, index)
    requires r.infoID in infos && r.infoID !in used'
    ensures Spawned(robots + [r], indices + [index], groupID, base, index, infos, used, used' + {r.infoID})
  {
    assert InfoIDs(robots + [r]) == InfoIDs(robots) + {r.infoID};
    forall i | 0 <= i < |robots| ensures robots[i].infoID in used' {
      assert robots[i].infoID in InfoIDs(robots);
    }
  }

  /** The infos a spawn may take. */
  function Unused(infos: seq<int>, used: set<int>): set<int> {
    set info <- infos | info !in used
  }

  lemma {:induction false} FewInfos(robots: seq<Robot>)
    ensures |InfoIDs(robots)| <= |robots|
  {
    if robots != [] {
      var front, last := robots[..|robots| - 1], robots[|robots| - 1];
      FewInfos(front);
      assert robots == front + [last];
      assert InfoIDs(robots) == InfoIDs(front) + {last.infoID};
    }
  }

  /** If no info is left, the robots took at least as many as were unused. */
  lemma PoolIsSpent(robots: seq<Robot>, infos: seq<int>, used: set<int>, used': set<int>)
    requires used' == used + InfoIDs(robots)
    requires forall info <- infos :: info in used'
    ensures |Unused(infos, used)| <= |robots|
  {
    FewInfos(robots);
    forall info <- Unused(infos, used) ensures info in InfoIDs(robots) {
      assert info in infos && info in used';
    }
    assert InfoIDs(robots) == Unused(infos, used) + (InfoIDs(robots) - Unused(infos, used));
  }

  /** The spawn loop's results so far, and the inputs they come from. */
  class Spawner {
    const groupID: int
    const tiers: map<int, Tier>
    const infos: seq<int>
    const now: int
    const gameEndTime: int
    ghost const base: int
    ghost const usedBefore: set<int>
    var robotIndex: int
    var usedInfoIDs: set<int>
    var newRobots: seq<Robot>
    ghost var indices: seq<int>

    ghost predicate Valid()
      reads this
    {
      && base <= robotIndex
      && |newRobots| <= robotIndex - base
      && Spawned(newRobots, indices, groupID, base, robotIndex, infos, usedBefore, usedInfoIDs)
      && (forall r <- newRobots :: FreshRobot(r, tiers, now, gameEndTime))
    }

    /** Every attempt so far gave a robot. */
    ghost predicate Complete()
      reads this
    {
      |newRobots| == robotIndex - base
    }

    constructor (groupID: int, tiers: seq<Tier>, infos: seq<int>, existing: seq<Robot>, used: set<int>,
                 now: int, gameEndTime: int)
      ensures Valid() && Complete() && newRobots == []
      ensures this.groupID == groupID && this.tiers == TierMap(tiers) && this.infos == infos
      ensures this.now == now && this.gameEndTime == gameEndTime
      ensures robotIndex == base == HighestIndex(groupID, existing) && usedBefore == used
    {
      this.groupID, this.tiers, this.infos := groupID, TierMap(tiers), infos;
      this.now, this.gameEndTime := now, gameEndTime;
      base, usedBefore := HighestIndex(groupID, existing), used;
      usedInfoIDs, newRobots, indices := used, [], [];
      var index := NextIndexBase(groupID, existing);
      robotIndex := index;
    }

    /** One turn of the inner loop: take an index and, if an info is left, add a robot. */
    method SpawnOne(tierID: int) returns (ok: bool)
      requires Valid() && CanSpawn(tiers, tierID, now, gameEndTime)
      modifies this
      ensures Valid() && robotIndex == old(robotIndex) + 1
      ensures ok ==> |newRobots| == old(|newRobots|) + 1
      ensures !ok ==> |Unused(infos, usedBefore)| <= |newRobots| == old(|newRobots|)
    {
      var tier := tiers[tierID];
      robotIndex := robotIndex + 1;
      var infoID;
      infoID, ok := PickRobotInfo(infos, usedInfoIDs);
      if !ok {
        PoolIsSpent(newRobots, infos, usedBefore, usedInfoIDs);
        return;
      }
      var initScore := InitRobotScore(tier.defaultTokenMin, tier.defaultTokenMax);
      if initScore > tier.maxToken {
        initScore := tier.maxToken;
      }
      var r := Robot(RobotMemberID(groupID, robotIndex), tierID, infoID, initScore, now, 0, 0, 0);
      AppendSpawned(newRobots, indices, groupID, base, robotIndex - 1, infos, usedBefore, usedInfoIDs, r, robotIndex);
      usedInfoIDs := usedInfoIDs + {infoID};
      newRobots := newRobots + [r];
      indices := indices + [robotIndex];
    }

    /** One entry of the plan; a tier that is unknown or too late is skipped. */
    method SpawnEntry(e: PlanEntry)
      requires Valid() && e.count > 0
      modifies this
      ensures Valid() && old(robotIndex) <= robotIndex <= old(robotIndex) + e.count
      ensures |newRobots| >= old(|newRobots|)
      ensures !CanSpawn(tiers, e.tierID, now, gameEndTime) ==>
                newRobots == old(newRobots) && robotIndex == old(robotIndex) && usedInfoIDs == old(usedInfoIDs)
      ensures CanSpawn(tiers, e.tierID, now, gameEndTime) ==>
                || |Unused(infos, usedBefore)| <= |newRobots|
                || |newRobots| == old(|newRobots|) + e.count
    {
      if !CanSpawn(tiers, e.tierID, now, gameEndTime) {
        return;
      }
      for i := 0 to e.count
        invariant Valid() && robotIndex == old(robotIndex) + i
        invariant |newRobots| == old(|newRobots|) + i
      {
        var ok := SpawnOne(e.tierID);
        if !ok {
          break;
        }
      }
    }

    ghost predicate AllCanSpawn(plan: seq<PlanEntry>) {
      forall e <- plan :: CanSpawn(tiers, e.tierID, now, gameEndTime)
    }

    /** The outer loop. */
    method SpawnEntries(plan: seq<PlanEntry>)
      requires Valid() && robotIndex == base && newRobots == []
      requires forall e <- plan :: e.count > 0
      modifies this
      ensures Valid() && robotIndex <= base + PlanTotal(plan)
      ensures AllCanSpawn(plan) && |Unused(infos, usedBefore)| >= PlanTotal(plan) ==> |newRobots| == PlanTotal(plan)
    {
      for k := 0 to |plan|
        invariant Valid() && robotIndex <= base + PlanTotal(plan[..k])
        invariant AllCanSpawn(plan) ==>
                    |Unused(infos, usedBefore)| <= |newRobots| || |newRobots| == PlanTotal(plan[..k])
      {
        TotalOfFront(plan, k);
        SpawnEntry(plan[k]);
      }
      assert plan[..|plan|] == plan;
    }
  }

  /**
    Spawn the robots of a group: at most as many as planned and as fit; all that are planned, if
    every tier may still spawn and the pool holds an unused info for each.
   */
  method SpawnRobots(groupID: int, capacity: int, tiers: seq<Tier>, infos: seq<int>,
                     existing: seq<Robot>, used: set<int>, now: int, gameEndTime: int)
    returns (robots: seq<Robot>, used': set<int>, ghost indices: seq<int>)
    ensures |robots| <= PlanTotal(SpawnPlan(tiers, capacity)) <= Max(capacity, 0)
    ensures
      var base := HighestIndex(groupID, existing);
      Spawned(robots, indices, groupID, base, base + PlanTotal(SpawnPlan(tiers, capacity)), infos, used, used')
    ensures forall r <- robots :: FreshRobot(r, TierMap(tiers), now, gameEndTime)
    ensures
      && (forall e <- SpawnPlan(tiers, capacity) :: CanSpawn(TierMap(tiers), e.tierID, now, gameEndTime))
      && |Unused(infos, used)| >= PlanTotal(SpawnPlan(tiers, capacity))
      ==> |robots| == PlanTotal(SpawnPlan(tiers, capacity))
  {
    var plan := BuildRobotSpawnPlan(tiers, capacity);
    PlanFillsTheCapacity(tiers, capacity);
    var s := new Spawner(groupID, tiers, infos, existing, used, now, gameEndTime);
    s.SpawnEntries(plan);
    return s.newRobots, s.usedInfoIDs, s.indices;
  }

  /**
    What the spawn's contract means for member ids: they are negative, no two new ones agree,
    none is in use in the group, and while indices stay below the stride none is an id of a
    robot of another group.
   */
  lemma SpawnedIDsAreNew(robots: seq<Robot>, indices: seq<int>, groupID: int, existing: seq<Robot>, last: int,
                         infos: seq<int>, used: set<int>, used': set<int>)
    requires groupID >= 0
    requires Spawned(robots, indices, groupID, HighestIndex(groupID, existing), last, infos, used, used')
    ensures forall i | 0 <= i < |robots| :: robots[i].memberID < 0
    ensures forall i, j | 0 <= i < j < |robots| :: robots[i].memberID != robots[j].memberID
    ensures forall r <- existing, n <- robots :: r.memberID != n.memberID
    ensures last < ID_STRIDE ==>
              forall n <- robots, g, k | g != groupID && 0 <= k < ID_STRIDE :: n.memberID != RobotMemberID(g, k)
  {
    HighestIndexIsHighest(groupID, existing);
    forall r <- existing, n <- robots ensures r.memberID != n.memberID {
      var i :| 0 <= i < |robots| && robots[i] == n;
      assert IndexOf(groupID, n.memberID) == indices[i];
    }
  }
}
