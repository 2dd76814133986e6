/**
  When a robot may grow, and to what: the lock window before the end, the cooldown between
  growths, and the target that is drawn from the leader's score.
 */
module RobotGrowth {
  import opened Arithmetic
  import opened Robots

  // ---------------------------------------------------------------- the target

  /** The factor that was drawn, or the lower bound where nothing is drawn. */
  function Factor(tier: Tier, input: TickInput): int {
    if input.firstScore <= 0 || tier.growTokenMinBps >= tier.growTokenMaxBps then tier.growTokenMinBps else input.bps
  }

  /** The target before the caps. */
  function Target(tier: Tier, input: TickInput): int {
    GrowTarget(input.firstScore, tier.growTokenMinBps, tier.growTokenMaxBps, input.bps)
  }

  /** The target is the leader's score times the factor in ten-thousandths, cut off towards zero. */
  lemma TargetIsAShareOfTheLeader(tier: Tier, input: TickInput)
    ensures
      var share, target := input.firstScore * Factor(tier, input), Target(tier, input);
      && (share >= 0 ==> target * 10_000 <= share < (target + 1) * 10_000)
      && (share < 0 ==> (target - 1) * 10_000 < share <= target * 10_000)
  {
    var share := input.firstScore * Factor(tier, input);
    DivBounds(if share >= 0 then share else -share, 10_000);
  }

  /** With a positive leader and a proper range the target lies between the two bounds' shares. */
  lemma TargetLiesInTheRange(tier: Tier, input: TickInput)
    requires input.firstScore > 0 && 0 <= tier.growTokenMinBps < tier.growTokenMaxBps
    requires PossiblePick(tier.growTokenMinBps, tier.growTokenMaxBps, input.bps)
    ensures tier.growTokenMinBps <= input.bps <= tier.growTokenMaxBps
    ensures Target(tier, input) * 10_000 <= input.firstScore * input.bps < (Target(tier, input) + 1) * 10_000
    ensures input.firstScore * tier.growTokenMinBps - 10_000 < Target(tier, input) * 10_000
         <= input.firstScore * tier.growTokenMaxBps
  {
    TargetIsAShareOfTheLeader(tier, input);
    MulMonotone(tier.growTokenMinBps, input.bps, input.firstScore);
    MulMonotone(input.bps, tier.growTokenMaxBps, input.firstScore);
    MulMonotone(0, input.bps, input.firstScore);
  }

  /** The caps: the result is the least of the target, the cap of the tier, and the leader's. */
  lemma CappedTargetIsTheLeast(tier: Tier, input: TickInput)
    ensures
      var capped, leader := CappedTarget(tier, input), input.realFirstScore + tier.maxDifferenceToken;
      && capped <= Target(tier, input) && capped <= tier.maxToken
      && (input.realFirstScore > 0 ==> capped <= leader)
      && (capped == Target(tier, input) || capped == tier.maxToken || (input.realFirstScore > 0 && capped == leader))
  {
  }

  // ---------------------------------------------------------------- one tick

  /** In the last `lockTokenTimeMs` before the end a tick changes nothing, for any robot. */
  lemma LockedTickChangesNothing(robot: Robot, tier: Tier, input: TickInput)
    requires input.gameEndTime > 0 && input.now >= input.gameEndTime - tier.lockTokenTimeMs
    ensures TickRobot(robot, tier, input) == robot
  {
  }

  /** The tick looks for a growth: it is not locked, owes nothing, and the cooldown is over. */
  predicate LooksForGrowth(robot: Robot, tier: Tier, input: TickInput) {
    && !(input.gameEndTime > 0 && input.now >= input.gameEndTime - tier.lockTokenTimeMs)
    && robot.pendingScore == 0
    && input.now >= robot.lastGrowAt + tier.growTokenCdMs
  }

  /**
    Exactly when a robot grows, that is, when what it has and is owed rises: if the tick looks for
    a growth and finds a target above the score; then it is the target. And exactly the ticks that
    look for a growth start the cooldown again, whether they find one or not.
   */
  lemma GrowsIff(robot: Robot, tier: Tier, input: TickInput)
    requires Healthy(robot, tier)
    ensures
      var r := TickRobot(robot, tier, input);
      && (r.Total() > robot.Total() <==> LooksForGrowth(robot, tier, input) && CappedTarget(tier, input) > robot.score)
      && (r.Total() > robot.Total() ==> r.Total() == CappedTarget(tier, input))
      && r.lastGrowAt == (if LooksForGrowth(robot, tier, input) then input.now else robot.lastGrowAt)
  {
    TickConserves(robot, tier, input);
    if tier.Staged() && LooksForGrowth(robot, tier, input) && CappedTarget(tier, input) > robot.score {
      SlicesArePositive(tier);
      SliceCoversDelta(CappedTarget(tier, input) - robot.score, tier.Slices());
    }
  }

  /** A growth that is not staged is paid at once; a staged one leaves at most the first slice paid. */
  lemma GrowthIsPaid(robot: Robot, tier: Tier, input: TickInput)
    requires Healthy(robot, tier) && TickRobot(robot, tier, input).Total() > robot.Total()
    ensures
      var r := TickRobot(robot, tier, input);
      var delta := CappedTarget(tier, input) - robot.score;
      if tier.overtakeTimeMs > 0 && tier.overtakeIntervalMs > 0 then
        var n := CeilDiv(tier.overtakeTimeMs, tier.overtakeIntervalMs);
        && n >= 1 && r.score == robot.score + CeilDiv(delta, n)
        && r.pendingPerSlice == CeilDiv(delta, n) && r.pendingStartAt == input.now
      else
        && r.score == CappedTarget(tier, input) && r.pendingScore == 0
        && (r.pendingPerSlice, r.pendingStartAt) == (robot.pendingPerSlice, robot.pendingStartAt)
  {
    GrowsIff(robot, tier, input);
    if tier.Staged() {
      SlicesArePositive(tier);
      SliceCoversDelta(CappedTarget(tier, input) - robot.score, tier.Slices());
    }
  }

  /** A tick never changes who the robot is, and one that neither pays nor looks for growth nothing at all. */
  lemma TickKeepsTheRobot(robot: Robot, tier: Tier, input: TickInput)
    requires Healthy(robot, tier)
    ensures
      var r := TickRobot(robot, tier, input);
      && (r.memberID, r.tierID, r.infoID) == (robot.memberID, robot.tierID, robot.infoID)
      && (r.score == robot.score && !LooksForGrowth(robot, tier, input) ==> r == robot)
      && (r.score == robot.score && LooksForGrowth(robot, tier, input) ==> r == robot.(lastGrowAt := input.now))
  {
    if tier.Staged() && LooksForGrowth(robot, tier, input) && CappedTarget(tier, input) > robot.score {
      SlicesArePositive(tier);
      SliceCoversDelta(CappedTarget(tier, input) - robot.score, tier.Slices());
    }
  }

  // ---------------------------------------------------------------- runs

  /** The robot grows at this tick of the run. */
  predicate GrowsAt(robot: Robot, tier: Tier, inputs: seq<TickInput>, i: nat)
    requires i < |inputs|
    decreases i
  {
    if i == 0 then TickRobot(robot, tier, inputs[0]).Total() > robot.Total()
    else GrowsAt(TickRobot(robot, tier, inputs[0]), tier, inputs[1..], i - 1)
  }

  /** No growth before the cooldown since the last one is over. */
  lemma {:induction false} NoGrowthInTheCooldown(robot: Robot, tier: Tier, inputs: seq<TickInput>, i: nat, since: int)
    requires Healthy(robot, tier) && robot.lastGrowAt >= since
    requires i < |inputs| && InTimeOrder(since, inputs) && GrowsAt(robot, tier, inputs, i)
    ensures inputs[i].now >= since + tier.growTokenCdMs
    decreases i
  {
    GrowsIff(robot, tier, inputs[0]);
    if i > 0 {
      TickConserves(robot, tier, inputs[0]);
      TimePasses(since, inputs[0].now, inputs[1..]);
      NoGrowthInTheCooldown(TickRobot(robot, tier, inputs[0]), tier, inputs[1..], i - 1, since);
    }
  }

  lemma TimePasses(since: int, later: int, inputs: seq<TickInput>)
    requires since <= later && InTimeOrder(later, inputs)
    ensures InTimeOrder(since, inputs)
  {
  }

  /** Over any run of ticks in time order, two growths of a robot are at least a cooldown apart. */
  lemma {:induction false} GrowthsAreACooldownApart(robot: Robot, tier: Tier, inputs: seq<TickInput>, i: nat, j: nat)
    requires Healthy(robot, tier) && i < j < |inputs|
    requires InTimeOrder(inputs[0].now, inputs)
    requires GrowsAt(robot, tier, inputs, i) && GrowsAt(robot, tier, inputs, j)
    ensures inputs[j].now - inputs[i].now >= tier.growTokenCdMs
    decreases i
  {
    var next, rest := TickRobot(robot, tier, inputs[0]), inputs[1..];
    TickConserves(robot, tier, inputs[0]);
    GrowsIff(robot, tier, inputs[0]);
    if i == 0 {
      NoGrowthInTheCooldown(next, tier, rest, j - 1, inputs[0].now);
    } else {
      GrowthsAreACooldownApart(next, tier, rest, i - 1, j - 1);
    }
  }
}
