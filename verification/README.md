# A verified model of a multi-node leaderboard server

The server runs ranked activities: players are put into groups, robots fill the groups up, the
activity settles, players claim rewards, and an activity may be cut into periodic rounds. Several
nodes do this at once; Redis is a cache that may lose data, Mongo is permanent. This project models
the parts of the server whose correctness is decided by its own code, and proves what they promise.

| file | subject |
|---|---|
| `claim_protocol.dfy`, `claim_runs.dfy` | reward claims, one Redis or Mongo access at a time; any interleaving, failure and cache loss |
| `claim_store.dfy` | the same operations run alone, on stores updated in place, against one permanent map |
| `rounds.dfy`, `cycles.dfy` | round arithmetic with one fixed cycle, and with cycles reconfigured under way |
| `periodic.dfy` | the periodic handler of one node, updated in place |
| `advances.dfy`, `reports.dfy` | exactly what a tick does, and what a node reports after any cycle changes |
| `cluster.dfy`, `cluster_rounds.dfy`, `cluster_examples.dfy` | many nodes, one Redis round key, one Mongo document; overlapping calls, late and reordered saves |
| `robots.dfy`, `growth.dfy`, `spawn.dfy` | how and when robots grow, and how they are spawned |
| `groups.dfy`, `service.dfy` | group allocation and settlement: the values, and the object updated in place |
| `group_allocation.dfy`, `settlement.dfy` | what every run of the two keeps, one operation at a time |
| `service_runs.dfy`, `mark_soundness.dfy` | the same with score writes and settlements that overlap |
| `timed_store.dfy`, `retention.dfy` | keys with expiries, and what the store's discipline achieves, operation by operation |
| `store_runs.dfy` | the same operations as Redis commands, interleaved with other calls, losses and crashes |
| `bizids.dfy` | the names under which data is stored |

The pattern is the same throughout. Code that changes state is a class or a method, proved to have
exactly the effect of a function on values; the properties are lemmas about those functions, for
every input, every run and every reachable state. A run is any sequence of actions; an action that
is not enabled does nothing. Times are Unix milliseconds. Integers are mathematical;
`Rounds.RoundsFitInt32` gives the bound under which round numbers fit the program's `int32`.
Random choices, the clock, the outcome of remote calls, the configured cycle and what Mongo holds
are parameters.

`dafny verify dfyconfig.toml` checks the whole project.

## Where the code falls short of its promises

Each of these has a lemma with a concrete run, a lemma with the exact condition, or both.

- A cached "not claimed" survives a historical claim, which bypasses Redis, and a later query then
  denies the claim (`ClaimStore.StaleSentinelDeniesAClaim`; exactly when:
  `ClaimStore.OnlyHistoricalClaimsStaleASentinel`, `ClaimStore.SequenceAnswersAsOneMapIff`).
- A claim whose insert reaches Mongo but whose call fails is never paid, and every later claim is
  refused (`ClaimRuns.InsertThenFailLosesIff`, `ClaimRuns.UnpaidForGood`).
- A claim that stops between its script and its insert may block the reward
  (`ClaimRuns.CrashedClaimBlocksTheReward`; exactly when: `ClaimRuns.FailureBlocksIff`, and until
  when: `ClaimRuns.BlockingEndsIff`).
- After a shortened cycle an advance may open a window in the future
  (`Cycles.ShortenedCycleOpensTheFuture`, `Cycles.AdvanceContainsNowIff`).
- Ticks of two nodes that overlap, because a lock lapsed or belongs to another round, lower the
  round in Redis, and in Mongo even with saves in order; so does a save that overtakes another
  (`ClusterExamples.OverlappingTicksLowerBothRounds`, `ClusterExamples.OvertakenSaveLowersMongo`;
  exactly when: `ClusterRounds.RoundNeverDropsIff`, `ClusterRounds.MongoInOrderNeverDropsIff`).
- The list of rounds stops before the current one when the round before it would, with the first
  cycle, open after the activity has closed, as after a shortened cycle
  (`Reports.ShortenedCycleCutsTheList`; exactly when: `Reports.ListIsCutShortIff`).
- A score write that overlaps a settlement may create a group the settlement has not copied, or
  fill a settled one and declare it full, while the service is marked settled
  (`MarkSoundness.LateWriteIsLost`, `MarkSoundness.UncopiedGroupIsLost`,
  `MarkSoundness.RefilledGroupIsLost`; exactly when: `MarkSoundness.StepHarmsIff`).
- A GM who settles before the activity opens leaves a group that no tick settles
  (`Settlement.SettlingBeforeOpeningHarmsIff`), and so may one who edits the times
  (`Settlement.ReopenedWritingSkipsAGroup`, `Settlement.MovingTheTimeBackSkipsAGroup`; exactly
  when: `Settlement.EditNeglectsAGroupIff`).
- The comment in AtomicClaim says one EXPIRE covers all its write branches. It does not if the
  restoring HSET finds the hash gone: the hash is then permanent, as is a key whose writer crashes
  before its EXPIRE (`StoreRuns.RestoredHashIsPermanent`; exactly when:
  `StoreRuns.StepLeavesPermanentIff`). The model follows the code.
- An empty business type is formatted but never parsed back (`BizIds.ParsingRecoversTheActivity`).

## Model

| member | source | states |
|---|---|---|
| ClaimRuns.FirstClaimHappensAtMostOnce | internal/rank/engine/store.go:783-869 | From any stores, however calls interleave, fail, lose their cache or have their cache writes ignored: at most one claim per user is told to hand out the reward, none if Mongo had the claim before; it returns Mongo's time; "matched but not found" is unreachable |
| ClaimRuns.WinnersStayRecorded | internal/rank/engine/store.go:795-869 | The inductive invariant behind it: one action of any kind keeps winners unique and recorded in Mongo |
| ClaimRuns.MongoTimesArePermanent | internal/rank/engine/dao.go:406-436 | Between any two moments of any run a claim time in Mongo neither changes nor disappears |
| ClaimRuns.RefusalsNameRealTimes | internal/rank/engine/store.go:795-957 | However calls overlap and fail: an answer "already claimed" names Mongo's time for the key, the moment of some claim on it, or a time Redis held at the start; a historical claim always Mongo's |
| ClaimRuns.AdvanceIsAnAccess | internal/rank/engine/store.go:817-868 | Each access of a call writes Redis only with the sentinel, Mongo's time, or a time the call itself will still persist or overwrite |
| ClaimRuns.AccessKeepsSettling | internal/rank/engine/store.go:817-868 | Every time in Redis is Mongo's or owned by a call under way, and every finished claim has a record or a call under way; each access keeps this |
| ClaimRuns.QuiescentClaimsAgree | internal/rank/engine/store.go:795-960 | Without failed calls and failed restores, from empty stores, once all calls have returned: exactly one winner on each claimed key, and Redis holds nothing, the sentinel, or Mongo's time |
| ClaimRuns.FailureBlocksIff | internal/rank/engine/store.go:817-868 | In every state a run without failures reaches, a failing call blocks a key exactly if it is its own, its script has run, Mongo has no claim, Redis holds a time, and no other call on the key is past its script |
| ClaimRuns.BlockedClaimIsRefused | internal/rank/engine/store.go:783-833 | A claim on a blocked key is refused with a time nobody was paid for, and changes nothing |
| ClaimRuns.BlockingEndsIff | internal/rank/engine/store.go:795-957 | A block ends exactly by a loss of the field, an insert by a claim that bypasses Redis, or the sentinel of a late query |
| ClaimRuns.CrashedClaimBlocksTheReward | internal/rank/engine/store.go:835-859 | A run in which it happens: no winner, no record, yet the next claim is refused |
| ClaimRuns.InsertThenFailLosesIff | internal/rank/engine/store.go:855-860 | A call that fails after its insert leaves a claim nobody was paid for exactly if that insert was the first on the key; else it changes nothing |
| ClaimRuns.UnpaidForGood | internal/rank/engine/store.go:795-869 | Such a reward is never handed out, whatever any calls do later |
| ClaimStore.ClaimStore.SaveClaimIfNotExists | internal/rank/engine/dao.go:406-436 | Inserts unless present, tells which, and returns the time on record |
| ClaimStore.ClaimStore.AtomicClaim | internal/rank/engine/store.go:795-869 | In place, alone: leaves the stores and gives the answer that the step-by-step call gives |
| ClaimStore.ClaimStore.GetClaim | internal/rank/engine/store.go:919-957 | The same for the query with its backfill and its negative sentinel |
| ClaimStore.ClaimStore.ClaimHistoricalReward | internal/rank/periodic/handler.go:603-618 | The same for the claim that bypasses Redis |
| ClaimStore.UninterruptedCallCompletes | internal/rank/engine/store.go:795-957 | In the interleaved system a call with nothing between its accesses does what the in-place operation does |
| ClaimStore.CallsLeaveTheirAnswerInRedis | internal/rank/engine/store.go:783-957 | Alone, a claim and a query leave exactly their own answer in Redis, as a time or the sentinel, a historical claim leaves Redis alone, and no call touches another key |
| ClaimStore.CallAnswersAsOneMap | internal/rank/engine/store.go:795-957 | A call keeps caches coherent, leaves Mongo as the permanent map would be, and answers as the map does if and only if it is not a query that hits a stale sentinel |
| ClaimStore.OnlyHistoricalClaimsStaleASentinel | internal/rank/periodic/handler.go:603-618 | A sentinel becomes stale exactly when a first historical claim meets a cached field |
| ClaimStore.StoresAnswerAsOneMap | internal/rank/engine/store.go:795-957 | Any sequence of AtomicClaim and GetClaim with any evictions is answered as by one permanent map |
| ClaimStore.SequenceAnswersAsOneMapIff | internal/rank/engine/store.go:795-957 | With historical claims in the sequence as well, all answers are the map's if and only if no query meets a stale sentinel |
| ClaimStore.StaleSentinelDeniesAClaim | internal/rank/periodic/handler.go:603-618 | Query, historical claim, query: the second query denies the claim |
| ClaimStore.ClaimsAnswerAsOneMap | internal/rank/periodic/handler.go:603-618 | Claims of both kinds never answer wrongly, whatever Redis remembers |
| Rounds.RoundsStartBeforeClose | internal/rank/periodic/state.go:174-185 | maxRound counts exactly the rounds that open before the activity closes, and there is at least one |
| Rounds.GridTilesTheActivity | internal/rank/periodic/state.go:119-151 | The windows of rounds 1..maxRound are not empty and tile the activity without gap or overlap |
| Rounds.ExactlyOneRoundContains | internal/rank/periodic/state.go:158-172 | A moment of the activity lies in the window of round r if and only if r is computeRoundAt of that moment |
| Rounds.RoundAtOutsideTheActivity | internal/rank/periodic/state.go:158-172 | Before the activity the round is 1, after it maxRound, always within both |
| Rounds.RoundAtIsMonotone | internal/rank/periodic/state.go:158-172 | The computed round never goes back as time goes on |
| Rounds.ThreeBranchesAgree | internal/rank/periodic/state.go:119-151 | With a fixed cycle the saved, the chained and the closed-form branch give one function of the round |
| Rounds.NewStateIsOnGrid | internal/rank/periodic/state.go:271-288 | A new state starts in the round of the present with that round's window |
| Rounds.OneAdvanceCatchesUp | internal/rank/periodic/state.go:208-233 | However many rounds late, one advance lands on the round that contains now, without truncation or fallback |
| Rounds.RoundsFitInt32 | internal/rank/periodic/state.go:158-185 | Round numbers of an activity shorter than 2^31 minutes fit an int32 |
| Advances.WithoutACycleThereIsOneRound | internal/rank/periodic/state.go:119-185 | Without a cycle the one round is the whole activity, and an empty activity has one round |
| Advances.WindowsBeforeTheFirstRound | internal/rank/periodic/state.go:119-151 | A state without a window computes all windows from the start of the activity |
| Advances.RestoredStateHasABase | internal/rank/periodic/state.go:249-266 | Restoring changes nothing but a missing first cycle, and twice is once |
| Advances.MovesToARoundIff | internal/rank/periodic/state.go:221-233 | A state moves to a round exactly if it is a later one that opens before the activity closes |
| Advances.OnlyDueTicksAct | internal/rank/periodic/handler.go:198-262 | Without the lock, without the service, before the round's close or after the activity's, a tick changes, writes and saves nothing; one that serves could register |
| Advances.FailedRegistrationKeepsTheRound | internal/rank/periodic/handler.go:313-318 | If the next round cannot be registered nothing is served or written, and at most a new cycle is taken over and saved |
| Advances.CycleChangeOpensTheNextRound | internal/rank/periodic/handler.go:273-320 | A new cycle, longer or shorter: the old state is saved with it, and the very next round opens where the current one closes, for one new cycle or until the activity closes |
| Advances.OnlyANewCycleIsTakenOver | internal/rank/periodic/handler.go:273-299 | The cycle changes exactly if a tick may advance and the configuration names another positive one |
| Advances.PlainAdvanceOpensTheTarget | internal/rank/periodic/handler.go:266-320 | Without a new cycle, from any reachable state: the clock's round or at least the next, with a window as many cycles after the current close as rounds are skipped, if that opens in the activity and can be registered; otherwise nothing |
| Cycles.TickMovesForward | internal/rank/periodic/handler.go:222-342 | Any tick, any configuration and any outcome: nothing moves, or a later round opens no earlier than the current one closes and is what was served, written and saved |
| Cycles.ServedWindowsAreDisjointAndOrdered | internal/rank/periodic/handler.go:222-342 | Over any run with any positive cycle changes, also before refused or failed advances, served rounds rise and their windows are not empty, ordered, disjoint and inside the activity |
| Cycles.NewActivityServesDisjointWindows | internal/rank/periodic/handler.go:133-342 | So from the registration of any activity at any moment |
| Cycles.AdvanceContainsNowIff | internal/rank/periodic/state.go:208-233 | Exactly when an advance opens a window that contains the present: the drift lies within one cycle below the phase, or the state is less than one cycle late |
| Cycles.NoDriftNoGap | internal/rank/periodic/state.go:208-233 | A state on the grid meets that condition at every moment |
| Cycles.ShortenedCycleOpensTheFuture | internal/rank/periodic/handler.go:273-299 | From 60 to 30 minutes: [120,150) is followed at 150 by round 6 at [210,240) |
| Cycles.OnGridIsNotLate | internal/rank/periodic/state.go:271-288 | A state with an unchanged cycle closes its round no later than the grid, which starts the induction |
| Cycles.GrowingCyclesNeverOpenTheFuture | internal/rank/periodic/handler.go:266-320 | If a tick meets no shorter cycle, it keeps the round no later than its grid and opens no window after now |
| Cycles.GrowingActivityNeverOpensTheFuture | internal/rank/periodic/handler.go:133-342 | From registration, over any run of ticks in which the cycle never shrinks, every round served opened in its past |
| Cycles.UnobstructedTickServes | internal/rank/periodic/handler.go:222-342 | A tick that is due, holds the lock and can register does serve a later round |
| Cycles.SameCycleWindowsAgreeIff | internal/rank/periodic/state.go:131-134 | Two nodes with one cycle now, whatever cycles they had, agree on the window of a round ahead of both if and only if their drifts are equal |
| Cycles.ServingKeepsTheDrift | internal/rank/periodic/state.go:221-233 | Serving a round keeps the drift exactly if the end of the activity does not cut the round short |
| Cycles.CatchUpReachesThePresent | internal/rank/periodic/handler.go:266-320 | Repeated advances at a frozen now end, with the time left to the close as measure, in a window that contains now |
| Periodic.PeriodicState.FromSaved | internal/rank/periodic/state.go:249-266 | A restored state is the saved one, with the base cycle filled in for old documents |
| Periodic.PeriodicState.FirstRegistered | internal/rank/periodic/state.go:271-288 | A registered state is the new state of the round arithmetic |
| Periodic.PeriodicState.AdvanceToRound | internal/rank/periodic/state.go:221-233 | In place: refused, leaving the state, or moved to the round and its window |
| Periodic.Handler.Register | internal/rank/periodic/handler.go:133-195 | Only a new key with lock and registered round is added, with its round key and saved document; everything else stays |
| Periodic.Handler.AdoptFromMongo | internal/rank/manager.go:1098-1108 | A document replaces the state only if it is unknown or behind |
| Periodic.Handler.AdvanceRound | internal/rank/periodic/handler.go:222-342 | Leaves exactly the state, round key and queued saves of the advance on values, which the rows of Advances characterize exit by exit |
| Periodic.Handler.TickOne | internal/rank/periodic/handler.go:198-215 | One activity is ticked; state, round key and saves of all others stay |
| Periodic.Handler.TickAll | internal/rank/periodic/handler.go:198-215 | Every activity is ticked once, independently of the order |
| Periodic.Handler.GetRoundInfos | internal/rank/periodic/handler.go:622-643 | Lists the started rounds in order, up to the current one or the first that does not fit |
| Periodic.Handler.GetCurrentRoundInfo | internal/rank/periodic/handler.go:647-664 | The reported round is at least the node's and at least Redis's, and is one of them; it comes with its window |
| Periodic.RoundInfosTileTheActivity | internal/rank/periodic/handler.go:622-643 | With a fixed cycle the list is complete, tiles the activity, and ends with the served window |
| Reports.StartedRoundsHaveTheseWindows | internal/rank/periodic/state.go:119-151 | Whatever cycles came and went: the current round has its saved window, an earlier one that of the first cycle, cut at the close |
| Reports.CycleChangeMovesNoStartedRound | internal/rank/periodic/state.go:119-151 | A change of the cycle moves no round that has started |
| Reports.CurrentRoundIsReported | internal/rank/periodic/handler.go:647-664 | The current round is reported with its saved window, as over exactly once that has closed |
| Reports.ListedRoundsAreReported | internal/rank/periodic/handler.go:622-643 | Number, window, settled and current of each listed round, after any cycle changes |
| Reports.ListIsCutShortIff | internal/rank/periodic/handler.go:622-643 | The list lacks the current round exactly if the round before it would, with the first cycle, open after the close |
| Reports.ShortenedCycleCutsTheList | internal/rank/periodic/handler.go:622-643 | A state reached by shortening the cycle in which that is so |
| Reports.LastServedIsReported | internal/rank/periodic/handler.go:622-664 | After any ticks with any cycles in between, the round reported as current is the one served last, with the window it was served in |
| Periodic.LaggingNodeReportsTheServedWindow | internal/rank/periodic/handler.go:647-664 | A node that lags reports a later round with the window in which the advanced node serves it |
| Cluster.TickOpensTheRoundOf | internal/rank/periodic/handler.go:222-342 | A tick with a fixed cycle, given any moment up to now, changes nothing or opens exactly that moment's round, a later one |
| Cluster.UninterruptedTick | internal/rank/periodic/handler.go:222-342 | In the interleaved cluster a tick with nothing between its steps does what the handler's tick does |
| Cluster.NodesAgreeOnEveryRound | internal/rank/periodic/handler.go:133-342 | Any nodes, with calls that overlap, fail half way, or have their writes ignored, restarts, adoption and reordered saves: every copy has the closed-form window of its round and none is ahead of the clock |
| Cluster.NodeRoundNeverDecreases | internal/rank/manager.go:1098-1108 | The round of a node that does not restart never decreases, whichever calls overlap |
| Cluster.NodesServeCompatibleWindows | internal/rank/periodic/state.go:119-151 | Two nodes on one round serve one window, on different rounds disjoint windows in order |
| ClusterRounds.RoundNeverDropsIff | internal/rank/periodic/handler.go:222-342 | The round in Redis, and the one in Mongo, never decreases over a run if and only if the key is set, or the saves arrive, in the order of the rounds of the moments their calls were given |
| ClusterRounds.MongoInOrderNeverDropsIff | internal/rank/engine/dao.go:78-92 | With all saves arriving in the order they were queued, Mongo's round never decreases if and only if they were queued in the order of their rounds |
| ClusterRounds.SeparateCallsNeverLowerARound | internal/rank/periodic/handler.go:676-686 | If no two calls overlap, neither round decreases, however many nodes write it |
| ClusterExamples.OverlappingTicksLowerBothRounds | internal/rank/periodic/handler.go:222-342 | A run in which a tick outlives its lock: Redis falls from 3 to 2, and Mongo too with saves in order |
| ClusterExamples.OvertakenSaveLowersMongo | internal/rank/engine/dao.go:78-92 | A run with calls in turn in which a save overtakes another, Mongo's round falls, and a starting node adopts it |
| Robots.RobotState.TickRobotScore | internal/rank/engine/robot.go:128-200 | In place: the robot becomes what the tick on values makes of it for some pick in range, and its score is returned |
| Robots.RobotState.GrowBy | internal/rank/engine/robot.go:180-199 | In place: a growth at once, or with the first slice released and the rest owed |
| Robots.RobotState.CalcGrowTarget | internal/rank/engine/robot.go:222-228 | The target is a pick from the range, or the lower bound where there is no choice, with truncating division |
| RobotGrowth.TargetIsAShareOfTheLeader | internal/rank/engine/robot.go:222-228 | The target is the leader's score times the factor in ten-thousandths, cut off towards zero |
| RobotGrowth.TargetLiesInTheRange | internal/rank/engine/robot.go:222-228 | With a positive leader and a proper range it is that of the pick, and lies between the shares of the two bounds |
| RobotGrowth.CappedTargetIsTheLeast | internal/rank/engine/robot.go:158-170 | What is aimed at is the least of target, tier cap and leader's cap |
| RobotGrowth.LockedTickChangesNothing | internal/rank/engine/robot.go:128-132 | In the last LockTokenTimeMs before the end a tick changes nothing, for any robot |
| RobotGrowth.GrowsIff | internal/rank/engine/robot.go:134-178 | A robot grows exactly if it is not locked, owed nothing, past its cooldown and below the capped target, and then to it; exactly the ticks that look for a growth restart the cooldown |
| RobotGrowth.GrowthIsPaid | internal/rank/engine/robot.go:180-199 | A growth is paid at once, or its first slice is and the rest scheduled from now |
| RobotGrowth.TickKeepsTheRobot | internal/rank/engine/robot.go:128-200 | A tick that pays nothing changes nothing but the start of the cooldown |
| RobotGrowth.GrowthsAreACooldownApart | internal/rank/engine/robot.go:150-153 | Over any run in time order two growths of a robot are at least GrowTokenCdMs apart |
| Robots.TickConserves | internal/rank/engine/robot.go:128-200 | A tick never lowers the score, a release keeps score plus pending, and only a growth raises it, to the target within both caps |
| Robots.RunsConserveAndCap | internal/rank/engine/robot.go:128-200 | Over any run the score never falls, pending is never negative, and the total stays within MaxToken |
| Robots.RobotsStayNearTheLeader | internal/rank/engine/robot.go:158-170 | While a real leader's score is positive and never falls, no robot leads it by more than allowed, unless it did at the start |
| Robots.SlicesArePositive | internal/rank/engine/robot.go:180-185 | The number of slices is the least that covers the overtake time |
| Robots.SliceCoversDelta | internal/rank/engine/robot.go:186-190 | A slice is positive, at most the whole, and all slices cover the whole |
| Robots.GrowthReleasesTheFirstSlice | internal/rank/engine/robot.go:180-195 | A tick that raises a score starts a staged release with one slice paid |
| Robots.ReleaseFollowsTheFormula | internal/rank/engine/robot.go:134-148 | Until the next growth, with ticks at most one interval apart and not locked while something is owed, the score is s0 + min(delta, p*(1+floor((now-t0)/interval))) |
| Robots.ReleaseNeverExceedsTheFormula | internal/rank/engine/robot.go:206-219 | Until the next growth, for any spacing of ticks, locked or not, the score never exceeds that |
| Robots.ReleaseEndsInTime | internal/rank/engine/robot.go:180-219 | With such ticks, whatever follows, everything is released by the first tick at or after t0+(n-1)*interval, growths of fewer slices included, and that moment is before t0+OvertakeTimeMs |
| Robots.GrowthIsReleasedByTheFormula | internal/rank/engine/robot.go:128-219 | All three for a growth as the code makes it, up to the capped target |
| Robots.StagedReleaseExample | internal/rank/engine/robot.go:180-219 | A growth that meets the conditions of these results and needs fewer slices than planned: 1, 2, 3, 3 |
| Spawn.BuildRobotSpawnPlan | internal/rank/engine/robot.go:65-82 | The loop computes the greedy plan |
| Spawn.PlanFillsTheCapacity | internal/rank/engine/robot.go:65-93 | The plan's total is min(max(capacity,0), sum of positive Num), and no entry is empty |
| Spawn.PlanIsGreedy | internal/rank/engine/robot.go:65-82 | What the first tiers get does not depend on the tiers behind them |
| Spawn.PlanGivesEachTierItsShare | internal/rank/engine/robot.go:65-82 | Each tier id gets what its tiers want, as far as the tiers before them leave room |
| Spawn.TotalRobotsInPlan | internal/rank/engine/robot.go:85-91 | The loop adds up the plan |
| Spawn.MemberIDsCollideIff | internal/rank/engine/robot.go:17-19 | Exactly when two robots of any groups get one member id; never with indices below the stride |
| Spawn.NextIndexBase | internal/rank/engine/service_robot.go:142-149 | The loop finds the highest index in use |
| Spawn.HighestIndexIsHighest | internal/rank/engine/service_robot.go:142-149 | No robot of the group has a higher index |
| Spawn.PickRobotInfo | internal/rank/engine/robot.go:96-108 | Fails exactly when no info is unused, else returns one that is |
| Spawn.InitRobotScore | internal/rank/engine/robot.go:111-116 | A score within the range, the lower bound if the range is empty |
| Spawn.TierMapFindsTheLast | internal/rank/engine/service.go:116-124 | Of several tiers with one id the last is found |
| Spawn.TierMapFindsNoOther | internal/rank/engine/service_robot.go:315-317 | An id is found exactly if a tier has it |
| Spawn.Spawner.SpawnOne | internal/rank/engine/service_robot.go:164-200 | One attempt takes an index; it gives a new robot unless the infos are spent |
| Spawn.Spawner.SpawnEntry | internal/rank/engine/service_robot.go:155-200 | A tier that may spawn gets all its robots, or the infos are spent; another gets none and uses no index |
| Spawn.SpawnRobots | internal/rank/engine/service_robot.go:125-217 | At most the planned robots, with rising new indices, distinct unused infos and clamped fresh scores; all planned ones if tiers and infos allow |
| Spawn.SpawnedIDsAreNew | internal/rank/engine/service_robot.go:142-172 | Spawned ids are negative, distinct, new to the group, and unknown to other groups while indices are below 10000 |
| Spawn.FreshRobotIs | internal/rank/engine/service_robot.go:159-186 | A spawned robot's tier is not in its lock window, its score is in range and capped, it is owed nothing, and its cooldown starts now |
| Spawn.FreshRobotsStayCapped | internal/rank/engine/service_robot.go:170-186 | A spawned robot meets the conditions of the ticks, and over any run of them its total stays within MaxToken |
| Service.Group.Join | internal/rank/engine/service.go:513-537 | In place: one player more, the planned robots with the first, full with the last |
| Service.Service.EnsureGroup | internal/rank/engine/group.go:16-51 | In place: the first open group with room, else a new one appended |
| Service.Service.UpsertScore | internal/rank/engine/service.go:490-543 | In place: refused while writing is not allowed, else the user has a group; nothing else changes |
| Service.Service.Settle | internal/rank/engine/service.go:731-830 | In place: groups settle up to a failing call; the mark is set only if all settled and writing is over |
| Service.Service.Tick | internal/rank/engine/service.go:440-487 | In place: settles when due and not yet marked for this settlement time |
| Service.Service.IsSettled | internal/rank/engine/service.go:948-980 | By the mark once writing is over, else by all groups, of which there is at least one |
| Service.Service.UpdateConfig | internal/rank/engine/service.go:1025-1046 | In place: positive fields replace the old ones and the copied settlement time follows |
| GroupAllocation.RunsStayAllocated | internal/rank/engine/service.go:490-543 | Over any run of writes, settlements, ticks and edits of the times: distinct ids, exact counts, capacity kept, full means full, at most one open group; users keep their group, settled groups stay as they are |
| GroupAllocation.NewServiceStaysAllocated | internal/rank/engine/service.go:95-115 | So for every state a new service reaches |
| GroupAllocation.JoinKeepsCapacity | internal/rank/engine/service.go:524-537 | Real players plus planned robots never exceed RankPeopleNum |
| GroupAllocation.JoinBringsTheRobots | internal/rank/engine/service.go:527-533 | The first player brings exactly the robots that fit and are wanted, a later one none |
| GroupAllocation.GroupsHaveTheirRobots | internal/rank/engine/service.go:513-537 | Over any run of a new service, a group with a player has min(max(RankPeopleNum-1,0), sum of positive Num) robots if tiers and infos are configured, and any other group none |
| GroupAllocation.NewUserJoinsTheOpenGroup | internal/rank/engine/group.go:16-51 | A new user joins the open group if there is one, else a new group with the next id |
| ServiceRuns.OverlappingRunsStayAllocated | internal/rank/engine/service.go:490-543 | With score writes and settlements in pieces that overlap: distinct ids, exact counts, capacity, full groups full, at most one open group, and every user keeps their group |
| ServiceRuns.OverlappingGroupsHaveTheirRobots | internal/rank/engine/service.go:513-537 | So also when all operations overlap |
| ServiceRuns.SettledGroupChangesIff | internal/rank/engine/service.go:533-537 | A settled group changes exactly if a write joins that picked it before it was settled, and ceases to be settled exactly if that write fills it |
| ServiceRuns.UninterruptedUpsert | internal/rank/engine/service.go:490-543 | A score write with nothing between its pieces does what the service's operation does |
| ServiceRuns.UninterruptedSettle | internal/rank/engine/service.go:731-830 | A settlement with nothing between its pieces and no failing call does what the service's operation does |
| ServiceRuns.UninterruptedTick | internal/rank/engine/service.go:440-487 | And a tick what the service's tick does |
| Settlement.ShortcutIsSound | internal/rank/engine/service.go:731-830 | With one operation at a time, fixed times, a clock that does not go back, ticks at any moments and failing RPCs, and no GM settlement before the opening, if there is one: a service marked settled has settled every group and accepts no later score |
| Settlement.TicksBeforeOpeningAreOrderly | internal/rank/manager.go:117-176 | The tick loop's runs, before the opening or after it, meet those conditions |
| Settlement.ShortcutIsTransparent | internal/rank/engine/service.go:948-980 | With the shortcut, settling and asking give what they give without it |
| Settlement.DueTickSettlesEveryGroup | internal/rank/engine/service.go:440-487 | With one operation at a time: whatever happened before, early GM settlements included, a due tick leaves every group settled |
| Settlement.EarlyTickDoesNothing | internal/rank/engine/service.go:465-467 | A tick before the settlement time leaves the service as it is |
| Settlement.NothingIsSettledEarly | internal/rank/engine/service.go:440-487 | Over any run of writes and ticks before the settlement time no group is settled and no mark is set |
| Settlement.SettlingChangesTheFront | internal/rank/engine/service.go:731-830 | Group by group: a settlement that fails at a group has settled exactly those before it and sets no mark; else all, and the mark if writing is over |
| Settlement.PhasesByTime | internal/rank/engine/service.go:422-433 | Exactly when writing is not yet open, open, closed, or over, and which time settles |
| Settlement.EarlySettlementDoesNotArm | internal/rank/engine/service.go:822-828 | While writing is allowed settling never sets the mark, and later groups are still settled |
| Settlement.SettlingBeforeOpeningHarmsIff | internal/rank/engine/service.go:822-828 | Settling before opening leaves a later group unsettled for good if and only if the activity ever opens |
| Settlement.MovedSettlementTimeDisarms | internal/rank/engine/service.go:1025-1046 | An edit that changes the settlement time switches the shortcut off, and the next due tick settles all groups |
| Settlement.EditTakesPositiveFields | internal/rank/engine/service.go:1025-1046 | An edit sets exactly the four fields it gives a positive value; twice is once |
| Settlement.EditNeglectsAGroupIff | internal/rank/engine/service.go:1025-1046 | An edit of any service at any time ends in a group no tick will settle exactly if it leaves no settlement time or the one already settled for, while a group is unsettled or the new times allow writing from now on |
| Settlement.EditSilencesTicksIff | internal/rank/engine/service.go:1025-1046 | An edit of a service with an unsettled group silences all later ticks exactly if it leaves no settlement time or the one already settled for |
| Settlement.ReopenedWritingSkipsAGroup | internal/rank/engine/service.go:1025-1046 | A run in which everything was settled, and an edit of the close alone lets a user write under the mark |
| Settlement.MovingTheTimeBackSkipsAGroup | internal/rank/engine/service.go:1025-1046 | A run to such an edit: the close moved away and back, with a user who joined in between |
| MarkSoundness.StepHarmsIff | internal/rank/engine/service.go:490-543 | Exactly which steps of overlapping writes and settlements leave the mark on a group nobody will settle: a write accepted before the close that creates a group after the mark or fills one settled since it picked it, a failing settlement before groups only it would settle, a mark set over a group created or filled behind its settlement's back, or before the opening |
| MarkSoundness.OverlappingShortcutIsSound | internal/rank/engine/service.go:731-830 | Over any overlapping run without those steps, a marked service accepts no score, and has settled every group once the settlements under way have ended |
| MarkSoundness.QuietShortcutIsSound | internal/rank/engine/service.go:731-830 | If settlements begin only after writing is over and the last accepted write has ended, a marked service has settled every group, however settlements overlap and fail |
| MarkSoundness.LateWriteIsLost | internal/rank/engine/service.go:490-507 | A write accepted at 99 creates its group after the tick at 100 has set the mark |
| MarkSoundness.UncopiedGroupIsLost | internal/rank/engine/service.go:731-745 | A settlement copies the groups at 99, a user gets a new one, and the mark is set at 100 |
| MarkSoundness.RefilledGroupIsLost | internal/rank/engine/service.go:533-537 | A group settled after a write picked it is declared full by that write, and the mark is set |
| TimedStore.TtlFor | docs/rank_optimization.md:345-366 | Always positive, and for a live activity the expiry is its end plus retention, whenever it is set; without an end, the fixed fallback |
| TimedStore.Store.ExpireKey | internal/rank/engine/store.go:141-148 | The write path's expiry, dropped if the key is absent |
| TimedStore.Store.Backfill | internal/rank/engine/store.go:125-132 | Write, then expire: an empty backfill leaves no key, another one leaves it with the floor of the retention |
| TimedStore.Store.SaveGroup | internal/rank/engine/store.go:152-165 | The groups key ends with the write expiry |
| TimedStore.Store.BulkLoad | internal/rank/engine/store.go:167-208 | Exactly when a lazy load hits, stops at the sentinel, sets it, or refills the key, and the expiries after each |
| TimedStore.Store.IncrRealCount | internal/rank/engine/store.go:230-257 | Meta and groups end with the write expiry |
| TimedStore.Store.NextGroupID | internal/rank/engine/store.go:259-270 | Meta ends with the write expiry even if the counter created it |
| TimedStore.Store.SaveActivityTimes | internal/rank/engine/store.go:275-293 | Meta ends with the write expiry, the registry with its sliding one |
| TimedStore.Store.RestoreNextGroupID | internal/rank/engine/store.go:415-427 | Meta is raised if behind; if it is there, it has the write expiry |
| TimedStore.Store.RestoreSettled | internal/rank/engine/store.go:435-445 | A restored snapshot has the refill expiry |
| TimedStore.Store.SetMember | internal/rank/engine/store.go:449-461 | Members end with the write expiry |
| TimedStore.Store.GetMember | internal/rank/engine/store.go:463-495 | A miss that Mongo answers refills members with the refill expiry |
| TimedStore.Store.SaveRobots | internal/rank/engine/store.go:544-559 | Robots, if any, end with the write expiry |
| TimedStore.Store.LoadRobots | internal/rank/engine/store.go:561-592 | A miss refills; without documents nothing is written |
| TimedStore.Store.SaveUsedInfoIDs | internal/rank/engine/store.go:594-605 | The used infos, if any, end with the write expiry |
| TimedStore.Store.ExpireLiveData | internal/rank/engine/store.go:637-658 | Exactly the live keys that are present move to the refill expiry |
| TimedStore.Store.AtomicClaim | internal/rank/engine/store.go:795-869 | The claims hash after each branch, with a loss before the EXPIRE, before the restoring HSET, or neither; a restore covers Mongo's older claim and a lost insert race |
| TimedStore.Store.GetClaim | internal/rank/engine/store.go:919-957 | A miss writes a time or the sentinel, both with the refill expiry |
| TimedStore.Store.LoadGroupSettledCached | internal/rank/engine/store.go:1012-1040 | A hit renews the snapshot's expiry, a miss that Mongo answers stores it with one |
| TimedStore.Store.TryLockSettle | internal/rank/engine/store.go:874-885 | Taken exactly when free, and always with an expiry |
| TimedStore.Store.TryLockRobotTick | internal/rank/engine/store.go:890-901 | One lock for each second, taken exactly when free |
| StoreRuns.CommandsHaveTheEffect | internal/rank/engine/store.go:116-148 | Uninterrupted, the commands of each operation have exactly the effect its method has |
| StoreRuns.OnlyRestoringWritesStayBare | internal/rank/engine/store.go:835-868 | Of all writes of all operations, exactly the restoring HSET of a claim is not followed by an EXPIRE of its key |
| StoreRuns.StepLeavesPermanentIff | internal/rank/engine/store.go:795-869 | Among all steps of interleaved calls, losses and crashes, exactly two leave a key nothing will expire: a restoring HSET that finds the hash absent with no other call about to expire it, and a crash of the only call that has still to expire a key without expiry |
| StoreRuns.RestoredHashIsPermanent | internal/rank/engine/store.go:835-868 | Such a run: script, EXPIRE, loss of the hash, restoring HSET |
| StoreRuns.InterleavedRunsLeaveNothingPermanent | internal/rank/engine/store.go:125-148 | Over any interleaving of any operations with any losses, without those two steps, every key has an expiry once all calls have ended |
| StoreRuns.InterleavedRunsKeepRetention | internal/rank/engine/store.go:288-330 | Over any interleaving with any losses and crashes, no data key gets an expiry before end+14d |
| Retention.OperationLeavesNothingPermanent | internal/rank/engine/store.go:125-148 | Every operation in every branch, run without interruption, keeps all keys expiring |
| Retention.RunsLeaveNothingPermanent | internal/rank/engine/store.go:152-270 | So over any run of them with any losses and expiries |
| Retention.ExpiringLiveDataRestamps | internal/rank/engine/store.go:637-658 | Settling adds and removes no key and only moves expiries to the refill expiry |
| Retention.BackfillReachesTheLimit | internal/rank/engine/store.go:325-330 | A refill is never below the retention, reaches end plus retention, and equals it up to the end |
| Retention.DataIsRetained | internal/rank/engine/store.go:288-330 | Over any mix of operations before end+14d with any losses no data key expires before end+14d; without losses none disappears |
| Retention.WritesSetOneExpiry | internal/rank/engine/store.go:141-148 | Writes alone leave every data key at exactly end+14d |
| Retention.WritesLastToTheLimit | internal/rank/engine/store.go:141-148 | Key by key: a write leaves each key it writes until end+14d, or for a minute if that is past, or 7 days without an end, and touches no other |
| Retention.RefillsLastTheRetention | internal/rank/engine/store.go:120-139 | A refill leaves its key with the later of now+14d and end+14d, and touches no other |
| Retention.SettlingRestampsExactly | internal/rank/engine/store.go:637-658 | Settling gives exactly the live keys that are present the later of now+14d and end+14d |
| Retention.MongoCheckedIsNeverShortened | internal/rank/engine/store.go:92-94 | A later load never cuts the sentinel's expiry |
| Retention.WriteCutsBackARefill | internal/rank/engine/store.go:141-148 | A write after the end takes back what a refill had granted, down to the limit and not below |
| BizIds.FormattedIntParses | internal/rank/manager.go:694-697 | Formatting and 32-bit parsing are inverse, and every other integer is refused |
| BizIds.ParsesIff | internal/rank/manager.go:694-697 | Exactly which strings are accepted as an activity id, and their value |
| BizIds.IsRoundBizId | internal/rank/periodic/state.go:58-75 | The scan decides whether the id ends in "_r" and digits |
| BizIds.ExtractRoundBizBase | internal/rank/periodic/state.go:78-94 | The scan returns what stands before that suffix |
| BizIds.SplitRoundIff | internal/rank/periodic/state.go:58-94 | The suffix is recognized, with this base, if and only if the id is the base, "_r" and at least one digit |
| BizIds.RoundIdsAreRecognized | internal/rank/engine/types.go:43-48 | An id is a round's exactly when its round index is positive, and its base is the activity's id |
| BizIds.ParsingRecoversTheActivity | internal/rank/manager.go:681-699 | A node recovers business type, underscores included, and activity id from every id, except for the empty type |
| BizIds.RoundNumberIsRecovered | internal/rank/engine/types.go:43-48 | A round's id is its activity's id, "_r", and digits that denote the round |
| BizIds.BizIdsAreUnique | internal/rank/engine/types.go:43-48 | Two ids are equal only for the same type, activity and round |

## Left out

- ClaimRuns.FirstClaimHappensAtMostOnce: Mongo is configured and nothing is deleted from it; a claim told "already claimed" may still lack a record after a failure, as the crash lemma shows.
- TimedStore.TtlFor: TTLForActivityEnd of common/rank is not part of this model; its contract is taken from docs/rank_optimization.md:345-366 and internal/rank/engine/store_ttl_test.go:10-73, and the one-minute and seven-day values stand for its two fallbacks.
- Rounds.RoundsFitInt32: all other integers are mathematical; int64 overflow and the wrap-around of counters are not modelled.
- ClaimStore.ClaimStore.AtomicClaim: runs alone, so the branch for a lost insert race is covered only by the step-by-step protocol.
- ClaimRuns.QuiescentClaimsAgree: a restoring HSET whose error is ignored is a failure here, since Redis may then keep the refused call's own time.
- Spawn.Spawner.SpawnEntries: the locals of the spawn loop are the fields of an object here, and reading and writing robots in Redis are parameters and results.
- Periodic.Handler.AdoptFromMongo: the type check against a one-off service of the same key and the cleanup after adoption are not modelled.
- Periodic.Handler.AdvanceRound: settling the old round, its cleanup timer and the warm-up of the new service are not part of it; they do not touch the round state.
- Service.Service.UpsertScore: writes the assignment only; scores, instances and the spawn that follows are calls into the rank service.
- Service.Service.UpdateConfig: OpenToken is not modelled; the allocator's runs keep RankPeopleNum fixed, since lowering it may leave a group above the new capacity.
- Cluster.NodesAgreeOnEveryRound: all nodes read one clock; locks are not modelled, so more calls overlap than with them; the state of a node stands for the object that holds it; a cycle change under several nodes is covered only by the lemmas on drift.
- Retention.DataIsRetained: an activity end moved by UpdateConfig, stores without an end and the fixed two weeks of CleanupLiveData are excluded.
- Retention.RunsLeaveNothingPermanent: the round key and the meta key of periodic activities are plain SETs without expiry and are no keys of this store.
- StoreRuns.InterleavedRunsLeaveNothingPermanent: all commands of a call compute their lifetime from the moment the call began; a command whose error is ignored is a crash of the rest of the call.
- MarkSoundness.StepHarmsIff: the times stay fixed, one node runs, and a score write carries the time of the clock at its check.
- Settlement.ShortcutIsSound: the times stay fixed and are not all zero, which registration refuses; edits are the subject of the lemmas after it. The settlement lock is always free here (no Redis), so a group skipped because another node holds it is not modelled.
- Allocation by several nodes, or after Redis lost the counters: a whole stale group document is written back, so no capacity bound holds to state.
- AtomicClaim without Redis, SetClaim, CleanupAll, DeleteAllByBizId: other rules, or unused.
- tryRecoverPeriodicFromRedis beyond its parsing: the meta it reads is only written at registration and on cycle changes.
- Windows of past rounds after a cycle change: the program keeps only the base cycle.
- common/rank (ranking order, instances, score scripts): not part of this model; its calls are parameters.
- Caches of the robot tick, robot score writes, the member index, timers, routing, configuration and logging: they would only add easy members.
