/**
  The store's operations as the Redis commands they issue, interleaved with those of any other
  calls, with losses between any two of them, and with calls that fail half way. A key that
  expires counts as lost.
 */
module StoreRuns {
  import opened Options
  import opened TimedStore
  import opened Retention

  datatype Command =
    | Write(key: Key)               // HSET, HINCRBY, SADD
    | Expire(key: Key, at: int)
    | SetEx(key: Key, at: int)
    | SetNx(key: Key, at: int)

  function Execute(db: Db, c: Command): Db {
    match c
    case Write(k) => if k in db then db else db[k := None]
    case Expire(k, at) => Restamp(db, k, at)
    case SetEx(k, at) => Stamp(db, k, at)
    case SetNx(k, at) => StampNew(db, k, at)
  }

  function ExecuteAll(db: Db, commands: seq<Command>): Db
    decreases |commands|
  {
    if commands == [] then db else ExecuteAll(Execute(db, commands[0]), commands[1..])
  }

  // ---------------------------------------------------------------- what each operation issues

  function Writes(key: Key, count: nat): seq<Command> {
    seq(count, _ => Write(key))
  }

  function WriteThenExpire(key: Key, count: nat, at: int): seq<Command> {
    Writes(key, count) + [Expire(key, at)]
  }

  function ExpireGroups(groups: seq<int>, at: int): seq<Command> {
    if groups == [] then []
    else
      var g := groups[|groups| - 1];
      ExpireGroups(groups[..|groups| - 1], at) + [Expire(Robots(g), at), Expire(RobotInfos(g), at)]
  }

  function LoadCommands(key: Key, load: Load, end: int, now: int): seq<Command> {
    match load
    case Hit => []
    case AlreadyChecked => []
    case EmptyInMongo => [SetNx(MongoChecked, now + MONGO_CHECKED_TTL)]
    case FoundInMongo => WriteThenExpire(key, 1, now + BackfillTtlFor(end, now))
  }

  function Commands(op: Op, end: int, now: int): seq<Command> {
    var write := now + TtlFor(end, now);
    var backfill := now + BackfillTtlFor(end, now);
    match op
    case SaveGroup => WriteThenExpire(Groups, 1, write)
    case LoadGroups(load) => LoadCommands(Groups, load, end, now)
    case IncrRealCount => WriteThenExpire(Meta, 1, write) + WriteThenExpire(Groups, 1, write)
    case NextGroupID => WriteThenExpire(Meta, 1, write)
    case SaveActivityTimes => WriteThenExpire(Meta, 3, write) + WriteThenExpire(ActiveServices, 1, now + COLD_TTL)
    case RestoreNextGroupID(minID, raise) =>
      if minID <= 0 then [] else WriteThenExpire(Meta, if raise then 1 else 0, write)
    case RestoreSettled(g, some) => if some then [SetEx(SettledSnapshot(g), backfill)] else []
    case SetMember => WriteThenExpire(Members, 1, write)
    case GetMember(backfills) => if backfills then WriteThenExpire(Members, 1, backfill) else []
    case GetAllMembers(load) => LoadCommands(Members, load, end, now)
    case SaveRobots(g, count) => if count == 0 then [] else WriteThenExpire(Robots(g), count, write)
    case LoadRobots(g, hit, count) => if hit then [] else WriteThenExpire(Robots(g), count, backfill)
    case SaveUsedInfoIDs(g, count) => if count == 0 then [] else WriteThenExpire(RobotInfos(g), 1, write)
    case ExpireLiveData(groups) =>
      [Expire(Meta, backfill), Expire(Groups, backfill), Expire(Members, backfill), Expire(Claims, backfill),
       Expire(MongoChecked, backfill)] + ExpireGroups(groups, backfill)
    case AtomicClaim(Refused) => []
    case AtomicClaim(First) => WriteThenExpire(Claims, 1, backfill)
    case AtomicClaim(Restored) => WriteThenExpire(Claims, 1, backfill) + [Write(Claims)]
    case GetClaim(backfills) => if backfills then WriteThenExpire(Claims, 1, backfill) else []
    case LoadGroupSettledCached(g, hit, found) =>
      if hit then [Expire(SettledSnapshot(g), backfill)]
      else if found then [SetEx(SettledSnapshot(g), backfill)] else []
    case TryLockSettle(g) => [SetNx(SettleLock(g), now + SETTLE_LOCK_TTL)]
    case TryLockRobotTick(second) => [SetNx(TickLock(second), now + TICK_LOCK_TTL)]
  }

  lemma {:induction false} ExecutesInTurn(db: Db, a: seq<Command>, b: seq<Command>)
    ensures ExecuteAll(db, a + b) == ExecuteAll(ExecuteAll(db, a), b)
    decreases |a|
  {
    if a == [] {
      assert a + b == b;
    } else {
      assert (a + b)[1..] == a[1..] + b;
      ExecutesInTurn(Execute(db, a[0]), a[1..], b);
    }
  }

  lemma {:induction false} WritesLeaveTheKey(db: Db, key: Key, count: nat)
    ensures ExecuteAll(db, Writes(key, count)) == if count == 0 || key in db then db else db[key := None]
    decreases count
  {
    if count > 0 {
      assert Writes(key, count)[1..] == Writes(key, count - 1);
      WritesLeaveTheKey(Execute(db, Write(key)), key, count - 1);
    }
  }

  lemma WriteThenExpireStamps(db: Db, key: Key, count: nat, at: int)
    ensures ExecuteAll(db, WriteThenExpire(key, count, at))
         == if count == 0 then Restamp(db, key, at) else Stamp(db, key, at)
  {
    WritesLeaveTheKey(db, key, count);
    ExecutesInTurn(db, Writes(key, count), [Expire(key, at)]);
  }

  lemma OneCommand(db: Db, c: Command)
    ensures ExecuteAll(db, [c]) == Execute(db, c)
  {
    assert [c][1..] == [];
  }

  lemma TwoCommands(db: Db, c: Command, d: Command)
    ensures ExecuteAll(db, [c, d]) == Execute(Execute(db, c), d)
  {
    assert [c, d][1..] == [d];
    OneCommand(Execute(db, c), d);
  }

  lemma {:induction false} ExpireGroupsRestamps(db: Db, groups: seq<int>, at: int)
    ensures ExecuteAll(db, ExpireGroups(groups, at)) == RestampGroups(db, groups, at)
    decreases |groups|
  {
    if groups != [] {
      var g, front := groups[|groups| - 1], groups[..|groups| - 1];
      var c, d := Expire(Robots(g), at), Expire(RobotInfos(g), at);
      ExpireGroupsRestamps(db, front, at);
      ExecutesInTurn(db, ExpireGroups(front, at), [c, d]);
      TwoCommands(RestampGroups(db, front, at), c, d);
    }
  }

  lemma ExpireLiveDataRestamps(db: Db, groups: seq<int>, end: int, now: int)
    ensures ExecuteAll(db, Commands(ExpireLiveData(groups), end, now)) == Effect(db, end, now, ExpireLiveData(groups))
  {
    var at := now + BackfillTtlFor(end, now);
    var db1 := Restamp(Restamp(db, Meta, at), Groups, at);
    var db2 := Restamp(Restamp(db1, Members, at), Claims, at);
    var db3 := Restamp(db2, MongoChecked, at);
    var rest := ExpireGroups(groups, at);
    ExecutesInTurn(db, [Expire(Meta, at), Expire(Groups, at)],
                   [Expire(Members, at), Expire(Claims, at)] + ([Expire(MongoChecked, at)] + rest));
    TwoCommands(db, Expire(Meta, at), Expire(Groups, at));
    ExecutesInTurn(db1, [Expire(Members, at), Expire(Claims, at)], [Expire(MongoChecked, at)] + rest);
    TwoCommands(db1, Expire(Members, at), Expire(Claims, at));
    ExecutesInTurn(db2, [Expire(MongoChecked, at)], rest);
    OneCommand(db2, Expire(MongoChecked, at));
    ExpireGroupsRestamps(db3, groups, at);
    assert Commands(ExpireLiveData(groups), end, now)
        == [Expire(Meta, at), Expire(Groups, at)] + ([Expire(Members, at), Expire(Claims, at)]
                                                      + ([Expire(MongoChecked, at)] + rest));
  }

  lemma LoadHasTheEffect(db: Db, key: Key, load: Load, end: int, now: int)
    ensures ExecuteAll(db, LoadCommands(key, load, end, now)) == AfterLoad(db, key, load, end, now)
  {
    OneCommand(db, SetNx(MongoChecked, now + MONGO_CHECKED_TTL));
    WriteThenExpireStamps(db, key, 1, now + BackfillTtlFor(end, now));
  }

  lemma ClaimHasTheEffect(db: Db, claimEnd: ClaimEnd, end: int, now: int)
    ensures ExecuteAll(db, Commands(AtomicClaim(claimEnd), end, now)) == Effect(db, end, now, AtomicClaim(claimEnd))
  {
    var backfill := now + BackfillTtlFor(end, now);
    WriteThenExpireStamps(db, Claims, 1, backfill);
    ExecutesInTurn(db, WriteThenExpire(Claims, 1, backfill), [Write(Claims)]);
    OneCommand(Stamp(db, Claims, backfill), Write(Claims));
  }

  lemma TwoKeys(db: Db, k1: Key, n1: nat, at1: int, k2: Key, at2: int)
    requires n1 > 0
    ensures ExecuteAll(db, WriteThenExpire(k1, n1, at1) + WriteThenExpire(k2, 1, at2))
         == Stamp(Stamp(db, k1, at1), k2, at2)
  {
    ExecutesInTurn(db, WriteThenExpire(k1, n1, at1), WriteThenExpire(k2, 1, at2));
    WriteThenExpireStamps(db, k1, n1, at1);
    WriteThenExpireStamps(Stamp(db, k1, at1), k2, 1, at2);
  }

  /** Uninterrupted, the commands of an operation have exactly its effect. */
  lemma CommandsHaveTheEffect(db: Db, op: Op, end: int, now: int)
    ensures ExecuteAll(db, Commands(op, end, now)) == Effect(db, end, now, op)
  {
    match op
    case LoadGroups(load) => LoadHasTheEffect(db, Groups, load, end, now);
    case GetAllMembers(load) => LoadHasTheEffect(db, Members, load, end, now);
    case IncrRealCount => TwoKeys(db, Meta, 1, now + TtlFor(end, now), Groups, now + TtlFor(end, now));
    case SaveActivityTimes => TwoKeys(db, Meta, 3, now + TtlFor(end, now), ActiveServices, now + COLD_TTL);
    case ExpireLiveData(groups) => ExpireLiveDataRestamps(db, groups, end, now);
    case AtomicClaim(claimEnd) => ClaimHasTheEffect(db, claimEnd, end, now);
    case _ => OneKeyHasTheEffect(db, op, end, now);
  }

  predicate OnOneKey(op: Op) {
    && !op.LoadGroups? && !op.GetAllMembers? && !op.IncrRealCount? && !op.SaveActivityTimes?
    && !op.ExpireLiveData? && !op.AtomicClaim?
  }

  lemma OneKeyHasTheEffect(db: Db, op: Op, end: int, now: int)
    requires OnOneKey(op)
    ensures ExecuteAll(db, Commands(op, end, now)) == Effect(db, end, now, op)
  {
    var commands := Commands(op, end, now);
    if |commands| == 1 {
      OneCommand(db, commands[0]);
      assert commands == [commands[0]];
    } else if commands != [] {
      var key, at := commands[|commands| - 1].key, commands[|commands| - 1].at;
      assert commands == WriteThenExpire(key, |commands| - 1, at);
      WriteThenExpireStamps(db, key, |commands| - 1, at);
    }
  }

  // ---------------------------------------------------------------- runs of interleaved commands

  /** A call: its operation, when it began, and how many of its commands were executed. */
  datatype Call = Call(op: Op, now: int, done: nat) {
    function Rest(end: int): seq<Command> {
      var all := Commands(op, end, now);
      if done <= |all| then all[done..] else []
    }
  }

  datatype System = System(db: Db, calls: map<int, Call>)

  datatype Action =
    | Begin(id: int, op: Op, now: int)
    | Next(id: int)               // the call's next command
    | Fail(id: int)               // the call's node crashes
    | Lose(keys: set<Key>)        // keys expire, or Redis loses them

  function Apply(s: System, end: int, a: Action): System {
    match a
    case Begin(id, op, now) =>
      if id in s.calls then s else s.(calls := s.calls[id := Call(op, now, 0)])
    case Next(id) =>
      if id in s.calls && s.calls[id].Rest(end) != [] then
        System(Execute(s.db, s.calls[id].Rest(end)[0]), s.calls[id := s.calls[id].(done := s.calls[id].done + 1)])
      else s
    case Fail(id) =>
      s.(calls := s.calls - {id})
    case Lose(keys) =>
      s.(db := s.db - keys)
  }

  function Run(s: System, end: int, actions: seq<Action>): System
    decreases |actions|
  {
    if actions == [] then s else Run(Apply(s, end, actions[0]), end, actions[1..])
  }

  // ---------------------------------------------------------------- no permanent key

  predicate WillExpire(commands: seq<Command>, k: Key) {
    exists i | 0 <= i < |commands| :: commands[i].Expire? && commands[i].key == k
  }

  ghost predicate SomeWillExpire(rests: map<int, seq<Command>>, k: Key) {
    exists id <- rests :: WillExpire(rests[id], k)
  }

  ghost predicate OtherWillExpire(rests: map<int, seq<Command>>, k: Key, id: int) {
    exists j <- rests :: j != id && WillExpire(rests[j], k)
  }

  /** A key without expiry waits for the EXPIRE of some call under way. */
  ghost predicate AllWait(db: Db, rests: map<int, seq<Command>>) {
    forall k <- db :: db[k].None? ==> SomeWillExpire(rests, k)
  }

  /** What the calls will still execute. */
  function Rests(s: System, end: int): map<int, seq<Command>> {
    map id | id in s.calls :: s.calls[id].Rest(end)
  }

  ghost predicate Covered(s: System, end: int) {
    AllWait(s.db, Rests(s, end))
  }

  /** The call is about to put Mongo's time back into Redis. */
  predicate Restoring(c: Call) {
    c.op == AtomicClaim(Restored) && c.done == 2
  }

  lemma RestoringIsTheLastCommand(c: Call, end: int)
    requires Restoring(c)
    ensures c.Rest(end) == [Write(Claims)]
  {
    var at := c.now + BackfillTtlFor(end, c.now);
    assert WriteThenExpire(Claims, 1, at) == [Write(Claims), Expire(Claims, at)];
    assert Commands(c.op, end, c.now) == [Write(Claims), Expire(Claims, at), Write(Claims)];
  }

  lemma LiveDataIsOnlyExpired(groups: seq<int>, end: int, now: int, i: nat)
    requires i < |Commands(ExpireLiveData(groups), end, now)|
    ensures Commands(ExpireLiveData(groups), end, now)[i].Expire?
  {
    var at := now + BackfillTtlFor(end, now);
    GroupsAreOnlyExpired(groups, at);
    if i >= 5 {
      assert Commands(ExpireLiveData(groups), end, now)[i] == ExpireGroups(groups, at)[i - 5];
    }
  }

  /** A write that creates its key is followed by an EXPIRE, except for the restoring one. */
  lemma OnlyRestoringWritesStayBare(c: Call, end: int)
    requires c.Rest(end) != [] && c.Rest(end)[0].Write?
    ensures WillExpire(c.Rest(end)[1..], c.Rest(end)[0].key) <==> !Restoring(c)
    ensures Restoring(c) ==> c.Rest(end) == [Write(Claims)]
  {
    if Restoring(c) {
      RestoringIsTheLastCommand(c, end);
    } else {
      var all := Commands(c.op, end, c.now);
      assert c.Rest(end)[0] == all[c.done];
      if c.op.ExpireLiveData? {
        LiveDataIsOnlyExpired(c.op.groups, end, c.now, c.done);
      } else {
        var i := ExpireAfter(c.op, end, c.now, c.done);
        assert c.Rest(end)[1..][i - c.done - 1] == all[i];
      }
    }
  }

  lemma {:induction false} GroupsAreOnlyExpired(groups: seq<int>, at: int)
    ensures forall i | 0 <= i < |ExpireGroups(groups, at)| ::
              ExpireGroups(groups, at)[i] == Expire(ExpireGroups(groups, at)[i].key, at)
    ensures forall i | 0 <= i < |ExpireGroups(groups, at)| :: ExpireGroups(groups, at)[i].key.IsData()
    decreases |groups|
  {
    if groups != [] {
      GroupsAreOnlyExpired(groups[..|groups| - 1], at);
    }
  }

  /** Where the EXPIRE of a write is. */
  lemma ExpireAfter(op: Op, end: int, now: int, w: nat) returns (i: nat)
    requires !op.ExpireLiveData? && w < |Commands(op, end, now)| && Commands(op, end, now)[w].Write?
    requires !(op == AtomicClaim(Restored) && w == 2)
    ensures w < i < |Commands(op, end, now)|
    ensures Commands(op, end, now)[i].Expire? && Commands(op, end, now)[i].key == Commands(op, end, now)[w].key
  {
    var all := Commands(op, end, now);
    i := match op
      case SaveRobots(_, count) => count
      case LoadRobots(_, _, count) => count
      case IncrRealCount => if w == 0 then 1 else 3
      case SaveActivityTimes => if w < 3 then 3 else 5
      case _ => 1;
  }

  /**
    What makes a key permanent. A restoring write does if it finds the claims hash gone and no
    other call is about to set its expiry; a crash does if a key without expiry is there whose
    EXPIRE the call has still to issue, and no other call will issue one.
   */
  ghost predicate LeavesPermanent(s: System, end: int, a: Action) {
    match a
    case Next(id) =>
      && id in s.calls && Restoring(s.calls[id])
      && Claims !in s.db && !OtherWillExpire(Rests(s, end), Claims, id)
    case Fail(id) =>
      && id in s.calls
      && exists k <- s.db ::
           && s.db[k].None? && WillExpire(s.calls[id].Rest(end), k)
           && !OtherWillExpire(Rests(s, end), k, id)
    case _ => false
  }

  /** The first command of a sequence expires the key, or a later one does. */
  lemma FirstOrLater(commands: seq<Command>, k: Key)
    requires commands != []
    ensures WillExpire(commands, k)
       <==> (commands[0].Expire? && commands[0].key == k) || WillExpire(commands[1..], k)
  {
    if WillExpire(commands, k) {
      var i :| 0 <= i < |commands| && commands[i].Expire? && commands[i].key == k;
      if i > 0 {
        assert commands[1..][i - 1] == commands[i];
      }
    }
    if WillExpire(commands[1..], k) {
      var i :| 0 <= i < |commands[1..]| && commands[1..][i].Expire? && commands[1..][i].key == k;
      assert commands[i + 1] == commands[1..][i];
    }
  }

  /** Which keys are still waited for after one call has executed its first command. */
  lemma WaitingAfterFirst(rests: map<int, seq<Command>>, id: int, k: Key)
    requires id in rests && rests[id] != []
    ensures SomeWillExpire(rests[id := rests[id][1..]], k)
       <==> OtherWillExpire(rests, k, id) || WillExpire(rests[id][1..], k)
    ensures SomeWillExpire(rests, k) && !(rests[id][0].Expire? && rests[id][0].key == k) ==>
              SomeWillExpire(rests[id := rests[id][1..]], k)
  {
    var rests' := rests[id := rests[id][1..]];
    FirstOrLater(rests[id], k);
    assert rests'[id] == rests[id][1..];
    if OtherWillExpire(rests, k, id) {
      var j :| j in rests && j != id && WillExpire(rests[j], k);
      assert rests'[j] == rests[j];
    }
  }

  /** One command leaves a key nobody will expire exactly if it creates such a key. */
  lemma CommandLeavesPermanentIff(db: Db, rests: map<int, seq<Command>>, id: int)
    requires AllWait(db, rests) && id in rests && rests[id] != []
    ensures
      var c, rest := rests[id][0], rests[id][1..];
      AllWait(Execute(db, c), rests[id := rest]) <==>
        !(c.Write? && c.key !in db && !WillExpire(rest, c.key) && !OtherWillExpire(rests, c.key, id))
  {
    var c := rests[id][0];
    var db', rests' := Execute(db, c), rests[id := rests[id][1..]];
    WaitingAfterFirst(rests, id, c.key);
    forall k <- db' | k != c.key && db'[k].None? ensures SomeWillExpire(rests', k) {
      WaitingAfterFirst(rests, id, k);
    }
  }

  lemma NextLeavesPermanentIff(s: System, end: int, id: int)
    requires Covered(s, end) && id in s.calls && s.calls[id].Rest(end) != []
    ensures Covered(Apply(s, end, Next(id)), end) <==> !LeavesPermanent(s, end, Next(id))
  {
    var rests := Rests(s, end);
    assert Rests(Apply(s, end, Next(id)), end) == rests[id := rests[id][1..]];
    CommandLeavesPermanentIff(s.db, rests, id);
    if rests[id][0].Write? {
      OnlyRestoringWritesStayBare(s.calls[id], end);
    }
  }

  lemma FailLeavesPermanentIff(s: System, end: int, id: int)
    requires Covered(s, end) && id in s.calls
    ensures Covered(Apply(s, end, Fail(id)), end) <==> !LeavesPermanent(s, end, Fail(id))
  {
    var rests, rests' := Rests(s, end), Rests(Apply(s, end, Fail(id)), end);
    assert rests' == rests - {id};
    forall k ensures SomeWillExpire(rests', k) <==> OtherWillExpire(rests, k, id) {
      if OtherWillExpire(rests, k, id) {
        var j :| j in rests && j != id && WillExpire(rests[j], k);
        assert j in rests' && rests'[j] == rests[j];
      }
    }
  }

  lemma OthersLeaveNothingPermanent(s: System, end: int, a: Action)
    requires Covered(s, end) && (a.Begin? || a.Lose?)
    ensures Covered(Apply(s, end, a), end)
  {
    var s' := Apply(s, end, a);
    var rests, rests' := Rests(s, end), Rests(s', end);
    forall k <- s'.db | s'.db[k].None? ensures SomeWillExpire(rests', k) {
      var j :| j in rests && WillExpire(rests[j], k);
      assert rests'[j] == rests[j];
    }
  }

  /** Exactly which steps, of all that any calls can take, leave a key that nothing will expire. */
  lemma StepLeavesPermanentIff(s: System, end: int, a: Action)
    requires Covered(s, end)
    ensures Covered(Apply(s, end, a), end) <==> !LeavesPermanent(s, end, a)
  {
    match a
    case Next(id) =>
      if id in s.calls && s.calls[id].Rest(end) != [] {
        NextLeavesPermanentIff(s, end, id);
      }
    case Fail(id) =>
      if id in s.calls {
        FailLeavesPermanentIff(s, end, id);
      } else {
        assert s.calls - {id} == s.calls;
      }
    case Begin(_, _, _) => OthersLeaveNothingPermanent(s, end, a);
    case Lose(_) => OthersLeaveNothingPermanent(s, end, a);
  }

  ghost predicate NoneLeavesPermanent(s: System, end: int, actions: seq<Action>)
    decreases |actions|
  {
    actions != [] ==>
      !LeavesPermanent(s, end, actions[0]) && NoneLeavesPermanent(Apply(s, end, actions[0]), end, actions[1..])
  }

  lemma {:induction false} RunsStayCovered(s: System, end: int, actions: seq<Action>)
    requires Covered(s, end) && NoneLeavesPermanent(s, end, actions)
    ensures Covered(Run(s, end, actions), end)
    decreases |actions|
  {
    if actions != [] {
      StepLeavesPermanentIff(s, end, actions[0]);
      RunsStayCovered(Apply(s, end, actions[0]), end, actions[1..]);
    }
  }

  predicate Quiescent(s: System, end: int) {
    forall id <- s.calls :: s.calls[id].Rest(end) == []
  }

  /**
    No permanent key, for any interleaving of the commands of any operations with any losses: if
    no step is one of those two, then whenever all calls have ended every key has an expiry.
   */
  lemma {:induction false} InterleavedRunsLeaveNothingPermanent(db: Db, end: int, actions: seq<Action>)
    requires NothingPermanent(db) && NoneLeavesPermanent(System(db, map[]), end, actions)
    requires Quiescent(Run(System(db, map[]), end, actions), end)
    ensures NothingPermanent(Run(System(db, map[]), end, actions).db)
  {
    var s := Run(System(db, map[]), end, actions);
    RunsStayCovered(System(db, map[]), end, actions);
    forall k <- s.db ensures s.db[k].Some? {
      assert !SomeWillExpire(Rests(s, end), k);
    }
  }

  /** Such a run: the script, its EXPIRE, the loss of the hash, and the restoring write. */
  lemma RestoredHashIsPermanent(end: int, now: int)
    ensures
      var actions := [Begin(1, AtomicClaim(Restored), now), Next(1), Next(1), Action.Lose({Claims}), Next(1)];
      Run(System(map[], map[]), end, actions)
      == System(map[Claims := None], map[1 := Call(AtomicClaim(Restored), now, 3)])
  {
    var at := now + BackfillTtlFor(end, now);
    var all := Commands(AtomicClaim(Restored), end, now);
    assert all == [Write(Claims), Expire(Claims, at), Write(Claims)];
    var calls := k => map[1 := Call(AtomicClaim(Restored), now, k)];
    FiveActions(System(map[], map[]), end,
                Begin(1, AtomicClaim(Restored), now), Next(1), Next(1), Action.Lose({Claims}), Next(1));
    assert Apply(System(map[], calls(0)), end, Next(1)) == System(map[Claims := None], calls(1));
    assert Apply(System(map[Claims := None], calls(1)), end, Next(1)) == System(map[Claims := Some(at)], calls(2));
    assert map[Claims := Some(at)] - {Claims} == map[];
    assert Apply(System(map[], calls(2)), end, Next(1)) == System(map[Claims := None], calls(3));
  }

  lemma FiveActions(s: System, end: int, a: Action, b: Action, c: Action, d: Action, e: Action)
    ensures Run(s, end, [a, b, c, d, e])
         == Apply(Apply(Apply(Apply(Apply(s, end, a), end, b), end, c), end, d), end, e)
  {
    assert [a, b, c, d, e][1..] == [b, c, d, e] && [b, c, d, e][1..] == [c, d, e] && [c, d, e][1..] == [d, e];
    assert [d, e][1..] == [e] && [e][1..] == [];
    var s2 := Apply(Apply(s, end, a), end, b);
    var s4 := Apply(Apply(s2, end, c), end, d);
    assert Run(s4, end, [e]) == Apply(s4, end, e);
    assert Run(s2, end, [c, d, e]) == Run(s4, end, [e]);
  }

  // ---------------------------------------------------------------- the retention floor

  /** A data key has no expiry yet, or none before the limit. */
  predicate NoneExpiresBefore(db: Db, limit: int) {
    forall k <- db :: k.IsData() && db[k].Some? ==> db[k].value >= limit
  }

  predicate CommandReaches(c: Command, limit: int) {
    c.key.IsData() && !c.Write? ==> c.at >= limit
  }

  lemma CommandsReachTheLimit(op: Op, end: int, now: int, i: nat)
    requires end > 0 && now < end + RETENTION && i < |Commands(op, end, now)|
    ensures CommandReaches(Commands(op, end, now)[i], end + RETENTION)
  {
    BackfillReachesTheLimit(end, now);
    if op.ExpireLiveData? {
      GroupsAreOnlyExpired(op.groups, now + BackfillTtlFor(end, now));
    }
  }

  ghost predicate BeganInTime(s: System, end: int) {
    forall id <- s.calls :: s.calls[id].now < end + RETENTION
  }

  /**
    The retention floor for any interleaving, any losses and any crashes: for operations that
    begin before end + 14 days, no data key ever has an expiry before end + 14 days.
   */
  lemma {:induction false} InterleavedRunsKeepRetention(s: System, end: int, actions: seq<Action>)
    requires end > 0 && BeganInTime(s, end) && NoneExpiresBefore(s.db, end + RETENTION)
    requires forall a <- actions :: a.Begin? ==> a.now < end + RETENTION
    ensures NoneExpiresBefore(Run(s, end, actions).db, end + RETENTION)
    decreases |actions|
  {
    if actions != [] {
      var a := actions[0];
      if a.Next? && a.id in s.calls && s.calls[a.id].Rest(end) != [] {
        CommandsReachTheLimit(s.calls[a.id].op, end, s.calls[a.id].now, s.calls[a.id].done);
      }
      InterleavedRunsKeepRetention(Apply(s, end, a), end, actions[1..]);
    }
  }
}
