/** What the store's discipline achieves over whole runs: nothing permanent, nothing too early. */
module Retention {
  import opened Options
  import opened TimedStore

  /** Expired keys are gone. */
  function Purge(db: Db, now: int): Db {
    map k | k in db && (db[k].None? || now < db[k].value) :: db[k]
  }

  datatype Event = Do(now: int, op: Op) | Lose(keys: set<Key>)

  function Step(db: Db, end: int, e: Event): Db {
    match e
    case Do(now, op) => Effect(Purge(db, now), end, now, op)
    case Lose(keys) => db - keys
  }

  function Run(db: Db, end: int, events: seq<Event>): Db
    decreases |events|
  {
    if events == [] then db else Run(Step(db, end, events[0]), end, events[1..])
  }

  // ---------------------------------------------------------------- no permanent key

  predicate NothingPermanent(db: Db) {
    forall k <- db :: db[k].Some?
  }

  lemma {:induction false} RestampsKeep(db: Db, groups: seq<int>, at: int)
    ensures
      var db' := RestampGroups(db, groups, at);
      && db'.Keys == db.Keys
      && (forall k <- db :: db'[k] == db[k] || db'[k] == Some(at))
    decreases |groups|
  {
    if groups != [] {
      RestampsKeep(db, groups[..|groups| - 1], at);
    }
  }

  /** Settling moves the expiries of keys that are present, and touches no others. */
  lemma ExpiringLiveDataRestamps(db: Db, end: int, now: int, groups: seq<int>)
    ensures
      var db' := Effect(db, end, now, ExpireLiveData(groups));
      && db'.Keys == db.Keys
      && (forall k <- db :: db'[k] == db[k] || db'[k] == Some(now + BackfillTtlFor(end, now)))
  {
    var at := now + BackfillTtlFor(end, now);
    var db1 := Restamp(Restamp(Restamp(db, Meta, at), Groups, at), Members, at);
    RestampsKeep(Restamp(Restamp(db1, Claims, at), MongoChecked, at), groups, at);
  }

  /** Every operation, whatever branch it takes, if nothing comes between its commands. */
  lemma OperationLeavesNothingPermanent(db: Db, end: int, now: int, op: Op)
    requires NothingPermanent(db)
    ensures NothingPermanent(Effect(db, end, now, op))
  {
    if op.ExpireLiveData? {
      ExpiringLiveDataRestamps(db, end, now, op.groups);
    }
  }

  /** So over any run of such operations, with any activity end and any losses. */
  lemma {:induction false} RunsLeaveNothingPermanent(db: Db, end: int, events: seq<Event>)
    requires NothingPermanent(db)
    ensures NothingPermanent(Run(db, end, events))
    decreases |events|
  {
    if events != [] {
      if events[0].Do? {
        OperationLeavesNothingPermanent(Purge(db, events[0].now), end, events[0].now, events[0].op);
      }
      RunsLeaveNothingPermanent(Step(db, end, events[0]), end, events[1..]);
    }
  }

  // ---------------------------------------------------------------- exactly which expiries

  predicate IsWrite(op: Op) {
    || op.SaveGroup? || op.IncrRealCount? || op.NextGroupID? || op.SaveActivityTimes?
    || op.RestoreNextGroupID? || op.SetMember? || op.SaveRobots? || op.SaveUsedInfoIDs?
  }

  /** The one key that a refilling operation fills, or renews. */
  function RefilledKey(db: Db, op: Op): Option<Key> {
    match op
    case LoadGroups(FoundInMongo) => Some(Groups)
    case GetAllMembers(FoundInMongo) => Some(Members)
    case GetMember(true) => Some(Members)
    case LoadRobots(g, false, count) => if count > 0 || Robots(g) in db then Some(Robots(g)) else None
    case RestoreSettled(g, true) => Some(SettledSnapshot(g))
    case GetClaim(true) => Some(Claims)
    case AtomicClaim(First) => Some(Claims)
    case AtomicClaim(Restored) => Some(Claims)
    case LoadGroupSettledCached(g, hit, found) =>
      if (if hit then SettledSnapshot(g) in db else found) then Some(SettledSnapshot(g)) else None
    case _ => None
  }

  /**
    A refill leaves its key with 14 days from now, or until 14 days after the end of the activity
    if that is longer, and touches no other key.
   */
  lemma RefillsLastTheRetention(db: Db, end: int, now: int, op: Op)
    requires end > 0 && RefilledKey(db, op).Some?
    ensures
      var at := now + 14 * DAY;
      var limit := end + 14 * DAY;
      Effect(db, end, now, op) == db[RefilledKey(db, op).value := Some(if at >= limit then at else limit)]
  {
  }

  /** The keys that a write writes, each with the lifetime of a write. */
  function WrittenKeys(db: Db, op: Op): set<Key> {
    match op
    case SaveGroup => {Groups}
    case IncrRealCount => {Meta, Groups}
    case NextGroupID => {Meta}
    case SaveActivityTimes => {Meta}
    case RestoreNextGroupID(minID, raise) => if minID > 0 && (raise || Meta in db) then {Meta} else {}
    case SetMember => {Members}
    case SaveRobots(g, count) => if count > 0 then {Robots(g)} else {}
    case SaveUsedInfoIDs(g, count) => if count > 0 then {RobotInfos(g)} else {}
    case _ => {}
  }

  /**
    A write leaves each of its keys until 14 days after the end of the activity, or for a minute
    if that is past; without an end for 7 days; and touches no other key but the registry.
   */
  lemma WritesLastToTheLimit(db: Db, end: int, now: int, op: Op, k: Key)
    requires IsWrite(op)
    ensures
      var db' := Effect(db, end, now, op);
      if k in WrittenKeys(db, op) then
        && k in db'
        && db'[k] == Some(if end <= 0 then now + 7 * DAY
                          else if now < end + 14 * DAY then end + 14 * DAY else now + MINUTE)
      else if op.SaveActivityTimes? && k == ActiveServices then
        k in db' && db'[k] == Some(now + 7 * DAY)
      else
        (k in db' <==> k in db) && (k in db ==> db'[k] == db[k])
  {
  }

  /** The keys whose lifetime a settlement of these groups sets. */
  predicate IsLive(k: Key, groups: seq<int>) {
    match k
    case Meta => true
    case Groups => true
    case Members => true
    case Claims => true
    case MongoChecked => true
    case Robots(g) => g in groups
    case RobotInfos(g) => g in groups
    case _ => false
  }

  lemma {:induction false} GroupsAreRestamped(db: Db, groups: seq<int>, at: int, k: Key)
    requires k in db
    ensures k in RestampGroups(db, groups, at)
    ensures RestampGroups(db, groups, at)[k]
         == if (k.Robots? || k.RobotInfos?) && k.groupID in groups then Some(at) else db[k]
    decreases |groups|
  {
    if groups != [] {
      var front, g := groups[..|groups| - 1], groups[|groups| - 1];
      GroupsAreRestamped(db, front, at, k);
      assert groups == front + [g];
    }
  }

  /** Settling gives exactly the live keys that are present the lifetime of a refill. */
  lemma SettlingRestampsExactly(db: Db, end: int, now: int, groups: seq<int>, k: Key)
    requires end > 0 && k in db
    ensures
      var db' := Effect(db, end, now, ExpireLiveData(groups));
      var at := now + 14 * DAY;
      var limit := end + 14 * DAY;
      k in db' && db'[k] == if IsLive(k, groups) then Some(if at >= limit then at else limit) else db[k]
  {
    var at := now + BackfillTtlFor(end, now);
    var db1 := Restamp(Restamp(Restamp(db, Meta, at), Groups, at), Members, at);
    var db2 := Restamp(Restamp(db1, Claims, at), MongoChecked, at);
    GroupsAreRestamped(db2, groups, at, k);
  }

  // ---------------------------------------------------------------- the retention floor

  /** No data key expires before the activity's end plus retention. */
  predicate KeptUntil(db: Db, limit: int) {
    forall k <- db :: k.IsData() ==> db[k].Some? && db[k].value >= limit
  }

  predicate KeptExactlyUntil(db: Db, limit: int) {
    forall k <- db :: k.IsData() ==> db[k] == Some(limit)
  }

  lemma BackfillReachesTheLimit(end: int, now: int)
    ensures BackfillTtlFor(end, now) >= RETENTION > 0
    ensures end > 0 && now < end + RETENTION ==> now + BackfillTtlFor(end, now) >= end + RETENTION
    ensures 0 < end && now <= end ==> now + BackfillTtlFor(end, now) == end + RETENTION
  {
  }

  lemma OperationKeepsRetention(db: Db, end: int, now: int, op: Op)
    requires end > 0 && now < end + RETENTION
    requires KeptUntil(db, end + RETENTION)
    ensures KeptUntil(Effect(db, end, now, op), end + RETENTION)
    ensures forall k <- db :: k in Effect(db, end, now, op)
  {
    BackfillReachesTheLimit(end, now);
    if op.ExpireLiveData? {
      ExpiringLiveDataRestamps(db, end, now, op.groups);
    }
  }

  /** The operations happen before the retention is over. */
  predicate WithinRetention(end: int, events: seq<Event>) {
    forall e <- events :: e.Do? ==> e.now < end + RETENTION
  }

  predicate NothingLost(events: seq<Event>) {
    forall e <- events :: e.Do?
  }

  /**
    The retention floor. For an activity that ends at `end`, over any run of operations before
    end + 14 days, writes, refills and settlements mixed in any order and any keys lost between
    them, no data key ever expires before end + 14 days; and if Redis itself loses nothing, none
    that was written disappears.
   */
  lemma {:induction false} DataIsRetained(db: Db, end: int, events: seq<Event>)
    requires end > 0 && WithinRetention(end, events)
    requires KeptUntil(db, end + RETENTION)
    ensures KeptUntil(Run(db, end, events), end + RETENTION)
    ensures NothingLost(events) ==> forall k <- db :: k.IsData() ==> k in Run(db, end, events)
    decreases |events|
  {
    if events != [] {
      var e := events[0];
      if e.Do? {
        OperationKeepsRetention(Purge(db, e.now), end, e.now, e.op);
      }
      DataIsRetained(Step(db, end, e), end, events[1..]);
    }
  }

  /** Writes alone leave every data key at exactly end + 14 days, whenever and however often. */
  lemma {:induction false} WritesSetOneExpiry(db: Db, end: int, events: seq<Event>)
    requires end > 0 && WithinRetention(end, events)
    requires forall e <- events :: e.Do? ==> IsWrite(e.op)
    requires KeptExactlyUntil(db, end + RETENTION)
    ensures KeptExactlyUntil(Run(db, end, events), end + RETENTION)
    decreases |events|
  {
    if events != [] {
      WritesSetOneExpiry(Step(db, end, events[0]), end, events[1..]);
    }
  }

  /** The sentinel of an empty Mongo is set with SETNX and so never cuts an expiry short. */
  lemma MongoCheckedIsNeverShortened(db: Db, end: int, now: int, op: Op)
    requires op.LoadGroups? || op.GetAllMembers?
    requires MongoChecked in db
    ensures
      var db' := Effect(db, end, now, op);
      MongoChecked in db' && db'[MongoChecked] == db[MongoChecked]
  {
  }

  /** A plain write after the activity ended takes back what a refill had granted, to the limit. */
  lemma WriteCutsBackARefill(db: Db, end: int, refill: int, write: int)
    requires 0 < end < refill <= write < end + RETENTION
    ensures
      var db1 := Effect(db, end, refill, GetMember(true));
      var db2 := Effect(Purge(db1, write), end, write, SetMember);
      db1[Members] == Some(refill + RETENTION) && db2[Members] == Some(end + RETENTION)
      && refill + RETENTION > end + RETENTION
  {
  }
}
