/**
  When the Redis keys of one activity expire. Redis is a map from the keys present to their
  expiry; the store writes a key and then sets its expiry, so that no key stays forever and none
  disappears before its retention is over. Times and durations are milliseconds.
 */
module TimedStore {
  import opened Options

  const DAY := 24 * 60 * 60 * 1000
  const RETENTION := 14 * DAY           // SettledCacheTTL
  const COLD_TTL := 7 * DAY             // ColdDataTTL
  const MINUTE := 60 * 1000
  const MONGO_CHECKED_TTL := 10 * MINUTE
  const SETTLE_LOCK_TTL := 10 * MINUTE
  const TICK_LOCK_TTL := 3 * 1000

  datatype Key =
    | Meta | Groups | Members | Claims
    | Robots(groupID: int) | RobotInfos(groupID: int) | SettledSnapshot(groupID: int)
    | MongoChecked | ActiveServices | SettleLock(groupID: int) | TickLock(second: int)
  {
    predicate IsData() {
      Meta? || Groups? || Members? || Claims? || Robots? || RobotInfos? || SettledSnapshot?
    }
  }

  /** The keys present and when they expire; `None` means never. */
  type Db = map<Key, Option<int>>

  /**
    The remaining lifetime of a key written at `now`: until the activity's end plus retention.
    An activity without an end, and one whose retention is over, get a fixed positive lifetime.
   */
  function TtlFor(activityEnd: int, now: int): (ttl: int)
    ensures ttl > 0
    ensures activityEnd > 0 && now < activityEnd + RETENTION ==> now + ttl == activityEnd + RETENTION
    ensures activityEnd <= 0 ==> ttl == COLD_TTL
  {
    if activityEnd <= 0 then COLD_TTL
    else if now < activityEnd + RETENTION then activityEnd + RETENTION - now
    else MINUTE
  }

  /** Reads that refill a key, and resets of existing keys, never go below the retention. */
  function BackfillTtlFor(activityEnd: int, now: int): int {
    if TtlFor(activityEnd, now) > RETENTION then TtlFor(activityEnd, now) else RETENTION
  }

  // ---------------------------------------------------------------- Redis

  class Redis {
    var db: Db

    constructor ()
      ensures db == map[]
    {
      db := map[];
    }

    /** HSET, HINCRBY, SADD: create the key without expiry, or keep the expiry it has. */
    method Write(key: Key)
      modifies this
      ensures db == if key in old(db) then old(db) else old(db)[key := None]
    {
      if key !in db {
        db := db[key := None];
      }
    }

    /** EXPIRE does nothing to an absent key, and a lifetime that is not positive deletes it. */
    method Expire(key: Key, now: int, ttl: int)
      modifies this
      ensures db == if key !in old(db) then old(db)
                    else if ttl <= 0 then old(db) - {key}
                    else old(db)[key := Some(now + ttl)]
    {
      if key in db {
        db := if ttl <= 0 then db - {key} else db[key := Some(now + ttl)];
      }
    }

    method SetEx(key: Key, now: int, ttl: int)
      modifies this
      ensures db == old(db)[key := Some(now + ttl)]
    {
      db := db[key := Some(now + ttl)];
    }

    method SetNx(key: Key, now: int, ttl: int) returns (ok: bool)
      modifies this
      ensures ok == (key !in old(db))
      ensures db == if ok then old(db)[key := Some(now + ttl)] else old(db)
    {
      ok := key !in db;
      if ok {
        db := db[key := Some(now + ttl)];
      }
    }

    method Lose(keys: set<Key>)
      modifies this
      ensures db == old(db) - keys
    {
      db := db - keys;
    }
  }

  // ---------------------------------------------------------------- operations of the store

  /** How a lazy bulk load ends: in Redis, at the sentinel, or in Mongo with or without documents. */
  datatype Load = Hit | AlreadyChecked | EmptyInMongo | FoundInMongo

  /** Whether a claim was refused by the script, was the first, or restored a time from Mongo. */
  datatype ClaimEnd = Refused | First | Restored

  datatype Op =
    | SaveGroup
    | LoadGroups(load: Load)
    | IncrRealCount
    | NextGroupID
    | SaveActivityTimes
    | RestoreNextGroupID(minID: int, raise: bool)
    | RestoreSettled(groupID: int, some: bool)
    | SetMember
    | GetMember(backfills: bool)
    | GetAllMembers(load: Load)
    | SaveRobots(groupID: int, count: nat)
    | LoadRobots(groupID: int, hit: bool, count: nat)
    | SaveUsedInfoIDs(groupID: int, count: nat)
    | ExpireLiveData(groups: seq<int>)
    | AtomicClaim(end: ClaimEnd)
    | GetClaim(backfills: bool)
    | LoadGroupSettledCached(groupID: int, hit: bool, found: bool)
    | TryLockSettle(groupID: int)
    | TryLockRobotTick(second: int)

  function Stamp(db: Db, key: Key, at: int): Db {
    db[key := Some(at)]
  }

  function Restamp(db: Db, key: Key, at: int): Db {
    if key in db then Stamp(db, key, at) else db
  }

  function StampNew(db: Db, key: Key, at: int): Db {
    if key in db then db else Stamp(db, key, at)
  }

  function AfterLoad(db: Db, key: Key, load: Load, end: int, now: int): Db {
    match load
    case Hit => db
    case AlreadyChecked => db
    case EmptyInMongo => StampNew(db, MongoChecked, now + MONGO_CHECKED_TTL)
    case FoundInMongo => Stamp(db, key, now + BackfillTtlFor(end, now))
  }

  function RestampGroups(db: Db, groups: seq<int>, at: int): Db
    decreases |groups|
  {
    if groups == [] then db
    else
      var g, front := groups[|groups| - 1], groups[..|groups| - 1];
      Restamp(Restamp(RestampGroups(db, front, at), Robots(g), at), RobotInfos(g), at)
  }

  /** What an operation does to the expiries, for a store whose activity ends at `end`. */
  function Effect(db: Db, end: int, now: int, op: Op): Db {
    var write := now + TtlFor(end, now);
    var backfill := now + BackfillTtlFor(end, now);
    match op
    case SaveGroup => Stamp(db, Groups, write)
    case LoadGroups(load) => AfterLoad(db, Groups, load, end, now)
    case IncrRealCount => Stamp(Stamp(db, Meta, write), Groups, write)
    case NextGroupID => Stamp(db, Meta, write)
    case SaveActivityTimes => Stamp(Stamp(db, Meta, write), ActiveServices, now + COLD_TTL)
    case RestoreNextGroupID(minID, raise) =>
      if minID <= 0 then db else if raise then Stamp(db, Meta, write) else Restamp(db, Meta, write)
    case RestoreSettled(g, some) => if some then Stamp(db, SettledSnapshot(g), backfill) else db
    case SetMember => Stamp(db, Members, write)
    case GetMember(backfills) => if backfills then Stamp(db, Members, backfill) else db
    case GetAllMembers(load) => AfterLoad(db, Members, load, end, now)
    case SaveRobots(g, count) => if count == 0 then db else Stamp(db, Robots(g), write)
    case LoadRobots(g, hit, count) =>
      if hit then db else if count == 0 then Restamp(db, Robots(g), backfill) else Stamp(db, Robots(g), backfill)
    case SaveUsedInfoIDs(g, count) => if count == 0 then db else Stamp(db, RobotInfos(g), write)
    case ExpireLiveData(groups) =>
      var db1 := Restamp(Restamp(Restamp(db, Meta, backfill), Groups, backfill), Members, backfill);
      RestampGroups(Restamp(Restamp(db1, Claims, backfill), MongoChecked, backfill), groups, backfill)
    case AtomicClaim(Refused) => db
    case AtomicClaim(First) => Stamp(db, Claims, backfill)
    case AtomicClaim(Restored) => Stamp(db, Claims, backfill)
    case GetClaim(backfills) => if backfills then Stamp(db, Claims, backfill) else db
    case LoadGroupSettledCached(g, hit, found) =>
      if hit then Restamp(db, SettledSnapshot(g), backfill)
      else if found then Stamp(db, SettledSnapshot(g), backfill) else db
    case TryLockSettle(g) => StampNew(db, SettleLock(g), now + SETTLE_LOCK_TTL)
    case TryLockRobotTick(second) => StampNew(db, TickLock(second), now + TICK_LOCK_TTL)
  }

  class Store {
    const rdb: Redis
    const activityEnd: int

    constructor (rdb: Redis, activityEnd: int)
      ensures this.rdb == rdb && this.activityEnd == activityEnd
    {
      this.rdb, this.activityEnd := rdb, activityEnd;
    }

    /** The write path's only way to set an expiry; it must follow the write. */
    method ExpireKey(key: Key, now: int)
      modifies rdb
      ensures rdb.db == Restamp(old(rdb.db), key, now + TtlFor(activityEnd, now))
    {
      rdb.Expire(key, now, TtlFor(activityEnd, now));
    }

    /** The read path's: write the fields found, if any, then expire. */
    method Backfill(key: Key, count: nat, now: int)
      modifies rdb
      ensures rdb.db == if count == 0 then Restamp(old(rdb.db), key, now + BackfillTtlFor(activityEnd, now))
                        else Stamp(old(rdb.db), key, now + BackfillTtlFor(activityEnd, now))
    {
      WriteAll(key, count);
      rdb.Expire(key, now, BackfillTtlFor(activityEnd, now));
    }

    method WriteAll(key: Key, count: nat)
      modifies rdb
      ensures rdb.db == if count == 0 || key in old(rdb.db) then old(rdb.db) else old(rdb.db)[key := None]
    {
      for i := 0 to count
        invariant rdb.db == if i == 0 || key in old(rdb.db) then old(rdb.db) else old(rdb.db)[key := None]
      {
        rdb.Write(key);
      }
    }

    method SaveGroup(now: int)
      modifies rdb
      ensures rdb.db == Effect(old(rdb.db), activityEnd, now, Op.SaveGroup)
    {
      rdb.Write(Groups);
      ExpireKey(Groups, now);
    }

    /** Load a hash of documents lazily: from Redis if present, else from Mongo, once. */
    method BulkLoad(key: Key, now: int, hit: bool, hasMongo: bool, documents: nat) returns (load: Load)
      modifies rdb
      ensures rdb.db == AfterLoad(old(rdb.db), key, load, activityEnd, now)
      ensures load.Hit? <==> hit
      ensures load.AlreadyChecked? <==> !hit && (!hasMongo || MongoChecked in old(rdb.db))
      ensures load.EmptyInMongo? <==> !hit && hasMongo && MongoChecked !in old(rdb.db) && documents == 0
    {
      if hit {
        return Hit;
      }
      if !hasMongo || MongoChecked in rdb.db {
        return AlreadyChecked;
      }
      if documents == 0 {
        var _ := rdb.SetNx(MongoChecked, now, MONGO_CHECKED_TTL);
        return EmptyInMongo;
      }
      Backfill(key, documents, now);
      return FoundInMongo;
    }

    method IncrRealCount(now: int)
      modifies rdb
      ensures rdb.db == Effect(old(rdb.db), activityEnd, now, Op.IncrRealCount)
    {
      rdb.Write(Meta);
      ExpireKey(Meta, now);
      rdb.Write(Groups);
      ExpireKey(Groups, now);
    }

    method NextGroupID(now: int)
      modifies rdb
      ensures rdb.db == Effect(old(rdb.db), activityEnd, now, Op.NextGroupID)
    {
      rdb.Write(Meta);
      ExpireKey(Meta, now);
    }

    method SaveActivityTimes(now: int)
      modifies rdb
      ensures rdb.db == Effect(old(rdb.db), activityEnd, now, Op.SaveActivityTimes)
    {
      WriteAll(Meta, 3);
      rdb.Expire(Meta, now, TtlFor(activityEnd, now));
      rdb.Write(ActiveServices);
      rdb.Expire(ActiveServices, now, COLD_TTL);
    }

    method RestoreNextGroupID(minID: int, current: int, now: int)
      modifies rdb
      ensures rdb.db == Effect(old(rdb.db), activityEnd, now, Op.RestoreNextGroupID(minID, current < minID))
    {
      if minID <= 0 {
        return;
      }
      if current < minID {
        rdb.Write(Meta);
      }
      ExpireKey(Meta, now);
    }

    method RestoreSettled(groupID: int, snapshots: nat, now: int)
      modifies rdb
      ensures rdb.db == Effect(old(rdb.db), activityEnd, now, Op.RestoreSettled(groupID, snapshots > 0))
    {
      if snapshots == 0 {
        return;
      }
      rdb.SetEx(SettledSnapshot(groupID), now, BackfillTtlFor(activityEnd, now));
    }

    method SetMember(now: int)
      modifies rdb
      ensures rdb.db == Effect(old(rdb.db), activityEnd, now, Op.SetMember)
    {
      rdb.Write(Members);
      ExpireKey(Members, now);
    }

    method GetMember(hit: bool, foundInMongo: bool, now: int)
      modifies rdb
      ensures rdb.db == Effect(old(rdb.db), activityEnd, now, Op.GetMember(!hit && foundInMongo))
    {
      if !hit && foundInMongo {
        Backfill(Members, 1, now);
      }
    }

    method SaveRobots(groupID: int, count: nat, now: int)
      modifies rdb
      ensures rdb.db == Effect(old(rdb.db), activityEnd, now, Op.SaveRobots(groupID, count))
    {
      if count == 0 {
        return;
      }
      WriteAll(Robots(groupID), count);
      ExpireKey(Robots(groupID), now);
    }

    /** Without documents the backfill writes nothing, and EXPIRE on the absent key is dropped. */
    method LoadRobots(groupID: int, hasMongo: bool, count: nat, now: int) returns (hit: bool)
      modifies rdb
      ensures hit == (Robots(groupID) in old(rdb.db))
      ensures rdb.db == Effect(old(rdb.db), activityEnd, now,
                               Op.LoadRobots(groupID, hit || !hasMongo, count))
    {
      hit := Robots(groupID) in rdb.db;
      if !hit && hasMongo {
        Backfill(Robots(groupID), count, now);
      }
    }

    method SaveUsedInfoIDs(groupID: int, count: nat, now: int)
      modifies rdb
      ensures rdb.db == Effect(old(rdb.db), activityEnd, now, Op.SaveUsedInfoIDs(groupID, count))
    {
      if count == 0 {
        return;
      }
      rdb.Write(RobotInfos(groupID));
      ExpireKey(RobotInfos(groupID), now);
    }

    /** Called when groups settle, with the lifetime of a backfill. */
    method ExpireLiveData(groups: seq<int>, now: int)
      modifies rdb
      ensures rdb.db == Effect(old(rdb.db), activityEnd, now, Op.ExpireLiveData(groups))
    {
      var ttl := BackfillTtlFor(activityEnd, now);
      rdb.Expire(Meta, now, ttl);
      rdb.Expire(Groups, now, ttl);
      rdb.Expire(Members, now, ttl);
      rdb.Expire(Claims, now, ttl);
      rdb.Expire(MongoChecked, now, ttl);
      ghost var db1 := rdb.db;
      for i := 0 to |groups|
        invariant rdb.db == RestampGroups(db1, groups[..i], now + ttl)
      {
        assert groups[..i + 1][..i] == groups[..i];
        rdb.Expire(Robots(groups[i]), now, ttl);
        rdb.Expire(RobotInfos(groups[i]), now, ttl);
      }
      assert groups[..|groups|] == groups;
    }

    /**
      Redis may lose the hash between the script and its EXPIRE, or while the call waits for
      Mongo. A restoring HSET that then finds no hash leaves one without expiry.
     */
    method AtomicClaim(scriptRefuses: bool, mongoHasClaim: bool, lostBeforeExpire: bool, lostBeforeRestore: bool,
                       now: int)
      returns (end: ClaimEnd)
      modifies rdb
      ensures end == if scriptRefuses then Refused else if mongoHasClaim then Restored else First
      ensures
        if end == Refused || !(lostBeforeExpire || lostBeforeRestore) then
          rdb.db == Effect(old(rdb.db), activityEnd, now, Op.AtomicClaim(end))
        else if end == First then
          rdb.db == old(rdb.db) - {Claims}
        else
          rdb.db == old(rdb.db)[Claims := None]
    {
      if scriptRefuses {
        return Refused;
      }
      rdb.Write(Claims);
      if lostBeforeExpire {
        rdb.Lose({Claims});
      }
      rdb.Expire(Claims, now, BackfillTtlFor(activityEnd, now));
      if lostBeforeRestore {
        rdb.Lose({Claims});
      }
      if mongoHasClaim {
        rdb.Write(Claims);      // an older claim, or one that won the race on the insert
        return Restored;
      }
      return First;
    }

    method GetClaim(hit: bool, hasMongo: bool, now: int)
      modifies rdb
      ensures rdb.db == Effect(old(rdb.db), activityEnd, now, Op.GetClaim(!hit && hasMongo))
    {
      if !hit && hasMongo {
        Backfill(Claims, 1, now);     // Mongo's time, or the sentinel
      }
    }

    method LoadGroupSettledCached(groupID: int, readable: bool, found: bool, now: int) returns (hit: bool)
      modifies rdb
      ensures hit == (SettledSnapshot(groupID) in old(rdb.db) && readable)
      ensures rdb.db == Effect(old(rdb.db), activityEnd, now, Op.LoadGroupSettledCached(groupID, hit, found))
    {
      hit := SettledSnapshot(groupID) in rdb.db && readable;
      if hit {
        rdb.Expire(SettledSnapshot(groupID), now, BackfillTtlFor(activityEnd, now));
      } else if found {
        rdb.SetEx(SettledSnapshot(groupID), now, BackfillTtlFor(activityEnd, now));
      }
    }

    method TryLockSettle(groupID: int, now: int) returns (locked: bool)
      modifies rdb
      ensures locked == (SettleLock(groupID) !in old(rdb.db))
      ensures rdb.db == Effect(old(rdb.db), activityEnd, now, Op.TryLockSettle(groupID))
    {
      locked := rdb.SetNx(SettleLock(groupID), now, SETTLE_LOCK_TTL);
    }

    method TryLockRobotTick(nowMs: int) returns (locked: bool)
      requires nowMs >= 0
      modifies rdb
      ensures locked == (TickLock(nowMs / 1000) !in old(rdb.db))
      ensures rdb.db == Effect(old(rdb.db), activityEnd, nowMs, Op.TryLockRobotTick(nowMs / 1000))
    {
      locked := rdb.SetNx(TickLock(nowMs / 1000), nowMs, TICK_LOCK_TTL);
    }
  }
}
