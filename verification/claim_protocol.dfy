/**
  One call of the reward-claim protocol, one shared-memory access at a time.

  A claim record lives in two places: a field of the Redis hash `rank:claims`, which may
  disappear at any moment, and a Mongo document, which is permanent. A call is a small program
  over the two; `Advance` executes its next access.
 */
module ClaimProtocol {
  import opened Options

  /** A claim document is named by the activity (or round) and the user. */
  datatype Key = Key(bizId: string, userID: int)

  /** A Redis field: the negative-cache sentinel, or a claim time. */
  datatype Field = Null | Time(time: int)

  datatype Store = Store(redis: map<Key, Field>, mongo: map<Key, int>)

  /** AtomicClaim, ClaimHistoricalReward and GetClaim. */
  datatype Kind = Atomic | Historical | Query

  /** What a call returns: has the reward been claimed, and when. */
  datatype Answer = Answer(claimed: bool, time: int)

  /** The access a call performs next. */
  datatype Pc =
    | Start
    | VerifyMongo                    // the Lua script wrote the field: look in Mongo for an older claim
    | Insert                         // upsert with $setOnInsert
    | ReadBack                       // the upsert matched a document: read its time
    | Restore(mongoTime: int)        // put Mongo's time back into Redis
    | QueryMongo                     // GetClaim missed in Redis
    | Backfill(found: Option<int>)   // GetClaim writes Mongo's time, or the sentinel, into Redis
    | Done(answer: Answer)
    | Failed                         // returned an error, or its node crashed

  datatype Call = Call(kind: Kind, key: Key, now: int, pc: Pc) {
    predicate Running() {
      !pc.Done? && !pc.Failed?
    }

    predicate Claims() {
      !kind.Query?
    }

    /** The call told its caller to hand out the reward. */
    predicate Won() {
      Claims() && pc.Done? && !pc.answer.claimed
    }

    /** The accesses each kind of call goes through. */
    predicate OnItsPath() {
      match pc
      case Start => true
      case VerifyMongo => kind.Atomic?
      case Restore(_) => kind.Atomic?
      case Insert => Claims()
      case ReadBack => Claims()
      case QueryMongo => kind.Query?
      case Backfill(_) => kind.Query?
      case Done(_) => true
      case Failed => true
    }

    function Finish(claimed: bool, time: int): Call {
      this.(pc := Done(Answer(claimed, time)))
    }
  }

  function AdvanceStart(st: Store, c: Call): (Store, Call) {
    var cached := if c.key in st.redis then Some(st.redis[c.key]) else None;
    match c.kind
    case Atomic =>
      // the Lua script: test the field and set it in one atomic access
      if cached.Some? && cached.value.Time? then
        (st, c.Finish(true, cached.value.time))
      else
        (st.(redis := st.redis[c.key := Time(c.now)]), c.(pc := VerifyMongo))
    case Historical =>
      (st, c.(pc := Insert))
    case Query =>
      match cached
      case None => (st, c.(pc := QueryMongo))
      case Some(Null) => (st, c.Finish(false, 0))
      case Some(Time(t)) => (st, c.Finish(true, t))
  }

  /** The next access of a running call. */
  function Advance(st: Store, c: Call): (Store, Call)
    requires c.Running()
  {
    match c.pc
    case Start =>
      AdvanceStart(st, c)
    case VerifyMongo =>
      (st, c.(pc := if c.key in st.mongo then Restore(st.mongo[c.key]) else Insert))
    case Insert =>
      if c.key in st.mongo then
        (st, c.(pc := ReadBack))
      else
        (st.(mongo := st.mongo[c.key := c.now]), c.Finish(false, c.now))
    case ReadBack =>
      if c.key !in st.mongo then
        (st, c.Finish(false, c.now))  // the defensive fallback "not found after upsert"
      else if c.kind.Historical? then
        (st, c.Finish(true, st.mongo[c.key]))
      else
        (st, c.(pc := Restore(st.mongo[c.key])))
    case Restore(t) =>
      (st.(redis := st.redis[c.key := Time(t)]), c.Finish(true, t))
    case QueryMongo =>
      (st, c.(pc := Backfill(if c.key in st.mongo then Some(st.mongo[c.key]) else None)))
    case Backfill(Some(t)) =>
      (st.(redis := st.redis[c.key := Time(t)]), c.Finish(true, t))
    case Backfill(None) =>
      (st.(redis := st.redis[c.key := Null]), c.Finish(false, 0))
  }

  /** An upper bound on the accesses a call has left. */
  function Remaining(pc: Pc): nat {
    match pc
    case Start => 5
    case VerifyMongo => 4
    case Insert => 3
    case ReadBack => 2
    case QueryMongo => 2
    case Restore(_) => 1
    case Backfill(_) => 1
    case Done(_) => 0
    case Failed => 0
  }

  /** A call that no other call interleaves with. */
  function Complete(st: Store, c: Call): (r: (Store, Answer))
    requires !c.pc.Failed?
    decreases Remaining(c.pc)
  {
    if c.pc.Done? then
      (st, c.pc.answer)
    else
      var (st', c') := Advance(st, c);
      Complete(st', c')
  }
}
