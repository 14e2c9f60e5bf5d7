/** The in-process session store: a dictionary of expiring entries, with lazy expiry on `get`,
    pruning on `set`, and copies in and out.  The class is proved against functions on values, and
    those functions against a history: what `get` answers depends only on the last write. */
module SessionStore {
  import opened Common

  type Sid = string
  type Fields = map<string, string>

  // ----- the store as a value -----------------------------------------------------

  datatype Slot = Slot(expires: real, fields: Fields)

  type Table = map<Sid, Slot>

  function Pruned(t: Table, now: real): Table {
    map s | s in t && now < t[s].expires :: t[s]
  }

  function AfterSet(t: Table, ttl: int, sid: Sid, fields: Fields, prunedAt: real, storedAt: real): Table {
    Pruned(t, prunedAt)[sid := Slot(storedAt + ttl as real, fields)]
  }

  function AfterGet(t: Table, sid: Sid, now: real): Table {
    if sid in t && t[sid].expires <= now then t - {sid} else t
  }

  function Seen(t: Table, sid: Sid, now: real): Option<Fields> {
    if sid in t && now < t[sid].expires then Some(t[sid].fields) else None
  }

  // ----- the store as a history ---------------------------------------------------

  /** One call, with every reading of the clock it makes. */
  datatype Op =
    | Set(sid: Sid, fields: Fields, prunedAt: real, storedAt: real)
    | Delete(sid: Sid)
    | Get(sid: Sid, at: real)

  function Apply(t: Table, ttl: int, op: Op): Table {
    match op
    case Set(sid, fields, prunedAt, storedAt) => AfterSet(t, ttl, sid, fields, prunedAt, storedAt)
    case Delete(sid) => t - {sid}
    case Get(sid, at) => AfterGet(t, sid, at)
  }

  function After(ttl: int, ops: seq<Op>): Table {
    if ops == [] then map[] else Apply(After(ttl, ops[..|ops| - 1]), ttl, Last(ops))
  }

  /** The monotonic clock never runs backwards, within a call or from one call to the next, and
      `now` is not before any reading. */
  ghost predicate ClockOk(ops: seq<Op>, now: real) {
    ops == [] ||
    match Last(ops)
    case Set(_, _, prunedAt, storedAt) => storedAt <= now && prunedAt <= storedAt && ClockOk(ops[..|ops| - 1], prunedAt)
    case Delete(_) => ClockOk(ops[..|ops| - 1], now)
    case Get(_, at) => at <= now && ClockOk(ops[..|ops| - 1], at)
  }

  datatype Written = Written(fields: Fields, at: real)

  /** The last write to a session, unless it has been deleted since. */
  function LastWrite(ops: seq<Op>, sid: Sid): Option<Written> {
    if ops == [] then None
    else
      var op := Last(ops);
      if op.Get? || op.sid != sid then LastWrite(ops[..|ops| - 1], sid)
      else if op.Delete? then None
      else Some(Written(op.fields, op.storedAt))
  }

  function Expected(ttl: int, ops: seq<Op>, sid: Sid, now: real): Option<Fields> {
    var w := LastWrite(ops, sid);
    if w.Some? && now < w.value.at + ttl as real then Some(w.value.fields) else None
  }

  /** Lazy expiry and pruning are invisible: at any moment a reader sees the last value written,
      unless it was deleted since or its time to live has run out. */
  lemma {:induction false} GetReadsTheLastWrite(ttl: int, ops: seq<Op>, sid: Sid, now: real)
    requires ClockOk(ops, now)
    ensures Seen(After(ttl, ops), sid, now) == Expected(ttl, ops, sid, now)
  {
    if ops != [] {
      var before := ops[..|ops| - 1];
      ClockOkBefore(ops, now);
      GetReadsTheLastWrite(ttl, before, sid, now);
      SeenAfterOne(After(ttl, before), ttl, Last(ops), sid, now, After(ttl, ops));
      ExpectedAfterOne(ttl, ops, sid, now);
    }
  }

  lemma {:induction false} ClockOkBefore(ops: seq<Op>, now: real)
    requires ops != [] && ClockOk(ops, now)
    ensures ClockOk(ops[..|ops| - 1], now) && ReadBy(Last(ops), now)
  {
    assert ops == ops[..|ops| - 1] + [Last(ops)];
    ClockOkLater(ops[..|ops| - 1], now, Last(ops));
  }

  lemma {:induction false} ExpectedAfterOne(ttl: int, ops: seq<Op>, sid: Sid, now: real)
    requires ops != []
    ensures Expected(ttl, ops, sid, now) == OneMore(Expected(ttl, ops[..|ops| - 1], sid, now), ttl, Last(ops), sid, now)
  {}

  /** What one more call makes of what a reader sees. */
  function OneMore(seen: Option<Fields>, ttl: int, op: Op, sid: Sid, now: real): Option<Fields> {
    if op.Get? || op.sid != sid then seen
    else if op.Set? && now < op.storedAt + ttl as real then Some(op.fields)
    else None
  }

  /** No reading of the clock in the call is past `now`. */
  predicate ReadBy(op: Op, now: real) {
    match op
    case Set(_, _, prunedAt, storedAt) => prunedAt <= storedAt <= now
    case Delete(_) => true
    case Get(_, at) => at <= now
  }

  lemma SeenAfterOne(t: Table, ttl: int, op: Op, sid: Sid, now: real, next: Table)
    requires ReadBy(op, now) && next == Apply(t, ttl, op)
    ensures Seen(next, sid, now) == OneMore(Seen(t, sid, now), ttl, op, sid, now)
  {}

  lemma {:induction false} ClockOkLater(before: seq<Op>, now: real, op: Op)
    requires ClockOk(before + [op], now)
    ensures ClockOk(before, now)
  {
    assert (before + [op])[..|before|] == before;
    if before != [] && !op.Delete? {
      ClockOkMonotone(before, if op.Set? then op.prunedAt else op.at, now);
    }
  }

  lemma {:induction false} ClockOkMonotone(ops: seq<Op>, a: real, b: real)
    requires a <= b && ClockOk(ops, a)
    ensures ClockOk(ops, b)
  {
    if ops != [] && Last(ops).Delete? {
      ClockOkMonotone(ops[..|ops| - 1], a, b);
    }
  }

  // ----- the store as an object ----------------------------------------------------

  /** A session as handlers hold it: a dictionary they change in place. */
  class SessionDict {
    var fields: Fields

    constructor (fields: Fields)
      ensures this.fields == fields
    {
      this.fields := fields;
    }
  }

  datatype Entry = Entry(expires: real, dict: SessionDict)

  class MemorySessionStore {
    const ttl: int
    var data: map<Sid, Entry>
    var locks: map<Sid, bool>  // sid to whether its lock is held
    ghost var Repr: set<object>

    ghost predicate Valid()
      reads this, Repr
    {
      this in Repr && forall s :: s in data ==> data[s].dict in Repr && (data[s].dict as object) != this
    }

    ghost function Contents(): Table
      requires Valid()
      reads this, Repr
    {
      map s | s in data :: Slot(data[s].expires, data[s].dict.fields)
    }

    constructor (ttl: int)
      ensures Valid() && fresh(Repr) && this.ttl == ttl && Contents() == map[] && locks == map[]
    {
      this.ttl := ttl;
      data := map[];
      locks := map[];
      Repr := {this};
    }

    /** Drops expired entries, and their locks unless held. */
    method Prune(now: real)
      requires Valid()
      modifies this
      ensures Valid() && Repr == old(Repr)
      ensures Contents() == Pruned(old(Contents()), now)
      ensures forall s :: s in data <==> s in old(data) && now < old(data)[s].expires
      ensures forall s :: s in data ==> data[s] == old(data)[s]
      ensures forall s :: s in locks <==>
                s in old(locks) && (old(locks)[s] || !(s in old(data) && old(data)[s].expires <= now))
      ensures forall s :: s in locks ==> locks[s] == old(locks)[s]
    {
      var expired := set s | s in data && data[s].expires <= now;
      ghost var all := expired;
      while expired != {}
        invariant expired <= all && Repr == old(Repr) && this in Repr
        invariant forall s :: s in data <==> s in old(data) && (s in all ==> s in expired)
        invariant forall s :: s in data ==> data[s] == old(data)[s]
        invariant forall s :: s in locks <==> s in old(locks) && (old(locks)[s] || s !in all || s in expired)
        invariant forall s :: s in locks ==> locks[s] == old(locks)[s]
        decreases |expired|
      {
        var sid :| sid in expired;
        data := data - {sid};
        if sid in locks && !locks[sid] {
          locks := locks - {sid};
        }
        expired := expired - {sid};
      }
    }

    /** The answer is a new dictionary: changing it cannot reach the store. */
    method Get(sid: Sid, now: real) returns (found: Option<SessionDict>)
      requires Valid()
      modifies this
      ensures Valid() && Repr == old(Repr) && locks == old(locks)
      ensures Contents() == AfterGet(old(Contents()), sid, now)
      ensures data == if sid in old(data) && old(data)[sid].expires <= now then old(data) - {sid} else old(data)
      ensures match Seen(old(Contents()), sid, now)
              case None => found.None?
              case Some(fields) => found.Some? && fresh(found.value) && found.value.fields == fields
    {
      if sid !in data {
        return None;
      }
      if data[sid].expires <= now {
        data := data - {sid};
        return None;
      }
      var copy := new SessionDict(data[sid].dict.fields);
      return Some(copy);
    }

    /** What is stored is a copy of the caller's dictionary as it is now. */
    method Set(sid: Sid, dict: SessionDict, prunedAt: real, storedAt: real)
      requires Valid()
      modifies this
      ensures Valid() && fresh(Repr - old(Repr)) && (dict !in old(Repr) ==> dict !in Repr)
      ensures Contents() == AfterSet(old(Contents()), ttl, sid, old(dict.fields), prunedAt, storedAt)
      // a lock goes only with an expired entry, and never while held
      ensures forall s :: s in locks ==> s in old(locks) && locks[s] == old(locks)[s]
      ensures forall s :: s in old(locks) && s !in locks ==>
                !old(locks)[s] && s in old(data) && old(data)[s].expires <= prunedAt
    {
      Prune(prunedAt);
      var copy := new SessionDict(dict.fields);
      data := data[sid := Entry(storedAt + ttl as real, copy)];
      Repr := Repr + {copy};
    }

    method Delete(sid: Sid)
      requires Valid()
      modifies this
      ensures Valid() && Repr == old(Repr)
      ensures Contents() == old(Contents()) - {sid}
      ensures locks == if sid in old(locks) && !old(locks)[sid] then old(locks) - {sid} else old(locks)
    {
      data := data - {sid};
      if sid in locks && !locks[sid] {
        locks := locks - {sid};
      }
    }

    /** Copies out: a handler that changes what it was given has changed nothing stored. */
    method EditACopy(sid: Sid, now: real, edit: Fields)
      requires Valid()
      modifies this
      ensures Valid() && Contents() == AfterGet(old(Contents()), sid, now)
    {
      var found := Get(sid, now);
      if found.Some? {
        found.value.fields := edit;
      }
    }

    /** Copies in: a handler that goes on changing what it stored has to store it again. */
    method EditAfterSet(sid: Sid, dict: SessionDict, prunedAt: real, storedAt: real, edit: Fields)
      requires Valid() && dict !in Repr
      modifies this, dict
      ensures Valid()
      ensures Contents() == AfterSet(old(Contents()), ttl, sid, old(dict.fields), prunedAt, storedAt)
    {
      Set(sid, dict, prunedAt, storedAt);
      dict.fields := edit;
    }
  }
}
