/** The break-glass login throttle: a sliding window of failures per address, pruned only when that
    address is looked at, in a table that evicts the address least recently touched. */
module LoginThrottle {
  import opened Common

  type Ip = string

  datatype Limits = Limits(maxFailures: int, window: int, maxTracked: nat) {
    /** A deque that exists locks its address once it is this long. */
    function Cap(): (cap: nat)
      ensures cap >= 1 && cap >= maxFailures
    {
      if maxFailures >= 1 then maxFailures else 1
    }
  }

  /** An ordered dictionary: its keys in order, and what they map to. */
  datatype Table = Table(order: seq<Ip>, fails: map<Ip, seq<real>>)

  function Without(order: seq<Ip>, ip: Ip): seq<Ip> {
    if order == [] then []
    else if order[0] == ip then Without(order[1..], ip)
    else [order[0]] + Without(order[1..], ip)
  }

  function DropOld(times: seq<real>, cutoff: real): seq<real> {
    if times != [] && times[0] < cutoff then DropOld(times[1..], cutoff) else times
  }

  function Removed(t: Table, ip: Ip): Table {
    Table(Without(t.order, ip), t.fails - {ip})
  }

  function Pruned(t: Table, ip: Ip, cutoff: real): Table {
    if ip !in t.fails then t
    else
      var kept := DropOld(t.fails[ip], cutoff);
      if kept == [] then Removed(t, ip) else t.(fails := t.fails[ip := kept])
  }

  predicate Locked(cfg: Limits, t: Table, ip: Ip) {
    ip in t.fails && t.fails[ip] != [] && |t.fails[ip]| >= cfg.maxFailures
  }

  /** Python's `int` on a float: toward zero. */
  function Truncate(x: real): int {
    if x >= 0.0 then x.Floor else -((-x).Floor)
  }

  /** The fraction is dropped, whatever the sign. */
  lemma TruncateDropsTheFraction(x: real)
    ensures x >= 0.0 ==> Truncate(x) as real <= x < Truncate(x) as real + 1.0
    ensures x < 0.0 ==> Truncate(x) as real - 1.0 < x <= Truncate(x) as real
  {}

  function WaitFor(cfg: Limits, oldest: real, now: real): int {
    var n := Truncate(cfg.window as real - (now - oldest)) + 1;
    if n > 1 then n else 1
  }

  predicate Full(cfg: Limits, t: Table, ip: Ip) {
    ip !in t.fails && |t.order| >= cfg.maxTracked && t.order != []
  }

  /** With `max_tracked` = 0 there is nothing to evict, and the eviction raises. */
  predicate Raises(cfg: Limits, t: Table, ip: Ip) {
    ip !in t.fails && |t.order| >= cfg.maxTracked && t.order == []
  }

  function Evicted(cfg: Limits, t: Table, ip: Ip): Table {
    if Full(cfg, t, ip) then Table(t.order[1..], t.fails - {t.order[0]}) else t
  }

  function Failed(cfg: Limits, t: Table, ip: Ip, now: real): Table {
    var e := Evicted(cfg, t, ip);
    var times := if ip in e.fails then e.fails[ip] else [];
    Table(Without(e.order, ip) + [ip], e.fails[ip := times + [now]])
  }

  /** The failure is at the end of the address's deque, and the address at the end of the table.  The head
      of a full table makes room for an address that is not in it; nothing else is forgotten, and no
      other deque changes. */
  ghost predicate Recorded(cfg: Limits, before: Table, after: Table, ip: Ip, now: real) {
    && after.order != [] && Last(after.order) == ip
    && ip in after.fails && after.fails[ip] == (if ip in before.fails then before.fails[ip] else []) + [now]
    && (forall a :: a != ip && a in after.fails ==> a in before.fails && after.fails[a] == before.fails[a])
    && (forall a :: a != ip && a in before.fails ==>
          (a !in after.fails <==>
             ip !in before.fails && before.order != [] && |before.order| >= cfg.maxTracked && a == before.order[0]))
  }

  lemma FailedRecords(cfg: Limits, t: Table, ip: Ip, now: real)
    requires !Raises(cfg, t, ip)
    ensures Recorded(cfg, t, Failed(cfg, t, ip, now), ip, now)
  {}

  // ----- the object -------------------------------------------------------------

  class Throttle {
    const cfg: Limits
    var order: seq<Ip>
    var fails: map<Ip, seq<real>>

    ghost function State(): Table
      reads this
    {
      Table(order, fails)
    }

    constructor (cfg: Limits)
      ensures this.cfg == cfg && State() == Table([], map[])
    {
      this.cfg := cfg;
      order := [];
      fails := map[];
    }

    method Prune(ip: Ip, now: real) returns (times: Option<seq<real>>)
      modifies this
      ensures State() == Pruned(old(State()), ip, now - cfg.window as real)
      ensures times == if ip in fails then Some(fails[ip]) else None
      ensures times.Some? ==> times.value != []
    {
      if ip !in fails {
        return None;
      }
      var cutoff := now - cfg.window as real;
      ghost var before := fails[ip];
      while fails[ip] != [] && fails[ip][0] < cutoff
        invariant ip in fails && order == old(order) && fails == old(fails)[ip := fails[ip]]
        invariant DropOld(fails[ip], cutoff) == DropOld(before, cutoff)
        decreases |fails[ip]|
      {
        fails := fails[ip := fails[ip][1..]];
      }
      if fails[ip] == [] {
        fails := fails - {ip};
        order := Without(order, ip);
        return None;
      }
      return Some(fails[ip]);
    }

    /** `prunedAt` and `readAt` are the two readings of the clock. */
    method RetryAfter(ip: Ip, prunedAt: real, readAt: real) returns (wait: int)
      modifies this
      ensures State() == Pruned(old(State()), ip, prunedAt - cfg.window as real)
      ensures wait == if Locked(cfg, State(), ip) then WaitFor(cfg, fails[ip][0], readAt) else 0
    {
      var times := Prune(ip, prunedAt);
      if times.Some? && |times.value| >= cfg.maxFailures {
        var n := Truncate(cfg.window as real - (readAt - times.value[0])) + 1;
        return if n > 1 then n else 1;
      }
      return 0;
    }

    method RecordFailure(ip: Ip, now: real) returns (ok: bool)
      modifies this
      ensures ok <==> !Raises(cfg, old(State()), ip)
      ensures State() == if ok then Failed(cfg, old(State()), ip, now) else old(State())
      ensures ok ==> Recorded(cfg, old(State()), State(), ip, now)
    {
      ghost var before := State();
      if ip !in fails {
        if |order| >= cfg.maxTracked {
          if |order| == 0 {
            return false;
          }
          order, fails := order[1..], fails - {order[0]};
        }
        assert State() == Evicted(cfg, before, ip);
        WithoutAppend(order, ip);
        order, fails := order + [ip], fails[ip := []];
      }
      order := Without(order, ip) + [ip];
      fails := fails[ip := fails[ip] + [now]];
      assert fails == Failed(cfg, before, ip, now).fails;
      FailedRecords(cfg, before, ip, now);
      return true;
    }

    method RecordSuccess(ip: Ip)
      modifies this
      ensures State() == Removed(old(State()), ip)
    {
      fails := fails - {ip};
      order := Without(order, ip);
    }
  }

  // ----- the login protocol, over whole runs ----------------------------------------

  /** One login: it checks, then evaluates the password unless locked out, then records.  There is
      no await between the three, so a login is one step; each reads the clock for itself. */
  datatype Login = Login(ip: Ip, good: bool, checkedAt: real, recordedAt: real)

  /** `streaks` is history: for each address, when its failed passwords were evaluated since the
      last success or eviction of that address. */
  datatype World = World(table: Table, streaks: map<Ip, seq<real>>, clock: real)

  function Streak(w: World, ip: Ip): seq<real> {
    if ip in w.streaks then w.streaks[ip] else []
  }

  /** What the login makes of a table already pruned for it. */
  function NextTable(cfg: Limits, t: Table, e: Login): Table {
    if Locked(cfg, t, e.ip) then t
    else if e.good then Removed(t, e.ip)
    else if Raises(cfg, t, e.ip) then t
    else Failed(cfg, t, e.ip, e.recordedAt)
  }

  function NextStreaks(cfg: Limits, w: World, t: Table, e: Login): map<Ip, seq<real>> {
    if Locked(cfg, t, e.ip) then w.streaks
    else if e.good then w.streaks - {e.ip}
    else
      var kept := if Full(cfg, t, e.ip) then w.streaks - {t.order[0]} else w.streaks;
      kept[e.ip := Streak(w, e.ip) + [e.recordedAt]]
  }

  function NextClock(cfg: Limits, t: Table, e: Login): real {
    if Locked(cfg, t, e.ip) then e.checkedAt else e.recordedAt
  }

  function Attempt(cfg: Limits, w: World, e: Login): World {
    var t := Pruned(w.table, e.ip, e.checkedAt - cfg.window as real);
    World(NextTable(cfg, t, e), NextStreaks(cfg, w, t, e), NextClock(cfg, t, e))
  }

  ghost predicate InOrder(from: real, e: Login) {
    from <= e.checkedAt <= e.recordedAt
  }

  datatype Reply = TooManyAttempts(retryAfter: int) | Unauthorized | LoggedIn | Crashed

  /** The login route, as far as the throttle sees it: refuse before touching the password, else
      evaluate it and record the outcome. */
  method LogIn(throttle: Throttle, ip: Ip, good: bool, checkedAt: real, readAt: real, recordedAt: real)
    returns (reply: Reply)
    modifies throttle
    ensures forall streaks, clock ::
              throttle.State() == Attempt(throttle.cfg, World(old(throttle.State()), streaks, clock),
                                          Login(ip, good, checkedAt, recordedAt)).table
    ensures var t := Pruned(old(throttle.State()), ip, checkedAt - throttle.cfg.window as real);
            reply == if Locked(throttle.cfg, t, ip) then TooManyAttempts(WaitFor(throttle.cfg, t.fails[ip][0], readAt))
                     else if good then LoggedIn
                     else if Raises(throttle.cfg, t, ip) then Crashed
                     else Unauthorized
  {
    var wait := throttle.RetryAfter(ip, checkedAt, readAt);
    if wait != 0 {
      return TooManyAttempts(wait);
    }
    if !good {
      var recorded := throttle.RecordFailure(ip, recordedAt);
      return if recorded then Unauthorized else Crashed;
    }
    throttle.RecordSuccess(ip);
    return LoggedIn;
  }

  function After(cfg: Limits, w: World, es: seq<Login>): World
    decreases |es|
  {
    if es == [] then w else After(cfg, Attempt(cfg, w, es[0]), es[1..])
  }

  ghost predicate ClockOk(cfg: Limits, w: World, es: seq<Login>)
    decreases |es|
  {
    es == [] || (InOrder(w.clock, es[0]) && ClockOk(cfg, Attempt(cfg, w, es[0]), es[1..]))
  }

  function Start(from: real): World {
    World(Table([], map[]), map[], from)
  }

  ghost predicate Sorted(s: seq<real>) {
    forall i, j :: 0 <= i <= j < |s| ==> s[i] <= s[j]
  }

  /** The table's own invariant: a faithful ordered dictionary, within its bound, each deque sorted
      and nonempty, the keys in order of last failure. */
  ghost predicate TableOk(cfg: Limits, t: Table, clock: real) {
    && Distinct(t.order) && SameKeys(t.order, t.fails) && |t.order| <= cfg.maxTracked
    && DequesOk(cfg, t.fails, clock)
    && InAgeOrder(t.order, t.fails)
  }

  ghost predicate SameKeys(order: seq<Ip>, fails: map<Ip, seq<real>>) {
    forall a :: a in order <==> a in fails
  }

  ghost predicate DequesOk(cfg: Limits, fails: map<Ip, seq<real>>, clock: real) {
    forall a :: a in fails ==> DequeOk(cfg, fails[a], clock)
  }

  ghost predicate DequeOk(cfg: Limits, times: seq<real>, clock: real) {
    times != [] && |times| <= cfg.Cap() && Sorted(times) && Last(times) <= clock
  }

  /** When an address last failed. */
  function LastFailure(fails: map<Ip, seq<real>>, a: Ip): real {
    if a in fails && fails[a] != [] then Last(fails[a]) else 0.0
  }

  ghost predicate InAgeOrder(order: seq<Ip>, fails: map<Ip, seq<real>>) {
    forall i, j :: 0 <= i < j < |order| ==> LastFailure(fails, order[i]) <= LastFailure(fails, order[j])
  }

  /** Failures `Cap()` or more apart in a streak are more than a window apart in time. */
  ghost predicate Spaced(cfg: Limits, streak: seq<real>) {
    forall i, j :: 0 <= i && i + cfg.Cap() <= j < |streak| ==> streak[j] - streak[i] > cfg.window as real
  }

  /** The deque is what is left of the streak after dropping failures older than a window. */
  ghost predicate Window(cfg: Limits, streak: seq<real>, times: seq<real>, clock: real) {
    var gone := |streak| - |times|;
    && gone >= 0
    && times == streak[gone..]
    && (forall i :: 0 <= i < gone ==> streak[i] < clock - cfg.window as real)
    && (forall i :: 0 <= i < |streak| ==> streak[i] <= clock)
    && Sorted(streak)
    && Spaced(cfg, streak)
  }

  function Times(t: Table, ip: Ip): seq<real> {
    if ip in t.fails then t.fails[ip] else []
  }

  ghost predicate Tracks(cfg: Limits, w: World, ip: Ip) {
    Window(cfg, Streak(w, ip), Times(w.table, ip), w.clock)
  }

  ghost predicate Inv(cfg: Limits, w: World) {
    TableOk(cfg, w.table, w.clock) && forall ip :: Tracks(cfg, w, ip)
  }

  // ----- facts about the pieces -------------------------------------------------------

  lemma {:induction false} DropOldKeeps(times: seq<real>, cutoff: real)
    ensures |DropOld(times, cutoff)| <= |times|
    ensures var n := |times| - |DropOld(times, cutoff)|;
            DropOld(times, cutoff) == times[n..] && forall i :: 0 <= i < n ==> times[i] < cutoff
    ensures DropOld(times, cutoff) != [] ==> !(DropOld(times, cutoff)[0] < cutoff)
  {
    if times != [] && times[0] < cutoff {
      DropOldKeeps(times[1..], cutoff);
      var n := |times[1..]| - |DropOld(times[1..], cutoff)|;
      assert times[1..][n..] == times[n + 1..];
      assert forall i :: 1 <= i < n + 1 ==> times[i] == times[1..][i - 1];
    }
  }

  lemma {:induction false} WithoutAbsent(order: seq<Ip>, ip: Ip)
    requires ip !in order
    ensures Without(order, ip) == order
  {
    if order != [] {
      assert order[0] in order && order == [order[0]] + order[1..];
      WithoutAbsent(order[1..], ip);
    }
  }

  lemma {:induction false} WithoutAppend(order: seq<Ip>, ip: Ip)
    ensures Without(order + [ip], ip) == Without(order, ip)
  {
    if order == [] {
      assert order + [ip] == [ip];
    } else {
      assert (order + [ip])[0] == order[0] && (order + [ip])[1..] == order[1..] + [ip];
      WithoutAppend(order[1..], ip);
    }
  }

  lemma {:induction false} WithoutMembers(order: seq<Ip>, ip: Ip, a: Ip)
    ensures a in Without(order, ip) <==> a in order && a != ip
  {
    if order != [] { WithoutMembers(order[1..], ip, a); }
  }

  /** Removing a key keeps the others once each ... */
  lemma {:induction false} WithoutDistinct(order: seq<Ip>, ip: Ip)
    requires Distinct(order)
    ensures Distinct(Without(order, ip)) && |Without(order, ip)| <= |order|
    ensures ip in order ==> |Without(order, ip)| < |order|
  {
    if order != [] {
      var tail := order[1..];
      DistinctTail(order);
      WithoutDistinct(tail, ip);
      WithoutMembers(tail, ip, order[0]);
      if order[0] != ip { DistinctCons(order[0], Without(tail, ip)); }
    }
  }

  lemma DistinctTail(order: seq<Ip>)
    requires Distinct(order) && order != []
    ensures Distinct(order[1..]) && order[0] !in order[1..]
  {
    var tail := order[1..];
    assert forall i :: 0 <= i < |tail| ==> tail[i] == order[i + 1];
  }

  lemma DistinctCons(a: Ip, order: seq<Ip>)
    requires Distinct(order) && a !in order
    ensures Distinct([a] + order)
  {}

  /** ... and in age order. */
  lemma {:induction false} WithoutInAgeOrder(order: seq<Ip>, ip: Ip, fails: map<Ip, seq<real>>)
    requires InAgeOrder(order, fails)
    ensures InAgeOrder(Without(order, ip), fails)
  {
    if order != [] {
      var tail := order[1..];
      assert forall i :: 0 <= i < |tail| ==> tail[i] == order[i + 1];
      WithoutInAgeOrder(tail, ip, fails);
      var kept := Without(tail, ip);
      if order[0] != ip {
        forall i | 0 <= i < |kept| ensures LastFailure(fails, order[0]) <= LastFailure(fails, kept[i]) {
          WithoutMembers(tail, ip, kept[i]);
          OldestOf(order, fails, kept[i]);
        }
        AgeOrderCons(order[0], kept, fails);
      }
    }
  }

  lemma OldestOf(order: seq<Ip>, fails: map<Ip, seq<real>>, a: Ip)
    requires InAgeOrder(order, fails) && a in order
    ensures LastFailure(fails, order[0]) <= LastFailure(fails, a)
  {
    var i :| 0 <= i < |order| && order[i] == a;
  }

  lemma AgeOrderCons(a: Ip, order: seq<Ip>, fails: map<Ip, seq<real>>)
    requires InAgeOrder(order, fails)
    requires forall i :: 0 <= i < |order| ==> LastFailure(fails, a) <= LastFailure(fails, order[i])
    ensures InAgeOrder([a] + order, fails)
  {}

  /** Only the ages of the keys matter. */
  lemma SameAges(order: seq<Ip>, fails: map<Ip, seq<real>>, other: map<Ip, seq<real>>)
    requires InAgeOrder(order, fails)
    requires forall i :: 0 <= i < |order| ==> LastFailure(other, order[i]) == LastFailure(fails, order[i])
    ensures InAgeOrder(order, other)
  {}

  lemma RemovedOk(cfg: Limits, t: Table, ip: Ip, clock: real)
    requires TableOk(cfg, t, clock)
    ensures TableOk(cfg, Removed(t, ip), clock) && |Removed(t, ip).order| <= |t.order|
    ensures ip in t.fails ==> |Removed(t, ip).order| < |t.order|
  {
    var kept := Without(t.order, ip);
    WithoutDistinct(t.order, ip);
    WithoutInAgeOrder(t.order, ip, t.fails);
    forall a ensures a in kept <==> a in t.order && a != ip { WithoutMembers(t.order, ip, a); }
    forall i | 0 <= i < |kept| ensures kept[i] in kept {}
    SameAges(kept, t.fails, t.fails - {ip});
  }

  /** A deque may be replaced by one that ends alike. */
  lemma ReplacedOk(cfg: Limits, t: Table, ip: Ip, times: seq<real>, clock: real)
    requires TableOk(cfg, t, clock) && ip in t.fails
    requires DequeOk(cfg, times, clock) && Last(times) == Last(t.fails[ip])
    ensures TableOk(cfg, t.(fails := t.fails[ip := times]), clock)
  {
    SameAges(t.order, t.fails, t.fails[ip := times]);
  }

  lemma KeptOk(cfg: Limits, times: seq<real>, cutoff: real, clock: real)
    requires DequeOk(cfg, times, clock) && DropOld(times, cutoff) != []
    ensures DequeOk(cfg, DropOld(times, cutoff), clock) && Last(DropOld(times, cutoff)) == Last(times)
  {
    DropOldKeeps(times, cutoff);
    var kept := DropOld(times, cutoff);
    var n := |times| - |kept|;
    assert forall i :: 0 <= i < |kept| ==> kept[i] == times[n + i];
  }

  lemma PrunedOk(cfg: Limits, t: Table, ip: Ip, cutoff: real, clock: real)
    requires TableOk(cfg, t, clock)
    ensures TableOk(cfg, Pruned(t, ip, cutoff), clock)
  {
    if ip in t.fails {
      if DropOld(t.fails[ip], cutoff) == [] {
        RemovedOk(cfg, t, ip, clock);
      } else {
        KeptOk(cfg, t.fails[ip], cutoff, clock);
        ReplacedOk(cfg, t, ip, DropOld(t.fails[ip], cutoff), clock);
      }
    }
  }

  lemma EvictedIsRemoved(cfg: Limits, t: Table, ip: Ip)
    requires Full(cfg, t, ip) && Distinct(t.order)
    ensures Evicted(cfg, t, ip) == Removed(t, t.order[0])
  {
    DistinctTail(t.order);
    WithoutAbsent(t.order[1..], t.order[0]);
  }

  lemma EvictedOk(cfg: Limits, t: Table, ip: Ip, clock: real)
    requires cfg.maxTracked >= 1 && TableOk(cfg, t, clock)
    ensures TableOk(cfg, Evicted(cfg, t, ip), clock)
    ensures ip !in t.fails ==> |Evicted(cfg, t, ip).order| < cfg.maxTracked
  {
    if Full(cfg, t, ip) {
      EvictedIsRemoved(cfg, t, ip);
      assert t.order[0] in t.order;
      RemovedOk(cfg, t, t.order[0], clock);
    }
  }

  /** Recording a failure files the address anew, at the end. */
  lemma FailedIsFiled(cfg: Limits, t: Table, ip: Ip, now: real)
    ensures var r := Removed(Evicted(cfg, t, ip), ip);
            Failed(cfg, t, ip, now) == Table(r.order + [ip], r.fails[ip := Times(Evicted(cfg, t, ip), ip) + [now]])
  {
    var e := Evicted(cfg, t, ip);
    var times := Times(e, ip) + [now];
    assert (e.fails - {ip})[ip := times] == e.fails[ip := times];
  }

  lemma FailedOk(cfg: Limits, t: Table, ip: Ip, now: real, clock: real)
    requires cfg.maxTracked >= 1 && TableOk(cfg, t, clock) && clock <= now
    requires |Times(t, ip)| < cfg.Cap()
    ensures TableOk(cfg, Failed(cfg, t, ip, now), now)
  {
    var e := Evicted(cfg, t, ip);
    var r := Removed(e, ip);
    EvictedOk(cfg, t, ip, clock);
    RemovedOk(cfg, e, ip, clock);
    TableLater(cfg, r, clock, now);
    assert |Times(e, ip)| < cfg.Cap() && |r.order| < cfg.maxTracked;
    LongerOk(cfg, Times(e, ip), clock, now);
    FiledOk(cfg, r, ip, Times(e, ip) + [now], now);
    FailedIsFiled(cfg, t, ip, now);
  }

  lemma LongerOk(cfg: Limits, times: seq<real>, clock: real, now: real)
    requires (times != [] ==> DequeOk(cfg, times, clock)) && |times| < cfg.Cap() && clock <= now
    ensures DequeOk(cfg, times + [now], now)
  {
    if times != [] { assert forall i :: 0 <= i < |times| ==> times[i] <= Last(times); }
  }

  lemma FiledOk(cfg: Limits, r: Table, ip: Ip, times: seq<real>, now: real)
    requires TableOk(cfg, r, now) && ip !in r.fails && |r.order| < cfg.maxTracked
    requires DequeOk(cfg, times, now) && Last(times) == now
    ensures TableOk(cfg, Table(r.order + [ip], r.fails[ip := times]), now)
  {
    var order, fails := r.order + [ip], r.fails[ip := times];
    assert ip !in r.order;
    forall i | 0 <= i < |r.order|
      ensures LastFailure(fails, r.order[i]) == LastFailure(r.fails, r.order[i]) <= LastFailure(fails, ip)
    {
      assert r.order[i] in r.order;
    }
    AgeOrderSnoc(r.order, ip, r.fails, fails);
  }

  lemma AgeOrderSnoc(order: seq<Ip>, a: Ip, fails: map<Ip, seq<real>>, other: map<Ip, seq<real>>)
    requires InAgeOrder(order, fails)
    requires forall i :: 0 <= i < |order| ==>
               LastFailure(other, order[i]) == LastFailure(fails, order[i]) <= LastFailure(other, a)
    ensures InAgeOrder(order + [a], other)
  {}

  // ----- every step keeps the invariant ---------------------------------------------

  lemma WindowLater(cfg: Limits, streak: seq<real>, times: seq<real>, clock: real, now: real)
    requires Window(cfg, streak, times, clock) && clock <= now
    ensures Window(cfg, streak, times, now)
  {}

  lemma {:induction false} WindowPruned(cfg: Limits, streak: seq<real>, times: seq<real>, clock: real, now: real)
    requires Window(cfg, streak, times, clock) && clock <= now
    ensures Window(cfg, streak, DropOld(times, now - cfg.window as real), now)
  {
    var cutoff := now - cfg.window as real;
    var kept := DropOld(times, cutoff);
    DropOldKeeps(times, cutoff);
    var gone, n := |streak| - |times|, |times| - |kept|;
    assert kept == streak[gone + n..];
    forall i | 0 <= i < gone + n ensures streak[i] < cutoff {
      if i >= gone { assert streak[i] == times[i - gone]; }
    }
  }

  /** A failure is recorded only while the deque is short of the cap, so the failure `Cap()` before
      it in the streak has already been pruned, hence is more than a window old. */
  lemma {:induction false} WindowExtended(cfg: Limits, streak: seq<real>, times: seq<real>, clock: real, now: real)
    requires Window(cfg, streak, times, clock) && clock <= now && |times| < cfg.Cap()
    ensures Window(cfg, streak + [now], times + [now], now)
  {
    var longer, gone := streak + [now], |streak| - |times|;
    assert longer[gone..] == times + [now];
    forall i, j | 0 <= i && i + cfg.Cap() <= j < |longer| ensures longer[j] - longer[i] > cfg.window as real {
      if j < |streak| {
        assert streak[j] - streak[i] > cfg.window as real;
      } else {
        assert i < gone && streak[i] < clock - cfg.window as real;
      }
    }
  }

  lemma TableLater(cfg: Limits, t: Table, clock: real, now: real)
    requires TableOk(cfg, t, clock) && clock <= now
    ensures TableOk(cfg, t, now)
  {
    assert forall a :: a in t.fails ==> DequeOk(cfg, t.fails[a], now);
  }

  lemma AttemptTableOk(cfg: Limits, w: World, e: Login, next: World)
    requires cfg.maxTracked >= 1 && TableOk(cfg, w.table, w.clock) && InOrder(w.clock, e)
    requires next == Attempt(cfg, w, e)
    ensures TableOk(cfg, next.table, next.clock)
  {
    var cutoff := e.checkedAt - cfg.window as real;
    PrunedOk(cfg, w.table, e.ip, cutoff, w.clock);
    NextTableOk(cfg, Pruned(w.table, e.ip, cutoff), e, w.clock, next.table, next.clock);
  }

  lemma NextTableOk(cfg: Limits, t: Table, e: Login, clock: real, next: Table, now: real)
    requires cfg.maxTracked >= 1 && TableOk(cfg, t, clock) && InOrder(clock, e)
    requires next == NextTable(cfg, t, e) && now == NextClock(cfg, t, e)
    ensures TableOk(cfg, next, now)
  {
    if Locked(cfg, t, e.ip) {
      TableLater(cfg, t, clock, now);
    } else if e.good {
      RemovedOk(cfg, t, e.ip, clock);
      TableLater(cfg, next, clock, now);
    } else {
      FailedOk(cfg, t, e.ip, now, clock);
    }
  }

  lemma TimesOf(cfg: Limits, t: Table, ip: Ip, x: real)
    ensures Times(Pruned(t, ip, x), ip) == DropOld(Times(t, ip), x)
    ensures Times(Failed(cfg, t, ip, x), ip) == Times(t, ip) + [x]
    ensures Times(Removed(t, ip), ip) == []
  {}

  /** What a login leaves of its own address. */
  lemma AttemptSelf(cfg: Limits, w: World, e: Login)
    requires cfg.maxTracked >= 1
    ensures var t, next := Pruned(w.table, e.ip, e.checkedAt - cfg.window as real), Attempt(cfg, w, e);
            if Locked(cfg, t, e.ip) then
              && next.clock == e.checkedAt && Streak(next, e.ip) == Streak(w, e.ip)
              && Times(next.table, e.ip) == Times(t, e.ip)
            else if e.good then
              next.clock == e.recordedAt && Streak(next, e.ip) == [] && Times(next.table, e.ip) == []
            else
              && next.clock == e.recordedAt && Streak(next, e.ip) == Streak(w, e.ip) + [e.recordedAt]
              && Times(next.table, e.ip) == Times(t, e.ip) + [e.recordedAt] && |Times(t, e.ip)| < cfg.Cap()
  {
    TimesOf(cfg, Pruned(w.table, e.ip, e.checkedAt - cfg.window as real), e.ip, e.recordedAt);
  }

  /** The address that logs in. */
  lemma AttemptTracksSelf(cfg: Limits, w: World, e: Login)
    requires cfg.maxTracked >= 1 && Tracks(cfg, w, e.ip) && InOrder(w.clock, e)
    ensures Tracks(cfg, Attempt(cfg, w, e), e.ip)
  {
    var cutoff := e.checkedAt - cfg.window as real;
    WindowPruned(cfg, Streak(w, e.ip), Times(w.table, e.ip), w.clock, e.checkedAt);
    TimesOf(cfg, w.table, e.ip, cutoff);
    AttemptSelf(cfg, w, e);
    TracksNext(cfg, Streak(w, e.ip), Times(Pruned(w.table, e.ip, cutoff), e.ip), e);
  }

  lemma {:induction false} TracksNext(cfg: Limits, streak: seq<real>, times: seq<real>, e: Login)
    requires Window(cfg, streak, times, e.checkedAt) && e.checkedAt <= e.recordedAt
    ensures Window(cfg, [], [], e.recordedAt)
    ensures |times| < cfg.Cap() ==> Window(cfg, streak + [e.recordedAt], times + [e.recordedAt], e.recordedAt)
  {
    if |times| < cfg.Cap() { WindowExtended(cfg, streak, times, e.checkedAt, e.recordedAt); }
  }

  /** Any other address: untouched, or evicted. */
  lemma AttemptTracksOther(cfg: Limits, w: World, e: Login, ip: Ip)
    requires Tracks(cfg, w, ip) && InOrder(w.clock, e) && ip != e.ip
    ensures Tracks(cfg, Attempt(cfg, w, e), ip)
    ensures var w' := Attempt(cfg, w, e);
            Times(w'.table, ip) == Times(w.table, ip) || Times(w'.table, ip) == []
  {
    AttemptOther(cfg, w, e, ip);
    OtherWindow(cfg, Streak(w, ip), Times(w.table, ip), w.clock, Streak(Attempt(cfg, w, e), ip),
                Times(Attempt(cfg, w, e).table, ip), Attempt(cfg, w, e).clock);
  }

  lemma AttemptOther(cfg: Limits, w: World, e: Login, ip: Ip)
    requires InOrder(w.clock, e) && ip != e.ip
    ensures var next := Attempt(cfg, w, e);
            && next.clock >= w.clock
            && ((Times(next.table, ip) == Times(w.table, ip) && Streak(next, ip) == Streak(w, ip))
                || (Times(next.table, ip) == [] && Streak(next, ip) == []))
  {}

  lemma OtherWindow(cfg: Limits, streak: seq<real>, times: seq<real>, clock: real,
                    nextStreak: seq<real>, nextTimes: seq<real>, now: real)
    requires Window(cfg, streak, times, clock) && clock <= now
    requires (nextStreak == streak && nextTimes == times) || (nextStreak == [] && nextTimes == [])
    ensures Window(cfg, nextStreak, nextTimes, now)
  {
    WindowLater(cfg, streak, times, clock, now);
  }

  lemma AttemptKeepsInv(cfg: Limits, w: World, e: Login)
    requires cfg.maxTracked >= 1 && Inv(cfg, w) && InOrder(w.clock, e)
    ensures Inv(cfg, Attempt(cfg, w, e))
  {
    AttemptTableOk(cfg, w, e, Attempt(cfg, w, e));
    forall ip ensures Tracks(cfg, Attempt(cfg, w, e), ip) {
      assert Tracks(cfg, w, ip);
      if ip == e.ip { AttemptTracksSelf(cfg, w, e); } else { AttemptTracksOther(cfg, w, e, ip); }
    }
  }

  // ----- what the throttle promises ---------------------------------------------------

  function CountWithin(times: seq<real>, a: real, b: real): nat {
    if times == [] then 0
    else (if a <= times[0] <= b then 1 else 0) + CountWithin(times[1..], a, b)
  }

  /** In any closed interval of one window's length at most `Cap()` failed passwords of an address
      are evaluated, counting from its last success or eviction: over every run of logins from any
      addresses, although pruning is lazy and every login reads the clock more than once. */
  lemma {:induction false} BruteForceBound(cfg: Limits, from: real, es: seq<Login>, ip: Ip, a: real)
    requires cfg.maxTracked >= 1 && ClockOk(cfg, Start(from), es)
    ensures CountWithin(Streak(After(cfg, Start(from), es), ip), a, a + cfg.window as real) <= cfg.Cap()
  {
    StartOk(cfg, from);
    BoundFrom(cfg, Start(from), es, ip, a);
  }

  lemma StartOk(cfg: Limits, from: real)
    requires cfg.maxTracked >= 1
    ensures Inv(cfg, Start(from))
  {
    EmptyTableOk(cfg, from);
    forall ip ensures Tracks(cfg, Start(from), ip) { NothingTracked(cfg, from, ip); }
  }

  lemma EmptyTableOk(cfg: Limits, from: real)
    requires cfg.maxTracked >= 1
    ensures TableOk(cfg, Start(from).table, from)
  {}

  lemma NothingTracked(cfg: Limits, from: real, ip: Ip)
    ensures Tracks(cfg, Start(from), ip)
  {}

  lemma {:induction false} BoundFrom(cfg: Limits, w: World, es: seq<Login>, ip: Ip, a: real)
    requires cfg.maxTracked >= 1 && Inv(cfg, w) && ClockOk(cfg, w, es)
    ensures CountWithin(Streak(After(cfg, w, es), ip), a, a + cfg.window as real) <= cfg.Cap()
    decreases |es|
  {
    if es == [] {
      TrackedBound(cfg, w, ip, a);
    } else {
      AttemptKeepsInv(cfg, w, es[0]);
      BoundFrom(cfg, Attempt(cfg, w, es[0]), es[1..], ip, a);
    }
  }

  lemma {:induction false} TrackedBound(cfg: Limits, w: World, ip: Ip, a: real)
    requires Inv(cfg, w)
    ensures CountWithin(Streak(w, ip), a, a + cfg.window as real) <= cfg.Cap()
  {
    assert Tracks(cfg, w, ip);
    SpacedBoundsCount(cfg, Streak(w, ip), a);
  }

  lemma {:induction false} SpacedBoundsCount(cfg: Limits, streak: seq<real>, a: real)
    requires Sorted(streak) && Spaced(cfg, streak)
    ensures CountWithin(streak, a, a + cfg.window as real) <= cfg.Cap()
  {
    if streak != [] {
      var rest := streak[1..];
      assert forall i :: 0 <= i < |rest| ==> rest[i] == streak[i + 1];
      assert Spaced(cfg, rest);
      SpacedBoundsCount(cfg, rest, a);
      if a <= streak[0] {
        CountStopsAtCap(rest, a, a + cfg.window as real, cfg.Cap() - 1, cfg, streak);
      }
    }
  }

  /** From the first counted failure on, nothing at or past the cap falls in the interval. */
  lemma {:induction false} CountStopsAtCap(rest: seq<real>, a: real, b: real, n: nat, cfg: Limits, streak: seq<real>)
    requires Sorted(streak) && Spaced(cfg, streak) && streak != [] && rest == streak[1..]
    requires n == cfg.Cap() - 1 && b == a + cfg.window as real && a <= streak[0]
    ensures CountWithin(rest, a, b) <= n
  {
    if |rest| > n {
      var early, late := rest[..n], rest[n..];
      assert rest == early + late;
      CountSplits(early, late, a, b);
      CountAtMost(early, a, b);
      forall i | 0 <= i < |late| ensures late[i] > b {
        assert late[i] == streak[cfg.Cap() + i];
      }
      CountNone(late, a, b);
    } else {
      CountAtMost(rest, a, b);
    }
  }

  lemma {:induction false} CountSplits(x: seq<real>, y: seq<real>, a: real, b: real)
    ensures CountWithin(x + y, a, b) == CountWithin(x, a, b) + CountWithin(y, a, b)
  {
    if x == [] {
      assert x + y == y;
    } else {
      assert (x + y)[0] == x[0] && (x + y)[1..] == x[1..] + y;
      CountSplits(x[1..], y, a, b);
    }
  }

  lemma CountAtMost(x: seq<real>, a: real, b: real)
    ensures CountWithin(x, a, b) <= |x|
  {}

  lemma {:induction false} CountNone(x: seq<real>, a: real, b: real)
    requires forall i :: 0 <= i < |x| ==> x[i] > b
    ensures CountWithin(x, a, b) == 0
  {
    if x != [] {
      assert forall i :: 0 <= i < |x[1..]| ==> x[1..][i] == x[i + 1];
      CountNone(x[1..], a, b);
    }
  }

  // ----- who is refused, and who is forgotten ------------------------------------------------------

  lemma CountAll(x: seq<real>, a: real, b: real)
    requires forall i :: 0 <= i < |x| ==> a <= x[i] <= b
    ensures CountWithin(x, a, b) == |x|
  {
    if x != [] {
      assert forall i :: 0 <= i < |x[1..]| ==> x[1..][i] == x[i + 1];
      CountAll(x[1..], a, b);
    }
  }

  lemma CountBefore(x: seq<real>, a: real, b: real)
    requires forall i :: 0 <= i < |x| ==> x[i] < a
    ensures CountWithin(x, a, b) == 0
  {
    if x != [] {
      assert forall i :: 0 <= i < |x[1..]| ==> x[1..][i] == x[i + 1];
      CountBefore(x[1..], a, b);
    }
  }

  /** What is left of a deque after pruning is what the streak has within the window. */
  lemma {:induction false} KeptIsCount(cfg: Limits, streak: seq<real>, times: seq<real>, clock: real, at: real)
    requires Window(cfg, streak, times, clock) && clock <= at
    ensures |DropOld(times, at - cfg.window as real)| == CountWithin(streak, at - cfg.window as real, at)
  {
    var cutoff := at - cfg.window as real;
    var kept := DropOld(times, cutoff);
    WindowPruned(cfg, streak, times, clock, at);
    DropOldKeeps(times, cutoff);
    var early := streak[..|streak| - |kept|];
    WindowSplits(cfg, streak, kept, at, early);
    CountSplits(early, kept, cutoff, at);
    CountBefore(early, cutoff, at);
    CountAll(kept, cutoff, at);
  }

  lemma {:induction false} WindowSplits(cfg: Limits, streak: seq<real>, kept: seq<real>, at: real, early: seq<real>)
    requires Window(cfg, streak, kept, at) && (kept != [] ==> kept[0] >= at - cfg.window as real)
    requires early == streak[..|streak| - |kept|]
    ensures streak == early + kept
    ensures forall i :: 0 <= i < |early| ==> early[i] < at - cfg.window as real
    ensures forall i :: 0 <= i < |kept| ==> at - cfg.window as real <= kept[i] <= at
  {
    forall i | 0 <= i < |kept| ensures at - cfg.window as real <= kept[i] <= at {
      assert kept[i] == streak[|early| + i] && kept[0] == streak[|early|];
    }
  }

  /** A login is refused exactly if the window up to it holds `Cap()` failures of its address since that
      address last succeeded or was evicted: over every run, at any moment after it. */
  lemma {:induction false} RefusedIff(cfg: Limits, from: real, es: seq<Login>, ip: Ip, at: real)
    requires cfg.maxTracked >= 1 && ClockOk(cfg, Start(from), es) && After(cfg, Start(from), es).clock <= at
    ensures var w := After(cfg, Start(from), es);
            Locked(cfg, Pruned(w.table, ip, at - cfg.window as real), ip)
            <==> CountWithin(Streak(w, ip), at - cfg.window as real, at) >= cfg.Cap()
  {
    StartOk(cfg, from);
    RefusedFrom(cfg, Start(from), es, ip, at);
  }

  lemma {:induction false} RefusedFrom(cfg: Limits, w: World, es: seq<Login>, ip: Ip, at: real)
    requires cfg.maxTracked >= 1 && Inv(cfg, w) && ClockOk(cfg, w, es) && After(cfg, w, es).clock <= at
    ensures var t := After(cfg, w, es);
            Locked(cfg, Pruned(t.table, ip, at - cfg.window as real), ip)
            <==> CountWithin(Streak(t, ip), at - cfg.window as real, at) >= cfg.Cap()
    decreases |es|
  {
    if es == [] {
      assert Tracks(cfg, w, ip);
      KeptIsCount(cfg, Streak(w, ip), Times(w.table, ip), w.clock, at);
      TimesOf(cfg, w.table, ip, at - cfg.window as real);
      LockedByCount(cfg, Pruned(w.table, ip, at - cfg.window as real), ip);
    } else {
      AttemptKeepsInv(cfg, w, es[0]);
      RefusedFrom(cfg, Attempt(cfg, w, es[0]), es[1..], ip, at);
    }
  }

  lemma LockedByCount(cfg: Limits, t: Table, ip: Ip)
    ensures Locked(cfg, t, ip) <==> |Times(t, ip)| >= cfg.Cap()
  {}

  /** The failures of an address since its last success, as a reader of the logins would list them: those
      whose password was evaluated.  Evictions play no part in it. */
  function FailedSince(cfg: Limits, w: World, es: seq<Login>, ip: Ip, sofar: seq<real>): seq<real>
    decreases |es|
  {
    if es == [] then sofar
    else FailedSince(cfg, Attempt(cfg, w, es[0]), es[1..], ip, OneLogin(cfg, w.table, es[0], ip, sofar))
  }

  function OneLogin(cfg: Limits, t: Table, e: Login, ip: Ip, sofar: seq<real>): seq<real> {
    var refused := Locked(cfg, Pruned(t, e.ip, e.checkedAt - cfg.window as real), e.ip);
    if e.ip != ip || refused then sofar else if e.good then [] else sofar + [e.recordedAt]
  }

  ghost predicate OnlyFrom(es: seq<Login>, addresses: set<Ip>) {
    forall e :: e in es ==> e.ip in addresses
  }

  lemma {:induction false} DistinctFits(order: seq<Ip>, addresses: set<Ip>)
    requires Distinct(order) && forall a :: a in order ==> a in addresses
    ensures |order| <= |addresses|
  {
    if order != [] {
      DistinctTail(order);
      assert order[0] in order && forall a :: a in order[1..] ==> a in order;
      DistinctFits(order[1..], addresses - {order[0]});
    }
  }

  /** A login of one address forgets another only to make room in a full table, and then the head of it. */
  lemma ForgetsOnlyTheHead(cfg: Limits, w: World, e: Login, ip: Ip)
    requires ip != e.ip
    ensures var t := Pruned(w.table, e.ip, e.checkedAt - cfg.window as real);
            Streak(Attempt(cfg, w, e), ip) != Streak(w, ip) ==>
              e.ip !in t.fails && |t.order| >= cfg.maxTracked && t.order != [] && ip == t.order[0]
  {}

  ghost predicate Within(t: Table, addresses: set<Ip>) {
    forall a :: a in t.fails ==> a in addresses
  }

  /** Where every address fits there is never a full table without it. */
  lemma RoomFor(cfg: Limits, t: Table, ip: Ip, addresses: set<Ip>)
    requires Distinct(t.order) && SameKeys(t.order, t.fails) && Within(t, addresses)
    requires |addresses| <= cfg.maxTracked && ip in addresses && ip !in t.fails
    ensures |t.order| < cfg.maxTracked
  {
    DistinctFits(t.order, addresses - {ip});
  }

  lemma PrunedWithin(t: Table, ip: Ip, cutoff: real, addresses: set<Ip>)
    requires Within(t, addresses)
    ensures Within(Pruned(t, ip, cutoff), addresses)
  {}

  lemma StaysWithin(cfg: Limits, w: World, e: Login, addresses: set<Ip>)
    requires Within(w.table, addresses) && e.ip in addresses
    ensures Within(Attempt(cfg, w, e).table, addresses)
  {}

  lemma RoomForAll(cfg: Limits, t: Table, ip: Ip, cutoff: real, clock: real, addresses: set<Ip>)
    requires TableOk(cfg, t, clock) && Within(t, addresses) && |addresses| <= cfg.maxTracked && ip in addresses
    ensures ip !in Pruned(t, ip, cutoff).fails ==> |Pruned(t, ip, cutoff).order| < cfg.maxTracked
  {
    if ip !in Pruned(t, ip, cutoff).fails {
      PrunedOk(cfg, t, ip, cutoff, clock);
      PrunedWithin(t, ip, cutoff, addresses);
      RoomFor(cfg, Pruned(t, ip, cutoff), ip, addresses);
    }
  }

  lemma {:induction false} StreakIsFailedSince(cfg: Limits, w: World, es: seq<Login>, ip: Ip, addresses: set<Ip>)
    requires cfg.maxTracked >= 1 && Inv(cfg, w) && ClockOk(cfg, w, es)
    requires Within(w.table, addresses) && OnlyFrom(es, addresses) && |addresses| <= cfg.maxTracked
    ensures Streak(After(cfg, w, es), ip) == FailedSince(cfg, w, es, ip, Streak(w, ip))
    decreases |es|
  {
    if es != [] {
      assert es[0] in es && OnlyFrom(es[1..], addresses);
      OneLoginIs(cfg, w, es[0], ip, addresses);
      StaysWithin(cfg, w, es[0], addresses);
      AttemptKeepsInv(cfg, w, es[0]);
      StreakIsFailedSince(cfg, Attempt(cfg, w, es[0]), es[1..], ip, addresses);
    }
  }

  lemma {:induction false} OneLoginIs(cfg: Limits, w: World, e: Login, ip: Ip, addresses: set<Ip>)
    requires cfg.maxTracked >= 1 && TableOk(cfg, w.table, w.clock) && Within(w.table, addresses)
    requires |addresses| <= cfg.maxTracked && e.ip in addresses
    ensures Streak(Attempt(cfg, w, e), ip) == OneLogin(cfg, w.table, e, ip, Streak(w, ip))
  {
    RoomForAll(cfg, w.table, e.ip, e.checkedAt - cfg.window as real, w.clock, addresses);
    if e.ip == ip { AttemptSelf(cfg, w, e); } else { ForgetsOnlyTheHead(cfg, w, e, ip); }
  }

  /** With no more addresses than the table holds nobody is forgotten: a login is refused exactly if the
      window up to it holds `Cap()` failures of its address since its last success, however the
      addresses take turns. */
  lemma {:induction false} FewAddressesAreRemembered(cfg: Limits, from: real, es: seq<Login>, ip: Ip, at: real,
                                                     addresses: set<Ip>)
    requires cfg.maxTracked >= 1 && ClockOk(cfg, Start(from), es) && After(cfg, Start(from), es).clock <= at
    requires OnlyFrom(es, addresses) && |addresses| <= cfg.maxTracked
    ensures Locked(cfg, Pruned(After(cfg, Start(from), es).table, ip, at - cfg.window as real), ip)
            <==> CountWithin(FailedSince(cfg, Start(from), es, ip, []), at - cfg.window as real, at) >= cfg.Cap()
  {
    StartOk(cfg, from);
    StreakIsFailedSince(cfg, Start(from), es, ip, addresses);
    RefusedFrom(cfg, Start(from), es, ip, at);
  }

  /** Without room for any address there is no bound: no login is ever refused, however many fail. */
  lemma {:induction false} NothingTrackedNothingRefused(cfg: Limits, from: real, es: seq<Login>, ip: Ip, at: real)
    requires cfg.maxTracked == 0
    ensures !Locked(cfg, Pruned(After(cfg, Start(from), es).table, ip, at - cfg.window as real), ip)
  {
    StaysEmpty(cfg, Start(from), es);
  }

  lemma {:induction false} StaysEmpty(cfg: Limits, w: World, es: seq<Login>)
    requires cfg.maxTracked == 0 && w.table == Table([], map[])
    ensures After(cfg, w, es).table == Table([], map[])
    decreases |es|
  {
    if es != [] { StaysEmpty(cfg, Attempt(cfg, w, es[0]), es[1..]); }
  }

  /** Over every run the table stays within its bound and ordered by last failure, each deque sorted
      and no longer than the cap, and whoever is evicted failed least recently. */
  lemma {:induction false} TableStaysOk(cfg: Limits, from: real, es: seq<Login>, ip: Ip)
    requires cfg.maxTracked >= 1 && ClockOk(cfg, Start(from), es)
    ensures TableOk(cfg, After(cfg, Start(from), es).table, After(cfg, Start(from), es).clock)
    ensures var t := After(cfg, Start(from), es).table;
            Full(cfg, t, ip) ==> forall a :: a in t.fails ==> Last(t.fails[t.order[0]]) <= Last(t.fails[a])
  {
    StartOk(cfg, from);
    TableFrom(cfg, Start(from), es);
    OldestFirst(cfg, After(cfg, Start(from), es).table, ip, After(cfg, Start(from), es).clock);
  }

  lemma {:induction false} TableFrom(cfg: Limits, w: World, es: seq<Login>)
    requires cfg.maxTracked >= 1 && Inv(cfg, w) && ClockOk(cfg, w, es)
    ensures TableOk(cfg, After(cfg, w, es).table, After(cfg, w, es).clock)
    decreases |es|
  {
    if es != [] {
      AttemptKeepsInv(cfg, w, es[0]);
      TableFrom(cfg, Attempt(cfg, w, es[0]), es[1..]);
    }
  }

  lemma OldestFirst(cfg: Limits, t: Table, ip: Ip, clock: real)
    requires TableOk(cfg, t, clock)
    ensures Full(cfg, t, ip) ==> forall a :: a in t.fails ==> Last(t.fails[t.order[0]]) <= Last(t.fails[a])
  {
    if Full(cfg, t, ip) {
      assert t.order[0] in t.order;
      forall a | a in t.fails ensures Last(t.fails[t.order[0]]) <= Last(t.fails[a]) { OldestOf(t.order, t.fails, a); }
    }
  }

  lemma WaitBounds(cfg: Limits, oldest: real, now: real)
    ensures var age, n := now - oldest, WaitFor(cfg, oldest, now);
            && n >= 1
            && cfg.window as real - age < n as real
            && (age <= cfg.window as real ==> n as real <= cfg.window as real - age + 1.0)
  {}

  ghost predicate Avoids(es: seq<Login>, ip: Ip) {
    forall e :: e in es ==> e.ip != ip
  }

  lemma {:induction false} OthersLeaveDeque(cfg: Limits, w: World, fs: seq<Login>, ip: Ip)
    requires cfg.maxTracked >= 1 && Inv(cfg, w) && ClockOk(cfg, w, fs) && Avoids(fs, ip)
    ensures var times := Times(After(cfg, w, fs).table, ip);
            times == Times(w.table, ip) || times == []
    decreases |fs|
  {
    if fs != [] {
      assert Tracks(cfg, w, ip) && fs[0].ip != ip;
      AttemptTracksOther(cfg, w, fs[0], ip);
      AttemptKeepsInv(cfg, w, fs[0]);
      OthersLeaveDeque(cfg, Attempt(cfg, w, fs[0]), fs[1..], ip);
    }
  }

  /** The world a refused login leaves behind: pruned at one reading of the clock, with the wait
      computed at a second, later one. */
  function Refused(cfg: Limits, w: World, ip: Ip, prunedAt: real, readAt: real): World {
    World(Pruned(w.table, ip, prunedAt - cfg.window as real), w.streaks, readAt)
  }

  lemma RefusedKeepsInv(cfg: Limits, w: World, ip: Ip, prunedAt: real, readAt: real, r: World)
    requires Inv(cfg, w) && w.clock <= prunedAt <= readAt && r == Refused(cfg, w, ip, prunedAt, readAt)
    ensures Inv(cfg, r)
  {
    PrunedOk(cfg, w.table, ip, prunedAt - cfg.window as real, w.clock);
    RefusedLater(cfg, w, ip, prunedAt, readAt, r.table, r);
  }

  lemma RefusedLater(cfg: Limits, w: World, ip: Ip, prunedAt: real, readAt: real, t: Table, r: World)
    requires Inv(cfg, w) && w.clock <= prunedAt <= readAt
    requires t == Pruned(w.table, ip, prunedAt - cfg.window as real) && TableOk(cfg, t, w.clock)
    requires r == World(t, w.streaks, readAt)
    ensures Inv(cfg, r)
  {
    TableLater(cfg, t, w.clock, readAt);
    forall a ensures Tracks(cfg, r, a) {
      assert Tracks(cfg, w, a);
      if a == ip {
        WindowPruned(cfg, Streak(w, a), Times(w.table, a), w.clock, prunedAt);
        TimesOf(cfg, w.table, a, prunedAt - cfg.window as real);
        WindowLater(cfg, Streak(w, a), Times(t, a), prunedAt, readAt);
      } else {
        assert Times(t, a) == Times(w.table, a);
        WindowLater(cfg, Streak(w, a), Times(w.table, a), w.clock, readAt);
      }
    }
  }

  lemma WaitedOut(cfg: Limits, t: Table, later: Table, ip: Ip, readAt: real, at: real, clock: real)
    requires Locked(cfg, t, ip) && DequeOk(cfg, t.fails[ip], clock)
    requires Times(later, ip) == t.fails[ip] || Times(later, ip) == []
    requires at >= readAt + WaitFor(cfg, t.fails[ip][0], readAt) as real
    ensures !Locked(cfg, Pruned(later, ip, at - cfg.window as real), ip)
  {
    var cutoff := at - cfg.window as real;
    WaitBounds(cfg, t.fails[ip][0], readAt);
    assert t.fails[ip][0] < cutoff;
    DropOldKeeps(Times(later, ip), cutoff);
    TimesOf(cfg, later, ip, cutoff);
  }

  /** Retry-After is enough: whatever other addresses do meanwhile, the next login of this address,
      `n` seconds or more after it was told to wait `n`, is not refused. */
  lemma {:induction false} RetryAfterSuffices(cfg: Limits, from: real, es: seq<Login>, ip: Ip, prunedAt: real,
                                              readAt: real, fs: seq<Login>, at: real)
    requires cfg.maxTracked >= 1 && ClockOk(cfg, Start(from), es)
    requires After(cfg, Start(from), es).clock <= prunedAt <= readAt
    requires var r := Refused(cfg, After(cfg, Start(from), es), ip, prunedAt, readAt);
             && Locked(cfg, r.table, ip)
             && ClockOk(cfg, r, fs) && Avoids(fs, ip)
             && at >= readAt + WaitFor(cfg, r.table.fails[ip][0], readAt) as real
    ensures var r := Refused(cfg, After(cfg, Start(from), es), ip, prunedAt, readAt);
            !Locked(cfg, Pruned(After(cfg, r, fs).table, ip, at - cfg.window as real), ip)
  {
    StartOk(cfg, from);
    SufficesFrom(cfg, Start(from), es, ip, prunedAt, readAt, fs, at);
  }

  lemma {:induction false} SufficesFrom(cfg: Limits, w: World, es: seq<Login>, ip: Ip, prunedAt: real, readAt: real,
                                        fs: seq<Login>, at: real)
    requires cfg.maxTracked >= 1 && Inv(cfg, w) && ClockOk(cfg, w, es)
    requires After(cfg, w, es).clock <= prunedAt <= readAt
    requires var r := Refused(cfg, After(cfg, w, es), ip, prunedAt, readAt);
             && Locked(cfg, r.table, ip)
             && ClockOk(cfg, r, fs) && Avoids(fs, ip)
             && at >= readAt + WaitFor(cfg, r.table.fails[ip][0], readAt) as real
    ensures var r := Refused(cfg, After(cfg, w, es), ip, prunedAt, readAt);
            !Locked(cfg, Pruned(After(cfg, r, fs).table, ip, at - cfg.window as real), ip)
    decreases |es|
  {
    if es == [] {
      RefusedThenSuffices(cfg, w, ip, prunedAt, readAt, fs, at);
    } else {
      AttemptKeepsInv(cfg, w, es[0]);
      SufficesFrom(cfg, Attempt(cfg, w, es[0]), es[1..], ip, prunedAt, readAt, fs, at);
    }
  }

  lemma {:induction false} RefusedThenSuffices(cfg: Limits, w: World, ip: Ip, prunedAt: real, readAt: real,
                                               fs: seq<Login>, at: real)
    requires cfg.maxTracked >= 1 && Inv(cfg, w) && w.clock <= prunedAt <= readAt
    requires var r := Refused(cfg, w, ip, prunedAt, readAt);
             && Locked(cfg, r.table, ip)
             && ClockOk(cfg, r, fs) && Avoids(fs, ip)
             && at >= readAt + WaitFor(cfg, r.table.fails[ip][0], readAt) as real
    ensures !Locked(cfg, Pruned(After(cfg, Refused(cfg, w, ip, prunedAt, readAt), fs).table, ip,
                                at - cfg.window as real), ip)
  {
    var r := Refused(cfg, w, ip, prunedAt, readAt);
    RefusedKeepsInv(cfg, w, ip, prunedAt, readAt, r);
    OthersLeaveDeque(cfg, r, fs, ip);
    WaitedOut(cfg, r.table, After(cfg, r, fs).table, ip, readAt, at, r.clock);
  }

  /** And it is not a second too long: unless the window rolled off between the two readings, a
      login up to `n - 1` seconds later is still refused. */
  lemma RetryAfterIsTight(cfg: Limits, t: Table, ip: Ip, readAt: real, at: real)
    requires Locked(cfg, t, ip)
    requires readAt - t.fails[ip][0] <= cfg.window as real
    requires at <= readAt + (WaitFor(cfg, t.fails[ip][0], readAt) - 1) as real
    ensures Locked(cfg, Pruned(t, ip, at - cfg.window as real), ip)
  {
    WaitBounds(cfg, t.fails[ip][0], readAt);
  }
}
