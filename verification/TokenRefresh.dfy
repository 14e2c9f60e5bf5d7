/** Silent refresh of an OIDC access token, interleaved.

    One session, any number of requests on it, and the identity provider.  Every point where the
    code awaits something is a step boundary, so every interleaving of the requests is a sequence
    of events, and a theorem about all event sequences is a theorem about all interleavings.  An
    event whose guard fails leaves the state as it was. */
module TokenRefresh {
  import opened Common

  type Token = string
  type RequestId = nat

  /** The token fields of a stored session. */
  datatype Session = Session(access: Token, refresh: Option<Token>)

  /** Where a request stands.  `bearer` is the access token the gateway saw first. */
  datatype Pc =
    | Idle
    | Called(bearer: Token)                          // awaiting the gateway
    | Waiting(bearer: Token)                         // queued on the session's lock
    | Locked(bearer: Token)                          // owns the lock, about to re-read the store
    | Exchanging(bearer: Token, current: Session)    // awaiting the identity provider
    | Answered(bearer: Token, current: Session)      // new tokens merged, not yet stored
    | Releasing(bearer: Token, result: Option<Token>)
    | Retrying(bearer: Token, refreshed: Token)

  /** `cache` is None before the request has loaded its session; the session itself may be absent. */
  datatype Request = Request(cache: Option<Option<Session>>, pc: Pc)

  /** A refresh token as it reached the provider, and the one that was live when it did. */
  datatype Presented = Presented(sent: Token, live: Option<Token>)

  /** A retry: the bearer the gateway rejected and the one sent instead. */
  datatype Retried = Retried(rejected: Token, bearer: Token)

  datatype State = State(
    store: Option<Session>,
    lock: Option<RequestId>,
    requests: map<RequestId, Request>,
    // the identity provider
    live: Option<Token>,
    minted: set<Token>,
    // history, read by no step
    issued: seq<Session>,      // every version of the session, oldest first
    committed: nat,            // the version last written to the store
    exchanged: seq<Token>,     // access tokens replaced by a successful exchange
    presented: seq<Presented>,
    retries: seq<Retried>)

  datatype Event =
    | Login(access: Token, refresh: Option<Token>)
    | Logout
    | Expire
    | Load(r: RequestId)
    | Call(r: RequestId)
    | Accept(r: RequestId)
    | Reject(r: RequestId)
    | Acquire(r: RequestId)
    | Reread(r: RequestId)
    | Grant(r: RequestId, access: Token, rotated: Option<Token>)
    | Refuse(r: RequestId)
    | Commit(r: RequestId)
    | Release(r: RequestId)
    | Retry(r: RequestId)
    | Persist(r: RequestId)

  const START := State(None, None, map[], None, {}, [], 0, [], [], [])

  function At(s: State, r: RequestId): Request {
    if r in s.requests then s.requests[r] else Request(None, Idle)
  }

  function Move(s: State, r: RequestId, pc: Pc): State {
    s.(requests := s.requests[r := At(s, r).(pc := pc)])
  }

  function Cache(s: State, r: RequestId, view: Option<Session>): State {
    s.(requests := s.requests[r := At(s, r).(cache := Some(view))])
  }

  predicate HasSession(q: Request) {
    q.cache.Some? && q.cache.value.Some?
  }

  /** Tokens the provider hands out are new; a rotated refresh token is new as well. */
  predicate Fresh(s: State, access: Token, refresh: Option<Token>) {
    access !in s.minted && (refresh.Some? ==> refresh.value !in s.minted && refresh.value != access)
  }

  function Mint(s: State, access: Token, refresh: Option<Token>): set<Token> {
    s.minted + {access} + (if refresh.Some? then {refresh.value} else {})
  }

  /** `establish`: a fresh sid, so a session begins once. */
  function DoLogin(s: State, access: Token, refresh: Option<Token>): State {
    if s.issued != [] || !Fresh(s, access, refresh) then s else
      var v := Session(access, refresh);
      s.(store := Some(v), live := refresh, minted := Mint(s, access, refresh), issued := [v], committed := 0)
  }

  function DoLoad(s: State, r: RequestId): State {
    if At(s, r).cache.Some? then s else Cache(s, r, s.store)
  }

  function DoCall(s: State, r: RequestId): State {
    var q := At(s, r);
    if q.pc.Idle? && HasSession(q) then Move(s, r, Called(q.cache.value.value.access)) else s
  }

  function DoAccept(s: State, r: RequestId): State {
    if At(s, r).pc.Called? then Move(s, r, Idle) else s
  }

  /** A 401: queue on the lock when the cached session can be refreshed, otherwise give up. */
  function DoReject(s: State, r: RequestId): State {
    var q := At(s, r);
    if !q.pc.Called? || !HasSession(q) then s
    else if q.cache.value.value.refresh.None? then Move(s, r, Idle)
    else Move(s, r, Waiting(q.pc.bearer))
  }

  function DoAcquire(s: State, r: RequestId): State {
    var q := At(s, r);
    if s.lock.Some? || !q.pc.Waiting? then s else Move(s.(lock := Some(r)), r, Locked(q.pc.bearer))
  }

  /** The three outcomes of re-reading the store under the lock: the session is gone, another
      request already refreshed it, or the exchange is ours to make. */
  function DoReread(s: State, r: RequestId): State {
    var q := At(s, r);
    if !q.pc.Locked? || !HasSession(q) then s
    else if s.store.None? || s.store.value.refresh.None? then Move(s, r, Releasing(q.pc.bearer, None))
    else if s.store.value.access != q.cache.value.value.access then
      Move(Cache(s, r, s.store), r, Releasing(q.pc.bearer, Some(s.store.value.access)))
    else Move(s, r, Exchanging(q.pc.bearer, s.store.value))
  }

  function Merged(current: Session, access: Token, rotated: Option<Token>): Session {
    Session(access, if rotated.Some? then rotated else current.refresh)
  }

  /** The provider accepts only the live refresh token. */
  function DoGrant(s: State, r: RequestId, access: Token, rotated: Option<Token>): State {
    var q := At(s, r);
    if !q.pc.Exchanging? || q.pc.current.refresh.None? || q.pc.current.refresh != s.live
       || !Fresh(s, access, rotated) then s
    else
      var v := Merged(q.pc.current, access, rotated);
      Move(s.(live := v.refresh,
              minted := Mint(s, access, rotated),
              issued := s.issued + [v],
              exchanged := s.exchanged + [q.pc.current.access],
              presented := s.presented + [Presented(q.pc.current.refresh.value, s.live)]),
           r, Answered(q.pc.bearer, v))
  }

  /** A refused or unreachable exchange consumes nothing, unless the token was dead: a provider
      with strict rotation takes a replayed refresh token as theft and revokes the live one. */
  function DoRefuse(s: State, r: RequestId): State {
    var q := At(s, r);
    if !q.pc.Exchanging? || q.pc.current.refresh.None? then s
    else
      Move(s.(live := if q.pc.current.refresh == s.live then s.live else None,
              presented := s.presented + [Presented(q.pc.current.refresh.value, s.live)]),
           r, Releasing(q.pc.bearer, None))
  }

  function DoCommit(s: State, r: RequestId): State {
    var q := At(s, r);
    if !q.pc.Answered? || s.issued == [] then s
    else
      var v := q.pc.current;
      Move(Cache(s.(store := Some(v), committed := |s.issued| - 1), r, Some(v)),
           r, Releasing(q.pc.bearer, Some(v.access)))
  }

  function DoRelease(s: State, r: RequestId): State {
    var q := At(s, r);
    if !q.pc.Releasing? then s
    else if q.pc.result.None? then Move(s.(lock := None), r, Idle)
    else Move(s.(lock := None), r, Retrying(q.pc.bearer, q.pc.result.value))
  }

  function DoRetry(s: State, r: RequestId): State {
    var q := At(s, r);
    if !q.pc.Retrying? then s
    else Move(s.(retries := s.retries + [Retried(q.pc.bearer, q.pc.refreshed)]), r, Idle)
  }

  /** `_persist_session` may run: the lock is free and the request holds a session. */
  predicate CanPersist(s: State, r: RequestId) {
    s.lock.None? && At(s, r).pc.Idle? && HasSession(At(s, r))
  }

  /** Writes back the whole session as this request loaded it, however old. */
  function DoPersist(s: State, r: RequestId): State {
    if CanPersist(s, r) then s.(store := At(s, r).cache.value) else s
  }

  function Step(s: State, e: Event): State {
    match e
    case Login(access, refresh) => DoLogin(s, access, refresh)
    case Logout => s.(store := None)
    case Expire => s.(store := None)
    case Load(r) => DoLoad(s, r)
    case Call(r) => DoCall(s, r)
    case Accept(r) => DoAccept(s, r)
    case Reject(r) => DoReject(s, r)
    case Acquire(r) => DoAcquire(s, r)
    case Reread(r) => DoReread(s, r)
    case Grant(r, access, rotated) => DoGrant(s, r, access, rotated)
    case Refuse(r) => DoRefuse(s, r)
    case Commit(r) => DoCommit(s, r)
    case Release(r) => DoRelease(s, r)
    case Retry(r) => DoRetry(s, r)
    case Persist(r) => DoPersist(s, r)
  }

  function Run(s: State, es: seq<Event>): State
    decreases |es|
  {
    if es == [] then s else Run(Step(s, es[0]), es[1..])
  }

  // ----- what is promised ---------------------------------------------------

  /** The promise of the per-session lock, over everything that has happened so far. */
  ghost predicate Safe(s: State) {
    && Distinct(s.exchanged)
    && (forall p :: p in s.presented ==> p.live == Some(p.sent))
    && (forall t :: t in s.retries ==> t.bearer != t.rejected)
  }

  /** This event writes back tokens that are no longer the newest ones issued. */
  ghost predicate StaleWrite(s: State, e: Event) {
    && e.Persist?
    && CanPersist(s, e.r)
    && (s.issued == [] || At(s, e.r).cache.value.value.access != Last(s.issued).access)
  }

  ghost predicate NoStaleWrite(s: State, es: seq<Event>)
    decreases |es|
  {
    es == [] || (!StaleWrite(s, es[0]) && NoStaleWrite(Step(s, es[0]), es[1..]))
  }

  // ----- the invariant --------------------------------------------------------

  predicate Holds(pc: Pc) {
    pc.Locked? || pc.Exchanging? || pc.Answered? || pc.Releasing?
  }

  ghost predicate Known(s: State, v: Session) {
    exists k :: 0 <= k < |s.issued| && s.issued[k] == v
  }

  ghost predicate IssuedOk(s: State) {
    && (forall i, j :: 0 <= i < j < |s.issued| ==> s.issued[i].access != s.issued[j].access)
    && (forall i :: 0 <= i < |s.issued| ==> s.issued[i].access in s.minted)
    && (forall i :: 0 <= i < |s.issued| - 1 ==> s.issued[i].refresh.Some?)
    && (|s.issued| > 0 ==> s.live == Last(s.issued).refresh)
    && |s.exchanged| == (if s.issued == [] then 0 else |s.issued| - 1)
    && (forall i :: 0 <= i < |s.exchanged| ==> s.exchanged[i] == s.issued[i].access)
  }

  ghost predicate LockOk(s: State) {
    && (forall r :: r in s.requests ==> (Holds(s.requests[r].pc) <==> s.lock == Some(r)))
    && (s.lock.Some? ==> s.lock.value in s.requests)
  }

  /** The store is at the newest version, except while the lock owner has yet to write it. */
  ghost predicate StoreOk(s: State) {
    && (s.issued == [] ==> s.store.None? && s.committed == 0)
    && (s.issued != [] ==> s.committed < |s.issued|)
    && (s.store.Some? ==> s.issued != [] && s.store.value == s.issued[s.committed])
    && (s.issued != [] && !(s.lock.Some? && At(s, s.lock.value).pc.Answered?) ==> s.committed == |s.issued| - 1)
  }

  ghost predicate RequestOk(s: State, q: Request) {
    && (HasSession(q) ==> Known(s, q.cache.value.value))
    && (q.pc.Called? || q.pc.Waiting? || q.pc.Locked? || q.pc.Exchanging? || q.pc.Answered? ==>
          HasSession(q) && q.cache.value.value.access == q.pc.bearer)
    && (q.pc.Exchanging? ==>
          s.issued != [] && q.pc.current == Last(s.issued) && q.pc.current.refresh.Some?)
    && (q.pc.Answered? ==> s.issued != [] && q.pc.current == Last(s.issued) && q.pc.current.access != q.pc.bearer)
    && (q.pc.Releasing? && q.pc.result.Some? ==>
          s.issued != [] && q.pc.result.value == Last(s.issued).access && q.pc.result.value != q.pc.bearer)
    && (q.pc.Retrying? ==> q.pc.refreshed != q.pc.bearer)
  }

  ghost predicate LogOk(s: State) {
    && (forall p :: p in s.presented ==> p.live == Some(p.sent))
    && (forall t :: t in s.retries ==> t.bearer != t.rejected)
  }

  ghost predicate Inv(s: State) {
    && IssuedOk(s)
    && LockOk(s)
    && StoreOk(s)
    && LogOk(s)
    && forall r :: r in s.requests ==> RequestOk(s, s.requests[r])
  }

  /** Changing one request and nothing the others depend on keeps the invariant. */
  lemma MoveKeepsInv(s: State, t: State, r: RequestId)
    requires Inv(s)
    requires t.issued == s.issued && IssuedOk(t) && StoreOk(t) && LogOk(t)
    requires t.requests == s.requests[r := At(t, r)] && r in t.requests
    requires RequestOk(t, At(t, r))
    requires t.lock == s.lock || (s.lock.None? && t.lock == Some(r)) || (s.lock == Some(r) && t.lock.None?)
    requires Holds(At(t, r).pc) <==> t.lock == Some(r)
    ensures Inv(t)
  {
    forall x | x in t.requests ensures RequestOk(t, t.requests[x]) {
      if x != r { assert RequestOk(s, s.requests[x]); }
    }
  }

  lemma StepKeepsInv(s: State, e: Event)
    requires Inv(s) && !StaleWrite(s, e)
    ensures Inv(Step(s, e))
  {
    if e.Login? || e.Logout? || e.Expire? || e.Load? || e.Persist? || e.Call? || e.Accept? || e.Reject? || e.Retry? {
      OutsideLockKeepsInv(s, e);
    } else {
      InsideLockKeepsInv(s, e);
    }
  }

  lemma OutsideLockKeepsInv(s: State, e: Event)
    requires Inv(s) && !StaleWrite(s, e)
    requires e.Login? || e.Logout? || e.Expire? || e.Load? || e.Persist?
             || e.Call? || e.Accept? || e.Reject? || e.Retry?
    ensures Inv(Step(s, e))
  {
    match e
    case Login(_, _) => LoginKeepsInv(s, e);
    case Load(r) => LoadKeepsInv(s, r);
    case Persist(r) => PersistKeepsInv(s, r);
    case Call(r) => CallKeepsInv(s, r);
    case Accept(r) => AcceptKeepsInv(s, r);
    case Reject(r) => RejectKeepsInv(s, r);
    case Retry(r) => RetryKeepsInv(s, r);
    case _ => GoneKeepsInv(s);
  }

  lemma InsideLockKeepsInv(s: State, e: Event)
    requires Inv(s)
    requires e.Acquire? || e.Reread? || e.Grant? || e.Refuse? || e.Commit? || e.Release?
    ensures Inv(Step(s, e))
  {
    if e.Acquire? {
      AcquireKeepsInv(s, e.r);
    } else if e.Reread? {
      RereadKeepsInv(s, e.r);
    } else if e.Grant? {
      GrantKeepsInv(s, e.r, e.access, e.rotated);
    } else {
      AnsweredKeepsInv(s, e);
    }
  }

  lemma AnsweredKeepsInv(s: State, e: Event)
    requires Inv(s)
    requires e.Refuse? || e.Commit? || e.Release?
    ensures Inv(Step(s, e))
  {
    match e
    case Refuse(r) => RefuseKeepsInv(s, r);
    case Commit(r) => CommitKeepsInv(s, r);
    case Release(r) => ReleaseKeepsInv(s, r);
  }

  lemma GoneKeepsInv(s: State)
    requires Inv(s)
    ensures Inv(s.(store := None))
  {
    var t := s.(store := None);
    forall x | x in t.requests ensures RequestOk(t, t.requests[x]) {
      assert RequestOk(s, s.requests[x]);
    }
  }

  lemma LoginKeepsInv(s: State, e: Event)
    requires Inv(s) && e.Login?
    ensures Inv(Step(s, e))
  {
    var t := Step(s, e);
    if t != s {
      forall x | x in t.requests ensures RequestOk(t, t.requests[x]) {
        assert RequestOk(s, s.requests[x]);
      }
    }
  }

  lemma PersistKeepsInv(s: State, r: RequestId)
    requires Inv(s) && !StaleWrite(s, Persist(r))
    ensures Inv(DoPersist(s, r))
  {
    if CanPersist(s, r) {
      assert RequestOk(s, At(s, r));
    }
  }

  lemma GrantKeepsInv(s: State, r: RequestId, access: Token, rotated: Option<Token>)
    requires Inv(s)
    ensures Inv(DoGrant(s, r, access, rotated))
  {
    var t := DoGrant(s, r, access, rotated);
    if t != s {
      var q := At(s, r);
      assert RequestOk(s, q) && s.lock == Some(r);
      assert q.pc.current == Last(s.issued);
      forall i | 0 <= i < |t.exchanged| ensures t.exchanged[i] == t.issued[i].access {}
      forall x | x in t.requests ensures RequestOk(t, t.requests[x]) {
        var p := s.requests[x];
        assert RequestOk(s, p) && (x != r ==> !Holds(p.pc));
        if HasSession(p) { StillKnown(s, t, p.cache.value.value); }
      }
    }
  }

  lemma StillKnown(s: State, t: State, v: Session)
    requires Known(s, v) && |s.issued| <= |t.issued| && t.issued[..|s.issued|] == s.issued
    ensures Known(t, v)
  {
    var k :| 0 <= k < |s.issued| && s.issued[k] == v;
    assert t.issued[..|s.issued|][k] == t.issued[k];
  }

  lemma LoadKeepsInv(s: State, r: RequestId)
    requires Inv(s)
    ensures Inv(DoLoad(s, r))
  {
    var t := DoLoad(s, r);
    if t != s {
      if r in s.requests { assert RequestOk(s, s.requests[r]); }
      if s.store.Some? { assert s.issued[s.committed] == s.store.value; }
      MoveKeepsInv(s, t, r);
    }
  }

  lemma RetryKeepsInv(s: State, r: RequestId)
    requires Inv(s)
    ensures Inv(DoRetry(s, r))
  {
    var t := DoRetry(s, r);
    if t != s {
      assert RequestOk(s, s.requests[r]);
      MoveKeepsInv(s, t, r);
    }
  }

  lemma CallKeepsInv(s: State, r: RequestId)
    requires Inv(s)
    ensures Inv(DoCall(s, r))
  {
    var t := DoCall(s, r);
    if t != s {
      assert RequestOk(s, s.requests[r]);
      MoveKeepsInv(s, t, r);
    }
  }

  lemma AcceptKeepsInv(s: State, r: RequestId)
    requires Inv(s)
    ensures Inv(DoAccept(s, r))
  {
    var t := DoAccept(s, r);
    if t != s {
      assert RequestOk(s, s.requests[r]);
      MoveKeepsInv(s, t, r);
    }
  }

  lemma RejectKeepsInv(s: State, r: RequestId)
    requires Inv(s)
    ensures Inv(DoReject(s, r))
  {
    var t := DoReject(s, r);
    if t != s {
      assert RequestOk(s, s.requests[r]);
      MoveKeepsInv(s, t, r);
    }
  }

  lemma AcquireKeepsInv(s: State, r: RequestId)
    requires Inv(s)
    ensures Inv(DoAcquire(s, r))
  {
    var t := DoAcquire(s, r);
    if t != s {
      assert RequestOk(s, s.requests[r]);
      MoveKeepsInv(s, t, r);
    }
  }

  lemma RefuseKeepsInv(s: State, r: RequestId)
    requires Inv(s)
    ensures Inv(DoRefuse(s, r))
  {
    var t := DoRefuse(s, r);
    if t != s {
      assert RequestOk(s, s.requests[r]);
      MoveKeepsInv(s, t, r);
    }
  }

  lemma ReleaseKeepsInv(s: State, r: RequestId)
    requires Inv(s)
    ensures Inv(DoRelease(s, r))
  {
    var t := DoRelease(s, r);
    if t != s {
      assert RequestOk(s, s.requests[r]);
      MoveKeepsInv(s, t, r);
    }
  }

  lemma RereadKeepsInv(s: State, r: RequestId)
    requires Inv(s)
    ensures Inv(DoReread(s, r))
  {
    var t := DoReread(s, r);
    if t != s {
      assert RequestOk(s, s.requests[r]);
      if s.store.Some? { assert s.issued[s.committed] == s.store.value; }
      MoveKeepsInv(s, t, r);
    }
  }

  lemma CommitKeepsInv(s: State, r: RequestId)
    requires Inv(s)
    ensures Inv(DoCommit(s, r))
  {
    var t := DoCommit(s, r);
    if t != s {
      assert RequestOk(s, s.requests[r]);
      assert t.issued[|t.issued| - 1] == At(s, r).pc.current;
      MoveKeepsInv(s, t, r);
    }
  }

  // ----- over whole runs --------------------------------------------------------

  lemma {:induction false} RunKeepsInv(s: State, es: seq<Event>)
    requires Inv(s) && NoStaleWrite(s, es)
    ensures Inv(Run(s, es))
    decreases |es|
  {
    if es != [] {
      StepKeepsInv(s, es[0]);
      RunKeepsInv(Step(s, es[0]), es[1..]);
    }
  }

  /** In every interleaving without a stale whole-session write, an access token is exchanged at
      most once, every refresh token presented is the live one, and every retry carries a bearer
      other than the one the gateway rejected. */
  lemma {:induction false} RefreshIsSafe(es: seq<Event>)
    requires NoStaleWrite(START, es)
    ensures Safe(Run(START, es))
  {
    RunKeepsInv(START, es);
    InvIsSafe(Run(START, es));
  }

  lemma InvIsSafe(s: State)
    requires Inv(s)
    ensures Safe(s)
  {
    forall i, j | 0 <= i < j < |s.exchanged| ensures s.exchanged[i] != s.exchanged[j] {
      assert s.exchanged[i] == s.issued[i].access && s.exchanged[j] == s.issued[j].access;
    }
  }

  /** Whether a request exchanged or reused, it leaves the lock with the newest access token. */
  lemma {:induction false} ReleasedTokenIsNewest(es: seq<Event>, r: RequestId)
    requires NoStaleWrite(START, es)
    requires At(Run(START, es), r).pc.Releasing? && At(Run(START, es), r).pc.result.Some?
    ensures var s := Run(START, es);
            s.issued != [] && At(s, r).pc.result.value == Last(s.issued).access
  {
    RunKeepsInv(START, es);
  }

  /** What one further request does to a session whose store holds old tokens. */
  function Probe(q: RequestId, access: Token): seq<Event> {
    [Load(q), Call(q), Reject(q), Acquire(q), Reread(q), Grant(q, access, None), Refuse(q)]
  }

  lemma {:induction false} RunAppend(s: State, es: seq<Event>, fs: seq<Event>)
    ensures Run(s, es + fs) == Run(Run(s, es), fs)
    decreases |es|
  {
    if es == [] {
      assert es + fs == fs;
    } else {
      assert (es + fs)[0] == es[0] && (es + fs)[1..] == es[1..] + fs;
      RunAppend(Step(s, es[0]), es[1..], fs);
    }
  }

  /** The stored access token is not the one about to be written back: what the code could compare
      before the write, if there is a stored session to compare with. */
  predicate Overwrites(s: State, r: RequestId) {
    CanPersist(s, r) && s.store.Some? && s.store.value.access != At(s, r).cache.value.value.access
  }

  lemma StoreIsNewest(s: State)
    requires Inv(s) && s.lock.None? && s.store.Some?
    ensures s.issued != [] && s.store.value == Last(s.issued)
  {}

  /** While the session is stored, a write-back is stale exactly if it changes the access token. */
  lemma StaleIffOverwrites(s: State, r: RequestId)
    requires Inv(s) && CanPersist(s, r) && s.store.Some?
    ensures StaleWrite(s, Persist(r)) <==> Overwrites(s, r)
  {
    StoreIsNewest(s);
  }

  /** Whatever follows, without another stale write, keeps the promise. */
  ghost predicate SafeFrom(s: State) {
    forall fs :: NoStaleWrite(s, fs) ==> Safe(Run(s, fs))
  }

  /** A write-back leaves the session safe exactly if it carries the newest access token; while the
      session is stored, exactly if it does not change the stored one.  Otherwise one more request on
      the session breaks the promise.  `q` is such a request, `access` a token not issued so far. */
  lemma {:induction false} PersistIsSafeIffNotStale(es: seq<Event>, r: RequestId, q: RequestId, access: Token)
    requires NoStaleWrite(START, es) && CanPersist(Run(START, es), r)
    requires q !in Run(START, es).requests && access !in Run(START, es).minted
    ensures var s := Run(START, es);
            && (SafeFrom(DoPersist(s, r)) <==> !StaleWrite(s, Persist(r)))
            && (s.store.Some? ==> (SafeFrom(DoPersist(s, r)) <==> !Overwrites(s, r)))
  {
    var s := Run(START, es);
    RunKeepsInv(START, es);
    PersistIsSafeIff(s, r, q, access);
    if s.store.Some? { StaleIffOverwrites(s, r); }
  }

  lemma PersistIsSafeIff(s: State, r: RequestId, q: RequestId, access: Token)
    requires Inv(s) && CanPersist(s, r) && q !in s.requests && access !in s.minted
    ensures SafeFrom(DoPersist(s, r)) <==> !StaleWrite(s, Persist(r))
  {
    var t := DoPersist(s, r);
    if StaleWrite(s, Persist(r)) {
      StaleWriteBreaks(s, r, q, access);
      NoPersistNoStaleWrite(t, Probe(q, access));
    } else {
      PersistKeepsInv(s, r);
      forall fs | NoStaleWrite(t, fs) ensures Safe(Run(t, fs)) {
        RunKeepsInv(t, fs);
        InvIsSafe(Run(t, fs));
      }
    }
  }

  lemma RunTwo(s: State, a: Event, b: Event)
    ensures Run(s, [a, b]) == Step(Step(s, a), b)
  {
    assert Run(s, [a, b]) == Run(Step(s, a), [b]);
    assert Run(Step(s, a), [b]) == Run(Step(Step(s, a), b), []);
  }

  lemma RunThree(s: State, a: Event, b: Event, c: Event)
    ensures Run(s, [a, b] + [c]) == Step(Step(Step(s, a), b), c)
  {
    RunTwo(s, a, b);
    RunAppend(s, [a, b], [c]);
    assert Run(Step(Step(s, a), b), [c]) == Step(Step(Step(s, a), b), c);
  }

  /** The owner of the lock finds its own view in the store, and its exchange is granted. */
  lemma ExchangeSteps(s: State, r: RequestId, v: Session, access: Token, rotated: Option<Token>)
    requires At(s, r).pc.Locked? && HasSession(At(s, r)) && s.store == Some(v) && v.refresh.Some?
    requires v.access == At(s, r).cache.value.value.access && v.refresh == s.live && Fresh(s, access, rotated)
    ensures var t := Run(s, [Reread(r), Grant(r, access, rotated)] + [Commit(r)]);
            var next := Merged(v, access, rotated);
            && t.store == Some(next)
            && At(t, r) == Request(Some(Some(next)), Releasing(At(s, r).pc.bearer, Some(access)))
            && t.presented == s.presented + [Presented(v.refresh.value, s.live)]
  {
    RunThree(s, Reread(r), Grant(r, access, rotated), Commit(r));
    var u := DoReread(s, r);
    assert At(u, r).pc == Exchanging(At(s, r).pc.bearer, v);
    var w := DoGrant(u, r, access, rotated);
    assert At(w, r).pc == Answered(At(s, r).pc.bearer, Merged(v, access, rotated));
  }

  /** The probing request finds the lock free and its own view in the store, and starts an exchange. */
  lemma ProbeReachesExchange(t: State, q: RequestId, v: Session)
    requires t.lock.None? && q !in t.requests && t.store == Some(v) && v.refresh.Some?
    ensures Run(t, [Load(q), Call(q)] + ([Reject(q), Acquire(q)] + [Reread(q)])) ==
            t.(lock := Some(q), requests := t.requests[q := Request(Some(Some(v)), Exchanging(v.access, v))])
  {
    var t2 := t.(requests := t.requests[q := Request(Some(Some(v)), Called(v.access))]);
    ProbeCalls(t, q, v, t2);
    RunTwo(t, Load(q), Call(q));
    RunThree(t2, Reject(q), Acquire(q), Reread(q));
    ProbeRereads(t2, q, v);
    RunAppend(t, [Load(q), Call(q)], [Reject(q), Acquire(q)] + [Reread(q)]);
  }

  lemma ProbeCalls(t: State, q: RequestId, v: Session, t2: State)
    requires q !in t.requests && t.store == Some(v)
    requires t2 == t.(requests := t.requests[q := Request(Some(Some(v)), Called(v.access))])
    ensures DoCall(DoLoad(t, q), q) == t2
  {
    var t1 := DoLoad(t, q);
    assert t1 == t.(requests := t.requests[q := Request(Some(Some(v)), Idle)]);
  }

  lemma ProbeRereads(t: State, q: RequestId, v: Session)
    requires t.lock.None? && t.store == Some(v) && v.refresh.Some?
    requires At(t, q) == Request(Some(Some(v)), Called(v.access))
    ensures DoReread(DoAcquire(DoReject(t, q), q), q) ==
            t.(lock := Some(q), requests := t.requests[q := Request(Some(Some(v)), Exchanging(v.access, v))])
  {
    var t3 := DoReject(t, q);
    assert t3 == t.(requests := t.requests[q := Request(Some(Some(v)), Waiting(v.access))]);
    var t4 := DoAcquire(t3, q);
    assert t4 == t.(lock := Some(q), requests := t.requests[q := Request(Some(Some(v)), Locked(v.access))]);
  }

  lemma ProbeRuns(t: State, q: RequestId, v: Session, access: Token)
    requires t.lock.None? && q !in t.requests && t.store == Some(v) && v.refresh.Some?
    ensures var t5 := t.(lock := Some(q), requests := t.requests[q := Request(Some(Some(v)), Exchanging(v.access, v))]);
            Run(t, Probe(q, access)) == DoRefuse(DoGrant(t5, q, access, None), q)
  {
    var reach := [Load(q), Call(q)] + ([Reject(q), Acquire(q)] + [Reread(q)]);
    var rest := [Grant(q, access, None), Refuse(q)];
    ProbeReachesExchange(t, q, v);
    assert Probe(q, access) == reach + rest;
    RunAppend(t, reach, rest);
    RunTwo(Run(t, reach), Grant(q, access, None), Refuse(q));
  }

  lemma StaleWriteBreaks(s: State, r: RequestId, q: RequestId, access: Token)
    requires Inv(s) && StaleWrite(s, Persist(r))
    requires q !in s.requests && access !in s.minted
    ensures !Safe(Run(DoPersist(s, r), Probe(q, access)))
  {
    var v := At(s, r).cache.value.value;
    assert RequestOk(s, At(s, r));
    var k :| 0 <= k < |s.issued| && s.issued[k] == v;
    var t := DoPersist(s, r);
    ProbeRuns(t, q, v, access);
    var t5 := t.(lock := Some(q), requests := t.requests[q := Request(Some(Some(v)), Exchanging(v.access, v))]);
    ProbeBreaks(t5, q, access, k);
  }

  /** Either the old refresh token is still live, and an access token is exchanged a second time; or
      it is not, and a dead one is presented. */
  lemma {:induction false} ProbeBreaks(s: State, q: RequestId, access: Token, k: nat)
    requires IssuedOk(s) && k < |s.issued| - 1 && access !in s.minted
    requires At(s, q).pc == Exchanging(s.issued[k].access, s.issued[k])
    ensures !Safe(DoRefuse(DoGrant(s, q, access, None), q))
  {
    var v := s.issued[k];
    var t := DoGrant(s, q, access, None);
    if v.refresh == s.live {
      assert t.exchanged == s.exchanged + [v.access] && At(t, q).pc.Answered?;
      assert DoRefuse(t, q) == t;
      assert t.exchanged[k] == t.exchanged[|s.exchanged|];
    } else {
      assert t == s;
      var u := DoRefuse(s, q);
      assert u.presented == s.presented + [Presented(v.refresh.value, s.live)];
      assert Last(u.presented) in u.presented;
    }
  }

  lemma {:induction false} NoPersistNoStaleWrite(s: State, es: seq<Event>)
    requires forall e :: e in es ==> !e.Persist?
    ensures NoStaleWrite(s, es)
    decreases |es|
  {
    if es != [] {
      NoPersistNoStaleWrite(Step(s, es[0]), es[1..]);
    }
  }

  /** Once another request finishes its exchange, every view loaded before it is stale. */
  lemma FinishMakesViewsStale(s: State, r: RequestId, q: RequestId, access: Token, rotated: Option<Token>)
    requires q in s.requests && s.requests[q].pc.Exchanging? && Fresh(s, access, rotated)
    requires s.requests[q].pc.current.refresh.Some? && s.requests[q].pc.current.refresh == s.live
    requires r != q && r in s.requests && s.requests[r].pc.Idle? && HasSession(s.requests[r])
    requires s.requests[r].cache.value.value.access in s.minted
    ensures var t := Run(s, [Grant(q, access, rotated), Commit(q)] + [Release(q)]);
            StaleWrite(t, Persist(r)) && At(t, r) == At(s, r)
  {
    RunThree(s, Grant(q, access, rotated), Commit(q), Release(q));
    FinishSteps(s, r, q, access, rotated);
    var t := DoRelease(DoCommit(DoGrant(s, q, access, rotated), q), q);
    assert Run(s, [Grant(q, access, rotated), Commit(q)] + [Release(q)]) == t;
    assert StaleWrite(t, Persist(r));
  }

  lemma FinishSteps(s: State, r: RequestId, q: RequestId, access: Token, rotated: Option<Token>)
    requires q in s.requests && s.requests[q].pc.Exchanging? && Fresh(s, access, rotated)
    requires s.requests[q].pc.current.refresh.Some? && s.requests[q].pc.current.refresh == s.live
    requires r != q && r in s.requests
    ensures var t := DoRelease(DoCommit(DoGrant(s, q, access, rotated), q), q);
            t.lock.None? && t.issued != [] && Last(t.issued).access == access && At(t, r) == At(s, r)
  {
    var s1 := DoGrant(s, q, access, rotated);
    assert Last(s1.issued).access == access && At(s1, r) == At(s, r) && At(s1, q).pc.Answered?;
    var s2 := DoCommit(s1, q);
    assert s2.issued == s1.issued && At(s2, r) == At(s, r) && At(s2, q).pc.Releasing?;
  }

  /** A login, and request `r` loading the session; then a refresh by request `q`. */
  function LoadRun(r: RequestId, v: Session): seq<Event> {
    [Login(v.access, v.refresh), Load(r)]
  }

  function RefreshRun(q: RequestId, access: Token): seq<Event> {
    [Load(q), Call(q)] + ([Reject(q), Acquire(q)] + [Reread(q)]) + ([Grant(q, access, None), Commit(q)] + [Release(q)])
  }

  /** A stale write is reachable: request `r` loads the session, then request `q` refreshes it. */
  lemma StaleWriteIsReachable(r: RequestId, q: RequestId, v: Session, access: Token)
    requires r != q && v.refresh.Some? && v.access != v.refresh.value && access !in {v.access, v.refresh.value}
    ensures var es := LoadRun(r, v) + RefreshRun(q, access);
            && NoStaleWrite(START, es) && StaleWrite(Run(START, es), Persist(r))
            && At(Run(START, es), r) == At(Run(START, LoadRun(r, v)), r)
  {
    var login := LoadRun(r, v);
    var reach := [Load(q), Call(q)] + ([Reject(q), Acquire(q)] + [Reread(q)]);
    var finish := [Grant(q, access, None), Commit(q)] + [Release(q)];
    var s := Run(START, login);
    NoPersistNoStaleWrite(START, login + RefreshRun(q, access));
    RunTwo(START, Login(v.access, v.refresh), Load(r));
    LoggedIn(v, r);
    ProbeReachesExchange(s, q, v);
    FinishMakesViewsStale(Run(s, reach), r, q, access, None);
    RunAppend(START, login, RefreshRun(q, access));
    RunAppend(s, reach, finish);
  }

  /** Once the session has left the store nothing in the store or the request decides it: two runs
      end with an empty store and the same cached copy, and only one of the write-backs is stale. */
  lemma EmptyStoreDoesNotDecide(r: RequestId, q: RequestId, v: Session, access: Token)
    requires r != q && v.refresh.Some? && v.access != v.refresh.value && access !in {v.access, v.refresh.value}
    ensures var es, fs := LoadRun(r, v) + [Logout], LoadRun(r, v) + RefreshRun(q, access) + [Logout];
            var s, t := Run(START, es), Run(START, fs);
            && NoStaleWrite(START, es) && NoStaleWrite(START, fs)
            && s.store.None? && t.store.None? && At(s, r) == At(t, r) && CanPersist(s, r) && CanPersist(t, r)
            && !StaleWrite(s, Persist(r)) && StaleWrite(t, Persist(r))
  {
    var login, refreshed := LoadRun(r, v), LoadRun(r, v) + RefreshRun(q, access);
    NoPersistNoStaleWrite(START, login + [Logout]);
    NoPersistNoStaleWrite(START, refreshed + [Logout]);
    RunTwo(START, Login(v.access, v.refresh), Load(r));
    LoggedIn(v, r);
    LogoutLast(START, login);
    LogoutLast(START, refreshed);
    StaleWriteIsReachable(r, q, v, access);
  }

  lemma {:induction false} LogoutLast(s: State, es: seq<Event>)
    ensures Run(s, es + [Logout]) == Run(s, es).(store := None)
  {
    RunAppend(s, es, [Logout]);
    assert Run(Run(s, es), [Logout]) == Step(Run(s, es), Logout);
  }

  lemma LoggedIn(v: Session, r: RequestId)
    requires v.refresh.Some? && v.access != v.refresh.value
    ensures DoLoad(DoLogin(START, v.access, v.refresh), r)
            == START.(store := Some(v), live := v.refresh, minted := {v.access, v.refresh.value}, issued := [v],
                      requests := map[r := Request(Some(Some(v)), Idle)])
  {
    assert Mint(START, v.access, v.refresh) == {v.access, v.refresh.value};
  }

  // ----- a refresh from end to end -----------------------------------------------------------------

  /** The stored refresh token was presented, what came back is stored and cached, the lock is free, and
      the call was made again with the new access token. */
  ghost predicate Completed(s: State, t: State, r: RequestId, v: Session, access: Token, rotated: Option<Token>) {
    var next := Session(access, if rotated.Some? then rotated else v.refresh);
    && t.store == Some(next) && t.lock.None? && t.live == next.refresh
    && At(t, r) == Request(Some(Some(next)), Idle)
    && v.refresh.Some? && t.presented == s.presented + [Presented(v.refresh.value, v.refresh)]
    && t.exchanged == s.exchanged + [v.access]
    && t.retries == s.retries + [Retried(v.access, access)]
  }

  /** A request whose bearer is refused, on a session nobody else is refreshing, completes its refresh. */
  lemma RefreshCompletes(s: State, r: RequestId, v: Session, access: Token, rotated: Option<Token>)
    requires Inv(s) && s.lock.None? && r !in s.requests && s.store == Some(v) && v.refresh.Some?
    requires Fresh(s, access, rotated)
    ensures Completed(s, Run(s, FullRefresh(r, access, rotated)), r, v, access, rotated)
  {
    StoreIsNewest(s);
    FullRefreshDoes(s, r, v, access, rotated);
  }

  lemma FullRefreshDoes(s: State, r: RequestId, v: Session, access: Token, rotated: Option<Token>)
    requires s.lock.None? && r !in s.requests && s.store == Some(v) && v.refresh.Some? && v.refresh == s.live
    requires Fresh(s, access, rotated)
    ensures Completed(s, Run(s, FullRefresh(r, access, rotated)), r, v, access, rotated)
  {
    var u := s.(lock := Some(r), requests := s.requests[r := Request(Some(Some(v)), Exchanging(v.access, v))]);
    ProbeReachesExchange(s, r, v);
    var w := Granted(u, r, v, access, rotated);
    var t := RunJoined(u, [Grant(r, access, rotated), Commit(r)], w, [Release(r), Retry(r)]);
    ReleasedRetries(w, r);
    var _ := RunJoined(s, [Load(r), Call(r)] + ([Reject(r), Acquire(r)] + [Reread(r)]), u,
                       [Grant(r, access, rotated), Commit(r)] + [Release(r), Retry(r)]);
  }

  function FullRefresh(r: RequestId, access: Token, rotated: Option<Token>): seq<Event> {
    [Load(r), Call(r)] + ([Reject(r), Acquire(r)] + [Reread(r)])
    + ([Grant(r, access, rotated), Commit(r)] + [Release(r), Retry(r)])
  }

  lemma RunJoined(s: State, es: seq<Event>, u: State, fs: seq<Event>) returns (t: State)
    requires Run(s, es) == u
    ensures t == Run(u, fs) == Run(s, es + fs)
  {
    RunAppend(s, es, fs);
    t := Run(u, fs);
  }

  /** The exchange is granted and stored. */
  lemma Granted(s: State, r: RequestId, v: Session, access: Token, rotated: Option<Token>) returns (t: State)
    requires At(s, r).pc == Exchanging(v.access, v)
    requires v.refresh.Some? && v.refresh == s.live && Fresh(s, access, rotated)
    ensures t == Run(s, [Grant(r, access, rotated), Commit(r)])
    ensures var next := Session(access, if rotated.Some? then rotated else v.refresh);
            && t.store == Some(next) && t.live == next.refresh
            && At(t, r) == Request(Some(Some(next)), Releasing(v.access, Some(access)))
            && t.presented == s.presented + [Presented(v.refresh.value, v.refresh)]
            && t.exchanged == s.exchanged + [v.access] && t.retries == s.retries
  {
    RunTwo(s, Grant(r, access, rotated), Commit(r));
    var u := DoGrant(s, r, access, rotated);
    assert At(u, r).pc == Answered(v.access, Session(access, if rotated.Some? then rotated else v.refresh));
    t := DoCommit(u, r);
  }

  /** A released token is what the call is made again with. */
  lemma ReleasedRetries(s: State, r: RequestId)
    requires At(s, r).pc.Releasing? && At(s, r).pc.result.Some?
    ensures Run(s, [Release(r), Retry(r)]) ==
            s.(lock := None, requests := s.requests[r := At(s, r).(pc := Idle)],
               retries := s.retries + [Retried(At(s, r).pc.bearer, At(s, r).pc.result.value)])
  {
    RunTwo(s, Release(r), Retry(r));
    var u := DoRelease(s, r);
    assert u == s.(lock := None, requests := s.requests[r :=
                     At(s, r).(pc := Retrying(At(s, r).pc.bearer, At(s, r).pc.result.value))]);
  }

  /** A request that gets the lock after another has refreshed: it takes the stored session over, asks
      the provider nothing, and retries with the stored token. */
  lemma LateRequestReuses(s: State, r: RequestId)
    requires At(s, r).pc.Locked? && HasSession(At(s, r)) && s.store.Some? && s.store.value.refresh.Some?
    requires s.store.value.access != At(s, r).cache.value.value.access
    ensures var t := Run(s, [Reread(r), Release(r)] + [Retry(r)]);
            && t.store == s.store && t.lock.None? && t.presented == s.presented && t.exchanged == s.exchanged
            && At(t, r) == Request(Some(s.store), Idle)
            && t.retries == s.retries + [Retried(At(s, r).pc.bearer, s.store.value.access)]
  {
    RunThree(s, Reread(r), Release(r), Retry(r));
    var u := DoReread(s, r);
    assert At(u, r).pc == Releasing(At(s, r).pc.bearer, Some(s.store.value.access));
    var v := DoRelease(u, r);
    assert At(v, r).pc == Retrying(At(s, r).pc.bearer, s.store.value.access);
  }

  /** A refused exchange, or a session gone meanwhile, changes nothing stored and retries nothing. */
  lemma FailedRefreshGivesUp(s: State, r: RequestId)
    requires (At(s, r).pc.Exchanging? && At(s, r).pc.current.refresh.Some?)
             || (At(s, r).pc.Locked? && HasSession(At(s, r)) && (s.store.None? || s.store.value.refresh.None?))
    ensures var t := Run(s, [if At(s, r).pc.Locked? then Reread(r) else Refuse(r), Release(r)] + [Retry(r)]);
            t.store == s.store && t.lock.None? && t.retries == s.retries && At(t, r) == At(s, r).(pc := Idle)
  {
    var first := if At(s, r).pc.Locked? then Reread(r) else Refuse(r);
    RunThree(s, first, Release(r), Retry(r));
    var u := Step(s, first);
    assert At(u, r).pc == Releasing(At(s, r).pc.bearer, None);
    var v := DoRelease(u, r);
    assert At(v, r).pc == Idle;
  }

  /** An accepted call is over; a refused one queues for a refresh if its session has a refresh token,
      and is over if not.  A logout or an expiry empties the store, whoever holds the lock.  A provider
      with strict rotation that is shown a dead token revokes the live one, and one it refuses for any
      other reason stays live. */
  lemma OtherwiseOver(s: State, r: RequestId)
    requires HasSession(At(s, r))
    ensures Step(s, Logout) == Step(s, Expire) == s.(store := None)
    ensures At(s, r).pc.Called? ==>
              var v := At(s, r).cache.value.value;
              && At(Step(s, Accept(r)), r) == At(s, r).(pc := Idle)
              && At(Step(s, Reject(r)), r).pc == if v.refresh.Some? then Waiting(At(s, r).pc.bearer) else Idle
    ensures At(s, r).pc.Exchanging? && At(s, r).pc.current.refresh.Some? ==>
              Step(s, Refuse(r)).live == if At(s, r).pc.current.refresh == s.live then s.live else None
  {}
}
