/** Relaying under a support grant, from the session to the wire: the sessions of `SessionPlanes` and
    the pool of `GatewayPool`, run together.  A request's gateway is chosen by tenant; which address
    that is, the pool decides when it hands the client over. */
module SupportRouting {
  import opened Common
  import opened SessionPlanes
  import opened TenantEstate
  import GatewayPool

  /** A relayed call as it leaves: what was presented, and the pool's client it went through. */
  datatype Dispatch = Dispatch(shown: Presented, via: Option<GatewayPool.Made>)

  /** `held` is the client each request has been given by the pool. */
  datatype Console = Console(sessions: SessionPlanes.World, pool: GatewayPool.Pool,
                             held: map<RequestId, GatewayPool.Made>,
                             wire: seq<Dispatch>)   // history

  const START := Console(SessionPlanes.EMPTY, GatewayPool.EMPTY, map[], [])

  datatype Event =
    | InSession(e: SessionPlanes.Event)
    | InPool(p: GatewayPool.Event)
    | Reached(r: RequestId)   // `pool.get` returns the tenant's client

  /** The tenant whose client a request is waiting for, or about to use. */
  function Towards(q: Request): Option<SessionPlanes.Tenant> {
    if q.pc.Routed? && q.pc.gw.PoolClient? then Some(q.pc.gw.tenant) else None
  }

  /** A step of the sessions.  A new choice of gateway starts without a client, and a request bound for
      the pool sends nothing until it has one. */
  function DoInSession(c: Console, e: SessionPlanes.Event): Console {
    if e.Send? && Towards(At(c.sessions, e.r)).Some? && e.r !in c.held then c
    else
      var next := SessionPlanes.Step(c.sessions, e);
      var grown := |next.presented| > |c.sessions.presented|;
      c.(sessions := next,
         held := if e.Route? then c.held - {e.r} else c.held,
         wire := if grown then c.wire + [Dispatch(Last(next.presented), Via(c, e))] else c.wire)
  }

  function Via(c: Console, e: SessionPlanes.Event): Option<GatewayPool.Made> {
    if e.Send? && Towards(At(c.sessions, e.r)).Some? && e.r in c.held then Some(c.held[e.r]) else None
  }

  function DoReached(c: Console, r: RequestId): Console {
    var to := Towards(At(c.sessions, r));
    if to.None? || to.value !in c.pool.clients then c else c.(held := c.held[r := c.pool.clients[to.value]])
  }

  function Step(setup: GatewayPool.Console, c: Console, e: Event): Console {
    match e
    case InSession(e) => DoInSession(c, e)
    case InPool(p) => c.(pool := GatewayPool.Step(setup, c.pool, p))
    case Reached(r) => DoReached(c, r)
  }

  function Run(setup: GatewayPool.Console, c: Console, es: seq<Event>): Console
    decreases |es|
  {
    if es == [] then c else Run(setup, Step(setup, c, es[0]), es[1..])
  }

  // ----- the invariant -----------------------------------------------------------------------------

  /** A request bound for a tenant holds, if any, a client at an address that tenant was listed at. */
  ghost predicate HeldOk(setup: GatewayPool.Console, c: Console, r: RequestId) {
    r in c.held && Towards(At(c.sessions, r)).Some? ==>
      GatewayPool.OwnEntry(setup, c.pool.replies, Towards(At(c.sessions, r)).value, c.held[r].url)
  }

  /** What a provider session sends goes through the pool's client for the tenant its credential was
      polled from, to an address that tenant itself was listed at. */
  ghost predicate WireOk(setup: GatewayPool.Console, c: Console, s: Dispatch) {
    s.shown.id.plane == ProviderPlane ==>
      && s.via.Some? && s.shown.gw.PoolClient? && s.shown.bearer.Some?
      && Grant(s.shown.gw.tenant, s.shown.bearer.value) in c.sessions.polled
      && GatewayPool.OwnEntry(setup, c.pool.replies, s.shown.gw.tenant, s.via.value.url)
  }

  ghost predicate Ok(setup: GatewayPool.Console, c: Console) {
    && SessionPlanes.Inv(c.sessions)
    && GatewayPool.Owned(setup, c.pool)
    && (forall r :: HeldOk(setup, c, r))
    && (forall s :: s in c.wire ==> WireOk(setup, c, s))
  }

  /** Listings only accumulate. */
  lemma PoolStepKeeps(setup: GatewayPool.Console, pool: GatewayPool.Pool, p: GatewayPool.Event,
                      id: SessionPlanes.Tenant, url: string)
    requires GatewayPool.OwnEntry(setup, pool.replies, id, url)
    ensures GatewayPool.OwnEntry(setup, GatewayPool.Step(setup, pool, p).replies, id, url)
  {
    if p.Refreshed? { GatewayPool.OwnEntryLater(setup, pool.replies, p.reply, id, url); }
  }

  lemma InPoolKeepsOk(setup: GatewayPool.Console, c: Console, p: GatewayPool.Event)
    requires Ok(setup, c)
    ensures Ok(setup, Step(setup, c, InPool(p)))
  {
    var t := Step(setup, c, InPool(p));
    GatewayPool.StepKeepsOwned(setup, c.pool, p);
    forall r ensures HeldOk(setup, t, r) {
      assert HeldOk(setup, c, r);
      if r in c.held && Towards(At(c.sessions, r)).Some? {
        PoolStepKeeps(setup, c.pool, p, Towards(At(c.sessions, r)).value, c.held[r].url);
      }
    }
    forall s | s in t.wire ensures WireOk(setup, t, s) {
      assert WireOk(setup, c, s);
      if s.shown.id.plane == ProviderPlane { PoolStepKeeps(setup, c.pool, p, s.shown.gw.tenant, s.via.value.url); }
    }
  }

  lemma ReachedKeepsOk(setup: GatewayPool.Console, c: Console, r: RequestId)
    requires Ok(setup, c)
    ensures Ok(setup, DoReached(c, r))
  {
    var t := DoReached(c, r);
    forall x ensures HeldOk(setup, t, x) { assert HeldOk(setup, c, x); }
    forall s | s in t.wire ensures WireOk(setup, t, s) { assert WireOk(setup, c, s); }
  }

  /** Only a new choice of gateway sends a request anywhere else. */
  lemma OnlyRouteRedirects(w: SessionPlanes.World, e: SessionPlanes.Event, x: RequestId)
    requires Towards(At(SessionPlanes.Step(w, e), x)).Some?
    ensures Towards(At(SessionPlanes.Step(w, e), x)) == Towards(At(w, x)) || (e.Route? && e.r == x)
  {}

  lemma InSessionKeepsOk(setup: GatewayPool.Console, c: Console, e: SessionPlanes.Event)
    requires Ok(setup, c)
    ensures Ok(setup, DoInSession(c, e))
  {
    var t := DoInSession(c, e);
    if t != c {
      SessionPlanes.StepKeepsInv(c.sessions, e);
      SessionPlanes.StepExtends(c.sessions, e);
      forall x ensures HeldOk(setup, t, x) {
        assert HeldOk(setup, c, x);
        if Towards(At(t.sessions, x)).Some? { OnlyRouteRedirects(c.sessions, e, x); }
      }
      forall s | s in c.wire ensures WireOk(setup, t, s) { assert WireOk(setup, c, s); }
      if t.wire != c.wire { SentIsOk(setup, c, e); }
    }
  }

  /** A provider session presents its credential in a first send, and in nothing else. */
  lemma ProviderSendsFirst(w: SessionPlanes.World, e: SessionPlanes.Event)
    requires SessionPlanes.Inv(w) && |SessionPlanes.Step(w, e).presented| > |w.presented|
    ensures var p := Last(SessionPlanes.Step(w, e).presented);
            p.id.plane == ProviderPlane ==> e.Send? && At(w, e.r).pc.Routed? && p.gw == At(w, e.r).pc.gw
  {
    assert RequestOk(w, At(w, e.r));
    if e.Reuse? { assert SessionOk(w, At(w, e.r).sid.value, View(At(w, e.r))); }
  }

  lemma SentIsOk(setup: GatewayPool.Console, c: Console, e: SessionPlanes.Event)
    requires Ok(setup, c) && DoInSession(c, e).wire != c.wire
    ensures WireOk(setup, DoInSession(c, e), Last(DoInSession(c, e).wire))
  {
    var next := SessionPlanes.Step(c.sessions, e);
    var p := Last(next.presented);
    SessionPlanes.StepKeepsInv(c.sessions, e);
    assert RoutedRight(next, p);
    if p.id.plane == ProviderPlane {
      ProviderSendsFirst(c.sessions, e);
      assert HeldOk(setup, c, e.r);
    }
  }

  lemma {:induction false} RunKeepsOk(setup: GatewayPool.Console, c: Console, es: seq<Event>)
    requires Ok(setup, c)
    ensures Ok(setup, Run(setup, c, es))
    decreases |es|
  {
    if es != [] {
      match es[0] {
        case InSession(e) => InSessionKeepsOk(setup, c, e);
        case InPool(p) => InPoolKeepsOk(setup, c, p);
        case Reached(r) => ReachedKeepsOk(setup, c, r);
      }
      RunKeepsOk(setup, Step(setup, c, es[0]), es[1..]);
    }
  }

  /** Every call of every joint run of sessions and pool: a credential polled from a tenant only ever
      goes to an address that very tenant was listed at. */
  lemma {:induction false} CredentialsReachTheirTenant(setup: GatewayPool.Console, es: seq<Event>)
    ensures var c := Run(setup, START, es);
            forall s :: s in c.wire ==> WireOk(setup, c, s)
  {
    RunKeepsOk(setup, START, es);
  }

  function PoolEvents(es: seq<Event>): seq<GatewayPool.Event> {
    if es == [] then []
    else (if es[0].InPool? then [es[0].p] else []) + PoolEvents(es[1..])
  }

  /** The pool of a joint run is that of the pool's own events alone. */
  lemma {:induction false} PoolRunsAlone(setup: GatewayPool.Console, c: Console, es: seq<Event>)
    ensures Run(setup, c, es).pool == GatewayPool.Run(setup, c.pool, PoolEvents(es))
    decreases |es|
  {
    if es != [] {
      PoolRunsAlone(setup, Step(setup, c, es[0]), es[1..]);
      if es[0].InPool? {
        assert PoolEvents(es)[1..] == PoolEvents(es[1..]);
      } else {
        assert PoolEvents(es) == PoolEvents(es[1..]);
      }
    }
  }

  /** The client the pool has for the tenant is the one the call goes through. */
  lemma ReachedThenSent(setup: GatewayPool.Console, c: Console, r: RequestId)
    requires Towards(At(c.sessions, r)).Some? && Loaded(At(c.sessions, r))
    requires Towards(At(c.sessions, r)).value in c.pool.clients
    requires View(At(c.sessions, r)).id.plane == ProviderPlane && View(At(c.sessions, r)).grant.Some?
    requires View(At(c.sessions, r)).grant.value.credential != ""
    ensures var q, to := At(c.sessions, r), Towards(At(c.sessions, r)).value;
            var t := Step(setup, Step(setup, c, Reached(r)), InSession(Send(r)));
            var s := View(q);
            t.wire == c.wire + [Dispatch(Presented(q.sid.value, s.id, PoolClient(to), Some(s.grant.value.credential)),
                                         Some(c.pool.clients[to]))]
  {}
}
