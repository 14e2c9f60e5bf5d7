/** Which session is whose, and where its bearer goes: any number of sessions and requests, with
    logins, logouts, expiry, token refresh, support grants polled and dropped, and whole-session
    writes from stale views, all interleaved at their awaits.

    A request works on its own cached copy of its session; the store is shared. */
module SessionPlanes {
  import opened Common

  type Sid = string
  type Tenant = string
  type Token = string
  type RequestId = nat

  datatype Plane = TenantPlane | ProviderPlane
  datatype Kind = Password | Oidc

  /** Everything about a session that says who it is and what it may do. */
  datatype Identity = Identity(kind: Kind, plane: Plane, sub: string, role: string, providerScopes: set<string>)

  /** A delegated support grant: the tenant it was polled from, and the credential that came back. */
  datatype Grant = Grant(tenant: Tenant, credential: Token)

  datatype Session = Session(id: Identity, access: Option<Token>, refresh: Option<Token>, grant: Option<Grant>,
                             pendingBackup: Option<string>)

  /** This stack's own gateway, or the pool's client for a tenant. */
  datatype Gateway = Own | PoolClient(tenant: Tenant)

  datatype Pc =
    | Idle
    | Routed(gw: Gateway)                        // gateway chosen, bearer not yet
    | Sent(gw: Gateway)                          // awaiting the gateway
    | Refreshing(gw: Gateway, current: Session)  // owns the lock, awaiting the identity provider
    | Persisting                                 // queued to write its copy back

  /** `sid` is the request's cookie; `cache` is None until the session has been loaded. */
  datatype Request = Request(sid: Option<Sid>, cache: Option<Option<Session>>, pc: Pc)

  /** A relayed call: whose, to where, with what; no bearer means the client's own token. */
  datatype Presented = Presented(sid: Sid, id: Identity, gw: Gateway, bearer: Option<Token>)

  datatype World = World(
    store: map<Sid, Session>,
    requests: map<RequestId, Request>,
    // history
    born: map<Sid, Identity>,             // what each sid was established as
    handed: set<(Sid, Token)>,            // every access token a login or an exchange returned, and for whom
    polled: set<Grant>,                   // every credential a tenant's gateway handed over, and which tenant
    presented: seq<Presented>)

  datatype Event =
    | Arrive(r: RequestId, cookie: Option<Sid>)
    | PasswordLogin(r: RequestId, sid: Sid, role: string)
    | OidcLogin(r: RequestId, sid: Sid, sub: string, access: Option<Token>, refresh: Option<Token>)
    | ProviderLogin(r: RequestId, sid: Sid, sub: string, scopes: set<string>, access: Option<Token>)
    | Logout(r: RequestId)
    | Expire(sid: Sid)
    | Load(r: RequestId)
    | Poll(r: RequestId, tenant: Tenant, credential: Token)   // approved, with a credential
    | ReleaseGrant(r: RequestId)
    | StageBackup(r: RequestId, blob: Option<string>)
    | Persist(r: RequestId)
    | Route(r: RequestId)
    | Send(r: RequestId)
    | Answer(r: RequestId)
    | Reuse(r: RequestId)              // 401, and another request has refreshed meanwhile
    | BeginRefresh(r: RequestId)       // 401, and the exchange is ours
    | EndRefresh(r: RequestId, access: Option<Token>, rotated: Option<Token>)   // None: the exchange failed
    | DropGrant(r: RequestId)          // 401, and nothing to refresh

  const EMPTY := World(map[], map[], map[], {}, {}, [])

  function At(w: World, r: RequestId): Request {
    if r in w.requests then w.requests[r] else Request(None, None, Idle)
  }

  function Put(w: World, r: RequestId, q: Request): World {
    w.(requests := w.requests[r := q])
  }

  predicate Loaded(q: Request) {
    q.sid.Some? && q.cache.Some? && q.cache.value.Some?
  }

  function View(q: Request): Session
    requires Loaded(q)
  {
    q.cache.value.value
  }

  /** The copy in hand changes now; the store changes when the write gets its turn. */
  function Edited(w: World, r: RequestId, s: Session): World {
    Put(w, r, At(w, r).(cache := Some(Some(s)), pc := Persisting))
  }

  function Handed(w: World, sid: Sid, access: Option<Token>): set<(Sid, Token)> {
    if access.Some? then w.handed + {(sid, access.value)} else w.handed
  }

  /** `establish`: the old session goes, a fresh sid is bound to the cookie. */
  function Establish(w: World, r: RequestId, sid: Sid, s: Session): World {
    var q := At(w, r);
    if sid in w.born || !q.pc.Idle? then w
    else
      var kept := if q.sid.Some? then w.store - {q.sid.value} else w.store;
      Put(w.(store := kept[sid := s], born := w.born[sid := s.id], handed := Handed(w, sid, s.access)),
          r, Request(Some(sid), Some(Some(s)), Idle))
  }

  function PasswordSession(role: string): Session {
    Session(Identity(Password, TenantPlane, "", role, {}), None, None, None, None)
  }

  function OidcSession(sub: string, access: Option<Token>, refresh: Option<Token>): Session {
    Session(Identity(Oidc, TenantPlane, sub, "", {}), access, refresh, None, None)
  }

  function ProviderSession(sub: string, scopes: set<string>, access: Option<Token>): Session {
    Session(Identity(Oidc, ProviderPlane, sub, "", scopes), access, None, None, None)
  }

  /** `_gateway_for`; None where it fails closed. */
  function GatewayFor(s: Session): Option<Gateway> {
    if s.id.plane != ProviderPlane then Some(Own)
    else if s.grant.None? || s.grant.value.tenant == "" then None
    else Some(PoolClient(s.grant.value.tenant))
  }

  datatype Bearer = Refused | Use(token: Option<Token>)

  /** `upstream_bearer` */
  function UpstreamBearer(s: Session): Bearer {
    if s.id.plane == ProviderPlane then
      (if s.grant.None? || s.grant.value.credential == "" then Refused else Use(Some(s.grant.value.credential)))
    else if s.id.kind == Oidc then Use(s.access)
    else Use(None)
  }

  function Refreshable(s: Session): bool {
    s.id.kind == Oidc && s.refresh.Some?
  }

  /** A credential is polled for a provider session holding a provider scope. */
  predicate MayPoll(s: Session) {
    s.id.plane == ProviderPlane && s.id.providerScopes != {}
  }

  /** An archive is staged or claimed on the tenant data plane, and never for a break-glass session. */
  predicate MayStage(s: Session) {
    s.id.kind == Oidc && (s.id.plane == ProviderPlane ==> s.grant.Some? && s.grant.value.credential != "")
  }

  function DoSend(w: World, r: RequestId): World {
    var q := At(w, r);
    if !q.pc.Routed? || !Loaded(q) then w
    else match UpstreamBearer(View(q))
      case Refused => Put(w, r, q.(pc := Idle))
      case Use(token) =>
        var call := Presented(q.sid.value, View(q).id, q.pc.gw, token);
        Put(w.(presented := w.presented + [call]), r, q.(pc := Sent(q.pc.gw)))
  }

  function Stored(w: World, q: Request): Option<Session> {
    if q.sid.Some? && q.sid.value in w.store then Some(w.store[q.sid.value]) else None
  }

  /** The lock's owner re-reads the store; the request's own copy only decides whether to try. */
  predicate CanRefresh(w: World, q: Request) {
    q.pc.Sent? && Loaded(q) && Refreshable(View(q)) && Stored(w, q).Some? && Stored(w, q).value.refresh.Some?
  }

  function DoReuse(w: World, r: RequestId): World {
    var q := At(w, r);
    if !CanRefresh(w, q) || Stored(w, q).value.access == View(q).access then w
    else
      var s := Stored(w, q).value;
      var t := Put(w, r, q.(cache := Some(Some(s)), pc := Idle));
      if s.access.None? then t
      else t.(presented := t.presented + [Presented(q.sid.value, View(q).id, q.pc.gw, s.access)])
  }

  function DoBeginRefresh(w: World, r: RequestId): World {
    var q := At(w, r);
    if !CanRefresh(w, q) || Stored(w, q).value.access != View(q).access then w
    else Put(w, r, q.(pc := Refreshing(q.pc.gw, Stored(w, q).value)))
  }

  function DoEndRefresh(w: World, r: RequestId, access: Option<Token>, rotated: Option<Token>): World {
    var q := At(w, r);
    if !q.pc.Refreshing? || !Loaded(q) then w
    else if access.None? then Put(w, r, q.(pc := Idle))
    else
      var s := q.pc.current.(access := access, refresh := if rotated.Some? then rotated else q.pc.current.refresh);
      Put(w.(store := w.store[q.sid.value := s],
             handed := Handed(w, q.sid.value, access),
             presented := w.presented + [Presented(q.sid.value, View(q).id, q.pc.gw, access)]),
          r, q.(cache := Some(Some(s)), pc := Idle))
  }

  function Step(w: World, e: Event): World {
    match e
    case Expire(sid) => w.(store := w.store - {sid})
    case Arrive(r, cookie) =>
      if r in w.requests || (cookie.Some? && cookie.value !in w.born) then w else Put(w, r, Request(cookie, None, Idle))
    case PasswordLogin(r, sid, role) => Establish(w, r, sid, PasswordSession(role))
    case OidcLogin(r, sid, sub, access, refresh) => Establish(w, r, sid, OidcSession(sub, access, refresh))
    case ProviderLogin(r, sid, sub, scopes, access) => Establish(w, r, sid, ProviderSession(sub, scopes, access))
    case Logout(r) =>
      var q := At(w, r);
      if !q.pc.Idle? then w
      else
        var kept := if q.sid.Some? then w.store - {q.sid.value} else w.store;
        Put(w.(store := kept), r, Request(None, Some(None), Idle))
    case Load(r) =>
      var q := At(w, r);
      if q.cache.Some? then w else Put(w, r, q.(cache := Some(Stored(w, q))))
    case Poll(r, tenant, credential) =>
      var q := At(w, r);
      if !q.pc.Idle? || !Loaded(q) || !MayPoll(View(q)) then w
      else
        var g := Grant(tenant, credential);
        Edited(w.(polled := w.polled + {g}), r, View(q).(grant := Some(g)))
    case ReleaseGrant(r) =>
      var q := At(w, r);
      if !q.pc.Idle? || !Loaded(q) || !MayPoll(View(q)) || View(q).grant.None? then w
      else Edited(w, r, View(q).(grant := None))
    case StageBackup(r, blob) =>
      var q := At(w, r);
      if !q.pc.Idle? || !Loaded(q) || !MayStage(View(q)) then w else Edited(w, r, View(q).(pendingBackup := blob))
    case Persist(r) =>
      var q := At(w, r);
      if !q.pc.Persisting? || !Loaded(q) then w
      else Put(w.(store := w.store[q.sid.value := View(q)]), r, q.(pc := Idle))
    case Route(r) =>
      var q := At(w, r);
      if !q.pc.Idle? || !Loaded(q) || GatewayFor(View(q)).None? then w
      else Put(w, r, q.(pc := Routed(GatewayFor(View(q)).value)))
    case Send(r) => DoSend(w, r)
    case Answer(r) => if At(w, r).pc.Sent? then Put(w, r, At(w, r).(pc := Idle)) else w
    case Reuse(r) => DoReuse(w, r)
    case BeginRefresh(r) => DoBeginRefresh(w, r)
    case EndRefresh(r, access, rotated) => DoEndRefresh(w, r, access, rotated)
    case DropGrant(r) =>
      var q := At(w, r);
      if !q.pc.Sent? || !Loaded(q) || View(q).id.plane != ProviderPlane || View(q).grant.None? then w
      else Edited(w, r, View(q).(grant := None))
  }

  function Run(w: World, es: seq<Event>): World
    decreases |es|
  {
    if es == [] then w else Run(Step(w, es[0]), es[1..])
  }

  // ----- the invariant ------------------------------------------------------------------

  /** Whose sessions are ever written back: those of an identity provider, with provider authority if
      it is the provider's. */
  predicate MayWrite(id: Identity) {
    id.kind == Oidc && (id.plane == ProviderPlane ==> id.providerScopes != {})
  }

  /** Provider authority only on a provider session, which never holds a refresh token; and a grant
      is one that was polled, by a session with a provider scope. */
  ghost predicate SessionOk(w: World, sid: Sid, s: Session) {
    && sid in w.born && s.id == w.born[sid]
    && (s.grant.Some? ==> s.id.providerScopes != {}) && (s.refresh.Some? ==> s.id.kind == Oidc)
    && (s.id.providerScopes != {} || s.grant.Some? ==> s.id.plane == ProviderPlane)
    && (s.id.plane == ProviderPlane ==> s.id.kind == Oidc && s.refresh.None?)
    && (s.grant.Some? ==> s.grant.value in w.polled)
    && (s.access.Some? ==> s.id.kind == Oidc && (sid, s.access.value) in w.handed)
  }

  ghost predicate RequestOk(w: World, q: Request) {
    && (q.sid.Some? ==> q.sid.value in w.born)
    && (Loaded(q) ==> SessionOk(w, q.sid.value, View(q)))
    && (q.pc.Routed? || q.pc.Sent? ==> Loaded(q) && GatewayFor(View(q)) == Some(q.pc.gw))
    && (q.pc.Persisting? ==> Loaded(q) && MayWrite(View(q).id))
    && (q.pc.Refreshing? ==>
          Loaded(q) && GatewayFor(View(q)) == Some(q.pc.gw) && SessionOk(w, q.sid.value, q.pc.current)
          && q.pc.current.refresh.Some?)
  }

  /** A tenant session talks to its own gateway: an identity provider's session with an access token
      handed out for that very session, if it has one, and a break-glass session with none.  A provider
      session only talks to the tenant whose gateway handed over the very credential it presents. */
  ghost predicate RoutedRight(w: World, p: Presented) {
    match p.id.plane
    case TenantPlane =>
      && p.gw == Own
      && (p.bearer.Some? ==> p.id.kind == Oidc && (p.sid, p.bearer.value) in w.handed)
    case ProviderPlane => p.gw.PoolClient? && p.bearer.Some? && Grant(p.gw.tenant, p.bearer.value) in w.polled
  }

  ghost predicate Inv(w: World) {
    && (forall sid :: sid in w.store ==> SessionOk(w, sid, w.store[sid]))
    && (forall r :: r in w.requests ==> RequestOk(w, w.requests[r]))
    && (forall p :: p in w.presented ==> RoutedRight(w, p))
  }

  /** History only grows. */
  ghost predicate Extends(w: World, t: World) {
    && (forall sid :: sid in w.born ==> sid in t.born && t.born[sid] == w.born[sid])
    && w.polled <= t.polled && w.handed <= t.handed
  }

  /** A step that leaves one request and at most one stored session different. */
  lemma StepFrame(w: World, t: World, r: RequestId)
    requires Inv(w) && Extends(w, t)
    requires forall sid :: sid in t.store ==>
               (sid in w.store && t.store[sid] == w.store[sid]) || SessionOk(t, sid, t.store[sid])
    requires forall x :: x in t.requests && x != r ==> x in w.requests && t.requests[x] == w.requests[x]
    requires r in t.requests ==> RequestOk(t, t.requests[r])
    requires forall p :: p in t.presented ==> p in w.presented || RoutedRight(t, p)
    ensures Inv(t)
  {
    forall sid | sid in t.store ensures SessionOk(t, sid, t.store[sid]) {
      if sid in w.store && t.store[sid] == w.store[sid] { assert SessionOk(w, sid, w.store[sid]); }
    }
    forall x | x in t.requests ensures RequestOk(t, t.requests[x]) {
      if x != r { assert RequestOk(w, w.requests[x]); }
    }
    forall p | p in t.presented ensures RoutedRight(t, p) {
      if p in w.presented { assert RoutedRight(w, p); }
    }
  }

  lemma EstablishKeepsInv(w: World, r: RequestId, sid: Sid, s: Session)
    requires Inv(w)
    requires s.grant.None? && (s.id.providerScopes != {} ==> s.id.plane == ProviderPlane)
    requires s.id.plane == ProviderPlane ==> s.id.kind == Oidc && s.refresh.None?
    requires s.refresh.Some? || s.access.Some? ==> s.id.kind == Oidc
    ensures Inv(Establish(w, r, sid, s))
  {
    var t := Establish(w, r, sid, s);
    if t != w { StepFrame(w, t, r); }
  }

  /** Steps that only move the request along. */
  lemma LocalStepKeepsInv(w: World, e: Event)
    requires Inv(w)
    requires e.Arrive? || e.Load? || e.Route? || e.Answer?
    ensures Inv(Step(w, e))
  {
    var t, r := Step(w, e), e.r;
    if t != w {
      if r in w.requests { assert RequestOk(w, w.requests[r]); }
      if e.Load? && Stored(w, At(w, r)).Some? { assert SessionOk(w, At(w, r).sid.value, Stored(w, At(w, r)).value); }
      StepFrame(w, t, r);
    }
  }

  /** Steps that change the request's own copy, to be written back. */
  lemma EditKeepsInv(w: World, e: Event)
    requires Inv(w)
    requires e.ReleaseGrant? || e.StageBackup? || e.DropGrant?
    ensures Inv(Step(w, e))
  {
    var t, r := Step(w, e), e.r;
    if t != w {
      assert RequestOk(w, w.requests[r]);
      StepFrame(w, t, r);
    }
  }

  lemma PollKeepsInv(w: World, r: RequestId, tenant: Tenant, credential: Token)
    requires Inv(w)
    ensures Inv(Step(w, Poll(r, tenant, credential)))
  {
    var t := Step(w, Poll(r, tenant, credential));
    if t != w {
      assert RequestOk(w, w.requests[r]);
      StepFrame(w, t, r);
    }
  }

  lemma PersistKeepsInv(w: World, r: RequestId)
    requires Inv(w)
    ensures Inv(Step(w, Persist(r)))
  {
    var t := Step(w, Persist(r));
    if t != w {
      assert RequestOk(w, w.requests[r]);
      StepFrame(w, t, r);
    }
  }

  lemma LogoutKeepsInv(w: World, r: RequestId)
    requires Inv(w)
    ensures Inv(Step(w, Logout(r)))
  {
    var t := Step(w, Logout(r));
    if t != w { StepFrame(w, t, r); }
  }

  lemma SendKeepsInv(w: World, r: RequestId)
    requires Inv(w)
    ensures Inv(DoSend(w, r))
  {
    var t := DoSend(w, r);
    if t != w {
      assert RequestOk(w, w.requests[r]);
      StepFrame(w, t, r);
    }
  }

  lemma RefreshKeepsInv(w: World, e: Event)
    requires Inv(w) && (e.Reuse? || e.BeginRefresh?)
    ensures Inv(Step(w, e))
  {
    var t, r := Step(w, e), e.r;
    if t != w {
      var q := w.requests[r];
      assert RequestOk(w, q);
      assert SessionOk(w, q.sid.value, Stored(w, q).value);
      StepFrame(w, t, r);
    }
  }

  lemma EndRefreshKeepsInv(w: World, e: Event)
    requires Inv(w) && e.EndRefresh?
    ensures Inv(Step(w, e))
  {
    var t, r := Step(w, e), e.r;
    if t != w {
      assert RequestOk(w, w.requests[r]);
      StepFrame(w, t, r);
    }
  }

  lemma StepKeepsInv(w: World, e: Event)
    requires Inv(w)
    ensures Inv(Step(w, e))
  {
    match e
    case Expire(_) =>
    case PasswordLogin(r, sid, role) => EstablishKeepsInv(w, r, sid, PasswordSession(role));
    case OidcLogin(r, sid, sub, access, refresh) => EstablishKeepsInv(w, r, sid, OidcSession(sub, access, refresh));
    case ProviderLogin(r, sid, sub, scopes, access) =>
      EstablishKeepsInv(w, r, sid, ProviderSession(sub, scopes, access));
    case Logout(r) => LogoutKeepsInv(w, r);
    case Poll(r, tenant, credential) => PollKeepsInv(w, r, tenant, credential);
    case Persist(r) => PersistKeepsInv(w, r);
    case Send(r) => SendKeepsInv(w, r);
    case Reuse(_) => RefreshKeepsInv(w, e);
    case BeginRefresh(_) => RefreshKeepsInv(w, e);
    case EndRefresh(_, _, _) => EndRefreshKeepsInv(w, e);
    case ReleaseGrant(_) => EditKeepsInv(w, e);
    case StageBackup(_, _) => EditKeepsInv(w, e);
    case DropGrant(_) => EditKeepsInv(w, e);
    case _ => LocalStepKeepsInv(w, e);
  }

  lemma {:induction false} RunKeepsInv(w: World, es: seq<Event>)
    requires Inv(w)
    ensures Inv(Run(w, es))
    decreases |es|
  {
    if es != [] {
      StepKeepsInv(w, es[0]);
      RunKeepsInv(Step(w, es[0]), es[1..]);
    }
  }

  lemma StepExtends(w: World, e: Event)
    ensures Extends(w, Step(w, e))
  {}

  lemma {:induction false} RunExtends(w: World, es: seq<Event>)
    ensures Extends(w, Run(w, es))
    decreases |es|
  {
    if es != [] {
      var t := Step(w, es[0]);
      StepExtends(w, es[0]);
      RunExtends(t, es[1..]);
      ExtendsTwice(w, t, Run(t, es[1..]));
    }
  }

  lemma ExtendsTwice(a: World, b: World, c: World)
    requires Extends(a, b) && Extends(b, c)
    ensures Extends(a, c)
  {}

  // ----- what is promised -----------------------------------------------------------------

  lemma {:induction false} RunAppend(w: World, es: seq<Event>, fs: seq<Event>)
    ensures Run(w, es + fs) == Run(Run(w, es), fs)
    decreases |es|
  {
    if es == [] {
      assert es + fs == fs;
    } else {
      assert (es + fs)[0] == es[0] && (es + fs)[1..] == es[1..] + fs;
      RunAppend(Step(w, es[0]), es[1..], fs);
    }
  }

  /** A session is, for as long as it can be read, who it was established as: kind, plane, subject,
      role and provider scopes, in the store and in every request's copy, whatever stale copies are
      written back and however late. */
  lemma {:induction false} IdentityIsConstant(es: seq<Event>, fs: seq<Event>, sid: Sid)
    requires sid in Run(EMPTY, es).store
    ensures var w, t := Run(EMPTY, es), Run(EMPTY, es + fs);
            && (sid in t.store ==> t.store[sid].id == w.store[sid].id)
            && (forall r :: r in t.requests && Loaded(t.requests[r]) && t.requests[r].sid.value == sid ==>
                  View(t.requests[r]).id == w.store[sid].id)
  {
    RunKeepsInv(EMPTY, es);
    RunAppend(EMPTY, es, fs);
    var w, t := Run(EMPTY, es), Run(EMPTY, es + fs);
    RunKeepsInv(w, fs);
    RunExtends(w, fs);
    assert SessionOk(w, sid, w.store[sid]);
    if sid in t.store { assert SessionOk(t, sid, t.store[sid]); }
    forall r | r in t.requests && Loaded(t.requests[r]) && t.requests[r].sid.value == sid
      ensures View(t.requests[r]).id == w.store[sid].id
    {
      assert RequestOk(t, t.requests[r]);
    }
  }

  /** Provider scopes and support grants only on a session the provider's own identity provider
      authenticated, which holds no refresh token. */
  predicate OnItsPlane(s: Session) {
    && (s.id.providerScopes != {} || s.grant.Some? ==> s.id.plane == ProviderPlane && s.id.kind == Oidc)
    && (s.id.plane == ProviderPlane ==> s.refresh.None?)
  }

  /** So it is with every session of every run, as stored, as any request holds it, and as any request
      is about to store it. */
  lemma {:induction false} ProviderAuthorityStaysOnItsPlane(es: seq<Event>)
    ensures var w := Run(EMPTY, es);
            && (forall sid :: sid in w.store ==> OnItsPlane(w.store[sid]))
            && (forall r :: r in w.requests && Loaded(w.requests[r]) ==> OnItsPlane(View(w.requests[r])))
            && (forall r :: r in w.requests && w.requests[r].pc.Refreshing? ==> OnItsPlane(w.requests[r].pc.current))
  {
    RunKeepsInv(EMPTY, es);
    var w := Run(EMPTY, es);
    forall sid | sid in w.store ensures OnItsPlane(w.store[sid]) { assert SessionOk(w, sid, w.store[sid]); }
    forall r | r in w.requests
      ensures Loaded(w.requests[r]) ==> OnItsPlane(View(w.requests[r]))
      ensures w.requests[r].pc.Refreshing? ==> OnItsPlane(w.requests[r].pc.current)
    {
      assert RequestOk(w, w.requests[r]);
    }
  }

  /** At any point of any run, what a request sends, where and with what, is told by one and the same
      copy of its session, whatever others wrote in between.  A provider session goes to the tenant of
      its grant with the credential of its grant, an identity provider's with its access token, a
      break-glass session without a bearer; and no other call is made than these. */
  lemma {:induction false} SentFromOneCopy(es: seq<Event>, r: RequestId)
    requires At(Run(EMPTY, es), r).pc.Routed?
    ensures var w := Run(EMPTY, es);
            var t := DoSend(w, r);
            Loaded(At(w, r)) && var s := View(At(w, r));
            if s.id.plane == ProviderPlane && s.grant.Some? && s.grant.value.credential == "" then
              t.presented == w.presented
            else
              && |t.presented| == |w.presented| + 1 && t.presented[..|w.presented|] == w.presented
              && var p := Last(t.presented);
                 && p.sid == At(w, r).sid.value && p.id == s.id
                 && match (s.id.plane, s.id.kind)
                    case (ProviderPlane, _) =>
                      && s.grant.Some? && p.gw == PoolClient(s.grant.value.tenant)
                      && p.bearer == Some(s.grant.value.credential)
                    case (TenantPlane, Oidc) => p.gw == Own && p.bearer == s.access
                    case (TenantPlane, Password) => p.gw == Own && p.bearer.None?
  {
    RunKeepsInv(EMPTY, es);
    assert RequestOk(Run(EMPTY, es), At(Run(EMPTY, es), r));
  }

  /** After a 401 the call is made again with the token the exchange returned, or with the one another
      request has stored meanwhile, to the same gateway; and both are then the request's own copy. */
  lemma RetriedWithTheNewToken(w: World, r: RequestId, access: Token, rotated: Option<Token>)
    requires Loaded(At(w, r))
    ensures At(w, r).pc.Refreshing? ==>
              var t, gw := Step(w, EndRefresh(r, Some(access), rotated)), At(w, r).pc.gw;
              var s := At(w, r).pc.current;
              && t.presented == w.presented + [Presented(At(w, r).sid.value, View(At(w, r)).id, gw, Some(access))]
              && Loaded(At(t, r)) && At(t, r).pc.Idle? && At(t, r).sid == At(w, r).sid
              && View(At(t, r)) ==
                 s.(access := Some(access), refresh := if rotated.Some? then rotated else s.refresh)
              && At(t, r).sid.value in t.store && t.store[At(t, r).sid.value] == View(At(t, r))
    ensures At(w, r).pc.Sent? && At(w, r).sid.value in w.store && View(At(w, r)).id.kind == Oidc
            && View(At(w, r)).refresh.Some? && w.store[At(w, r).sid.value].refresh.Some?
            && w.store[At(w, r).sid.value].access.Some?
            && w.store[At(w, r).sid.value].access != View(At(w, r)).access ==>
              var t, s, q := Step(w, Reuse(r)), w.store[At(w, r).sid.value], At(w, r);
              && t.presented == w.presented + [Presented(q.sid.value, View(q).id, q.pc.gw, s.access)]
              && At(t, r) == q.(cache := Some(Some(s)), pc := Idle)
  {}

  /** If what the other request has stored holds no access token, nothing is sent again; nor after an
      answer other than a 401. */
  lemma NotRetried(w: World, r: RequestId)
    requires At(w, r).pc.Sent?
    ensures At(w, r).sid.Some? && At(w, r).sid.value in w.store && w.store[At(w, r).sid.value].access.None? ==>
              Step(w, Reuse(r)).presented == w.presented
    ensures var t := Step(w, Answer(r));
            At(t, r) == At(w, r).(pc := Idle) && t.presented == w.presented && t.store == w.store
  {}

  /** Every relayed call of every run: a provider session never goes out with the stack's own token
      nor to the stack's own gateway, and presents a credential only to the tenant it was polled
      from; a tenant session never reaches the pool. */
  lemma {:induction false} CredentialsGoWhereTheyCameFrom(es: seq<Event>)
    ensures var w := Run(EMPTY, es);
            forall p :: p in w.presented ==> RoutedRight(w, p)
  {
    RunKeepsInv(EMPTY, es);
  }

  /** A request whose stored session nobody has refreshed meanwhile goes to the provider with it; if the
      exchange fails nothing changes, and nothing is sent again. */
  lemma RefreshBegins(w: World, r: RequestId)
    requires At(w, r).pc.Sent? && Loaded(At(w, r)) && At(w, r).sid.value in w.store
    requires View(At(w, r)).id.kind == Oidc && View(At(w, r)).refresh.Some?
    requires w.store[At(w, r).sid.value].refresh.Some? && w.store[At(w, r).sid.value].access == View(At(w, r)).access
    ensures var t := Step(w, BeginRefresh(r));
            var u := Step(t, EndRefresh(r, None, None));
            && At(t, r) == At(w, r).(pc := Refreshing(At(w, r).pc.gw, w.store[At(w, r).sid.value]))
            && At(u, r) == At(w, r).(pc := Idle) && u.store == w.store && u.presented == w.presented
  {}

  // ----- what each route leaves ------------------------------------------------------------------

  /** A request starts with its cookie and reads the store once, when it first needs its session. */
  lemma LoadReadsTheStore(w: World, r: RequestId, cookie: Option<Sid>)
    ensures r !in w.requests && (cookie.None? || cookie.value in w.born) ==>
              At(Step(w, Arrive(r, cookie)), r) == Request(cookie, None, Idle)
    ensures var q := At(w, r);
            var stored := if q.sid.Some? && q.sid.value in w.store then Some(w.store[q.sid.value]) else None;
            At(Step(w, Load(r)), r) == if q.cache.Some? then q else q.(cache := Some(stored))
  {}

  /** Where a relay goes: the stack's own gateway for a tenant session, the grant's tenant for a provider
      session, and nowhere if there is no such tenant. */
  lemma RouteChooses(w: World, r: RequestId)
    requires At(w, r).pc.Idle? && Loaded(At(w, r))
    ensures var s, q := View(At(w, r)), At(Step(w, Route(r)), r);
            if s.id.plane == TenantPlane then q == At(w, r).(pc := Routed(Own))
            else if s.grant.Some? && s.grant.value.tenant != "" then
              q == At(w, r).(pc := Routed(PoolClient(s.grant.value.tenant)))
            else q == At(w, r)
  {}

  /** A login makes exactly this session, under a sid of its own, and ends the one the cookie named. */
  lemma LoginEstablishes(w: World, r: RequestId, sid: Sid, e: Event)
    requires e.PasswordLogin? || e.OidcLogin? || e.ProviderLogin?
    requires e.r == r && e.sid == sid && sid !in w.born && At(w, r).pc.Idle?
    ensures var t, replaced := Step(w, e), At(w, r).sid;
            && sid in t.store && At(t, r) == Request(Some(sid), Some(Some(t.store[sid])), Idle)
            && (replaced.Some? && replaced.value != sid ==> replaced.value !in t.store)
            && (forall x :: x in w.store && Some(x) != replaced && x != sid ==>
                  x in t.store && t.store[x] == w.store[x])
            && var s := t.store[sid];
               && s.grant.None? && s.pendingBackup.None?
               && match e
                  case PasswordLogin(_, _, role) =>
                    s.id == Identity(Password, TenantPlane, "", role, {}) && s.access.None? && s.refresh.None?
                  case OidcLogin(_, _, sub, access, refresh) =>
                    s.id == Identity(Oidc, TenantPlane, sub, "", {}) && s.access == access && s.refresh == refresh
                  case ProviderLogin(_, _, sub, scopes, access) =>
                    s.id == Identity(Oidc, ProviderPlane, sub, "", scopes) && s.access == access && s.refresh.None?
                  case _ => false
  {}

  lemma ExpiryEnds(w: World, sid: Sid)
    ensures Step(w, Expire(sid)) == w.(store := w.store - {sid})
  {}

  /** A logout ends the session the cookie names, and the request's copy of it. */
  lemma LogoutEnds(w: World, r: RequestId)
    ensures var t := Step(w, Logout(r));
            if !At(w, r).pc.Idle? then t == w
            else
            && !Loaded(At(t, r)) && At(t, r).sid.None?
            && (forall x :: x in t.store <==> x in w.store && Some(x) != At(w, r).sid)
            && (forall x :: x in t.store ==> t.store[x] == w.store[x])
  {}

  /** Once written back, the session is the request's copy with just this changed: the grant polled, by
      a provider session with a provider scope; the grant released, or dropped after a 401; the
      prepared archive.  Nothing else in the store changes. */
  lemma EditsLand(w: World, r: RequestId, e: Event)
    requires e.Poll? || e.ReleaseGrant? || e.DropGrant? || e.StageBackup?
    requires e.r == r && Loaded(At(w, r)) && At(w, r).pc.Idle? == !e.DropGrant? && At(w, r).pc.Sent? == e.DropGrant?
    ensures var t, s, sid := Step(Step(w, e), Persist(r)), View(At(w, r)), At(w, r).sid.value;
            var provider := s.id.plane == ProviderPlane;
            var allowed := match e
              case Poll(_, _, _) => provider && s.id.providerScopes != {}
              case ReleaseGrant(_) => provider && s.id.providerScopes != {} && s.grant.Some?
              case DropGrant(_) => provider && s.grant.Some?
              case StageBackup(_, _) =>
                s.id.kind == Oidc && (provider ==> s.grant.Some? && s.grant.value.credential != "")
              case _ => false;
            if !allowed then t == w
            else
              && t.store == w.store[sid := match e
                   case Poll(_, tenant, credential) => s.(grant := Some(Grant(tenant, credential)))
                   case StageBackup(_, blob) => s.(pendingBackup := blob)
                   case _ => s.(grant := None)]
              && At(t, r) == Request(Some(sid), Some(Some(t.store[sid])), Idle)
  {}

  // ----- can a session that is gone come back? ----------------------------------------------------

  /** A request still has its copy of the session. */
  ghost predicate HoldsCopy(w: World, sid: Sid) {
    exists r :: r in w.requests && CopyOf(w.requests[r], sid)
  }

  predicate CopyOf(q: Request, sid: Sid) {
    Loaded(q) && q.sid.value == sid
  }

  ghost predicate Gone(w: World, sid: Sid) {
    sid in w.born && sid !in w.store
  }

  /** Logged out, replaced or expired, a session comes back in some continuation exactly if it is one
      that is ever written back and a request still holds a copy of it.  So a break-glass session, or
      a provider's without provider authority, never does. */
  lemma {:induction false} GoneSessionReturnsIff(es: seq<Event>, sid: Sid)
    requires Gone(Run(EMPTY, es), sid)
    ensures var w := Run(EMPTY, es);
            (exists fs :: sid in Run(w, fs).store) <==> MayWrite(w.born[sid]) && HoldsCopy(w, sid)
  {
    RunKeepsInv(EMPTY, es);
    GoneReturnsIff(Run(EMPTY, es), sid);
  }

  lemma GoneReturnsIff(w: World, sid: Sid)
    requires Inv(w) && Gone(w, sid)
    ensures (exists fs :: sid in Run(w, fs).store) <==> MayWrite(w.born[sid]) && HoldsCopy(w, sid)
  {
    if !HoldsCopy(w, sid) {
      forall fs ensures sid !in Run(w, fs).store { NoCopyNoReturn(w, fs, sid); }
    } else if !MayWrite(w.born[sid]) {
      forall fs ensures sid !in Run(w, fs).store { NoWriteNoReturn(w, fs, sid); }
    } else {
      var r :| r in w.requests && CopyOf(w.requests[r], sid);
      assert RequestOk(w, w.requests[r]);
      WritesBack(w, r, sid);
    }
  }

  lemma {:induction false} NoCopyNoReturn(w: World, fs: seq<Event>, sid: Sid)
    requires Gone(w, sid) && !HoldsCopy(w, sid)
    ensures sid !in Run(w, fs).store
    decreases |fs|
  {
    if fs != [] {
      NoCopyStays(w, fs[0], sid);
      NoCopyNoReturn(Step(w, fs[0]), fs[1..], sid);
    }
  }

  lemma NoCopyStays(w: World, e: Event, sid: Sid)
    requires Gone(w, sid) && !HoldsCopy(w, sid)
    ensures Gone(Step(w, e), sid) && !HoldsCopy(Step(w, e), sid)
  {
    var t := Step(w, e);
    var x := if e.Expire? then 0 else e.r;
    assert x in w.requests ==> !CopyOf(w.requests[x], sid);
    NoCopyAppears(w, e, sid, x);
    forall r | r in t.requests ensures !CopyOf(t.requests[r], sid) {
      assert r in w.requests ==> !CopyOf(w.requests[r], sid);
      NoCopyAppears(w, e, sid, r);
    }
  }

  lemma NoCopyAppears(w: World, e: Event, sid: Sid, r: RequestId)
    requires Gone(w, sid) && !CopyOf(At(w, r), sid)
    ensures sid in Step(w, e).born && !CopyOf(At(Step(w, e), r), sid)
    ensures e.Expire? || e.r == r ==> sid !in Step(w, e).store
  {}

  lemma {:induction false} NoWriteNoReturn(w: World, fs: seq<Event>, sid: Sid)
    requires Inv(w) && Gone(w, sid) && !MayWrite(w.born[sid])
    ensures sid !in Run(w, fs).store
    decreases |fs|
  {
    if fs != [] {
      NoWriteStays(w, fs[0], sid);
      StepKeepsInv(w, fs[0]);
      NoWriteNoReturn(Step(w, fs[0]), fs[1..], sid);
    }
  }

  lemma NoWriteStays(w: World, e: Event, sid: Sid)
    requires Inv(w) && Gone(w, sid) && !MayWrite(w.born[sid])
    ensures Gone(Step(w, e), sid) && Step(w, e).born[sid] == w.born[sid]
  {
    if !e.Expire? && e.r in w.requests { assert RequestOk(w, w.requests[e.r]); }
  }

  /** Whatever a request is in the middle of, it can finish, change its copy and write it back. */
  function WriteBack(r: RequestId): seq<Event> {
    [Send(r), Answer(r), EndRefresh(r, None, None)] + [StageBackup(r, None), Poll(r, "", ""), Persist(r)]
  }

  lemma WritesBack(w: World, r: RequestId, sid: Sid)
    requires RequestOk(w, At(w, r)) && CopyOf(At(w, r), sid) && MayWrite(View(At(w, r)).id)
    ensures exists fs :: sid in Run(w, fs).store
  {
    var first := [Send(r), Answer(r), EndRefresh(r, None, None)];
    var second := [StageBackup(r, None), Poll(r, "", ""), Persist(r)];
    RunAppend(w, first, second);
    RunThree(w, Send(r), Answer(r), EndRefresh(r, None, None));
    Finishes(w, r, sid);
    var u := Run(w, first);
    RunThree(u, StageBackup(r, None), Poll(r, "", ""), Persist(r));
    Persists(u, r, sid);
    assert sid in Run(w, WriteBack(r)).store;
  }

  lemma RunThree(w: World, a: Event, b: Event, c: Event)
    ensures Run(w, [a, b, c]) == Step(Step(Step(w, a), b), c)
  {
    assert Run(w, [a, b, c]) == Run(Step(w, a), [b, c]);
    assert Run(Step(w, a), [b, c]) == Run(Step(Step(w, a), b), [c]);
    assert Run(Step(Step(w, a), b), [c]) == Run(Step(Step(Step(w, a), b), c), []);
  }

  /** It holds its copy still, and is free to act on it or about to write it. */
  predicate Ready(q: Request, sid: Sid) {
    CopyOf(q, sid) && MayWrite(View(q).id) && (q.pc.Idle? || q.pc.Persisting?)
  }

  lemma Finishes(w: World, r: RequestId, sid: Sid)
    requires CopyOf(At(w, r), sid) && MayWrite(View(At(w, r)).id)
    ensures Ready(At(Step(Step(Step(w, Send(r)), Answer(r)), EndRefresh(r, None, None)), r), sid)
  {
    var u := Step(w, Send(r));
    assert CopyOf(At(u, r), sid) && View(At(u, r)) == View(At(w, r)) && !At(u, r).pc.Routed?;
    var v := Step(u, Answer(r));
    assert CopyOf(At(v, r), sid) && View(At(v, r)) == View(At(w, r)) && !At(v, r).pc.Routed? && !At(v, r).pc.Sent?;
  }

  lemma Persists(w: World, r: RequestId, sid: Sid)
    requires Ready(At(w, r), sid)
    ensures sid in Step(Step(Step(w, StageBackup(r, None)), Poll(r, "", "")), Persist(r)).store
  {
    var u := Step(w, StageBackup(r, None));
    assert Ready(At(u, r), sid);
    var v := Step(u, Poll(r, "", ""));
    assert CopyOf(At(v, r), sid) && At(v, r).pc.Persisting?;
  }
}
