/** The catalog client: a long-lived connection whose address and credential can be learned, and
    learned again, from a resolver, by any number of concurrent requests.

    Resolution is single-flight under a lock and has two awaits in it (the lock and the resolver);
    a request has up to three sends.  Every await is a step boundary. */
module CatalogClient {
  import opened Common

  const COOLDOWN := 30.0
  const PLACEHOLDER := "http://catalog-not-configured.invalid"

  datatype Settings = Settings(url: string, token: string, providerConsole: bool, tenant: string)

  /** `auth` is the credential in the Authorization header; `declared` the tenant header, or "". */
  datatype Client = Client(configured: bool, attemptedAt: real, url: string, auth: Option<string>, declared: string)

  function Initial(s: Settings): Client {
    Client(s.url != "" && s.token != "", 0.0,
           if s.url != "" then s.url else PLACEHOLDER,
           if s.token != "" then Some(s.token) else None,
           if s.providerConsole then "" else s.tenant)
  }

  datatype Decision = Answer(configured: bool) | AskResolver

  /** Inside the lock, before the resolver is called. */
  function Decide(c: Client, force: bool, now: real): Decision {
    if c.configured && !force then Answer(true)
    else if !force && now - c.attemptedAt < COOLDOWN then Answer(c.configured)
    else AskResolver
  }

  function Attempted(c: Client, force: bool, now: real): Client {
    if Decide(c, force, now).AskResolver? then c.(attemptedAt := now) else c
  }

  /** What the resolver came back with; None also stands for an exception. */
  datatype Found = Found(url: string, credential: string)

  predicate Useful(found: Option<Found>) {
    found.Some? && found.value.url != "" && found.value.credential != ""
  }

  function Adopted(c: Client, found: Option<Found>): Client {
    if Useful(found) then c.(url := found.value.url, auth := Some(found.value.credential), configured := true) else c
  }

  // ----- the object -----------------------------------------------------------------------

  class Catalog {
    var configured: bool
    var attemptedAt: real
    var url: string
    var auth: Option<string>
    const declared: string

    ghost function State(): Client
      reads this
    {
      Client(configured, attemptedAt, url, auth, declared)
    }

    constructor (s: Settings)
      ensures State() == Initial(s)
      ensures configured <==> s.url != "" && s.token != ""
      ensures (s.url != "" ==> url == s.url) && auth == if s.token != "" then Some(s.token) else None
      ensures declared == if s.providerConsole then "" else s.tenant
    {
      configured := s.url != "" && s.token != "";
      attemptedAt := 0.0;
      url := if s.url != "" then s.url else PLACEHOLDER;
      auth := if s.token != "" then Some(s.token) else None;
      declared := if s.providerConsole then "" else s.tenant;
    }

    /** `_resolve` from the lock to the resolver. */
    method BeginResolve(force: bool, now: real) returns (decision: Decision)
      modifies this
      ensures decision == Decide(old(State()), force, now)
      ensures State() == Attempted(old(State()), force, now)
      ensures decision.AskResolver? <==> force || (!configured && now - old(attemptedAt) >= 30.0)
      ensures decision.Answer? ==> decision.configured == configured
      ensures attemptedAt == if decision.AskResolver? then now else old(attemptedAt)
      ensures configured == old(configured) && url == old(url) && auth == old(auth)
    {
      if configured && !force {
        return Answer(true);
      }
      if !force && now - attemptedAt < COOLDOWN {
        return Answer(configured);
      }
      attemptedAt := now;
      return AskResolver;
    }

    /** `_resolve` from the resolver's answer on. */
    method EndResolve(found: Option<Found>) returns (ok: bool)
      modifies this
      ensures State() == Adopted(old(State()), found) && ok == configured && attemptedAt == old(attemptedAt)
      ensures if found.Some? && found.value.url != "" && found.value.credential != "" then
                configured && url == found.value.url && auth == Some(found.value.credential)
              else configured == old(configured) && url == old(url) && auth == old(auth)
    {
      if found.None? || found.value.url == "" || found.value.credential == "" {
        return configured;
      }
      Adopt(found.value.url, found.value.credential);
      return true;
    }

    /** The tenant declaration is not something a resolver can change. */
    method Adopt(newUrl: string, credential: string)
      requires newUrl != "" && credential != ""
      modifies this
      ensures State() == Adopted(old(State()), Some(Found(newUrl, credential)))
      ensures configured && url == newUrl && auth == Some(credential) && attemptedAt == old(attemptedAt)
    {
      url := newUrl;
      auth := Some(credential);
      configured := true;
    }
  }

  // ----- any number of requests -------------------------------------------------------------

  type RequestId = nat

  /** Where a send goes, and with what. */
  datatype Target = Target(url: string, auth: Option<string>)

  /** Why a request is resolving: what it had sent, and what the client held once that had failed.  The
      code compares with `held`, and another request may have changed it since the send. */
  datatype Stage =
    | Cold
    | AfterTransport(held: string, failed: Target)
    | AfterRefusal(heldAuth: Option<string>, refused: Target, status: int)

  datatype Outcome = Unavailable | Misconfigured | Response(status: int)

  datatype Pc =
    | Fresh
    | Wanting(stage: Stage)                  // queued on the resolve lock
    | Asking(stage: Stage)                   // owns it, awaiting the resolver
    | Sending(attempt: nat, to: Target)      // 1: first, 2: after a transport failure, 3: after a 401
    | Done(outcome: Outcome)

  datatype Request = Request(pc: Pc,
                             sends: nat, asks: nat, heard: seq<Reply>)   // history

  /** A send, with what had failed before it. */
  datatype Send = Send(from: RequestId, to: Target, why: Stage)

  /** A failure handed to the caller after resolving again, with what the client then holds. */
  datatype GivenUp = GivenUp(from: RequestId, why: Stage, has: Target)

  datatype Ask = Ask(at: real, forced: bool, configured: bool)

  datatype World = World(client: Client, resolver: bool, clock: real, lock: Option<RequestId>,
                         requests: map<RequestId, Request>,
                         asks: seq<Ask>, sends: seq<Send>, givenUp: seq<GivenUp>)   // history

  datatype Reply = TransportError | Status(code: int, misdelivery: bool)

  datatype Event =
    | Begin(r: RequestId)
    | Enter(r: RequestId, now: real)
    | Resolve(r: RequestId, found: Option<Found>)
    | Receive(r: RequestId, reply: Reply)

  function At(w: World, r: RequestId): Request {
    if r in w.requests then w.requests[r] else Request(Fresh, 0, 0, [])
  }

  function Move(w: World, r: RequestId, pc: Pc): World {
    w.(requests := w.requests[r := At(w, r).(pc := pc)])
  }

  function Held(c: Client): Target {
    Target(c.url, c.auth)
  }

  /** Nothing new was learned: the original failure is the answer. */
  function GiveUp(w: World, r: RequestId, stage: Stage, outcome: Outcome): World {
    Move(w.(givenUp := w.givenUp + [GivenUp(r, stage, Held(w.client))]), r, Done(outcome))
  }

  function DoSend(w: World, r: RequestId, attempt: nat, why: Stage): World {
    var q := At(w, r);
    var to := Held(w.client);
    w.(requests := w.requests[r := Request(Sending(attempt, to), q.sends + 1, q.asks, q.heard)],
       sends := w.sends + [Send(r, to, why)])
  }

  /** Where a request goes on once `_resolve` has returned `ok`. */
  function Resolved(w: World, r: RequestId, stage: Stage, ok: bool): World {
    match stage
    case Cold => if w.client.configured then DoSend(w, r, 1, stage) else Move(w, r, Done(Unavailable))
    case AfterTransport(held, _) =>
      if ok && w.client.url != held then DoSend(w, r, 2, stage) else GiveUp(w, r, stage, Unavailable)
    case AfterRefusal(held, _, status) =>
      if ok && w.client.auth != held then DoSend(w, r, 3, stage) else GiveUp(w, r, stage, Response(status))
  }

  function Forced(stage: Stage): bool {
    !stage.Cold?
  }

  function DoBegin(w: World, r: RequestId): World {
    if !At(w, r).pc.Fresh? then w
    else if w.client.configured then DoSend(w, r, 1, Cold)
    else if !w.resolver then Move(w, r, Done(Unavailable))
    else Move(w, r, Wanting(Cold))
  }

  function DoEnter(w: World, r: RequestId, now: real): World {
    var q := At(w, r);
    if !q.pc.Wanting? || w.lock.Some? || now < w.clock then w
    else
      var force := Forced(q.pc.stage);
      match Decide(w.client, force, now)
      case Answer(ok) => Resolved(w.(clock := now), r, q.pc.stage, ok)
      case AskResolver =>
        w.(client := Attempted(w.client, force, now), clock := now, lock := Some(r),
           asks := w.asks + [Ask(now, force, w.client.configured)],
           requests := w.requests[r := Request(Asking(q.pc.stage), q.sends, q.asks + 1, q.heard)])
  }

  function DoResolve(w: World, r: RequestId, found: Option<Found>): World {
    var q := At(w, r);
    if !q.pc.Asking? || w.lock != Some(r) then w
    else
      var client := Adopted(w.client, found);
      Resolved(w.(client := client, lock := None), r, q.pc.stage, client.configured)
  }

  /** A reply came in, and the request goes on from it. */
  function Hear(w: World, r: RequestId, reply: Reply, pc: Pc): World {
    w.(requests := w.requests[r := At(w, r).(pc := pc, heard := At(w, r).heard + [reply])])
  }

  function DoReceive(w: World, r: RequestId, reply: Reply): World {
    var q := At(w, r);
    if !q.pc.Sending? then w
    else match reply
      case TransportError =>
        if q.pc.attempt != 1 || !w.resolver then Hear(w, r, reply, Done(Unavailable))
        else Hear(w, r, reply, Wanting(AfterTransport(w.client.url, q.pc.to)))
      case Status(code, misdelivery) =>
        if code == 401 && w.resolver && q.pc.attempt != 3 then
          Hear(w, r, reply, Wanting(AfterRefusal(w.client.auth, q.pc.to, code)))
        else if code == 403 && misdelivery then Hear(w, r, reply, Done(Misconfigured))
        else Hear(w, r, reply, Done(Response(code)))
  }

  function Step(w: World, e: Event): World {
    match e
    case Begin(r) => DoBegin(w, r)
    case Enter(r, now) => DoEnter(w, r, now)
    case Resolve(r, found) => DoResolve(w, r, found)
    case Receive(r, reply) => DoReceive(w, r, reply)
  }

  function Run(w: World, es: seq<Event>): World
    decreases |es|
  {
    if es == [] then w else Run(Step(w, es[0]), es[1..])
  }

  /** A console as it starts, at any reading of the clock. */
  function Start(s: Settings, resolver: bool, clock: real): World {
    World(Initial(s), resolver, clock, None, map[], [], [], [])
  }

  // ----- the invariant ----------------------------------------------------------------------

  predicate Usable(to: Target) {
    to.url != "" && to.auth.Some? && to.auth.value != ""
  }

  ghost predicate ClientOk(c: Client) {
    c.configured ==> Usable(Held(c))
  }

  /** How much of its budget a request can have spent at each point. */
  ghost predicate Budget(q: Request) {
    match q.pc
    case Fresh => q.sends == 0 && q.asks == 0
    case Wanting(stage) => q.sends <= Spent(stage) && q.asks <= Spent(stage)
    case Asking(stage) => q.sends <= Spent(stage) && q.asks <= Spent(stage) + 1
    case Sending(n, _) => 1 <= n <= 3 && q.sends <= n && q.asks <= n
    case Done(_) => q.sends <= 3 && q.asks <= 3
  }

  function Spent(stage: Stage): nat {
    match stage
    case Cold => 0
    case AfterTransport(_, _) => 1
    case AfterRefusal(_, _, _) => 2
  }

  /** Calls are in time order; a call is forced exactly if it finds the client configured; and one that
      is not comes a full cooldown after every call before it. */
  ghost predicate AsksOk(asks: seq<Ask>) {
    && (forall i, j :: 0 <= i < j < |asks| ==> asks[i].at <= asks[j].at)
    && (forall j :: 0 <= j < |asks| ==> (asks[j].forced <==> asks[j].configured))
    && (forall i, j :: 0 <= i < j < |asks| && !asks[j].forced ==> asks[j].at - asks[i].at >= COOLDOWN)
  }

  /** A resend goes to another address, or with another credential, than the client held when the
      failure before it was handled. */
  ghost predicate SendOk(s: Send) {
    && (s.why.AfterTransport? ==> s.to.url != s.why.held)
    && (s.why.AfterRefusal? ==> s.to.auth != s.why.heldAuth)
    && Usable(s.to)
  }

  /** A request gives up when the client still holds the address, or the credential, it held when the
      failure came in. */
  ghost predicate GivenUpOk(x: GivenUp) {
    match x.why
    case Cold => false
    case AfterTransport(held, _) => x.has.url == held
    case AfterRefusal(held, _, _) => x.has.auth == held
  }

  predicate HasSent(pc: Pc) {
    match pc
    case Wanting(stage) => !stage.Cold?
    case Asking(stage) => !stage.Cold?
    case Sending(_, _) => true
    case _ => false
  }

  ghost predicate RequestOk(c: Client, q: Request) {
    Budget(q) && (HasSent(q.pc) ==> c.configured) && (q.pc.Sending? ==> Usable(q.pc.to))
  }

  /** Only the lock's owner is waiting for the resolver. */
  ghost predicate SingleFlight(w: World) {
    && (forall r :: r in w.requests ==> (w.requests[r].pc.Asking? <==> w.lock == Some(r)))
    && (w.lock.Some? ==> w.lock.value in w.requests)
  }

  ghost predicate Inv(w: World) {
    && ClientOk(w.client)
    && (forall r :: r in w.requests ==> RequestOk(w.client, w.requests[r]))
    && SingleFlight(w)
    && AsksOk(w.asks)
    && (w.asks != [] ==> Last(w.asks).at == w.client.attemptedAt && Last(w.asks).at <= w.clock)
    && (forall s :: s in w.sends ==> SendOk(s))
    && (forall x :: x in w.givenUp ==> GivenUpOk(x))
  }

  /** At most one send more, and a proper one. */
  ghost predicate SendsGrow(before: seq<Send>, after: seq<Send>) {
    after == before || (after != [] && after[..|after| - 1] == before && SendOk(Last(after)))
  }

  ghost predicate GivenUpGrows(before: seq<GivenUp>, after: seq<GivenUp>) {
    after == before || (after != [] && after[..|after| - 1] == before && GivenUpOk(Last(after)))
  }

  /** Nothing takes a client's configuration away, and nothing changes the tenant it declares. */
  ghost predicate Keeps(c: Client, d: Client) {
    (c.configured ==> d.configured) && d.declared == c.declared
  }

  /** A step that touches one request. */
  lemma StepFrame(w: World, t: World, r: RequestId)
    requires Inv(w) && ClientOk(t.client) && Keeps(w.client, t.client)
    requires t.asks == w.asks && t.client.attemptedAt == w.client.attemptedAt && w.clock <= t.clock
    requires t.requests.Keys == w.requests.Keys + {r} && RequestOk(t.client, t.requests[r])
    requires forall x :: x in w.requests && x != r ==> t.requests[x] == w.requests[x]
    requires !t.requests[r].pc.Asking? && (t.lock == w.lock != Some(r) || (w.lock == Some(r) && t.lock.None?))
    requires SendsGrow(w.sends, t.sends) && GivenUpGrows(w.givenUp, t.givenUp)
    ensures Inv(t)
  {
    forall x | x in t.requests ensures RequestOk(t.client, t.requests[x]) {
      if x != r { assert RequestOk(w.client, w.requests[x]); }
    }
    forall s | s in t.sends ensures SendOk(s) {
      if t.sends != w.sends && s != Last(t.sends) { assert s in w.sends; }
    }
    forall x | x in t.givenUp ensures GivenUpOk(x) {
      if t.givenUp != w.givenUp && x != Last(t.givenUp) { assert x in w.givenUp; }
    }
  }

  lemma BeginKeepsInv(w: World, r: RequestId)
    requires Inv(w)
    ensures Inv(DoBegin(w, r))
  {
    var t := DoBegin(w, r);
    if t != w {
      if r in w.requests { assert RequestOk(w.client, w.requests[r]); }
      StepFrame(w, t, r);
    }
  }

  lemma HearKeepsInv(w: World, r: RequestId, reply: Reply, pc: Pc)
    requires Inv(w) && r in w.requests && !w.requests[r].pc.Asking? && !pc.Asking?
    requires RequestOk(w.client, w.requests[r].(pc := pc))
    ensures Inv(Hear(w, r, reply, pc))
  {
    StepFrame(w, Hear(w, r, reply, pc), r);
  }

  lemma ReceiveKeepsInv(w: World, r: RequestId, reply: Reply)
    requires Inv(w)
    ensures Inv(DoReceive(w, r, reply))
  {
    var t := DoReceive(w, r, reply);
    if t != w {
      assert RequestOk(w.client, w.requests[r]);
      HearKeepsInv(w, r, reply, At(t, r).pc);
    }
  }

  /** What the end of a resolution leaves as it was, and what it makes of the request. */
  ghost predicate OneMoves(w: World, t: World, r: RequestId) {
    && t.client == w.client && t.clock == w.clock && t.asks == w.asks && t.lock == w.lock
    && t.requests.Keys == w.requests.Keys + {r}
    && !t.requests[r].pc.Asking? && RequestOk(t.client, t.requests[r])
    && (forall x :: x in w.requests && x != r ==> t.requests[x] == w.requests[x])
    && SendsGrow(w.sends, t.sends) && GivenUpGrows(w.givenUp, t.givenUp)
  }

  lemma SendMoves(w: World, r: RequestId, attempt: nat, why: Stage)
    requires w.client.configured && ClientOk(w.client) && SendOk(Send(r, Held(w.client), why))
    requires At(w, r).sends < attempt <= 3 && At(w, r).asks <= attempt
    ensures OneMoves(w, DoSend(w, r, attempt, why), r)
  {}

  lemma GiveUpMoves(w: World, r: RequestId, stage: Stage, outcome: Outcome)
    requires At(w, r).sends <= 3 && At(w, r).asks <= 3 && GivenUpOk(GivenUp(r, stage, Held(w.client)))
    ensures OneMoves(w, GiveUp(w, r, stage, outcome), r)
  {}

  lemma ResolvedOk(w: World, r: RequestId, stage: Stage, ok: bool)
    requires ClientOk(w.client) && (!stage.Cold? ==> w.client.configured && ok)
    requires At(w, r).sends <= Spent(stage) && At(w, r).asks <= Spent(stage) + 1
    ensures OneMoves(w, Resolved(w, r, stage, ok), r)
  {
    match stage
    case Cold =>
      if w.client.configured { SendMoves(w, r, 1, stage); }
    case AfterTransport(held, _) =>
      if w.client.url != held { SendMoves(w, r, 2, stage); } else { GiveUpMoves(w, r, stage, Unavailable); }
    case AfterRefusal(held, _, status) =>
      if w.client.auth != held { SendMoves(w, r, 3, stage); } else { GiveUpMoves(w, r, stage, Response(status)); }
  }

  lemma ResolveKeepsInv(w: World, r: RequestId, found: Option<Found>)
    requires Inv(w)
    ensures Inv(DoResolve(w, r, found))
  {
    var q := At(w, r);
    if q.pc.Asking? && w.lock == Some(r) {
      assert RequestOk(w.client, w.requests[r]);
      var client := Adopted(w.client, found);
      ResolvedOk(w.(client := client, lock := None), r, q.pc.stage, client.configured);
      StepFrame(w, DoResolve(w, r, found), r);
    }
  }

  lemma EnterKeepsInv(w: World, r: RequestId, now: real)
    requires Inv(w)
    ensures Inv(DoEnter(w, r, now))
  {
    var q, t := At(w, r), DoEnter(w, r, now);
    if q.pc.Wanting? && w.lock.None? && now >= w.clock {
      assert RequestOk(w.client, w.requests[r]);
      var force := Forced(q.pc.stage);
      if Decide(w.client, force, now).Answer? {
        ResolvedOk(w.(clock := now), r, q.pc.stage, Decide(w.client, force, now).configured);
        StepFrame(w, t, r);
      } else {
        AskAppends(w.asks, Ask(now, force, w.client.configured), w.client.attemptedAt);
        forall x | x in t.requests ensures RequestOk(t.client, t.requests[x]) {
          if x != r { assert RequestOk(w.client, w.requests[x]); }
        }
      }
    }
  }

  lemma {:induction false} AskAppends(asks: seq<Ask>, a: Ask, attemptedAt: real)
    requires AsksOk(asks) && (asks != [] ==> Last(asks).at == attemptedAt <= a.at)
    requires a.forced <==> a.configured
    requires !a.forced ==> a.at - attemptedAt >= COOLDOWN
    ensures AsksOk(asks + [a])
  {
    var longer := asks + [a];
    forall i, j | 0 <= i < j < |longer| ensures longer[i].at <= longer[j].at {
      if j == |asks| { assert asks[i].at <= Last(asks).at; }
    }
    forall i, j | 0 <= i < j < |longer| && !longer[j].forced ensures longer[j].at - longer[i].at >= COOLDOWN {
      if j == |asks| { assert asks[i].at <= Last(asks).at; }
    }
  }

  lemma StepKeepsInv(w: World, e: Event)
    requires Inv(w)
    ensures Inv(Step(w, e))
  {
    match e
    case Begin(r) => BeginKeepsInv(w, r);
    case Enter(r, now) => EnterKeepsInv(w, r, now);
    case Resolve(r, found) => ResolveKeepsInv(w, r, found);
    case Receive(r, reply) => ReceiveKeepsInv(w, r, reply);
  }

  lemma {:induction false} RunKeepsInv(w: World, es: seq<Event>)
    requires Inv(w)
    ensures Inv(Run(w, es))
    decreases |es|
  {
    if es != [] {
      StepKeepsInv(w, es[0]);
      RunKeepsInv(Step(w, es[0]), es[1..]);
    }
  }

  lemma StepKeepsClient(w: World, e: Event)
    ensures Keeps(w.client, Step(w, e).client)
  {}

  // ----- what is promised ---------------------------------------------------------------------

  /** From any point of any run on, a configured client stays configured, and the declared tenant is
      the one it was built with. */
  lemma {:induction false} ConfigurationIsMonotone(w: World, es: seq<Event>)
    ensures Keeps(w.client, Run(w, es).client)
    decreases |es|
  {
    if es != [] {
      StepKeepsClient(w, es[0]);
      ConfigurationIsMonotone(Step(w, es[0]), es[1..]);
    }
  }

  lemma StartOk(s: Settings, resolver: bool, clock: real)
    ensures Inv(Start(s, resolver, clock))
  {}

  /** In every run, whatever the resolver and the catalog answer: a configured client has an address
      and a credential; no request makes more than three sends or three resolver calls; a resend
      differs from what the client held when the failure was handled; at most one resolver call is in
      flight; it is forced exactly if it finds the client configured; and one that was not forced comes
      thirty seconds or more after any before it. */
  lemma {:induction false} CatalogRunIsBounded(s: Settings, resolver: bool, clock: real, es: seq<Event>)
    ensures var w := Run(Start(s, resolver, clock), es);
            && ClientOk(w.client) && w.client.declared == Initial(s).declared
            && (forall r :: r in w.requests ==> w.requests[r].sends <= 3 && w.requests[r].asks <= 3)
            && (forall x :: x in w.sends ==> SendOk(x))
            && (forall x :: x in w.givenUp ==> GivenUpOk(x))
            && AsksOk(w.asks) && SingleFlight(w)
  {
    var start := Start(s, resolver, clock);
    StartOk(s, resolver, clock);
    RunKeepsInv(start, es);
    ConfigurationIsMonotone(start, es);
    var w := Run(start, es);
    forall r | r in w.requests ensures w.requests[r].sends <= 3 && w.requests[r].asks <= 3 {
      assert RequestOk(w.client, w.requests[r]);
    }
  }

  function UnforcedWithin(asks: seq<Ask>, a: real, b: real): nat {
    if asks == [] then 0
    else (if !asks[0].forced && a <= asks[0].at <= b then 1 else 0) + UnforcedWithin(asks[1..], a, b)
  }

  lemma {:induction false} UnforcedWithinCounts(asks: seq<Ask>, a: real, b: real, k: nat)
    requires k <= |asks|
    ensures UnforcedWithin(asks[k..], a, b)
            == |set i: nat | k <= i < |asks| && !asks[i].forced && a <= asks[i].at <= b|
    decreases |asks| - k
  {
    var later := set i: nat | k + 1 <= i < |asks| && !asks[i].forced && a <= asks[i].at <= b;
    var all := set i: nat | k <= i < |asks| && !asks[i].forced && a <= asks[i].at <= b;
    if k < |asks| {
      UnforcedWithinCounts(asks, a, b, k + 1);
      assert asks[k..][0] == asks[k] && asks[k..][1..] == asks[k + 1..];
      assert all == (if !asks[k].forced && a <= asks[k].at <= b then {k} else {}) + later;
    }
  }

  /** Hence at most 1 + floor(L / 30) unforced calls in any closed interval of length L. */
  lemma {:induction false} UnforcedCallsAreRare(s: Settings, resolver: bool, clock: real, es: seq<Event>, a: real,
                                                length: real)
    requires length >= 0.0
    ensures var asks := Run(Start(s, resolver, clock), es).asks;
            |set i: nat | i < |asks| && !asks[i].forced && a <= asks[i].at <= a + length| <= 1 + (length / 30.0).Floor
  {
    CatalogRunIsBounded(s, resolver, clock, es);
    var asks := Run(Start(s, resolver, clock), es).asks;
    SpacedCalls(asks, a, length);
    UnforcedWithinCounts(asks, a, a + length, 0);
    assert asks[0..] == asks;
    assert (set i: nat | 0 <= i < |asks| && !asks[i].forced && a <= asks[i].at <= a + length)
        == (set i: nat | i < |asks| && !asks[i].forced && a <= asks[i].at <= a + length);
  }

  lemma {:induction false} SpacedCalls(asks: seq<Ask>, a: real, length: real)
    requires AsksOk(asks) && length >= 0.0
    ensures UnforcedWithin(asks, a, a + length) <= 1 + (length / COOLDOWN).Floor
  {
    if asks != [] {
      var first, rest := asks[0], asks[1..];
      AsksTail(asks);
      if first.forced || first.at < a || first.at > a + length {
        SpacedCalls(rest, a, length);
      } else {
        LaterCalls(asks, a, a + length);
        var left := a + length - (first.at + COOLDOWN);
        if left >= 0.0 {
          SpacedCalls(rest, first.at + COOLDOWN, left);
          assert (left / COOLDOWN) + 1.0 <= length / COOLDOWN;
        } else {
          NoCalls(rest, first.at + COOLDOWN, a + length);
        }
      }
    }
  }

  lemma {:induction false} AsksTail(asks: seq<Ask>)
    requires AsksOk(asks) && asks != []
    ensures AsksOk(asks[1..])
  {
    var rest := asks[1..];
    assert forall i :: 0 <= i < |rest| ==> rest[i] == asks[i + 1];
  }

  /** After a first call, unforced calls are counted from the end of its cooldown. */
  lemma {:induction false} LaterCalls(asks: seq<Ask>, a: real, b: real)
    requires AsksOk(asks) && asks != []
    ensures UnforcedWithin(asks[1..], a, b) <= UnforcedWithin(asks[1..], asks[0].at + COOLDOWN, b)
  {
    forall j | 0 <= j < |asks[1..]| && !asks[1..][j].forced ensures asks[1..][j].at >= asks[0].at + COOLDOWN {
      assert asks[j + 1].at - asks[0].at >= COOLDOWN;
    }
    CountFrom(asks[1..], a, asks[0].at + COOLDOWN, b);
  }

  lemma {:induction false} CountFrom(asks: seq<Ask>, a: real, from: real, b: real)
    requires forall j :: 0 <= j < |asks| && !asks[j].forced ==> asks[j].at >= from
    ensures UnforcedWithin(asks, a, b) <= UnforcedWithin(asks, from, b)
  {
    if asks != [] {
      assert forall j :: 0 <= j < |asks[1..]| ==> asks[1..][j] == asks[j + 1];
      CountFrom(asks[1..], a, from, b);
    }
  }

  lemma NoCalls(asks: seq<Ask>, a: real, b: real)
    requires b < a
    ensures UnforcedWithin(asks, a, b) == 0
  {}

  // ----- what a resend can miss -----------------------------------------------------------------

  /** From the handling of `stage` on, request `r` resolves for that failure or a later one only. */
  ghost predicate PastPc(pc: Pc, stage: Stage) {
    match pc
    case Fresh => false
    case Wanting(s) => s == stage || Spent(s) > Spent(stage)
    case Asking(s) => s == stage || Spent(s) > Spent(stage)
    case Sending(attempt, _) => Spent(stage) < attempt <= 3
    case Done(_) => true
  }

  ghost predicate Belongs(from: RequestId, why: Stage, r: RequestId, stage: Stage) {
    from == r && Spent(why) == Spent(stage) ==> why == stage
  }

  ghost predicate SendsBelong(sends: seq<Send>, n: nat, r: RequestId, stage: Stage) {
    forall k :: n <= k < |sends| ==> Belongs(sends[k].from, sends[k].why, r, stage)
  }

  ghost predicate GivenUpBelong(givenUp: seq<GivenUp>, m: nat, r: RequestId, stage: Stage) {
    forall k :: m <= k < |givenUp| ==> Belongs(givenUp[k].from, givenUp[k].why, r, stage)
  }

  /** ... and logs nothing of its kind but for that failure. */
  ghost predicate Past(w: World, r: RequestId, stage: Stage, n: nat, m: nat) {
    PastPc(At(w, r).pc, stage) && SendsBelong(w.sends, n, r, stage) && GivenUpBelong(w.givenUp, m, r, stage)
  }

  /** What a step adds to the logs, and whose it is. */
  ghost predicate Logs(w: World, t: World, r: RequestId, why: Stage) {
    && (t.sends == w.sends || (|t.sends| == |w.sends| + 1 && t.sends == w.sends + [Send(r, Last(t.sends).to, why)]))
    && (t.givenUp == w.givenUp
        || (|t.givenUp| == |w.givenUp| + 1 && t.givenUp == w.givenUp + [GivenUp(r, why, Last(t.givenUp).has)]))
  }

  predicate Resolving(pc: Pc) {
    pc.Wanting? || pc.Asking?
  }

  lemma StepLogs(w: World, e: Event)
    ensures var q := At(w, e.r);
            Logs(w, Step(w, e), e.r, if Resolving(q.pc) then q.pc.stage else Cold)
    ensures forall x :: x != e.r ==> At(Step(w, e), x) == At(w, x)
  {}

  lemma StepKeepsPastPc(w: World, e: Event, stage: Stage)
    requires PastPc(At(w, e.r).pc, stage) && !stage.Cold?
    ensures PastPc(At(Step(w, e), e.r).pc, stage)
  {}

  lemma LogsKeepPast(w: World, t: World, x: RequestId, why: Stage, r: RequestId, stage: Stage, n: nat, m: nat)
    requires Logs(w, t, x, why) && Belongs(x, why, r, stage)
    requires SendsBelong(w.sends, n, r, stage) && GivenUpBelong(w.givenUp, m, r, stage)
    ensures SendsBelong(t.sends, n, r, stage) && GivenUpBelong(t.givenUp, m, r, stage)
  {}

  lemma {:induction false} StepKeepsPast(w: World, e: Event, r: RequestId, stage: Stage, n: nat, m: nat)
    requires Past(w, r, stage, n, m) && !stage.Cold?
    ensures Past(Step(w, e), r, stage, n, m)
  {
    var q := At(w, e.r);
    StepLogs(w, e);
    LogsKeepPast(w, Step(w, e), e.r, if Resolving(q.pc) then q.pc.stage else Cold, r, stage, n, m);
    if e.r == r { StepKeepsPastPc(w, e, stage); }
  }

  lemma {:induction false} RunKeepsPast(w: World, es: seq<Event>, r: RequestId, stage: Stage, n: nat, m: nat)
    requires Past(w, r, stage, n, m) && !stage.Cold?
    ensures Past(Run(w, es), r, stage, n, m)
    decreases |es|
  {
    if es != [] {
      StepKeepsPast(w, es[0], r, stage, n, m);
      RunKeepsPast(Step(w, es[0]), es[1..], r, stage, n, m);
    }
  }

  lemma {:induction false} RunAppend(w: World, es: seq<Event>, e: Event)
    ensures Run(w, es + [e]) == Step(Run(w, es), e)
    decreases |es|
  {
    if es == [] {
      assert es + [e] == [e];
      assert Run(w, [e]) == Step(w, e);
    } else {
      assert (es + [e])[0] == es[0] && (es + [e])[1..] == es[1..] + [e];
      RunAppend(Step(w, es[0]), es[1..], e);
    }
  }

  /** A waiting request's turn comes: whoever holds the lock learns nothing and lets go. */
  lemma {:induction false} LockComesFree(w: World, r: RequestId) returns (es: seq<Event>)
    requires Inv(w) && At(w, r).pc.Wanting?
    ensures var t := Run(w, es);
            && Inv(t) && t.lock.None? && t.client == w.client && t.clock == w.clock && At(t, r) == At(w, r)
            && |t.sends| >= |w.sends| && |t.givenUp| >= |w.givenUp|
  {
    es := [];
    if w.lock.Some? {
      var h := w.lock.value;
      assert w.requests[h].pc.Asking?;
      es := [Resolve(h, None)];
      assert Run(w, es) == DoResolve(w, h, None);
      ResolveKeepsInv(w, h, None);
      LettingGo(w, h);
    }
  }

  lemma LettingGo(w: World, h: RequestId)
    requires At(w, h).pc.Asking? && w.lock == Some(h)
    ensures var t := DoResolve(w, h, None);
            && t.lock.None? && t.client == w.client && t.clock == w.clock
            && |t.sends| >= |w.sends| && |t.givenUp| >= |w.givenUp|
            && forall x :: x != h ==> At(t, x) == At(w, x)
  {}

  /** ... and it asks the resolver, which answers `found`. */
  lemma {:induction false} AskedAndAnswered(w: World, r: RequestId, found: Option<Found>)
    returns (es: seq<Event>, t: World)
    requires Inv(w) && At(w, r).pc.Wanting? && !At(w, r).pc.stage.Cold?
    ensures t.client.configured && t.client == Adopted(t.client, found)
    ensures t.client.(attemptedAt := 0.0) == Adopted(w.client, found).(attemptedAt := 0.0)
    ensures |t.sends| >= |w.sends| && |t.givenUp| >= |w.givenUp|
    ensures Run(w, es) == Resolved(t, r, At(w, r).pc.stage, true)
  {
    var fs := LockComesFree(w, r);
    var u := Run(w, fs);
    assert RequestOk(u.client, u.requests[r]);
    RunAppend(w, fs, Enter(r, u.clock));
    var v := DoEnter(u, r, u.clock);
    RunAppend(w, fs + [Enter(r, u.clock)], Resolve(r, found));
    es := fs + [Enter(r, u.clock)] + [Resolve(r, found)];
    t := v.(client := Adopted(v.client, found), lock := None);
  }

  /** The reply is a failure for which the request resolves again: in transport on its first send, or
      a 401 on its first or second. */
  predicate Resolves(w: World, r: RequestId, reply: Reply) {
    At(w, r).pc.Sending? && At(DoReceive(w, r, reply), r).pc.Wanting?
  }

  /** What the code compares has changed since the send: the address, after a failure in transport; the
      credential, after a 401. */
  predicate Changed(held: Target, sent: Target, stage: Stage) {
    if stage.AfterTransport? then held.url != sent.url else held.auth != sent.auth
  }

  predicate SameKind(a: Stage, b: Stage) {
    Spent(a) == Spent(b)
  }

  /** The request sends the very same again. */
  ghost predicate Repeats(w: World, r: RequestId, to: Target, stage: Stage, n: nat) {
    exists k :: n <= k < |w.sends| && w.sends[k].from == r && SameKind(w.sends[k].why, stage) && w.sends[k].to == to
  }

  /** The request gives up although the client holds what the request never tried. */
  ghost predicate LeavesUntried(w: World, r: RequestId, to: Target, stage: Stage, m: nat) {
    exists k :: m <= k < |w.givenUp| && w.givenUp[k].from == r && SameKind(w.givenUp[k].why, stage)
                && Changed(w.givenUp[k].has, to, stage)
  }

  /** At any point of any run: the resend that follows a failure can repeat the failed send, the refused
      credential or the unreachable address included, exactly if another request has changed the
      client's since the send; for the code compares with what is held when the failure comes in. */
  lemma {:induction false} RepeatIsPossibleIff(s: Settings, clock: real, before: seq<Event>, r: RequestId, reply: Reply)
    requires Resolves(Run(Start(s, true, clock), before), r, reply)
    ensures var w := Run(Start(s, true, clock), before);
            var to, failed := At(w, r).pc.to, DoReceive(w, r, reply);
            var stage := At(failed, r).pc.stage;
            (exists es :: Repeats(Run(failed, es), r, to, stage, |w.sends|)) <==> Changed(Held(w.client), to, stage)
  {
    RunsAreOk(s, clock, before);
    RepeatIff(Run(Start(s, true, clock), before), r, reply);
  }

  lemma RepeatIff(w: World, r: RequestId, reply: Reply)
    requires Inv(w) && Resolves(w, r, reply)
    ensures var to, failed := At(w, r).pc.to, DoReceive(w, r, reply);
            var stage := At(failed, r).pc.stage;
            (exists es :: Repeats(Run(failed, es), r, to, stage, |w.sends|)) <==> Changed(Held(w.client), to, stage)
  {
    var to, failed := At(w, r).pc.to, DoReceive(w, r, reply);
    var stage := At(failed, r).pc.stage;
    ReceiveKeepsInv(w, r, reply);
    if Changed(Held(w.client), to, stage) {
      assert RequestOk(w.client, w.requests[r]);
      var es, t := AskedAndAnswered(failed, r, Some(Found(to.url, to.auth.value)));
      var u := Run(failed, es);
      assert u.sends == t.sends + [Send(r, to, stage)];
      assert u.sends[|t.sends|].to == to;
    } else {
      forall es ensures !Repeats(Run(failed, es), r, to, stage, |w.sends|) {
        var u := Run(failed, es);
        RunKeepsInv(failed, es);
        RunKeepsPast(failed, es, r, stage, |w.sends|, |w.givenUp|);
        forall k | |w.sends| <= k < |u.sends| && u.sends[k].from == r && SameKind(u.sends[k].why, stage)
          ensures u.sends[k].to != to
        {
          assert Belongs(u.sends[k].from, u.sends[k].why, r, stage);
          assert SendOk(u.sends[k]);
        }
      }
    }
  }

  /** And the request can give up while the client holds an address, or a credential, it never sent,
      under the same condition. */
  lemma {:induction false} UntriedIsPossibleIff(s: Settings, clock: real, before: seq<Event>, r: RequestId,
                                                reply: Reply)
    requires Resolves(Run(Start(s, true, clock), before), r, reply)
    ensures var w := Run(Start(s, true, clock), before);
            var to, failed := At(w, r).pc.to, DoReceive(w, r, reply);
            var stage := At(failed, r).pc.stage;
            (exists es :: LeavesUntried(Run(failed, es), r, to, stage, |w.givenUp|))
            <==> Changed(Held(w.client), to, stage)
  {
    RunsAreOk(s, clock, before);
    UntriedIff(Run(Start(s, true, clock), before), r, reply);
  }

  lemma UntriedIff(w: World, r: RequestId, reply: Reply)
    requires Inv(w) && Resolves(w, r, reply)
    ensures var to, failed := At(w, r).pc.to, DoReceive(w, r, reply);
            var stage := At(failed, r).pc.stage;
            (exists es :: LeavesUntried(Run(failed, es), r, to, stage, |w.givenUp|))
            <==> Changed(Held(w.client), to, stage)
  {
    var to, failed := At(w, r).pc.to, DoReceive(w, r, reply);
    var stage := At(failed, r).pc.stage;
    ReceiveKeepsInv(w, r, reply);
    if Changed(Held(w.client), to, stage) {
      var es, t := AskedAndAnswered(failed, r, None);
      var u := Run(failed, es);
      assert u.givenUp == t.givenUp + [GivenUp(r, stage, Held(t.client))];
      assert u.givenUp[|t.givenUp|].from == r;
    } else {
      forall es ensures !LeavesUntried(Run(failed, es), r, to, stage, |w.givenUp|) {
        var u := Run(failed, es);
        RunKeepsInv(failed, es);
        RunKeepsPast(failed, es, r, stage, |w.sends|, |w.givenUp|);
        forall k | |w.givenUp| <= k < |u.givenUp| && u.givenUp[k].from == r && SameKind(u.givenUp[k].why, stage)
          ensures !Changed(u.givenUp[k].has, to, stage)
        {
          assert Belongs(u.givenUp[k].from, u.givenUp[k].why, r, stage);
          assert GivenUpOk(u.givenUp[k]);
        }
      }
    }
  }

  lemma {:induction false} RunsAreOk(s: Settings, clock: real, es: seq<Event>)
    ensures Inv(Run(Start(s, true, clock), es))
  {
    StartOk(s, true, clock);
    RunKeepsInv(Start(s, true, clock), es);
  }

  /** A configured client's resolver is consulted as soon as a send fails. */
  lemma ResolverIsAskedWhileConfigured(s: Settings, clock: real)
    requires s.url != "" && s.token != ""
    ensures Run(Start(s, true, clock), [Begin(0), Receive(0, TransportError), Enter(0, clock)]).asks
            == [Ask(clock, true, true)]
  {
    var w := Start(s, true, clock);
    RunAppend(w, [Begin(0)], Receive(0, TransportError));
    RunAppend(w, [Begin(0), Receive(0, TransportError)], Enter(0, clock));
    assert Run(w, [Begin(0)]) == DoBegin(w, 0);
  }

  // ----- what the caller is told --------------------------------------------------------------------

  /** The refusal that means the credential belongs to another deployment. */
  predicate Misdelivered(reply: Reply) {
    reply.Status? && reply.code == 403 && reply.misdelivery
  }

  /** The answer is told by the last reply: misconfigured for a misdelivery and for nothing else, any
      other response as it came, and unavailable if nothing was sent or the last send got no response. */
  ghost predicate Tells(outcome: Outcome, heard: seq<Reply>) {
    match outcome
    case Misconfigured => heard != [] && Misdelivered(Last(heard))
    case Response(code) =>
      heard != [] && Last(heard).Status? && Last(heard).code == code && !Misdelivered(Last(heard))
    case Unavailable => heard == [] || Last(heard).TransportError?
  }

  /** The request has resolved again for a 401: it was sent again after it, or given up. */
  ghost predicate TriedAgain(w: World, r: RequestId) {
    || (exists k :: 0 <= k < |w.sends| && w.sends[k].from == r && w.sends[k].why.AfterRefusal?)
    || (exists k :: 0 <= k < |w.givenUp| && w.givenUp[k].from == r && w.givenUp[k].why.AfterRefusal?)
  }

  /** What a request has heard, wherever it stands: one reply for each send, but for the one under way. */
  ghost predicate HeardOk(w: World, r: RequestId) {
    var q := At(w, r);
    match q.pc
    case Fresh => q.heard == [] && q.sends == 0
    case Wanting(stage) => |q.heard| == q.sends && HeardBefore(stage, q.heard)
    case Asking(stage) => |q.heard| == q.sends && HeardBefore(stage, q.heard)
    case Sending(attempt, _) => |q.heard| + 1 == q.sends && (attempt == 3 ==> TriedAgain(w, r))
    case Done(outcome) =>
      && |q.heard| == q.sends && Tells(outcome, q.heard)
      && (outcome == Response(401) && w.resolver ==> TriedAgain(w, r))
  }

  ghost predicate HeardBefore(stage: Stage, heard: seq<Reply>) {
    match stage
    case Cold => heard == []
    case AfterTransport(_, _) => heard != [] && Last(heard).TransportError?
    case AfterRefusal(_, _, status) => heard != [] && Last(heard).Status? && Last(heard).code == status == 401
  }

  ghost predicate AllHeard(w: World) {
    forall r :: HeardOk(w, r)
  }

  lemma TriedAgainStays(w: World, e: Event, r: RequestId)
    requires TriedAgain(w, r)
    ensures TriedAgain(Step(w, e), r)
  {
    StepLogs(w, e);
    var t := Step(w, e);
    if k :| 0 <= k < |w.sends| && w.sends[k].from == r && w.sends[k].why.AfterRefusal? {
      assert t.sends[k] == w.sends[k];
    } else {
      var k :| 0 <= k < |w.givenUp| && w.givenUp[k].from == r && w.givenUp[k].why.AfterRefusal?;
      assert t.givenUp[k] == w.givenUp[k];
    }
  }

  lemma ResolvedHeard(w: World, r: RequestId, stage: Stage, ok: bool)
    requires |At(w, r).heard| == At(w, r).sends && HeardBefore(stage, At(w, r).heard)
    ensures HeardOk(Resolved(w, r, stage, ok), r)
  {
    var t := Resolved(w, r, stage, ok);
    if stage.AfterRefusal? {
      assert t.sends == w.sends || t.sends[|w.sends|] == Send(r, Held(w.client), stage);
      assert t.givenUp == w.givenUp || t.givenUp[|w.givenUp|] == GivenUp(r, stage, Held(w.client));
    }
  }

  lemma StepKeepsOwnHeard(w: World, e: Event)
    requires HeardOk(w, e.r)
    ensures HeardOk(Step(w, e), e.r)
  {
    var q := At(w, e.r);
    match e
    case Begin(r) =>
    case Enter(r, now) =>
      if q.pc.Wanting? && w.lock.None? && now >= w.clock {
        match Decide(w.client, Forced(q.pc.stage), now)
        case Answer(ok) => ResolvedHeard(w.(clock := now), r, q.pc.stage, ok);
        case AskResolver =>
      }
    case Resolve(r, found) =>
      if q.pc.Asking? && w.lock == Some(r) {
        var client := Adopted(w.client, found);
        ResolvedHeard(w.(client := client, lock := None), r, q.pc.stage, client.configured);
      }
    case Receive(r, reply) =>
      assert q.pc.Sending? && q.pc.attempt == 3 ==> TriedAgain(Step(w, e), r) by {
        if q.pc.Sending? && q.pc.attempt == 3 { TriedAgainStays(w, e, r); }
      }
  }

  lemma StepKeepsHeard(w: World, e: Event)
    requires AllHeard(w)
    ensures AllHeard(Step(w, e))
  {
    StepLogs(w, e);
    ResolverStays(w, e);
    forall r ensures HeardOk(Step(w, e), r) {
      assert HeardOk(w, r);
      if r == e.r {
        StepKeepsOwnHeard(w, e);
      } else if TriedAgain(w, r) {
        TriedAgainStays(w, e, r);
      }
    }
  }

  lemma ResolverStays(w: World, e: Event)
    ensures Step(w, e).resolver == w.resolver
  {}

  lemma {:induction false} RunKeepsHeard(w: World, es: seq<Event>)
    requires AllHeard(w)
    ensures AllHeard(Run(w, es))
    decreases |es|
  {
    if es != [] {
      StepKeepsHeard(w, es[0]);
      RunKeepsHeard(Step(w, es[0]), es[1..]);
    }
  }

  /** In every run, what a finished request tells its caller is told by the last reply it got, for each
      of the three answers if and only if; and with a resolver a 401 is passed on only by a request that
      has resolved again for one. */
  lemma {:induction false} AnswerIsTheLastReply(s: Settings, resolver: bool, clock: real, es: seq<Event>, r: RequestId)
    requires At(Run(Start(s, resolver, clock), es), r).pc.Done?
    ensures var w := Run(Start(s, resolver, clock), es);
            var outcome, heard := At(w, r).pc.outcome, At(w, r).heard;
            && |heard| == At(w, r).sends
            && (outcome.Misconfigured? <==> heard != [] && Misdelivered(Last(heard)))
            && (forall code :: outcome == Response(code) <==>
                  heard != [] && Last(heard).Status? && Last(heard).code == code && !Misdelivered(Last(heard)))
            && (outcome.Unavailable? <==> heard == [] || Last(heard).TransportError?)
            && (outcome == Response(401) && w.resolver ==> TriedAgain(w, r))
  {
    RunKeepsHeard(Start(s, resolver, clock), es);
    assert HeardOk(Run(Start(s, resolver, clock), es), r);
  }

  // ----- what each event does -----------------------------------------------------------------------

  /** One more send, to the address and with the credential the client holds. */
  predicate SendsNow(w: World, t: World, r: RequestId) {
    t.sends != [] && t.sends[..|t.sends| - 1] == w.sends
    && Last(t.sends).from == r && Last(t.sends).to == Target(t.client.url, t.client.auth)
  }

  /** A new request goes out at once if the client is configured; if not, it is told so, unless there is
      a resolver to wait for. */
  lemma BeginDoes(w: World, r: RequestId)
    requires At(w, r).pc.Fresh?
    ensures var t := Step(w, Begin(r));
            && t.client == w.client && t.asks == w.asks
            && if w.client.configured then SendsNow(w, t, r) && At(t, r).pc.Sending?
               else t.sends == w.sends && At(t, r).pc == if w.resolver then Wanting(Cold) else Done(Unavailable)
  {}

  /** With the lock, a cold request finds the client configured and goes out, or is inside the cooldown
      and is told so, or asks the resolver; a request with a failed send always asks. */
  lemma EnterDoes(w: World, r: RequestId, now: real)
    requires At(w, r).pc.Wanting? && w.lock.None? && now >= w.clock
    ensures Step(w, Enter(r, now)).clock == now
    ensures var t := Step(w, Enter(r, now));
            var cold := At(w, r).pc.stage.Cold?;
            if cold && w.client.configured then t.client == w.client && t.asks == w.asks && SendsNow(w, t, r)
            else if cold && now - w.client.attemptedAt < 30.0 then
              t.client == w.client && t.asks == w.asks && t.sends == w.sends && At(t, r).pc == Done(Unavailable)
            else
              && t.client == w.client.(attemptedAt := now) && t.lock == Some(r) && t.sends == w.sends
              && t.asks == w.asks + [Ask(now, !cold, w.client.configured)]
              && At(t, r).pc == Asking(At(w, r).pc.stage)
  {}

  /** A failure in transport on the first send, or a 401 on the first or second, is taken to the resolver
      if there is one, remembering what was sent and what is held; any other reply is the last. */
  lemma ReceiveDoes(w: World, r: RequestId, reply: Reply)
    requires At(w, r).pc.Sending?
    ensures var t, to, n, held := Step(w, Receive(r, reply)), At(w, r).pc.to, At(w, r).pc.attempt, w.client;
            && t.client == w.client && t.sends == w.sends && t.asks == w.asks && t.lock == w.lock
            && At(t, r).heard == At(w, r).heard + [reply]
            && (reply.TransportError? && w.resolver && n == 1 ==> At(t, r).pc == Wanting(AfterTransport(held.url, to)))
            && (reply.Status? && reply.code == 401 && w.resolver && n != 3 ==>
                  At(t, r).pc == Wanting(AfterRefusal(held.auth, to, 401)))
            && (At(t, r).pc.Done?
                || (w.resolver && if reply.TransportError? then n == 1 else reply.code == 401 && n != 3))
  {}

  /** A useful answer is adopted, address and credential; any other leaves the client as it was.  Then the
      request goes out if the client is now configured, or holds another address, or another credential,
      than when its send failed; and gives up if not. */
  lemma ResolveDoes(w: World, r: RequestId, found: Option<Found>)
    requires At(w, r).pc.Asking? && w.lock == Some(r) && (!At(w, r).pc.stage.Cold? ==> w.client.configured)
    ensures var t := Step(w, Resolve(r, found));
            var useful := found.Some? && found.value.url != "" && found.value.credential != "";
            && t.lock.None? && t.asks == w.asks
            && t.client == (if useful then w.client.(url := found.value.url, auth := Some(found.value.credential),
                                                     configured := true)
                            else w.client)
            && var again := match At(w, r).pc.stage
                 case Cold => t.client.configured
                 case AfterTransport(held, _) => t.client.url != held
                 case AfterRefusal(held, _, _) => t.client.auth != held;
               if again then SendsNow(w, t, r) && At(t, r).pc.Sending?
               else t.sends == w.sends && At(t, r).pc.Done?
  {}
}
