/** The pool of gateway clients: one per tenant, built on first use and kept until invalidated.  A
    lookup reads the directory, and may then wait for the catalog to hand over the tenant's
    credential; a refresh, an invalidation or another lookup can come in between. */
module GatewayPool {
  import opened Common
  import opened TenantEstate

  // ----- the pool as a value -------------------------------------------------------------------

  /** What the console starts with, and whether it has a catalog to ask for credentials. */
  datatype Console = Console(configured: Estate, hasCatalog: bool)

  /** A cached client.  `lookup` numbers the lookup that made it. */
  datatype Made = Made(url: string, token: string, lookup: nat)

  /** A lookup waiting for a credential, with the entry it read before. */
  datatype Pending = Pending(tenantId: Tenant, entry: Entry)

  datatype Pool = Pool(replies: seq<Reply>, clients: map<Tenant, Made>, waiting: map<nat, Pending>, lookups: nat)

  const EMPTY := Pool([], map[], map[], 0)

  datatype Event =
    | Refreshed(reply: Reply)
    | Looked(id: Tenant, fileToken: string)
    | Fetched(lookup: nat, credential: Option<string>)   // None: the catalog could not be asked
    | Invalidated(id: Tenant)

  function EstateOf(c: Console, replies: seq<Reply>): Estate {
    Merged(c.configured, LastListing(replies))
  }

  /** `get` up to its await: only a tenant of the catalog's without a client has anything to wait for. */
  function DoLook(c: Console, p: Pool, id: Tenant, fileToken: string): Pool {
    var estate := EstateOf(c, p.replies);
    if id !in estate || id in p.clients then p
    else if !estate[id].fromCatalog then
      var token := if estate[id].tokenFile == "" then "" else fileToken;
      p.(clients := p.clients[id := Made(estate[id].gatewayUrl, token, p.lookups)], lookups := p.lookups + 1)
    else if !c.hasCatalog then p
    else p.(waiting := p.waiting[p.lookups := Pending(id, estate[id])], lookups := p.lookups + 1)
  }

  /** The rest of `get`: the client goes in without another look at the directory or the pool. */
  function DoFetch(p: Pool, lookup: nat, credential: Option<string>): Pool {
    if lookup !in p.waiting then p
    else
      var q := p.waiting[lookup];
      var made := if credential.None? then p.clients
                  else p.clients[q.tenantId := Made(q.entry.gatewayUrl, credential.value, lookup)];
      p.(waiting := p.waiting - {lookup}, clients := made)
  }

  function Step(c: Console, p: Pool, e: Event): Pool {
    match e
    case Refreshed(reply) => p.(replies := p.replies + [reply])
    case Looked(id, fileToken) => DoLook(c, p, id, fileToken)
    case Fetched(lookup, credential) => DoFetch(p, lookup, credential)
    case Invalidated(id) => p.(clients := p.clients - {id})
  }

  function Run(c: Console, p: Pool, es: seq<Event>): Pool
    decreases |es|
  {
    if es == [] then p else Run(c, Step(c, p, es[0]), es[1..])
  }

  // ----- the pool as an object -----------------------------------------------------------------

  class GatewayClient {
    const url: string
    const token: string
    ghost const lookup: nat

    constructor (url: string, token: string, ghost lookup: nat)
      ensures this.url == url && this.token == token && this.lookup == lookup
    {
      this.url, this.token, this.lookup := url, token, lookup;
    }
  }

  datatype Lookup = UnknownTenant | TenantUnreachable | Client(client: GatewayClient)

  /** Where `get` stands at its await, if it has one. */
  datatype Started = Answered(lookup: Lookup) | Fetching(entry: Entry)

  class TenantGatewayPool {
    const directory: TenantDirectory
    const hasCatalog: bool
    var clients: map<Tenant, GatewayClient>
    ghost var waiting: map<nat, Pending>   // lookups suspended at the credential fetch
    ghost var lookups: nat

    ghost function Setup(): Console
      reads this
    {
      Console(directory.configured, hasCatalog)
    }

    ghost function State(): Pool
      reads this, directory
    {
      Pool(directory.replies, map t | t in clients :: Made(clients[t].url, clients[t].token, clients[t].lookup),
           waiting, lookups)
    }

    /** No client is shared between tenants. */
    ghost predicate Valid()
      reads this, directory
    {
      && directory.Valid()
      && forall t, u :: t in clients && u in clients && t != u ==> clients[t] != clients[u]
    }

    constructor (directory: TenantDirectory, hasCatalog: bool)
      requires directory.Valid()
      ensures Valid() && this.directory == directory && this.hasCatalog == hasCatalog
      ensures State() == EMPTY.(replies := directory.replies)
    {
      this.directory, this.hasCatalog, clients := directory, hasCatalog, map[];
      waiting, lookups := map[], 0;
    }

    /** A new client, filed under its tenant. */
    method Keep(tenantId: Tenant, url: string, token: string, ghost lookup: nat) returns (client: GatewayClient)
      requires Valid()
      modifies this`clients
      ensures Valid() && fresh(client) && client.url == url && client.token == token
      ensures clients == old(clients)[tenantId := client]
      ensures State() == old(State()).(clients := old(State()).clients[tenantId := Made(url, token, lookup)])
    {
      client := new GatewayClient(url, token, lookup);
      clients := clients[tenantId := client];
    }

    /** `get` up to the credential fetch. */
    method BeginGet(tenantId: Tenant, fileToken: string) returns (r: Started)
      requires Valid()
      modifies this
      ensures Valid() && State() == Step(Setup(), old(State()), Looked(tenantId, fileToken))
      ensures tenantId !in EstateOf(Setup(), directory.replies) <==> r == Answered(UnknownTenant)
      ensures tenantId in EstateOf(Setup(), directory.replies) ==>
                var entry := EstateOf(Setup(), directory.replies)[tenantId];
                match r
                case Fetching(e) =>
                  && e == entry && entry.fromCatalog && hasCatalog
                  && tenantId !in old(clients) && clients == old(clients)
                  && waiting == old(waiting)[old(lookups) := Pending(tenantId, entry)]
                case Answered(Client(client)) =>
                  && clients == old(clients)[tenantId := client]
                  && (tenantId in old(clients) ==> client == old(clients)[tenantId])
                  && (tenantId !in old(clients) ==>
                        && fresh(client) && !entry.fromCatalog && client.url == entry.gatewayUrl
                        && client.token == if entry.tokenFile == "" then "" else fileToken)
                case Answered(_) =>
                  tenantId !in old(clients) && entry.fromCatalog && !hasCatalog && clients == old(clients)
      ensures r == Answered(UnknownTenant) ==> clients == old(clients)
      ensures r.Answered? ==> waiting == old(waiting)
    {
      var estate := directory.Entries();
      if tenantId !in estate {
        return Answered(UnknownTenant);
      }
      var entry := estate[tenantId];
      if tenantId in clients {
        return Answered(Client(clients[tenantId]));
      }
      if !entry.fromCatalog {
        var client := Keep(tenantId, entry.gatewayUrl, if entry.tokenFile == "" then "" else fileToken, lookups);
        lookups := lookups + 1;
        return Answered(Client(client));
      }
      if !hasCatalog {
        return Answered(TenantUnreachable);
      }
      waiting := waiting[lookups := Pending(tenantId, entry)];
      lookups := lookups + 1;
      return Fetching(entry);
    }

    /** `get` from the catalog's answer on. */
    method EndGet(ghost lookup: nat, tenantId: Tenant, entry: Entry, credential: Option<string>) returns (r: Lookup)
      requires Valid() && lookup in waiting && waiting[lookup] == Pending(tenantId, entry)
      modifies this
      ensures Valid() && State() == Step(Setup(), old(State()), Fetched(lookup, credential))
      ensures if credential.None? then r.TenantUnreachable? && clients == old(clients)
              else
                && r.Client? && fresh(r.client) && clients == old(clients)[tenantId := r.client]
                && r.client.url == entry.gatewayUrl && r.client.token == credential.value
      ensures waiting == old(waiting) - {lookup}
    {
      waiting := waiting - {lookup};
      if credential.None? {
        return TenantUnreachable;
      }
      var client := Keep(tenantId, entry.gatewayUrl, credential.value, lookup);
      return Client(client);
    }

    /** The whole of `get` when nothing comes in between. */
    method Get(tenantId: Tenant, fileToken: string, credential: Option<string>) returns (r: Lookup)
      requires Valid()
      modifies this
      ensures Valid()
      ensures var estate := EstateOf(Setup(), directory.replies);
              && (r.UnknownTenant? <==> tenantId !in estate)
              && (r.TenantUnreachable? <==>
                    && tenantId in estate && tenantId !in old(clients)
                    && estate[tenantId].fromCatalog && (!hasCatalog || credential.None?))
              && clients == (if r.Client? then old(clients)[tenantId := r.client] else old(clients))
              && (r.Client? && tenantId in old(clients) ==> r.client == old(clients)[tenantId])
              && (r.Client? && tenantId !in old(clients) ==>
                    && fresh(r.client) && r.client.url == estate[tenantId].gatewayUrl
                    && r.client.token == if estate[tenantId].fromCatalog then credential.value
                                         else if estate[tenantId].tokenFile == "" then "" else fileToken)
    {
      ghost var lookup := lookups;
      var started := BeginGet(tenantId, fileToken);
      match started {
        case Answered(lookup) => r := lookup;
        case Fetching(entry) => r := EndGet(lookup, tenantId, entry, credential);
      }
    }

    method Invalidate(tenantId: Tenant)
      requires Valid()
      modifies this
      ensures Valid() && State() == Step(Setup(), old(State()), Invalidated(tenantId))
      ensures clients == old(clients) - {tenantId}
    {
      clients := clients - {tenantId};
    }
  }

  // ----- is a pooled client current? -----------------------------------------------------------

  /** The address a tenant was last listed at. */
  function LastKnown(c: Console, replies: seq<Reply>, id: Tenant): Option<string> {
    if id in EstateOf(c, replies) then Some(EstateOf(c, replies)[id].gatewayUrl)
    else if replies == [] then None
    else LastKnown(c, replies[..|replies| - 1], id)
  }

  /** A cached client reaches its tenant where the tenant was last listed. */
  ghost predicate Current(c: Console, p: Pool, id: Tenant) {
    id in p.clients ==> LastKnown(c, p.replies, id) == Some(p.clients[id].url)
  }

  /** The refresh moves the tenant: it is listed before and after, at another address. */
  predicate Moves(c: Console, replies: seq<Reply>, reply: Reply, id: Tenant) {
    var before, after := EstateOf(c, replies), EstateOf(c, replies + [reply]);
    id in before && id in after && before[id].gatewayUrl != after[id].gatewayUrl
  }

  /** The refresh lists a tenant that had gone, at another address than it had. */
  predicate RelistsElsewhere(c: Console, replies: seq<Reply>, reply: Reply, id: Tenant) {
    var before, after := EstateOf(c, replies), EstateOf(c, replies + [reply]);
    id !in before && id in after && LastKnown(c, replies, id) != Some(after[id].gatewayUrl)
  }

  /** The credential arrives for an entry whose address is no longer the one last listed. */
  predicate ArrivesLate(c: Console, p: Pool, lookup: nat, id: Tenant) {
    lookup in p.waiting && p.waiting[lookup].tenantId == id
    && LastKnown(c, p.replies, id) != Some(p.waiting[lookup].entry.gatewayUrl)
  }

  /** What makes a client go stale, told from the listings and from what lookups read of them. */
  predicate Strays(c: Console, p: Pool, e: Event, id: Tenant) {
    match e
    case Refreshed(reply) =>
      id in p.clients && (Moves(c, p.replies, reply, id) || RelistsElsewhere(c, p.replies, reply, id))
    case Fetched(lookup, credential) => credential.Some? && ArrivesLate(c, p, lookup, id)
    case _ => false
  }

  ghost predicate AlwaysCurrent(c: Console, p: Pool, es: seq<Event>, id: Tenant)
    decreases |es|
  {
    Current(c, p, id) && (es != [] ==> AlwaysCurrent(c, Step(c, p, es[0]), es[1..], id))
  }

  ghost predicate NeverStrays(c: Console, p: Pool, es: seq<Event>, id: Tenant)
    decreases |es|
  {
    es != [] ==> !Strays(c, p, es[0], id) && NeverStrays(c, Step(c, p, es[0]), es[1..], id)
  }

  lemma RefreshStaysCurrentIff(c: Console, p: Pool, reply: Reply, id: Tenant)
    requires Current(c, p, id)
    ensures Current(c, Step(c, p, Refreshed(reply)), id) <==> !Strays(c, p, Refreshed(reply), id)
  {
    assert (p.replies + [reply])[..|p.replies|] == p.replies;
  }

  lemma StepStaysCurrentIff(c: Console, p: Pool, e: Event, id: Tenant)
    requires Current(c, p, id)
    ensures Current(c, Step(c, p, e), id) <==> !Strays(c, p, e, id)
  {
    if e.Refreshed? { RefreshStaysCurrentIff(c, p, e.reply, id); }
  }

  lemma {:induction false} RunStaysCurrentIff(c: Console, p: Pool, es: seq<Event>, id: Tenant)
    requires Current(c, p, id)
    ensures AlwaysCurrent(c, p, es, id) <==> NeverStrays(c, p, es, id)
    decreases |es|
  {
    if es != [] {
      StepStaysCurrentIff(c, p, es[0], id);
      if !Strays(c, p, es[0], id) { RunStaysCurrentIff(c, Step(c, p, es[0]), es[1..], id); }
    }
  }

  /** Over every run, from the start or from any invalidation on: a tenant's client is always where
      the tenant was last listed exactly if no refresh moves the tenant while it has one, none lists
      it again elsewhere, and no credential arrives for an address the tenant has left. */
  lemma {:induction false} ClientsStayCurrentIff(c: Console, es: seq<Event>, fs: seq<Event>, id: Tenant)
    ensures AlwaysCurrent(c, EMPTY, es, id) <==> NeverStrays(c, EMPTY, es, id)
    ensures var p := Step(c, Run(c, EMPTY, es), Invalidated(id));
            AlwaysCurrent(c, p, fs, id) <==> NeverStrays(c, p, fs, id)
  {
    RunStaysCurrentIff(c, EMPTY, es, id);
    RunStaysCurrentIff(c, Step(c, Run(c, EMPTY, es), Invalidated(id)), fs, id);
  }

  ghost predicate NoneWaiting(p: Pool, id: Tenant) {
    forall n :: n in p.waiting ==> p.waiting[n].tenantId != id
  }

  ghost predicate NotInvalidated(es: seq<Event>, id: Tenant) {
    forall e :: e in es ==> e != Invalidated(id)
  }

  /** Whatever refreshes say, a client once cached stays as it is until its tenant is invalidated: one
      that has gone stale keeps reaching the address its tenant has moved from. */
  lemma {:induction false} MovedTenantKeepsItsClient(c: Console, p: Pool, es: seq<Event>, id: Tenant)
    requires id in p.clients && NoneWaiting(p, id) && NotInvalidated(es, id)
    ensures var q := Run(c, p, es);
            id in q.clients && q.clients[id] == p.clients[id] && NoneWaiting(q, id)
    decreases |es|
  {
    if es != [] {
      assert es[0] in es && forall e :: e in es[1..] ==> e in es;
      MovedTenantKeepsItsClient(c, Step(c, p, es[0]), es[1..], id);
    }
  }

  /** And such a move is an ordinary run: listed, contacted, listed again elsewhere. */
  lemma {:induction false} MovedTenantIsReachedAtItsOldAddress(c: Console, id: Tenant, from: string, to: string,
                                                               token: string)
    requires id != "" && from != to && c.hasCatalog
    ensures exists es :: var p := Run(c, EMPTY, es);
              && id in p.clients && p.clients[id].url == from
              && id in EstateOf(c, p.replies) && EstateOf(c, p.replies)[id].gatewayUrl == to
  {
    var a, b := [Row(id, "", from)], [Row(id, "", to)];
    var es := [Refreshed(Rows(a)), Looked(id, ""), Fetched(0, Some(token)), Refreshed(Rows(b))];
    ListsOne(c, [], id, from);
    ListsOne(c, [Rows(a)], id, to);
    var p1 := Step(c, EMPTY, es[0]);
    var p2 := Step(c, p1, es[1]);
    assert p2.waiting == map[0 := Pending(id, EstateOf(c, [Rows(a)])[id])];
    var p3 := Step(c, p2, es[2]);
    assert p3.clients == map[id := Made(from, token, 0)];
    RunFour(c, EMPTY, es);
  }

  lemma {:induction false} ListsOne(c: Console, replies: seq<Reply>, id: Tenant, url: string)
    requires id != ""
    ensures var estate := EstateOf(c, replies + [Rows([Row(id, "", url)])]);
            id in estate && estate[id].gatewayUrl == url && estate[id].fromCatalog
  {
    var rows := [Row(id, "", url)];
    assert rows[..0] == [];
    assert Listing(rows) == map[id := EntryOf(rows[0])];
  }

  lemma {:induction false} RunFour(c: Console, p: Pool, es: seq<Event>)
    requires |es| == 4
    ensures Run(c, p, es) == Step(c, Step(c, Step(c, Step(c, p, es[0]), es[1]), es[2]), es[3])
  {
    var p1 := Step(c, p, es[0]);
    var p2 := Step(c, p1, es[1]);
    var p3 := Step(c, p2, es[2]);
    assert Run(c, p, es) == Run(c, p1, es[1..]);
    assert Run(c, p1, es[1..]) == Run(c, p2, es[1..][1..]);
    assert Run(c, p2, es[1..][1..]) == Run(c, p3, es[1..][1..][1..]);
  }

  // ----- whose client is it? ------------------------------------------------------------------

  /** The entry under which the estate listed the tenant after some number of replies. */
  ghost predicate OwnEntry(c: Console, replies: seq<Reply>, id: Tenant, url: string) {
    exists k: nat :: k <= |replies| && ListedAt(c, replies[..k], id, url)
  }

  predicate ListedAt(c: Console, replies: seq<Reply>, id: Tenant, url: string) {
    id in EstateOf(c, replies) && EstateOf(c, replies)[id].gatewayUrl == url
  }

  ghost predicate Owned(c: Console, p: Pool) {
    && (forall id :: id in p.clients ==>
          OwnEntry(c, p.replies, id, p.clients[id].url) && p.clients[id].lookup < p.lookups)
    && (forall n :: n in p.waiting ==>
          n < p.lookups && OwnEntry(c, p.replies, p.waiting[n].tenantId, p.waiting[n].entry.gatewayUrl))
  }

  lemma {:induction false} OwnEntryLater(c: Console, replies: seq<Reply>, reply: Reply, id: Tenant, url: string)
    requires OwnEntry(c, replies, id, url)
    ensures OwnEntry(c, replies + [reply], id, url)
  {
    var k: nat :| k <= |replies| && ListedAt(c, replies[..k], id, url);
    assert (replies + [reply])[..k] == replies[..k];
  }

  lemma RefreshKeepsOwned(c: Console, p: Pool, reply: Reply)
    requires Owned(c, p)
    ensures Owned(c, p.(replies := p.replies + [reply]))
  {
    var q := p.(replies := p.replies + [reply]);
    forall id | id in q.clients ensures OwnEntry(c, q.replies, id, q.clients[id].url) {
      OwnEntryLater(c, p.replies, reply, id, p.clients[id].url);
    }
    forall n | n in q.waiting ensures OwnEntry(c, q.replies, q.waiting[n].tenantId, q.waiting[n].entry.gatewayUrl) {
      OwnEntryLater(c, p.replies, reply, p.waiting[n].tenantId, p.waiting[n].entry.gatewayUrl);
    }
  }

  lemma {:induction false} LookKeepsOwned(c: Console, p: Pool, id: Tenant, fileToken: string)
    requires Owned(c, p)
    ensures Owned(c, DoLook(c, p, id, fileToken))
  {
    if id in EstateOf(c, p.replies) {
      assert p.replies[..|p.replies|] == p.replies;
      assert ListedAt(c, p.replies[..|p.replies|], id, EstateOf(c, p.replies)[id].gatewayUrl);
    }
  }

  lemma FetchKeepsOwned(c: Console, p: Pool, lookup: nat, credential: Option<string>)
    requires Owned(c, p)
    ensures Owned(c, DoFetch(p, lookup, credential))
  {}

  lemma StepKeepsOwned(c: Console, p: Pool, e: Event)
    requires Owned(c, p)
    ensures Owned(c, Step(c, p, e))
  {
    match e
    case Refreshed(reply) => RefreshKeepsOwned(c, p, reply);
    case Looked(id, fileToken) => LookKeepsOwned(c, p, id, fileToken);
    case Fetched(lookup, credential) => FetchKeepsOwned(c, p, lookup, credential);
    case Invalidated(_) =>
  }

  /** Over every run, a tenant's client points to an address that tenant itself was listed at, whoever
      else is in the pool and however lookups interleave. */
  lemma {:induction false} ClientsAreTheirTenants(c: Console, es: seq<Event>)
    ensures Owned(c, Run(c, EMPTY, es))
  {
    RunKeepsOwned(c, EMPTY, es);
  }

  lemma {:induction false} RunKeepsOwned(c: Console, p: Pool, es: seq<Event>)
    requires Owned(c, p)
    ensures Owned(c, Run(c, p, es))
    decreases |es|
  {
    if es != [] {
      StepKeepsOwned(c, p, es[0]);
      RunKeepsOwned(c, Step(c, p, es[0]), es[1..]);
    }
  }

  // ----- does an invalidation last? -----------------------------------------------------------

  /** The tenant's client was made by a lookup from before number `bound`. */
  ghost predicate From(p: Pool, id: Tenant, bound: nat) {
    id in p.clients && p.clients[id].lookup < bound
  }

  /** An invalidated tenant gets a client from before the invalidation back, in some continuation,
      exactly if a lookup of that tenant is waiting for its credential at the invalidation. */
  lemma {:induction false} OldClientReturnsIff(c: Console, es: seq<Event>, id: Tenant)
    ensures var p := Run(c, EMPTY, es);
            (exists fs :: NotInvalidated(fs, id) && From(Run(c, Step(c, p, Invalidated(id)), fs), id, p.lookups))
            <==> !NoneWaiting(p, id)
  {
    var p := Run(c, EMPTY, es);
    if NoneWaiting(p, id) {
      forall fs | NotInvalidated(fs, id) ensures !From(Run(c, Step(c, p, Invalidated(id)), fs), id, p.lookups) {
        NothingOldReturns(c, Step(c, p, Invalidated(id)), fs, id, p.lookups);
      }
    } else {
      ClientsAreTheirTenants(c, es);
      var n :| n in p.waiting && p.waiting[n].tenantId == id;
      OldClientReturns(c, p, id, n);
    }
  }

  lemma {:induction false} OldClientReturns(c: Console, p: Pool, id: Tenant, n: nat)
    requires n in p.waiting && p.waiting[n].tenantId == id && n < p.lookups
    ensures exists fs :: NotInvalidated(fs, id) && From(Run(c, Step(c, p, Invalidated(id)), fs), id, p.lookups)
  {
    var q := Step(c, p, Invalidated(id));
    var fs := [Fetched(n, Some(""))];
    assert Run(c, q, fs) == DoFetch(q, n, Some(""));
    assert NotInvalidated(fs, id);
  }

  ghost predicate NewOnly(p: Pool, id: Tenant, bound: nat) {
    && bound <= p.lookups && !From(p, id, bound)
    && forall n :: n in p.waiting && p.waiting[n].tenantId == id ==> n >= bound
  }

  lemma {:induction false} NothingOldReturns(c: Console, p: Pool, es: seq<Event>, id: Tenant, bound: nat)
    requires NewOnly(p, id, bound)
    ensures !From(Run(c, p, es), id, bound)
    decreases |es|
  {
    if es != [] { NothingOldReturns(c, Step(c, p, es[0]), es[1..], id, bound); }
  }
}
