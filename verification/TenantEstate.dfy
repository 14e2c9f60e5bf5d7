/** Which tenants a provider serves: configuration underneath, the catalog's last listing on top. */
module TenantEstate {
  import opened Common

  type Tenant = string

  datatype Entry = Entry(tenantId: Tenant, displayName: string, gatewayUrl: string, tokenFile: string,
                         fromCatalog: bool)

  type Estate = map<Tenant, Entry>

  /** A catalog entry wins over configuration, except that a placeholder name, the id itself, does
      not outrank a configured name. */
  function Named(configured: Estate, id: Tenant, e: Entry): Entry {
    if id in configured && e.displayName == id && configured[id].displayName != "" && configured[id].displayName != id
    then e.(displayName := configured[id].displayName)
    else e
  }

  function Merged(configured: Estate, enrolled: Estate): Estate {
    map id | id in configured.Keys + enrolled.Keys ::
      if id in enrolled then Named(configured, id, enrolled[id]) else configured[id]
  }

  /** One row of the catalog's listing; a missing field reads as "". */
  datatype Row = Row(tenantId: string, displayName: string, gatewayUrl: string)

  function EntryOf(row: Row): Entry {
    Entry(row.tenantId, if row.displayName != "" then row.displayName else row.tenantId, row.gatewayUrl, "", true)
  }

  /** Rows without an id are skipped; a later row for the same id replaces an earlier one. */
  function Listing(rows: seq<Row>): Estate {
    if rows == [] then map[]
    else
      var before := Listing(rows[..|rows| - 1]);
      if Last(rows).tenantId == "" then before else before[Last(rows).tenantId := EntryOf(Last(rows))]
  }

  datatype Reply =
    | NotConfigured          // this console has no catalog
    | Unavailable
    | Status(code: int)      // anything but 200
    | Unreadable             // 200 without a listing in it
    | Rows(rows: seq<Row>)

  predicate Failure(reply: Reply) {
    reply.Unavailable? || reply.Status? || reply.Unreadable?
  }

  /** What the last successful listing said. */
  function LastListing(replies: seq<Reply>): Estate {
    if replies == [] then map[]
    else match Last(replies)
      case Rows(rows) => Listing(rows)
      case _ => LastListing(replies[..|replies| - 1])
  }

  // ----- the directory ---------------------------------------------------------------------

  class TenantDirectory {
    const configured: Estate
    var enrolled: Estate
    var lastRefreshFailed: bool
    ghost var replies: seq<Reply>   // every answer so far

    /** The estate is a function of the configuration and of what the catalog has answered. */
    ghost predicate Valid()
      reads this
    {
      && enrolled == LastListing(replies)
      && (lastRefreshFailed <==> replies != [] && Failure(Last(replies)))
    }

    constructor (configured: Estate)
      ensures Valid() && this.configured == configured && replies == []
    {
      this.configured := configured;
      enrolled := map[];
      lastRefreshFailed := false;
      replies := [];
    }

    /** The estate, tenant by tenant. */
    method Entries() returns (merged: Estate)
      requires Valid()
      ensures merged == Merged(configured, LastListing(replies))
      ensures forall id :: TenantShown(configured, replies, id, merged)
    {
      merged := Overlay();
      forall id ensures TenantShown(configured, replies, id, merged) { EstateAfter(configured, replies, id); }
    }

    method Overlay() returns (merged: Estate)
      ensures merged == Merged(configured, enrolled)
    {
      merged := configured;
      var todo := enrolled.Keys;
      while todo != {}
        invariant todo <= enrolled.Keys
        invariant forall id :: id in merged <==> id in configured || (id in enrolled && id !in todo)
        invariant forall id :: id in enrolled && id !in todo ==> merged[id] == Named(configured, id, enrolled[id])
        invariant forall id :: id in configured && (id !in enrolled || id in todo) ==> merged[id] == configured[id]
        decreases |todo|
      {
        var id :| id in todo;
        merged := merged[id := Named(configured, id, enrolled[id])];
        todo := todo - {id};
      }
    }

    /** A failed refresh leaves the last known estate standing and says so. */
    method Refresh(reply: Reply) returns (ok: bool)
      requires Valid()
      modifies this
      ensures Valid() && replies == old(replies) + [reply]
      ensures ok == !Failure(reply) && lastRefreshFailed == !ok
      ensures ok <==> reply.Rows? || reply.NotConfigured?
      ensures !reply.Rows? ==> enrolled == old(enrolled)
    {
      replies := replies + [reply];
      match reply {
        case NotConfigured =>
          lastRefreshFailed := false;
          return true;
        case Rows(rows) =>
          var listing := ReadListing(rows);
          enrolled := listing;
          lastRefreshFailed := false;
          return true;
        case _ =>
          lastRefreshFailed := true;
          return false;
      }
    }
  }

  method ReadListing(rows: seq<Row>) returns (listing: Estate)
    ensures listing == Listing(rows)
  {
    listing := map[];
    for k := 0 to |rows|
      invariant listing == Listing(rows[..k])
    {
      assert rows[..k + 1][..k] == rows[..k];
      if rows[k].tenantId != "" {
        listing := listing[rows[k].tenantId := EntryOf(rows[k])];
      }
    }
    assert rows[..|rows|] == rows;
  }

  /** `k` is the last row for this id. */
  ghost predicate LastRowFor(rows: seq<Row>, id: Tenant, k: nat) {
    k < |rows| && rows[k].tenantId == id && forall j :: k < j < |rows| ==> rows[j].tenantId != id
  }

  /** A listing has exactly the tenants with a row, each as its last row says. */
  lemma {:induction false} ListingIsTheLastRow(rows: seq<Row>, id: Tenant)
    ensures id in Listing(rows) <==> id != "" && exists k: nat :: LastRowFor(rows, id, k)
    ensures forall k: nat :: id != "" && LastRowFor(rows, id, k) ==> Listing(rows)[id] == EntryOf(rows[k])
  {
    if rows != [] {
      var before := rows[..|rows| - 1];
      ListingIsTheLastRow(before, id);
      if Last(rows).tenantId == id {
        assert LastRowFor(rows, id, |rows| - 1);
        forall k: nat | LastRowFor(rows, id, k) ensures k == |rows| - 1 {}
      } else {
        forall k: nat ensures LastRowFor(rows, id, k) <==> LastRowFor(before, id, k) {}
      }
    }
  }

  /** `k` is the last reply that was a listing. */
  ghost predicate LastListed(replies: seq<Reply>, k: nat) {
    k < |replies| && replies[k].Rows? && forall j :: k < j < |replies| ==> !replies[j].Rows?
  }

  /** Row `r` of reply `k` is what the catalog last said of this tenant. */
  ghost predicate LastSaid(replies: seq<Reply>, id: Tenant, k: nat, r: nat) {
    LastListed(replies, k) && id != "" && LastRowFor(replies[k].rows, id, r)
  }

  /** The name shown: the row's unless it is blank or the id, then the configured one, then the id. */
  function ShownName(configured: Estate, id: Tenant, row: Row): string {
    if row.displayName != "" && row.displayName != id then row.displayName
    else if id in configured && configured[id].displayName != "" then configured[id].displayName
    else id
  }

  /** A tenant with a row in the last successful listing is shown as its last row there says, its
      name apart; any other tenant is shown as it is configured, or not at all. */
  ghost predicate TenantShown(configured: Estate, replies: seq<Reply>, id: Tenant, estate: Estate) {
    && (forall k: nat, r: nat :: LastSaid(replies, id, k, r) ==>
          var row := replies[k].rows[r];
          id in estate && estate[id] == Entry(id, ShownName(configured, id, row), row.gatewayUrl, "", true))
    && ((forall k: nat, r: nat :: !LastSaid(replies, id, k, r)) ==>
          (id in estate <==> id in configured) && (id in configured ==> estate[id] == configured[id]))
  }

  /** What an operator sees of a tenant after any sequence of refreshes, however many of them fail. */
  lemma {:induction false} EstateAfter(configured: Estate, replies: seq<Reply>, id: Tenant)
    ensures TenantShown(configured, replies, id, Merged(configured, LastListing(replies)))
  {
    if k: nat :| LastListed(replies, k) {
      LastListingIsThe(replies, k);
      forall j: nat | LastListed(replies, j) ensures j == k {}
      ListingIsTheLastRow(replies[k].rows, id);
      if id in Listing(replies[k].rows) {
        var r: nat :| LastRowFor(replies[k].rows, id, r);
        assert LastSaid(replies, id, k, r);
      }
    } else {
      NothingListed(replies);
    }
  }

  lemma {:induction false} LastListingIsThe(replies: seq<Reply>, k: nat)
    requires LastListed(replies, k)
    ensures LastListing(replies) == Listing(replies[k].rows)
  {
    assert replies == replies[..k + 1] + replies[k + 1..];
    FailuresChangeNothing(replies[..k + 1], replies[k + 1..]);
  }

  lemma {:induction false} NothingListed(replies: seq<Reply>)
    requires forall k: nat :: !LastListed(replies, k)
    ensures LastListing(replies) == map[]
  {
    if exists f :: f in replies && f.Rows? {
      var k := LastRows(replies);
      assert false;
    }
    assert [] + replies == replies;
    FailuresChangeNothing([], replies);
  }

  lemma {:induction false} LastRows(replies: seq<Reply>) returns (k: nat)
    requires exists f :: f in replies && f.Rows?
    ensures LastListed(replies, k)
  {
    if Last(replies).Rows? {
      k := |replies| - 1;
    } else {
      k := LastRows(replies[..|replies| - 1]);
    }
  }

  /** Failures change nothing, however many. */
  lemma {:induction false} FailuresChangeNothing(replies: seq<Reply>, failures: seq<Reply>)
    requires forall f :: f in failures ==> !f.Rows?
    ensures LastListing(replies + failures) == LastListing(replies)
  {
    if failures == [] {
      assert replies + failures == replies;
    } else {
      var fewer := failures[..|failures| - 1];
      assert (replies + failures)[..|replies + failures| - 1] == replies + fewer;
      assert Last(replies + failures) == Last(failures) && Last(failures) in failures;
      FailuresChangeNothing(replies, fewer);
    }
  }
}
