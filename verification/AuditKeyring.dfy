/** Per-tenant content keys.  A record's content is sealed before the chain commits to it, so
    forgetting a tenant's key makes its content unreadable without touching a byte of the log. */
module AuditKeyring {
  import opened Common
  import opened AuditChain

  type Key = string

  const ENC_FERNET := "fernet"
  const ENC_NONE := "none"

  /** Authenticated encryption of a payload's JSON text; `nonce` stands for its randomness. */
  datatype Vault = Vault(encrypt: (Key, string, nat) -> string, decrypt: (Key, string) -> Option<string>) {
    ghost predicate Sound() {
      forall key, text, nonce :: decrypt(key, encrypt(key, text, nonce)) == Some(text)
    }
  }

  function Seal(vault: Vault, keys: map<string, Key>, tenant: string, payload: string, nonce: nat): (string, Content) {
    if tenant in keys then (ENC_FERNET, Sealed(vault.encrypt(keys[tenant], payload, nonce)))
    else (ENC_NONE, Clear(payload))
  }

  function Open(vault: Vault, keys: map<string, Key>, tenant: string, enc: string, content: Content): Option<string> {
    if enc == ENC_NONE then (if content.Clear? then Some(content.payload) else None)
    else if tenant !in keys || !content.Sealed? then None
    else vault.decrypt(keys[tenant], content.blob)
  }

  /** What was sealed opens again under the same keyring, with or without a key; once the key is
      shredded it never does, and without a key there was nothing to shred. */
  lemma SealOpens(vault: Vault, keys: map<string, Key>, tenant: string, payload: string, nonce: nat)
    requires vault.Sound()
    ensures var (enc, content) := Seal(vault, keys, tenant, payload, nonce);
            && Open(vault, keys, tenant, enc, content) == Some(payload)
            && Open(vault, keys - {tenant}, tenant, enc, content) == if tenant in keys then None else Some(payload)
  {}

  class TenantKeyring {
    var keys: map<string, Key>

    constructor ()
      ensures keys == map[]
    {
      keys := map[];
    }

    method Add(tenant: string, key: Key)
      modifies this
      ensures keys == old(keys)[tenant := key]
    {
      keys := keys[tenant := key];
    }

    method Shred(tenant: string) returns (present: bool)
      modifies this
      ensures keys == old(keys) - {tenant} && present == (tenant in old(keys))
    {
      present := tenant in keys;
      keys := keys - {tenant};
    }
  }

  // ----- reading ------------------------------------------------------------------------

  datatype Row = Row(number: Option<Seq>, ts: string, tenant: Option<string>, instance: Option<string>,
                     content: Option<string>)

  function RowOf(vault: Vault, keys: map<string, Key>, tenant: string, r: Record): Row {
    var enc := if r.body.enc.Some? then r.body.enc.value else ENC_NONE;
    Row(r.number, r.body.ts, r.body.tenant, r.body.instance, Open(vault, keys, tenant, enc, r.body.content))
  }

  /** A tenant's records, newest first. */
  function Newest(recs: seq<Record>, tenant: string): seq<Record> {
    if recs == [] then []
    else (if Last(recs).body.tenant == Some(tenant) then [Last(recs)] else []) + Newest(recs[..|recs| - 1], tenant)
  }

  function Rows(vault: Vault, keys: map<string, Key>, tenant: string, recs: seq<Record>): (rows: seq<Row>)
    ensures |rows| == |recs|
    ensures forall i :: 0 <= i < |recs| ==> rows[i] == RowOf(vault, keys, tenant, recs[i])
  {
    if recs == [] then [] else [RowOf(vault, keys, tenant, recs[0])] + Rows(vault, keys, tenant, recs[1..])
  }

  /** The limit is checked after appending, so any limit below 1 reads as 1. */
  function AtLeastOne(limit: int): nat {
    if limit < 1 then 1 else limit
  }

  function FirstOf<T>(s: seq<T>, n: nat): seq<T> {
    if |s| <= n then s else s[..n]
  }

  function ReadSpec(vault: Vault, keys: map<string, Key>, recs: seq<Record>, tenant: string, limit: int): seq<Row> {
    Rows(vault, keys, tenant, FirstOf(Newest(recs, tenant), AtLeastOne(limit)))
  }

  /** How many of the records are the tenant's. */
  function Count(recs: seq<Record>, tenant: string): nat {
    if recs == [] then 0
    else Count(recs[..|recs| - 1], tenant) + (if Last(recs).body.tenant == Some(tenant) then 1 else 0)
  }

  /** Position `p` holds the tenant's record with `i` of its records after it. */
  ghost predicate FromEnd(recs: seq<Record>, tenant: string, i: nat, p: nat) {
    p < |recs| && recs[p].body.tenant == Some(tenant) && Count(recs[p + 1..], tenant) == i
  }

  /** The row shows the record: its number, time, tenant and writer; content that was never encrypted as
      it stands, and encrypted content as far as the tenant's key opens it. */
  ghost predicate Shows(vault: Vault, keys: map<string, Key>, tenant: string, r: Record, row: Row) {
    && row.number == r.number && row.ts == r.body.ts && row.tenant == r.body.tenant && row.instance == r.body.instance
    && row.content ==
       match r.body.content
       case Clear(payload) => if r.body.enc.None? || r.body.enc == Some(ENC_NONE) then Some(payload) else None
       case Sealed(blob) =>
         if r.body.enc.Some? && r.body.enc != Some(ENC_NONE) && tenant in keys then vault.decrypt(keys[tenant], blob)
         else None
       case Other => None
  }

  /** Row `i` shows the tenant's `i`-th record from the end, and there are as many rows as the limit and
      the tenant's records allow. */
  ghost predicate ReadsBack(vault: Vault, keys: map<string, Key>, recs: seq<Record>, tenant: string, limit: int,
                            rows: seq<Row>)
  {
    && |rows| == (if Count(recs, tenant) <= AtLeastOne(limit) then Count(recs, tenant) else AtLeastOne(limit))
    && forall i, p: nat :: 0 <= i < |rows| && FromEnd(recs, tenant, i, p) ==>
         Shows(vault, keys, tenant, recs[p], rows[i])
  }

  lemma {:induction false} NewestByPosition(recs: seq<Record>, tenant: string, i: nat, p: nat)
    requires FromEnd(recs, tenant, i, p)
    ensures i < |Newest(recs, tenant)| && Newest(recs, tenant)[i] == recs[p]
  {
    var before, last := recs[..|recs| - 1], Last(recs);
    if p == |recs| - 1 {
      assert recs[p + 1..] == [];
    } else {
      assert recs[p + 1..][..|recs| - p - 2] == before[p + 1..] && Last(recs[p + 1..]) == last;
      NewestByPosition(before, tenant, if last.body.tenant == Some(tenant) then i - 1 else i, p);
    }
  }

  lemma {:induction false} NewestCount(recs: seq<Record>, tenant: string)
    ensures |Newest(recs, tenant)| == Count(recs, tenant)
  {
    if recs != [] { NewestCount(recs[..|recs| - 1], tenant); }
  }

  lemma {:induction false} SpecReadsBack(vault: Vault, keys: map<string, Key>, recs: seq<Record>, tenant: string,
                                         limit: int)
    ensures ReadsBack(vault, keys, recs, tenant, limit, ReadSpec(vault, keys, recs, tenant, limit))
  {
    var rows := ReadSpec(vault, keys, recs, tenant, limit);
    NewestCount(recs, tenant);
    forall i, p: nat | 0 <= i < |rows| && FromEnd(recs, tenant, i, p)
      ensures Shows(vault, keys, tenant, recs[p], rows[i])
    {
      NewestByPosition(recs, tenant, i, p);
    }
  }

  method Read(vault: Vault, keyring: TenantKeyring, file: seq<Line>, wanted: string, limit: int) returns (out: seq<Row>)
    ensures out == ReadSpec(vault, keyring.keys, Records(file), wanted, limit)
    ensures ReadsBack(vault, keyring.keys, Records(file), wanted, limit, out)
  {
    SpecReadsBack(vault, keyring.keys, Records(file), wanted, limit);
    var recs := Records(file);
    ghost var all := Newest(recs, wanted);
    ghost var taken: seq<Record> := [];
    ghost var rest := recs;
    out := [];
    var k := |recs|;
    while k > 0
      invariant 0 <= k <= |recs| && rest == recs[..k]
      invariant all == taken + Newest(rest, wanted)
      invariant out == Rows(vault, keyring.keys, wanted, taken)
      invariant taken != [] ==> |taken| < limit
      decreases k
    {
      k := k - 1;
      var rec := recs[k];
      NewestStep(all, taken, rest, wanted);
      rest := rest[..k];
      if rec.body.tenant != Some(wanted) {
        continue;
      }
      RowsAppend(vault, keyring.keys, wanted, taken, rec);
      taken := taken + [rec];
      out := out + [RowOf(vault, keyring.keys, wanted, rec)];
      if |out| >= limit {
        FirstOfPrefix(all, taken, Newest(rest, wanted), AtLeastOne(limit));
        return;
      }
    }
    FirstOfPrefix(all, taken, [], AtLeastOne(limit));
  }

  lemma NewestStep(all: seq<Record>, taken: seq<Record>, recs: seq<Record>, tenant: string)
    requires recs != [] && all == taken + Newest(recs, tenant)
    ensures all == (if Last(recs).body.tenant == Some(tenant) then taken + [Last(recs)] else taken)
                   + Newest(recs[..|recs| - 1], tenant)
  {}

  lemma FirstOfPrefix<T>(all: seq<T>, taken: seq<T>, rest: seq<T>, n: nat)
    requires all == taken + rest && (|taken| == n || (rest == [] && |taken| <= n))
    ensures FirstOf(all, n) == taken
  {}

  lemma {:induction false} RowsAppend(vault: Vault, keys: map<string, Key>, tenant: string, recs: seq<Record>,
                                      r: Record)
    ensures Rows(vault, keys, tenant, recs + [r]) == Rows(vault, keys, tenant, recs) + [RowOf(vault, keys, tenant, r)]
  {
    if recs == [] {
      assert recs + [r] == [r];
    } else {
      assert (recs + [r])[0] == recs[0] && (recs + [r])[1..] == recs[1..] + [r];
      RowsAppend(vault, keys, tenant, recs[1..], r);
    }
  }

  /** A tenant reads its own records, all of them, and nobody else's. */
  lemma {:induction false} NewestAreTheTenants(recs: seq<Record>, tenant: string, r: Record)
    ensures r in Newest(recs, tenant) <==> r in recs && r.body.tenant == Some(tenant)
  {
    if recs != [] {
      NewestAreTheTenants(recs[..|recs| - 1], tenant, r);
      assert recs == recs[..|recs| - 1] + [Last(recs)];
    }
  }

  /** After a shred the tenant's rows are still there, in number and order, with every field but the
      content; content can be read exactly when it was never sealed.  Every other tenant reads as
      before. */
  lemma ShredHidesOnlySealedContent(vault: Vault, keys: map<string, Key>, recs: seq<Record>, shredded: string,
                                    tenant: string, limit: int)
    ensures var was := ReadSpec(vault, keys, recs, tenant, limit);
            var now := ReadSpec(vault, keys - {shredded}, recs, tenant, limit);
            && (tenant != shredded ==> now == was)
            && (tenant == shredded ==>
                  && |now| == |was|
                  && forall i :: 0 <= i < |was| ==>
                       && now[i].(content := None) == was[i].(content := None)
                       && var r := FirstOf(Newest(recs, tenant), AtLeastOne(limit))[i].body;
                          now[i].content == if (r.enc.None? || r.enc == Some(ENC_NONE)) && r.content.Clear?
                                            then Some(r.content.payload) else None)
  {}
}
