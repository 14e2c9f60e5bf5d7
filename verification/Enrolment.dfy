/** Redeeming a tenant's invitation: four external steps, with compensation, over every outcome of
    every call.  Form fields arrive stripped.  The calls made are kept in a log.

    A call can also fail before it is sent: an address with an unreadable port, a code that does not
    fit in a header.  That is an exception the route does not handle; `sendable` says which calls the
    HTTP library can build. */
module Enrolment {
  import opened Common
  import opened TenantEstate
  import opened GatewayPool

  datatype Form = Form(code: string, gatewayUrl: string, tenantId: Tenant, tag: string, displayName: string)

  datatype Settings = Settings(catalogServiceUrl: string, publicCatalogUrl: string)

  /** Step 1: the catalog's answer to POST /tenants.  `EnrolRefused` is any status but 201, and
      `MintGarbled` a 201 without a credential in it.  What the catalog did is not what it answered:
      `committed` says whether it had minted by the time its answer was lost or refused. */
  datatype EnrolReply =
    | EnrolUnavailable(committed: bool)
    | EnrolRefused(status: int, committed: bool)
    | Minted(credential: string)
    | MintGarbled

  /** Step 2: the tenant's gateway; `RedeemGarbled` is a 201 whose body is not a JSON object. */
  datatype RedeemReply =
    | Unreachable
    | Rejected(status: int)
    | Redeemed(tenantId: string, enrolmentId: string, credential: string)
    | RedeemGarbled

  /** Compensation: the catalog's answer to the DELETE, of any status, and whether it withdrew. */
  datatype WithdrawReply = WithdrawUnavailable(committed: bool) | WithdrawAnswered(status: int, committed: bool)

  /** Step 4: the catalog's answer to the PUT; `RecordRefused` is any status but 200. */
  datatype RecordReply =
    | RecordUnavailable(committed: bool)
    | RecordRefused(status: int, committed: bool)
    | Recorded

  datatype World = World(enrol: EnrolReply, redeem: RedeemReply, withdraw: WithdrawReply, record: RecordReply,
                         listing: Reply)

  datatype Call =
    | PostTenant(tenantId: Tenant, displayName: string, gatewayUrl: string, tag: string)
    | PostRedeem(gatewayUrl: string, code: string, subject: string, catalogUrl: string, credential: string)
    | DeleteTenant(tenantId: Tenant)
    | PutCredential(tenantId: Tenant, credential: string, enrolmentId: string)

  datatype Outcome =
    | MissingFields
    | NoCatalog
    | NoPublicUrl
    | CatalogUnavailable
    | CatalogRefused
    | GatewayUnreachable
    | GatewayRejected(status: int)
    | TenantMismatch
    | NotRecorded
    | Crashed                 // an unparseable reply or an unsendable call: the exception is nobody's
    | Enrolled(tenantId: Tenant, enrolmentId: string)

  function Withdrawals(log: seq<Call>): nat {
    if log == [] then 0 else (if log[0].DeleteTenant? then 1 else 0) + Withdrawals(log[1..])
  }

  lemma {:induction false} WithdrawalsAppend(log: seq<Call>, c: Call)
    ensures Withdrawals(log + [c]) == Withdrawals(log) + (if c.DeleteTenant? then 1 else 0)
  {
    if log == [] {
      assert log + [c] == [c];
    } else {
      assert (log + [c])[0] == log[0] && (log + [c])[1..] == log[1..] + [c];
      WithdrawalsAppend(log[1..], c);
    }
  }

  type Sendable = Call -> bool

  /** A failure the route handles once the catalog has minted a credential and before it records. */
  predicate Compensated(o: Outcome) {
    o.GatewayUnreachable? || o.GatewayRejected? || o.TenantMismatch?
  }

  function Enrol(form: Form): Call {
    PostTenant(form.tenantId, if form.displayName != "" then form.displayName else form.tenantId, form.gatewayUrl,
               if form.tag != "" then form.tag else "enrolment")
  }

  function Redemption(form: Form, settings: Settings, subject: string, credential: string): Call {
    PostRedeem(form.gatewayUrl, form.code, subject, settings.publicCatalogUrl, credential)
  }

  /** The form and the settings are complete, and the first call goes out. */
  predicate Admitted(form: Form, settings: Settings, sendable: Sendable) {
    && form.code != "" && form.gatewayUrl != "" && form.tenantId != ""
    && settings.catalogServiceUrl != "" && settings.publicCatalogUrl != ""
    && sendable(Enrol(form))
  }

  /** What the catalog did, asked to mint, to withdraw, to record. */
  predicate Mints(w: World) {
    match w.enrol
    case EnrolUnavailable(committed) => committed
    case EnrolRefused(_, committed) => committed
    case _ => true
  }

  predicate Records(w: World) {
    w.record.Recorded? || w.record.committed
  }

  /** The gateway says it is the tenant the credential was minted for. */
  predicate Matching(form: Form, w: World) {
    w.redeem.Redeemed? && w.redeem.tenantId == form.tenantId
  }

  /** The gateway's answer is one the route withdraws for. */
  predicate Withdrawing(form: Form, w: World) {
    !w.redeem.RedeemGarbled? && !Matching(form, w)
  }

  /** An exception escapes after the first call: the mint is unreadable; or the redemption cannot be
      sent, or its answer not read; or the withdrawal, or the record, cannot be sent. */
  predicate Escapes(form: Form, settings: Settings, subject: string, w: World, sendable: Sendable) {
    || w.enrol.MintGarbled?
    || (w.enrol.Minted? && !sendable(Redemption(form, settings, subject, w.enrol.credential)))
    || (w.enrol.Minted? && w.redeem.RedeemGarbled?)
    || (w.enrol.Minted? && Withdrawing(form, w) && !sendable(DeleteTenant(form.tenantId)))
    || (w.enrol.Minted? && Matching(form, w)
        && !sendable(PutCredential(form.tenantId, w.redeem.credential, w.redeem.enrolmentId)))
  }

  /** A credential the catalog has minted is stranded: its answer did not get here with one in it; or
      an exception escapes; or the withdrawal does not take; or the record does not. */
  predicate Stranded(form: Form, settings: Settings, subject: string, w: World, sendable: Sendable) {
    && Mints(w)
    && (|| !w.enrol.Minted?
        || Escapes(form, settings, subject, w, sendable)
        || (Withdrawing(form, w) && !w.withdraw.committed)
        || (Matching(form, w) && !Records(w)))
  }

  /** A live credential nobody accounts for: minted, and neither withdrawn nor recorded. */
  predicate LeftBehind(w: World, log: seq<Call>) {
    && (exists k :: 0 <= k < |log| && log[k].PostTenant?) && Mints(w)
    && !((exists k :: 0 <= k < |log| && log[k].DeleteTenant?) && w.withdraw.committed)
    && !((exists k :: 0 <= k < |log| && log[k].PutCredential?) && Records(w))
  }

  /** The call names this tenant; the gateway is told the public catalog address and the credential
      the catalog minted; and the catalog, the credential the gateway issued. */
  ghost predicate CallOk(c: Call, form: Form, settings: Settings, subject: string, w: World) {
    match c
    case PostTenant(t, name, url, tag) =>
      && t == form.tenantId && url == form.gatewayUrl && tag == (if form.tag != "" then form.tag else "enrolment")
      && name == if form.displayName != "" then form.displayName else form.tenantId
    case PostRedeem(url, code, who, catalogUrl, credential) =>
      && url == form.gatewayUrl && code == form.code && who == subject
      && catalogUrl == settings.publicCatalogUrl && w.enrol == Minted(credential)
    case DeleteTenant(t) => t == form.tenantId
    case PutCredential(t, credential, enrolmentId) =>
      t == form.tenantId && w.redeem == Redeemed(t, enrolmentId, credential)
  }

  ghost predicate Consistent(log: seq<Call>, form: Form, settings: Settings, subject: string, w: World) {
    forall c :: c in log ==> CallOk(c, form, settings, subject, w)
  }

  lemma {:induction false} OneMore(log: seq<Call>, c: Call, form: Form, settings: Settings, subject: string, w: World)
    requires Consistent(log, form, settings, subject, w) && CallOk(c, form, settings, subject, w)
    ensures Consistent(log + [c], form, settings, subject, w)
    ensures Withdrawals(log + [c]) == Withdrawals(log) + (if c.DeleteTenant? then 1 else 0)
  {
    WithdrawalsAppend(log, c);
  }

  /** The answer that led to this outcome. */
  predicate Explains(outcome: Outcome, form: Form, w: World) {
    match outcome
    case CatalogUnavailable => w.enrol.EnrolUnavailable?
    case CatalogRefused => w.enrol.EnrolRefused?
    case GatewayUnreachable => w.enrol.Minted? && w.redeem.Unreachable?
    case GatewayRejected(status) => w.enrol.Minted? && w.redeem == Rejected(status)
    case TenantMismatch => w.enrol.Minted? && w.redeem.Redeemed? && w.redeem.tenantId != form.tenantId
    case NotRecorded => w.enrol.Minted? && Matching(form, w) && !w.record.Recorded?
    case Enrolled(id, enrolment) =>
      && w.enrol.Minted? && Matching(form, w) && w.record.Recorded?
      && id == form.tenantId && enrolment == w.redeem.enrolmentId
    case _ => false
  }

  /** What a redemption promises about the calls it made, for every reply of every service. */
  ghost predicate Promised(form: Form, settings: Settings, subject: string, w: World, sendable: Sendable,
                           outcome: Outcome, log: seq<Call>)
  {
    // refused before anything is asked of any service
    && (outcome.MissingFields? <==> form.code == "" || form.gatewayUrl == "" || form.tenantId == "")
    && (log != [] <==> Admitted(form, settings, sendable))
    && Consistent(log, form, settings, subject, w) && (forall c :: c in log ==> sendable(c))
    // success means the gateway said it is this tenant, and its credential is recorded
    && (outcome.Enrolled? <==>
          && Admitted(form, settings, sendable) && w.enrol.Minted? && Matching(form, w)
          && w.record.Recorded? && !Escapes(form, settings, subject, w, sendable))
    && (outcome.Enrolled? || outcome.NotRecorded? ==>
          && w.enrol.Minted? && w.redeem.Redeemed?
          && log == [Enrol(form), Redemption(form, settings, subject, w.enrol.credential),
                     PutCredential(form.tenantId, w.redeem.credential, w.redeem.enrolmentId)])
    // one withdrawal for each handled failure between minting and recording, none otherwise
    && Withdrawals(log) == (if Compensated(outcome) then 1 else 0)
    && (Compensated(outcome) ==>
          && w.enrol.Minted?
          && log == [Enrol(form), Redemption(form, settings, subject, w.enrol.credential), DeleteTenant(form.tenantId)])
    // the outcome says which answer ended it
    && (Admitted(form, settings, sendable) && !Escapes(form, settings, subject, w, sendable) ==>
          Explains(outcome, form, w))
    // exactly when a minted credential is left behind, neither withdrawn nor recorded
    && (LeftBehind(w, log) <==> Admitted(form, settings, sendable) && Stranded(form, settings, subject, w, sendable))
    && (outcome.Crashed? && log != [] <==>
          Admitted(form, settings, sendable) && Escapes(form, settings, subject, w, sendable))
  }

  /** The four steps. */
  method FourSteps(form: Form, settings: Settings, subject: string, w: World, sendable: Sendable)
    returns (outcome: Outcome, log: seq<Call>)
    ensures Promised(form, settings, subject, w, sendable, outcome, log)
  {
    log := [];
    if form.code == "" || form.gatewayUrl == "" || form.tenantId == "" {
      return MissingFields, log;
    }
    if settings.catalogServiceUrl == "" {
      return NoCatalog, log;
    }
    if settings.publicCatalogUrl == "" {
      return NoPublicUrl, log;
    }

    // 1. record the tenant and mint its credential
    if !sendable(Enrol(form)) {
      return Crashed, log;
    }
    log := [Enrol(form)];
    match w.enrol {
      case EnrolUnavailable(_) => return CatalogUnavailable, log;
      case EnrolRefused(_, _) => return CatalogRefused, log;
      case MintGarbled => return Crashed, log;
      case Minted(credential) => outcome, log := AfterMinting(form, settings, subject, w, sendable, credential);
    }
  }

  /** The steps with a minted credential in hand. */
  method AfterMinting(form: Form, settings: Settings, subject: string, w: World, sendable: Sendable, minted: string)
    returns (outcome: Outcome, log: seq<Call>)
    requires Admitted(form, settings, sendable) && w.enrol == Minted(minted)
    ensures Promised(form, settings, subject, w, sendable, outcome, log)
  {
    log := [Enrol(form)];

    // 2. redeem
    var redemption := Redemption(form, settings, subject, minted);
    if !sendable(redemption) {
      return Crashed, log;
    }
    OneMore(log, redemption, form, settings, subject, w);
    log := log + [redemption];
    assert log[0].PostTenant?;
    match w.redeem {
      case Unreachable =>
        outcome, log := Withdraw(form, settings, subject, w, sendable, log, GatewayUnreachable);
      case Rejected(status) =>
        outcome, log := Withdraw(form, settings, subject, w, sendable, log, GatewayRejected(status));
      case RedeemGarbled =>
        return Crashed, log;
      case Redeemed(_, _, _) =>
        outcome, log := AfterRedeeming(form, settings, subject, w, sendable, log);
    }
  }

  /** The steps with the gateway's answer in hand. */
  method AfterRedeeming(form: Form, settings: Settings, subject: string, w: World, sendable: Sendable, made: seq<Call>)
    returns (outcome: Outcome, log: seq<Call>)
    requires Admitted(form, settings, sendable) && w.enrol.Minted? && w.redeem.Redeemed?
    requires made == [Enrol(form), Redemption(form, settings, subject, w.enrol.credential)] && sendable(made[1])
    requires Consistent(made, form, settings, subject, w) && Withdrawals(made) == 0
    ensures Promised(form, settings, subject, w, sendable, outcome, log)
  {
    // 3. verify
    if w.redeem.tenantId != form.tenantId {
      outcome, log := Withdraw(form, settings, subject, w, sendable, made, TenantMismatch);
      assert log[0].PostTenant?;
      return;
    }
    // 4. complete the registry entry; a failure here is deliberately not withdrawn
    var record := PutCredential(form.tenantId, w.redeem.credential, w.redeem.enrolmentId);
    if !sendable(record) {
      return Crashed, made;
    }
    OneMore(made, record, form, settings, subject, w);
    log := made + [record];
    assert log[0].PostTenant? && log[2].PutCredential?;
    if !w.record.Recorded? {
      return NotRecorded, log;
    }
    return Enrolled(w.redeem.tenantId, w.redeem.enrolmentId), log;
  }

  /** Compensates, then reports the failure. */
  method Withdraw(form: Form, settings: Settings, subject: string, w: World, sendable: Sendable, made: seq<Call>,
                  why: Outcome)
    returns (outcome: Outcome, log: seq<Call>)
    requires Consistent(made, form, settings, subject, w)
    ensures if sendable(DeleteTenant(form.tenantId)) then
              outcome == why && log == made + [DeleteTenant(form.tenantId)] && Withdrawals(log) == Withdrawals(made) + 1
            else outcome == Crashed && log == made
    ensures sendable(DeleteTenant(form.tenantId)) ==> log[|made|].DeleteTenant?
    ensures Consistent(log, form, settings, subject, w)
  {
    if !sendable(DeleteTenant(form.tenantId)) {
      return Crashed, made;
    }
    OneMore(made, DeleteTenant(form.tenantId), form, settings, subject, w);
    return why, made + [DeleteTenant(form.tenantId)];
  }

  /** The route: the four steps, and after a success a fresh client and a fresh listing.  A lookup
      that overlaps it is `GatewayPool.OldClientReturnsIff`. */
  method Redeem(form: Form, settings: Settings, subject: string, w: World, sendable: Sendable, pool: TenantGatewayPool)
    returns (outcome: Outcome, log: seq<Call>)
    requires pool.Valid()
    modifies pool, pool.directory
    ensures pool.Valid()
    ensures Promised(form, settings, subject, w, sendable, outcome, log)
    // no client in the pool from before the enrolment is left there, and the estate is read again
    ensures pool.clients == if outcome.Enrolled? then old(pool.clients) - {form.tenantId} else old(pool.clients)
    ensures pool.State() ==
            if !outcome.Enrolled? then old(pool.State())
            else
              var invalidated := Step(pool.Setup(), old(pool.State()), Invalidated(form.tenantId));
              Step(pool.Setup(), invalidated, Refreshed(w.listing))
  {
    outcome, log := FourSteps(form, settings, subject, w, sendable);
    if outcome.Enrolled? {
      pool.Invalidate(form.tenantId);
      var _ := pool.directory.Refresh(w.listing);
    }
  }

  // ----- inputs that leave a credential behind --------------------------------------------------

  /** An address whose port is not a number, once accepted by the catalog, although every service is
      up and answers as it should: the redemption cannot be sent. */
  lemma UnreadablePortLeavesCredential(form: Form, settings: Settings, subject: string, w: World, sendable: Sendable,
                                       outcome: Outcome, log: seq<Call>)
    requires Promised(form, settings, subject, w, sendable, outcome, log) && Admitted(form, settings, sendable)
    requires form.gatewayUrl == "http://gw:abc" && w.enrol.Minted?
    requires forall c :: sendable(c) && c.PostRedeem? ==> c.gatewayUrl != "http://gw:abc"
    ensures LeftBehind(w, log) && outcome.Crashed? && forall c :: c in log ==> !c.PostRedeem?
  {
    assert !sendable(Redemption(form, settings, subject, w.enrol.credential));
  }

  /** A catalog that mints and does not get to answer: nothing is withdrawn. */
  lemma LostMintLeavesCredential(form: Form, settings: Settings, subject: string, w: World, sendable: Sendable,
                                 outcome: Outcome, log: seq<Call>)
    requires Promised(form, settings, subject, w, sendable, outcome, log) && Admitted(form, settings, sendable)
    requires w.enrol == EnrolUnavailable(true)
    ensures LeftBehind(w, log) && Withdrawals(log) == 0 && !outcome.Enrolled?
  {}

  /** A catalog that has gone when the redemption fails: the one withdrawal does not take, and the
      route neither retries it nor says so. */
  lemma LostWithdrawalLeavesCredential(form: Form, settings: Settings, subject: string, w: World, sendable: Sendable,
                                       outcome: Outcome, log: seq<Call>)
    requires Promised(form, settings, subject, w, sendable, outcome, log) && Admitted(form, settings, sendable)
    requires w.enrol.Minted? && w.redeem.Unreachable? && w.withdraw == WithdrawUnavailable(false)
    requires forall c :: sendable(c)
    ensures LeftBehind(w, log) && Withdrawals(log) == 1 && outcome.GatewayUnreachable?
  {}

  /** The outcome does not tell: with the same calls made, and the same answer given, the credential
      of a failed withdrawal is left behind, and that of one whose answer was lost is not. */
  lemma OutcomeDoesNotTell(form: Form, settings: Settings, subject: string, w: World, sendable: Sendable,
                           outcome: Outcome, log: seq<Call>, other: Outcome, otherLog: seq<Call>)
    requires Admitted(form, settings, sendable) && (forall c :: sendable(c))
    requires w.enrol.Minted? && w.redeem.Unreachable? && w.withdraw == WithdrawUnavailable(false)
    requires Promised(form, settings, subject, w, sendable, outcome, log)
    requires Promised(form, settings, subject, w.(withdraw := WithdrawUnavailable(true)), sendable, other, otherLog)
    ensures outcome == other && log == otherLog
    ensures LeftBehind(w, log) && !LeftBehind(w.(withdraw := WithdrawUnavailable(true)), otherLog)
  {}
}
