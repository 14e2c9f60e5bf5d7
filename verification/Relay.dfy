/** One request's refresh of its access token, run against the store: the critical section that
    `TokenRefresh` interleaves.  The identity provider's answer and the clock come as parameters. */
module Relay {
  import opened Common
  import opened SessionStore
  import TokenRefresh

  /** The provider's answer; a token that is missing or empty is None. */
  datatype Tokens = Tokens(access: Option<string>, refresh: Option<string>, idToken: Option<string>)

  /** `d.get(key)` */
  function Raw(fields: Fields, key: string): Option<string> {
    if key in fields then Some(fields[key]) else None
  }

  /** `d.get(key)` where an empty string counts as nothing. */
  function Truthy(fields: Fields, key: string): Option<string> {
    if key in fields && fields[key] != "" then Some(fields[key]) else None
  }

  function Put(fields: Fields, key: string, value: Option<string>): Fields {
    if value.Some? then fields[key := value.value] else fields
  }

  /** The session with the new tokens; what the provider did not re-issue is kept. */
  function Updated(fields: Fields, tokens: Tokens): Fields {
    Put(Put(Put(fields, "access_token", tokens.access), "refresh_token", tokens.refresh), "id_token", tokens.idToken)
  }

  predicate Refreshable(sess: Option<Fields>) {
    sess.Some? && Raw(sess.value, "kind") == Some("oidc") && Truthy(sess.value, "refresh_token").Some?
  }

  datatype Verdict = GiveUp | ReuseStored | Exchange(refresh: string)

  /** What the owner of the lock does, given its own copy and the session as stored now. */
  function Judge(sess: Option<Fields>, current: Option<Fields>): Verdict {
    if !Refreshable(sess) || current.None? || Truthy(current.value, "refresh_token").None? then GiveUp
    else if Raw(current.value, "access_token") != Raw(sess.value, "access_token") then ReuseStored
    else Exchange(Truthy(current.value, "refresh_token").value)
  }

  /** What a request carries: its cookie's sid, and its cached view of the session. */
  class RelayRequest {
    const sid: Option<Sid>
    var cache: Option<SessionDict>

    constructor (sid: Option<Sid>, cache: Option<SessionDict>)
      ensures this.sid == sid && this.cache == cache
    {
      this.sid, this.cache := sid, cache;
    }

    ghost function Cached(): Option<Fields>
      reads this, if cache.Some? then {cache.value} else {}
    {
      if cache.Some? then Some(cache.value.fields) else None
    }
  }

  /** What a refresh returns, sends to the provider, and leaves in the store and in the request. */
  datatype Result = Result(access: Option<string>, sent: Option<string>, table: Table, view: Option<Fields>)

  function UnderLock(sess: Fields, current: Option<Fields>, reread: Table, ttl: int, sid: Sid, answer: Option<Tokens>,
                     prunedAt: real, storedAt: real): Result
  {
    match Judge(Some(sess), current)
    case GiveUp => Result(None, None, reread, Some(sess))
    case ReuseStored => Result(Raw(current.value, "access_token"), None, reread, current)
    case Exchange(refresh) =>
      if answer.None? || answer.value.access.None? then Result(None, Some(refresh), reread, Some(sess))
      else
        var next := Updated(current.value, answer.value);
        Result(answer.value.access, Some(refresh), AfterSet(reread, ttl, sid, next, prunedAt, storedAt), Some(next))
  }

  /** Only the token keys change: the access token to the one issued, each other token to the one issued
      with it, if any. */
  ghost predicate Refreshed(before: Fields, after: Fields, tokens: Tokens) {
    && tokens.access.Some? && "access_token" in after && after["access_token"] == tokens.access.value
    && (forall k :: k != "access_token" && k != "refresh_token" && k != "id_token" ==> SameAt(before, after, k))
    && (if tokens.refresh.Some? then "refresh_token" in after && after["refresh_token"] == tokens.refresh.value
        else SameAt(before, after, "refresh_token"))
    && (if tokens.idToken.Some? then "id_token" in after && after["id_token"] == tokens.idToken.value
        else SameAt(before, after, "id_token"))
  }

  predicate SameAt(before: Fields, after: Fields, key: string) {
    (key in after <==> key in before) && (key in before ==> after[key] == before[key])
  }

  predicate Has(fields: Option<Fields>, key: string) {
    fields.Some? && key in fields.value && fields.value[key] != ""
  }

  /** What decides a refresh: an OIDC session with a refresh token in hand, still stored with one... */
  predicate Live(cached: Option<Fields>, stored: Option<Fields>) {
    && Has(cached, "kind") && cached.value["kind"] == "oidc" && Has(cached, "refresh_token")
    && Has(stored, "refresh_token")
  }

  /** ... whose access token nobody has replaced meanwhile. */
  predicate Unchanged(cached: Fields, stored: Fields) {
    SameAt(cached, stored, "access_token")
  }

  /** What a refresh answers, sends and leaves, of a cached copy, the session as stored now, and the
      provider's answer. */
  ghost predicate Promised(cached: Option<Fields>, stored: Option<Fields>, answer: Option<Tokens>,
                           access: Option<string>, sent: Option<string>,
                           storedAfter: Option<Fields>, cachedAfter: Option<Fields>)
  {
    if !Live(cached, stored) then
      access.None? && sent.None? && cachedAfter == cached && storedAfter == stored
    else if !Unchanged(cached.value, stored.value) then
      // another request has refreshed: its token, and its session, and no exchange
      && sent.None? && cachedAfter == stored && storedAfter == stored
      && access == if "access_token" in stored.value then Some(stored.value["access_token"]) else None
    else
      && sent == Some(stored.value["refresh_token"])
      && if answer.None? || answer.value.access.None? then
           access.None? && cachedAfter == cached && storedAfter == stored
         else
           && access == answer.value.access
           && storedAfter.Some? && Refreshed(stored.value, storedAfter.value, answer.value)
           && cachedAfter == storedAfter
  }

  method RefreshOidcAccessToken(req: RelayRequest, store: MemorySessionStore, answer: Option<Tokens>,
                                rereadAt: real, prunedAt: real, storedAt: real)
    returns (access: Option<string>, ghost sent: Option<string>)
    requires store.Valid() && req as object !in store.Repr
    requires req.cache.Some? ==> req.cache.value !in store.Repr
    modifies req, store
    ensures store.Valid() && (req.cache.Some? ==> req.cache.value !in store.Repr)
    ensures !Refreshable(old(req.Cached())) || req.sid.None? ==>
              access.None? && sent.None? && store.Contents() == old(store.Contents()) && req.cache == old(req.cache)
    ensures Refreshable(old(req.Cached())) && req.sid.Some? ==>
              Result(access, sent, store.Contents(), req.Cached()) ==
              UnderLock(old(req.Cached()).value, Seen(old(store.Contents()), req.sid.value, rereadAt),
                        AfterGet(old(store.Contents()), req.sid.value, rereadAt), store.ttl, req.sid.value,
                        answer, prunedAt, storedAt)
    ensures req.sid.Some? && store.ttl > 0 ==>
              var sid, before := req.sid.value, old(store.Contents());
              var cached, stored := old(req.Cached()), Seen(before, sid, rereadAt);
              var at := if sent.Some? && access.Some? then storedAt else rereadAt;
              Promised(cached, stored, answer, access, sent, Seen(store.Contents(), sid, at), req.Cached())
    ensures access.Some? && sent.Some? ==>
              && req.sid.value in store.Contents()
              && store.Contents()[req.sid.value].expires == storedAt + store.ttl as real
  {
    if req.cache.None? || req.sid.None? {
      return None, None;
    }
    var sess := req.cache.value.fields;
    if Raw(sess, "kind") != Some("oidc") || Truthy(sess, "refresh_token").None? {
      return None, None;
    }
    access, sent := CriticalSection(req, store, req.sid.value, answer, rereadAt, prunedAt, storedAt);
    UnderLockPromises(sess, old(store.Contents()), req.sid.value, store.ttl, answer, rereadAt, prunedAt, storedAt);
  }

  lemma UnderLockPromises(sess: Fields, table: Table, sid: Sid, ttl: int, answer: Option<Tokens>,
                          rereadAt: real, prunedAt: real, storedAt: real)
    requires Refreshable(Some(sess))
    ensures var stored := Seen(table, sid, rereadAt);
            var r := UnderLock(sess, stored, AfterGet(table, sid, rereadAt), ttl, sid, answer, prunedAt, storedAt);
            var at := if r.sent.Some? && r.access.Some? then storedAt else rereadAt;
            && (ttl > 0 ==>
                  Promised(Some(sess), stored, answer, r.access, r.sent, Seen(r.table, sid, at), r.view))
            && (r.access.Some? && r.sent.Some? ==>
                  sid in r.table && r.table[sid].expires == storedAt + ttl as real)
  {
    var stored := Seen(table, sid, rereadAt);
    match Judge(Some(sess), stored)
    case Exchange(_) =>
      if answer.Some? && answer.value.access.Some? { UpdatedIsRefreshed(stored.value, answer.value); }
    case _ =>
  }

  lemma UpdatedIsRefreshed(fields: Fields, tokens: Tokens)
    requires tokens.access.Some?
    ensures Refreshed(fields, Updated(fields, tokens), tokens)
  {}

  /** The body of `async with store.lock(sid)`. */
  method CriticalSection(req: RelayRequest, store: MemorySessionStore, sid: Sid, answer: Option<Tokens>,
                         rereadAt: real, prunedAt: real, storedAt: real)
    returns (access: Option<string>, ghost sent: Option<string>)
    requires store.Valid() && req as object !in store.Repr && Refreshable(req.Cached())
    requires req.cache.value !in store.Repr
    modifies req, store
    ensures store.Valid() && req.cache.Some? && req.cache.value !in store.Repr
    ensures Result(access, sent, store.Contents(), req.Cached()) ==
            UnderLock(old(req.Cached()).value, Seen(old(store.Contents()), sid, rereadAt),
                      AfterGet(old(store.Contents()), sid, rereadAt), store.ttl, sid, answer, prunedAt, storedAt)
  {
    var sess := req.cache.value.fields;
    var found := store.Get(sid, rereadAt);
    sent := None;
    if found.None? {
      return None, sent;
    }
    var current := found.value;
    if Truthy(current.fields, "refresh_token").None? {
      return None, sent;
    }
    if Raw(current.fields, "access_token") != Raw(sess, "access_token") {
      req.cache := Some(current);
      return Raw(current.fields, "access_token"), sent;
    }
    sent := Truthy(current.fields, "refresh_token");
    if answer.None? || answer.value.access.None? {
      return None, sent;
    }
    StoreTokens(req, store, sid, current, answer.value, prunedAt, storedAt);
    return answer.value.access, sent;
  }

  /** The new tokens go into the session in hand, then into the store and the request's cache. */
  method StoreTokens(req: RelayRequest, store: MemorySessionStore, sid: Sid, current: SessionDict, tokens: Tokens,
                     prunedAt: real, storedAt: real)
    requires store.Valid() && req as object !in store.Repr && current !in store.Repr && tokens.access.Some?
    modifies req, store, current
    ensures store.Valid() && current !in store.Repr && req.cache == Some(current)
    ensures current.fields == Updated(old(current.fields), tokens)
    ensures store.Contents() == AfterSet(old(store.Contents()), store.ttl, sid, current.fields, prunedAt, storedAt)
  {
    Merge(current, tokens);
    store.Set(sid, current, prunedAt, storedAt);
    req.cache := Some(current);
  }

  method Merge(current: SessionDict, tokens: Tokens)
    requires tokens.access.Some?
    modifies current
    ensures current.fields == Updated(old(current.fields), tokens)
    ensures Refreshed(old(current.fields), current.fields, tokens)
  {
    current.fields := current.fields["access_token" := tokens.access.value];
    if tokens.refresh.Some? {
      current.fields := current.fields["refresh_token" := tokens.refresh.value];
    }
    if tokens.idToken.Some? {
      current.fields := current.fields["id_token" := tokens.idToken.value];
    }
  }

  // ----- the interleaved model makes the same choices --------------------------------------

  function TokensOf(fields: Fields): TokenRefresh.Session
    requires "access_token" in fields
  {
    TokenRefresh.Session(fields["access_token"], Truthy(fields, "refresh_token"))
  }

  ghost predicate Shows(view: Option<TokenRefresh.Session>, fields: Option<Fields>) {
    if fields.None? then view.None? else "access_token" in fields.value && view == Some(TokensOf(fields.value))
  }

  /** The request's steps in the interleaved model, from owning the lock to giving it back. */
  function Steps(r: nat, verdict: Verdict, answer: Option<Tokens>): seq<TokenRefresh.Event> {
    if !verdict.Exchange? then [TokenRefresh.Reread(r)]
    else if answer.None? || answer.value.access.None? then [TokenRefresh.Reread(r), TokenRefresh.Refuse(r)]
    else
      [TokenRefresh.Reread(r), TokenRefresh.Grant(r, answer.value.access.value, answer.value.refresh),
       TokenRefresh.Commit(r)]
  }

  /** The provider issues tokens that are not blank and that it has not issued before. */
  ghost predicate NewTokens(s: TokenRefresh.State, answer: Option<Tokens>) {
    answer.Some? && answer.value.access.Some? ==>
      && answer.value.refresh != Some("")
      && TokenRefresh.Fresh(s, answer.value.access.value, answer.value.refresh)
  }

  /** The owner of the lock, in the model, sees what this request sees. */
  ghost predicate Owns(s: TokenRefresh.State, r: nat, sess: Fields, current: Option<Fields>) {
    && TokenRefresh.At(s, r).pc.Locked? && TokenRefresh.At(s, r).cache.Some?
    && Shows(TokenRefresh.At(s, r).cache.value, Some(sess)) && Shows(s.store, current)
    && Refreshable(Some(sess))
  }

  /** `t` is where the model stands after `s` if `result` is what the code did: the store, the cached
      copy and the token released show the same, and what was sent is what the model presented. */
  ghost predicate EndsInStep(s: TokenRefresh.State, t: TokenRefresh.State, r: nat, result: Result,
                             stored: Option<Fields>)
    requires TokenRefresh.At(s, r).pc.Locked?
  {
    && Shows(t.store, stored)
    && TokenRefresh.At(t, r).cache.Some? && Shows(TokenRefresh.At(t, r).cache.value, result.view)
    && TokenRefresh.At(t, r).pc == TokenRefresh.Releasing(TokenRefresh.At(s, r).pc.bearer, result.access)
    && t.presented == s.presented +
         (if result.sent.Some? then [TokenRefresh.Presented(result.sent.value, s.live)] else [])
  }

  /** The critical section simulates the interleaved model: started in step with it, and answered as
      the provider may, it ends in step with it. */
  lemma {:induction false} CriticalSectionSimulates(s: TokenRefresh.State, r: nat, sess: Fields, table: Table,
                                                    ttl: int, sid: Sid, answer: Option<Tokens>, rereadAt: real,
                                                    prunedAt: real, storedAt: real)
    requires TokenRefresh.Inv(s) && Owns(s, r, sess, Seen(table, sid, rereadAt))
    requires NewTokens(s, answer) && ttl > 0
    ensures var current := Seen(table, sid, rereadAt);
            var reread := AfterGet(table, sid, rereadAt);
            var result := UnderLock(sess, current, reread, ttl, sid, answer, prunedAt, storedAt);
            var at := if result.sent.Some? && result.access.Some? then storedAt else rereadAt;
            EndsInStep(s, TokenRefresh.Run(s, Steps(r, Judge(Some(sess), current), answer)), r, result,
                       Seen(result.table, sid, at))
  {
    var current := Seen(table, sid, rereadAt);
    match Judge(Some(sess), current)
    case Exchange(refresh) =>
      StoreIsLive(s, r);
      if answer.None? || answer.value.access.None? {
        RefusesInStep(s, r, sess, current, refresh, answer);
      } else {
        ExchangesInStep(s, r, sess, current, refresh, answer.value);
      }
    case _ =>
      OneStep(s, TokenRefresh.Reread(r));
      RereadsAsJudged(s, r, sess, current);
  }

  lemma {:induction false} RefusesInStep(s: TokenRefresh.State, r: nat, sess: Fields, current: Option<Fields>,
                                         refresh: string, answer: Option<Tokens>)
    requires Owns(s, r, sess, current) && Judge(Some(sess), current) == Exchange(refresh)
    requires answer.None? || answer.value.access.None?
    ensures forall table :: EndsInStep(s, TokenRefresh.Run(s, Steps(r, Exchange(refresh), answer)), r,
                                       Result(None, Some(refresh), table, Some(sess)), current)
  {
    TokenRefresh.RunTwo(s, TokenRefresh.Reread(r), TokenRefresh.Refuse(r));
    RereadsAsJudged(s, r, sess, current);
    var u := TokenRefresh.DoReread(s, r);
    assert TokenRefresh.At(TokenRefresh.DoRefuse(u, r), r).pc
        == TokenRefresh.Releasing(TokenRefresh.At(u, r).pc.bearer, None);
  }

  lemma {:induction false} ExchangesInStep(s: TokenRefresh.State, r: nat, sess: Fields, current: Option<Fields>,
                                           refresh: string, tokens: Tokens)
    requires Owns(s, r, sess, current) && Judge(Some(sess), current) == Exchange(refresh)
    requires tokens.access.Some? && NewTokens(s, Some(tokens)) && s.live == Some(refresh)
    ensures var next := Updated(current.value, tokens);
            forall table :: EndsInStep(s, TokenRefresh.Run(s, Steps(r, Exchange(refresh), Some(tokens))), r,
                                       Result(tokens.access, Some(refresh), table, Some(next)), Some(next))
  {
    TokenRefresh.ExchangeSteps(s, r, TokensOf(current.value), tokens.access.value, tokens.refresh);
    var grant := TokenRefresh.Grant(r, tokens.access.value, tokens.refresh);
    assert Steps(r, Exchange(refresh), Some(tokens)) == [TokenRefresh.Reread(r), grant] + [TokenRefresh.Commit(r)];
    UpdatedShows(current.value, tokens);
  }

  lemma OneStep(s: TokenRefresh.State, e: TokenRefresh.Event)
    ensures TokenRefresh.Run(s, [e]) == TokenRefresh.Step(s, e)
  {
    assert TokenRefresh.Run(s, [e]) == TokenRefresh.Run(TokenRefresh.Step(s, e), []);
  }

  lemma StoreIsLive(s: TokenRefresh.State, r: nat)
    requires TokenRefresh.Inv(s) && TokenRefresh.At(s, r).pc.Locked? && s.store.Some?
    ensures s.store.value.refresh == s.live
  {}

  /** Having re-read the store, the model goes on as `Judge` says. */
  lemma RereadsAsJudged(s: TokenRefresh.State, r: nat, sess: Fields, current: Option<Fields>)
    requires Owns(s, r, sess, current)
    ensures var u, pc := TokenRefresh.DoReread(s, r), TokenRefresh.At(TokenRefresh.DoReread(s, r), r).pc;
            && u.(requests := s.requests) == s && u.requests.Keys == s.requests.Keys
            && pc.bearer == TokenRefresh.At(s, r).pc.bearer
            && match Judge(Some(sess), current)
               case GiveUp => pc == TokenRefresh.Releasing(pc.bearer, None)
                              && TokenRefresh.At(u, r).cache == TokenRefresh.At(s, r).cache
               case ReuseStored => pc == TokenRefresh.Releasing(pc.bearer, Raw(current.value, "access_token"))
                                   && TokenRefresh.At(u, r).cache == Some(s.store)
               case Exchange(refresh) => pc == TokenRefresh.Exchanging(pc.bearer, TokensOf(current.value))
                                         && pc.current.refresh == Some(refresh)
                                         && TokenRefresh.At(u, r).cache == TokenRefresh.At(s, r).cache
  {}

  /** The session the model merges is the one this method stores. */
  lemma UpdatedShows(current: Fields, tokens: Tokens)
    requires "access_token" in current && tokens.access.Some? && tokens.refresh != Some("")
    ensures Shows(Some(TokenRefresh.Merged(TokensOf(current), tokens.access.value, tokens.refresh)),
                  Some(Updated(current, tokens)))
  {}
}
