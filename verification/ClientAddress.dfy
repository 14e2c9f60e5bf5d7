/** Which address a login is counted against: a walk from the TCP peer leftwards through
    X-Forwarded-For, past the hops this deployment owns.  Address syntax is the library's, so
    `parse` is a parameter; everything around it is modelled. */
module ClientAddress {
  import opened Common

  datatype Address = V4(bits: nat) | V6(bits: nat)

  datatype Network = Network(v6: bool, holds: nat -> bool)

  /** The trust set, and the library's parser for one address without a scope id. */
  datatype Trust = Trust(nets: seq<Network>, parse: string -> Option<Address>)

  function BeforePercent(text: string): string {
    if text == "" || text[0] == '%' then "" else [text[0]] + BeforePercent(text[1..])
  }

  /** An IPv4-mapped IPv6 address is the IPv4 address it carries. */
  function Unmapped(a: Address): Address {
    if a.V6? && a.bits / 0x1_0000_0000 == 0xffff then V4(a.bits % 0x1_0000_0000) else a
  }

  function ParseIp(trust: Trust, text: string): Option<Address> {
    var a := trust.parse(BeforePercent(text));
    if a.None? then None else Some(Unmapped(a.value))
  }

  predicate Contains(net: Network, a: Address) {
    a.V6? == net.v6 && net.holds(a.bits)
  }

  predicate IsTrusted(trust: Trust, text: string) {
    var a := ParseIp(trust, text);
    a.Some? && exists i :: 0 <= i < |trust.nets| && Contains(trust.nets[i], a.value)
  }

  // ----- the header -----------------------------------------------------------------

  /** What `str.strip` removes, within the Latin-1 range a header is decoded to. */
  predicate IsSpace(c: char) {
    c == ' ' || '\t' <= c <= '\r' || '\U{1c}' <= c <= '\U{1f}' || c == '\U{85}' || c == '\U{a0}'
  }

  /** Tab to carriage return, the four separators, space, next line and no-break space. */
  lemma SpacesAre(c: char)
    ensures IsSpace(c) <==> c in "\t\n\U{b}\U{c}\r\U{1c}\U{1d}\U{1e}\U{1f} \U{85}\U{a0}"
  {}

  function StripLeft(s: string): string {
    if s != "" && IsSpace(s[0]) then StripLeft(s[1..]) else s
  }

  function StripRight(s: string): string {
    if s != "" && IsSpace(Last(s)) then StripRight(s[..|s| - 1]) else s
  }

  function Strip(s: string): string {
    StripRight(StripLeft(s))
  }

  function Split(s: string): (parts: seq<string>)
    ensures |parts| >= 1
  {
    if s == "" then [""]
    else
      var rest := Split(s[1..]);
      if s[0] == ',' then [""] + rest else [[s[0]] + rest[0]] + rest[1..]
  }

  function Clean(parts: seq<string>): seq<string> {
    if parts == [] then []
    else
      var entry := Strip(parts[0]);
      (if entry == "" then [] else [entry]) + Clean(parts[1..])
  }

  function Entries(header: string): seq<string> {
    Clean(Split(header))
  }

  function Reverse(s: seq<string>): seq<string> {
    if s == [] then [] else Reverse(s[1..]) + [s[0]]
  }

  function Join(parts: seq<string>): string
    requires |parts| >= 1
  {
    if |parts| == 1 then parts[0] else parts[0] + "," + Join(parts[1..])
  }

  /** Splitting loses nothing and cuts at every comma. */
  lemma {:induction false} SplitThenJoin(s: string)
    ensures Join(Split(s)) == s && forall p :: p in Split(s) ==> ',' !in p
  {
    if s != "" {
      var rest := Split(s[1..]);
      SplitThenJoin(s[1..]);
      if s[0] == ',' {
        assert Split(s)[1..] == rest;
      } else {
        assert Split(s)[1..] == rest[1..];
        assert s == [s[0]] + s[1..];
      }
    }
  }

  lemma {:induction false} StripLeavesNoSpace(s: string)
    ensures Strip(s) != "" ==> !IsSpace(Strip(s)[0]) && !IsSpace(Last(Strip(s)))
  {
    StripRightKeepsStart(StripLeft(s));
    StripLeftStops(s);
  }

  lemma StripLeftStops(s: string)
    ensures StripLeft(s) != "" ==> !IsSpace(StripLeft(s)[0])
  {}

  lemma StripRightKeepsStart(s: string)
    ensures StripRight(s) != "" ==> s != "" && StripRight(s)[0] == s[0] && !IsSpace(Last(StripRight(s)))
  {}

  /** An entry is never blank and carries no surrounding space. */
  lemma {:induction false} EntriesAreClean(parts: seq<string>)
    ensures forall e :: e in Clean(parts) ==> e != "" && !IsSpace(e[0]) && !IsSpace(Last(e))
  {
    if parts != [] {
      StripLeavesNoSpace(parts[0]);
      EntriesAreClean(parts[1..]);
    }
  }

  /** An IPv4 hop written in its IPv6-mapped form is trusted exactly as the IPv4 address is. */
  lemma {:induction false} MappedHopIsItsV4(trust: Trust, text: string, bits: nat)
    requires bits < 0x1_0000_0000 && trust.parse(BeforePercent(text)) == Some(V6(0xffff * 0x1_0000_0000 + bits))
    ensures IsTrusted(trust, text) <==> exists i :: 0 <= i < |trust.nets| && Contains(trust.nets[i], V4(bits))
  {
    assert Unmapped(V6(0xffff * 0x1_0000_0000 + bits)) == V4(bits);
  }

  // ----- the walk, as a statement -----------------------------------------------------

  /** The hops in the order they are met: the peer, then the entries from the right. */
  function Hops(peer: string, header: string): seq<string> {
    [peer] + Reverse(Entries(header))
  }

  ghost predicate FirstUntrusted(trust: Trust, hops: seq<string>, k: nat) {
    && k < |hops|
    && !IsTrusted(trust, hops[k])
    && forall j :: 0 <= j < k ==> IsTrusted(trust, hops[j])
  }

  ghost predicate Stops(trust: Trust, hops: seq<string>) {
    exists k: nat :: FirstUntrusted(trust, hops, k)
  }

  /** The first hop that is not ours, if it is an address at all; otherwise the peer. */
  ghost predicate Resolves(trust: Trust, peer: string, header: Option<string>, result: string) {
    if |trust.nets| == 0 || header.None? then result == peer
    else
      var hops := Hops(peer, header.value);
      && (!Stops(trust, hops) ==> result == peer)
      && (forall k: nat :: FirstUntrusted(trust, hops, k) ==>
            result == if ParseIp(trust, hops[k]).Some? then hops[k] else peer)
  }

  method ClientIp(trust: Trust, peer: string, header: Option<string>) returns (result: string)
    ensures Resolves(trust, peer, header, result)
  {
    if |trust.nets| == 0 || header.None? {
      return peer;
    }
    ghost var hops := Hops(peer, header.value);
    if header.value == "" {
      assert Split("") == [""] && Clean([""]) == [];
      assert hops == [peer];
      return peer;
    }
    var entries := Entries(header.value);
    var hop := peer;
    ghost var past: seq<string> := [];
    while entries != [] && IsTrusted(trust, hop)
      invariant hops == past + [hop] + Reverse(entries)
      invariant AllOurs(trust, past)
      decreases |entries|
    {
      Advance(trust, past, hop, entries);
      past := past + [hop];
      hop, entries := entries[|entries| - 1], entries[..|entries| - 1];
    }
    WalkEnds(trust, hops, past, hop, Reverse(entries));
    if IsTrusted(trust, hop) || ParseIp(trust, hop).None? {
      return peer;
    }
    return hop;
  }

  ghost predicate AllOurs(trust: Trust, hops: seq<string>) {
    forall i :: 0 <= i < |hops| ==> IsTrusted(trust, hops[i])
  }

  lemma {:induction false} Advance(trust: Trust, past: seq<string>, hop: string, entries: seq<string>)
    requires entries != [] && AllOurs(trust, past) && IsTrusted(trust, hop)
    ensures past + [hop] + Reverse(entries) == (past + [hop]) + [Last(entries)] + Reverse(entries[..|entries| - 1])
    ensures AllOurs(trust, past + [hop])
  {
    ReverseLast(entries);
    Reassociate(past + [hop], Last(entries), Reverse(entries[..|entries| - 1]));
  }

  lemma Reassociate(a: seq<string>, x: string, b: seq<string>)
    ensures a + ([x] + b) == a + [x] + b
  {}

  /** Where the walk stops is the first untrusted hop, if there is one. */
  lemma {:induction false} WalkEnds(trust: Trust, hops: seq<string>, past: seq<string>, hop: string, rest: seq<string>)
    requires hops == past + [hop] + rest && AllOurs(trust, past)
    requires rest != [] ==> !IsTrusted(trust, hop)
    ensures Stops(trust, hops) <==> !IsTrusted(trust, hop)
    ensures forall k: nat :: FirstUntrusted(trust, hops, k) ==> hops[k] == hop
  {
    assert hops[|past|] == hop;
    assert forall j :: 0 <= j < |past| ==> hops[j] == past[j];
    assert !IsTrusted(trust, hop) ==> FirstUntrusted(trust, hops, |past|);
  }

  // ----- what the caller cannot do ------------------------------------------------------

  lemma {:induction false} ResolvesIsUnique(trust: Trust, peer: string, header: Option<string>, a: string, b: string)
    requires Resolves(trust, peer, header, a) && Resolves(trust, peer, header, b)
    ensures a == b
  {
    if |trust.nets| > 0 && header.Some? && Stops(trust, Hops(peer, header.value)) {
      var k :| FirstUntrusted(trust, Hops(peer, header.value), k);
    }
  }

  lemma {:induction false} ReverseLast(s: seq<string>)
    requires s != []
    ensures Reverse(s) == [Last(s)] + Reverse(s[..|s| - 1])
  {
    if |s| > 1 {
      var tail, init := s[1..], s[..|s| - 1];
      ReverseLast(tail);
      assert tail[..|tail| - 1] == init[1..];
      assert Last(tail) == Last(s) && init[0] == s[0];
    }
  }

  lemma {:induction false} ReverseAppend(a: seq<string>, b: seq<string>)
    ensures Reverse(a + b) == Reverse(b) + Reverse(a)
  {
    if a == [] {
      assert a + b == b;
    } else {
      assert (a + b)[0] == a[0] && (a + b)[1..] == a[1..] + b;
      ReverseAppend(a[1..], b);
    }
  }

  lemma {:induction false} SplitAtComma(text: string, header: string)
    ensures Split(text + "," + header) == Split(text) + Split(header)
  {
    var whole := text + "," + header;
    if text == "" {
      assert whole[0] == ',' && whole[1..] == header;
    } else {
      assert whole[0] == text[0] && whole[1..] == text[1..] + "," + header;
      SplitAtComma(text[1..], header);
    }
  }

  lemma {:induction false} CleanAppend(a: seq<string>, b: seq<string>)
    ensures Clean(a + b) == Clean(a) + Clean(b)
  {
    if a == [] {
      assert a + b == b;
    } else {
      assert (a + b)[0] == a[0] && (a + b)[1..] == a[1..] + b;
      CleanAppend(a[1..], b);
    }
  }

  /** Prepending to the raw header only adds hops at the far end of the walk. */
  lemma {:induction false} PrependAddsFarHops(peer: string, text: string, header: string)
    ensures Hops(peer, text + "," + header) == Hops(peer, header) + Reverse(Entries(text))
  {
    SplitAtComma(text, header);
    CleanAppend(Split(text), Split(header));
    ReverseAppend(Entries(text), Entries(header));
  }

  /** A walk that already stops is not affected by anything prepended to the raw header. */
  lemma {:induction false} PrependIsIgnored(trust: Trust, peer: string, text: string, header: string, result: string)
    requires Stops(trust, Hops(peer, header))
    ensures Resolves(trust, peer, Some(text + "," + header), result) <==> Resolves(trust, peer, Some(header), result)
  {
    var near, far := Hops(peer, header), Hops(peer, text + "," + header);
    PrependAddsFarHops(peer, text, header);
    assert far[..|near|] == near;
    var n :| FirstUntrusted(trust, near, n);
    assert forall j :: 0 <= j < |near| ==> far[j] == near[j];
    assert FirstUntrusted(trust, far, n);
    forall k: nat | FirstUntrusted(trust, far, k) || FirstUntrusted(trust, near, k) ensures k == n {}
  }

  /** A caller who skips the proxy gains nothing from any header. */
  lemma {:induction false} UntrustedPeerIsFinal(trust: Trust, peer: string, header: Option<string>, result: string)
    requires !IsTrusted(trust, peer) && Resolves(trust, peer, header, result)
    ensures result == peer
  {
    if |trust.nets| > 0 && header.Some? {
      assert FirstUntrusted(trust, Hops(peer, header.value), 0);
    }
  }

  lemma {:induction false} SplitPlain(s: string)
    requires ',' !in s
    ensures Split(s) == [s]
  {
    if s != "" {
      SplitPlain(s[1..]);
      assert [s[0]] + s[1..] == s;
    }
  }

  /** Exactly when a prefix can matter: only when every hop the proxies recorded is one of ours.
      `foreign` is any address, as it would be written in a header, that is not trusted. */
  lemma {:induction false} PrependMattersIffAllTrusted(trust: Trust, peer: string, header: string, foreign: string)
    requires |trust.nets| > 0
    requires ',' !in foreign && foreign != "" && Strip(foreign) == foreign
    requires ParseIp(trust, foreign).Some? && !IsTrusted(trust, foreign)
    ensures (exists text, a, b :: Resolves(trust, peer, Some(text + "," + header), a)
                               && Resolves(trust, peer, Some(header), b) && a != b)
            <==> !Stops(trust, Hops(peer, header))
  {
    var hops := Hops(peer, header);
    if Stops(trust, hops) {
      forall text, a, b | Resolves(trust, peer, Some(text + "," + header), a) && Resolves(trust, peer, Some(header), b)
        ensures a == b
      {
        PrependIsIgnored(trust, peer, text, header, a);
        ResolvesIsUnique(trust, peer, Some(header), a, b);
      }
    } else {
      PrependForeign(trust, peer, header, foreign);
      assert Resolves(trust, peer, Some(header), peer);
      assert Resolves(trust, peer, Some(foreign + "," + header), foreign);
    }
  }

  lemma {:induction false} PrependForeign(trust: Trust, peer: string, header: string, foreign: string)
    requires |trust.nets| > 0 && !Stops(trust, Hops(peer, header))
    requires ',' !in foreign && foreign != "" && Strip(foreign) == foreign
    requires ParseIp(trust, foreign).Some? && !IsTrusted(trust, foreign)
    ensures Resolves(trust, peer, Some(foreign + "," + header), foreign) && foreign != peer
  {
    var hops, far := Hops(peer, header), Hops(peer, foreign + "," + header);
    SplitPlain(foreign);
    OneEntry(foreign);
    PrependAddsFarHops(peer, foreign, header);
    AllTrusted(trust, hops);
    assert hops[0] == peer;
    WalkEnds(trust, far, hops, foreign, []);
  }

  lemma {:induction false} OneEntry(foreign: string)
    requires foreign != "" && Strip(foreign) == foreign
    ensures Reverse(Clean([foreign])) == [foreign]
  {
    assert Clean([foreign]) == [foreign] + Clean([]);
    assert Reverse([foreign]) == Reverse([]) + [foreign];
  }

  lemma {:induction false} AllTrusted(trust: Trust, hops: seq<string>)
    requires !Stops(trust, hops)
    ensures AllOurs(trust, hops)
  {
    if hops != [] {
      var init := hops[..|hops| - 1];
      if Stops(trust, init) {
        var k :| FirstUntrusted(trust, init, k);
        assert FirstUntrusted(trust, hops, k);
      }
      AllTrusted(trust, init);
      if !IsTrusted(trust, Last(hops)) {
        assert FirstUntrusted(trust, hops, |hops| - 1);
      }
    }
  }

  // ----- what counts as one of ours ----------------------------------------------------------------

  /** A scope id is no part of the address. */
  lemma {:induction false} ScopeIsDropped(address: string, scope: string)
    requires '%' !in address
    ensures BeforePercent(address + "%" + scope) == address && BeforePercent(address) == address
  {
    if address == "" {
      assert address + "%" + scope == "%" + scope;
    } else {
      assert (address + "%" + scope)[1..] == address[1..] + "%" + scope && address == [address[0]] + address[1..];
      ScopeIsDropped(address[1..], scope);
    }
  }

  /** A hop is ours if it parses and lies in a trusted network of its own version, an IPv4-mapped address
      being IPv4; whatever does not parse is not. */
  lemma TrustedIff(trust: Trust, text: string)
    ensures IsTrusted(trust, text) <==>
              match trust.parse(BeforePercent(text))
              case None => false
              case Some(V4(bits)) => exists i :: 0 <= i < |trust.nets| && !trust.nets[i].v6 && trust.nets[i].holds(bits)
              case Some(V6(bits)) =>
                if bits / 0x1_0000_0000 == 0xffff then
                  exists i :: 0 <= i < |trust.nets| && !trust.nets[i].v6 && trust.nets[i].holds(bits % 0x1_0000_0000)
                else exists i :: 0 <= i < |trust.nets| && trust.nets[i].v6 && trust.nets[i].holds(bits)
  {}

  /** A hop that is no address ends the walk there, and the peer is the answer. */
  lemma UnparsedHopYieldsThePeer(trust: Trust, peer: string, header: string, k: nat, result: string)
    requires |trust.nets| > 0 && Resolves(trust, peer, Some(header), result)
    requires k < |Hops(peer, header)| && trust.parse(BeforePercent(Hops(peer, header)[k])).None?
    requires forall j :: 0 <= j < k ==> IsTrusted(trust, Hops(peer, header)[j])
    ensures result == peer
  {
    assert FirstUntrusted(trust, Hops(peer, header), k);
  }

  // ----- the header says these hops ----------------------------------------------------------------

  predicate CleanEntry(e: string) {
    e != "" && ',' !in e && !IsSpace(e[0]) && !IsSpace(Last(e))
  }

  ghost predicate Spaces(s: string) {
    forall i :: 0 <= i < |s| ==> IsSpace(s[i])
  }

  lemma {:induction false} StripPads(before: string, e: string, after: string)
    requires Spaces(before) && Spaces(after) && (e != "" ==> !IsSpace(e[0]) && !IsSpace(Last(e)))
    ensures Strip(before + e + after) == e
  {
    if before == "" {
      assert before + e + after == e + after;
      if e == "" {
        AllSpaces(after);
        assert e + after == after;
      } else {
        assert StripLeft(e + after) == e + after;
        StripRightPads(e, after);
      }
    } else {
      assert (before + e + after)[1..] == before[1..] + e + after;
      StripPads(before[1..], e, after);
    }
  }

  lemma {:induction false} AllSpaces(s: string)
    requires Spaces(s)
    ensures StripLeft(s) == "" && Strip(s) == ""
  {
    if s != "" { AllSpaces(s[1..]); }
  }

  lemma {:induction false} StripRightPads(e: string, after: string)
    requires Spaces(after) && e != "" && !IsSpace(Last(e))
    ensures StripRight(e + after) == e
  {
    if after == "" {
      assert e + after == e;
    } else {
      assert (e + after)[..|e + after| - 1] == e + after[..|after| - 1];
      StripRightPads(e, after[..|after| - 1]);
    }
  }

  /** What a proxy writes is what is read: one entry for each address appended after a comma, whatever
      white space is around it. */
  lemma EntryAppended(header: string, before: string, e: string, after: string)
    requires CleanEntry(e) && Spaces(before) && Spaces(after) && ',' !in before && ',' !in after
    ensures Entries(header + "," + (before + e + after)) == Entries(header) + [e]
    ensures Entries(before + e + after) == [e]
  {
    var part := before + e + after;
    SplitAtComma(header, part);
    SplitPlain(part);
    StripPads(before, e, after);
    CleanAppend(Split(header), [part]);
    assert Clean([part]) == [e] + Clean([]);
  }

  /** The hop appended last is met right after the peer. */
  lemma LastEntryIsFirstHop(peer: string, header: string, before: string, e: string, after: string)
    requires CleanEntry(e) && Spaces(before) && Spaces(after) && ',' !in before && ',' !in after
    ensures var hops := Hops(peer, header + "," + (before + e + after));
            hops == [peer, e] + Reverse(Entries(header))
  {
    EntryAppended(header, before, e, after);
    ReverseAppend(Entries(header), [e]);
    assert Reverse([e]) == Reverse([]) + [e];
  }
}
