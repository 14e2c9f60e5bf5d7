/** The hash-chained audit log: what a record commits to, what the verifier accepts, and what an
    accepted log can be. */
module AuditChain {
  import opened Common

  /** The library calls: SHA-256 in hex, and the canonical JSON text of everything in a record but
      its chain fields. */
  datatype Scheme = Scheme(hash: string -> string, canon: Body -> string) {
    /** What is assumed of them: no collision, no preimage of the genesis hash, and a canonical text
        that determines the body and, being JSON, holds no raw newline. */
    ghost predicate Ideal() {
      && (forall a, b :: hash(a) == hash(b) ==> a == b)
      && (forall a :: hash(a) != GENESIS)
      && (forall a, b :: canon(a) == canon(b) ==> a == b)
      && (forall a :: '\n' !in canon(a))
    }
  }

  /** Python's `c * n` on a one-character string. */
  function Times(c: char, n: nat): (s: string)
    ensures |s| == n && forall i :: 0 <= i < n ==> s[i] == c
  {
    if n == 0 then "" else Times(c, n - 1) + [c]
  }

  const GENESIS := Times('0', 64)

  /** A Python int as `isinstance(seq, int)` accepts it: `True` and `False` pass, print as words and
      compare as 1 and 0. */
  datatype Seq = Num(n: int) | Bool(b: bool) {
    function Value(): int {
      match this
      case Num(n) => n
      case Bool(b) => if b then 1 else 0
    }

    function Text(): string {
      match this
      case Num(n) => IntText(n)
      case Bool(b) => if b then "True" else "False"
    }
  }

  datatype Content = Clear(payload: string) | Sealed(blob: string) | Other

  /** Everything in a record outside the chain fields; `rest` stands for any further keys. */
  datatype Body = Body(instance: Option<string>, ts: string, tenant: Option<string>, enc: Option<string>,
                       content: Content, rest: map<string, string>)

  /** A parsed record.  A chain field that is missing or of another type is None. */
  datatype Record = Record(body: Body, number: Option<Seq>, prev: Option<string>, hash: Option<string>)

  /** A line of the file: a record of this log, or anything the reader skips (blank, not JSON, or
      not one of this log's events). */
  datatype Line = Noise | Entry(record: Record)

  function Records(file: seq<Line>): seq<Record> {
    if file == [] then []
    else Records(file[..|file| - 1]) + (if Last(file).Entry? then [Last(file).record] else [])
  }

  /** `rec.get("instance", "")` */
  function Instance(r: Record): string {
    if r.body.instance.Some? then r.body.instance.value else ""
  }

  /** One writer's records, in file order. */
  function Only(recs: seq<Record>, inst: string): seq<Record> {
    if recs == [] then []
    else Only(recs[..|recs| - 1], inst) + (if Instance(Last(recs)) == inst then [Last(recs)] else [])
  }

  // ----- the commitment ---------------------------------------------------------------

  function Digit(d: nat): char
    requires d < 10
  {
    ['0', '1', '2', '3', '4', '5', '6', '7', '8', '9'][d]
  }

  function NatText(n: nat): (text: string)
    ensures text != "" && forall c :: c in text ==> '0' <= c <= '9'
  {
    if n < 10 then [Digit(n)] else NatText(n / 10) + [Digit(n % 10)]
  }

  function IntText(n: int): string {
    if n < 0 then "-" + NatText(-n) else NatText(n)
  }

  function Frame(seqText: string, prev: string, canon: string): string {
    seqText + "\n" + prev + "\n" + canon
  }

  function RecordHash(sch: Scheme, seqNo: Seq, prev: string, body: Body): string {
    sch.hash(Frame(seqNo.Text(), prev, sch.canon(body)))
  }

  /** A JSON boolean passes for a number as Python has it, and prints as a word. */
  lemma BooleansAsNumbers()
    ensures Bool(true).Value() == 1 && Bool(false).Value() == 0
    ensures Bool(true).Text() == "True" && Bool(false).Text() == "False"
  {}

  lemma GenesisIsZeros()
    ensures |GENESIS| == 64 && forall i :: 0 <= i < 64 ==> GENESIS[i] == '0'
  {}

  /** The number a text of digits stands for. */
  function DigitsValue(s: string): int {
    if s == "" then 0 else 10 * DigitsValue(s[..|s| - 1]) + (Last(s) as int - '0' as int)
  }

  /** The text is the number's decimal notation, without a leading zero but for 0 itself. */
  lemma {:induction false} NatTextReadsBack(n: nat)
    ensures DigitsValue(NatText(n)) == n && (n > 0 ==> NatText(n)[0] != '0')
  {
    if n >= 10 {
      NatTextReadsBack(n / 10);
      assert NatText(n)[..|NatText(n)| - 1] == NatText(n / 10) && NatText(n)[0] == NatText(n / 10)[0];
    } else {
      assert NatText(n)[..0] == "";
    }
  }

  lemma {:induction false} NatTextInjective(a: nat, b: nat)
    requires NatText(a) == NatText(b)
    ensures a == b
  {
    var s, t := NatText(a), NatText(b);
    assert Last(s) == Digit(a % 10) && Last(t) == Digit(b % 10);
    if a >= 10 && b >= 10 {
      assert s[..|s| - 1] == NatText(a / 10) && t[..|t| - 1] == NatText(b / 10);
      NatTextInjective(a / 10, b / 10);
    }
  }

  /** The first character tells a negative number, another number and a word apart. */
  lemma SeqTextStart(a: Seq)
    ensures a.Text() != ""
    ensures a.Text()[0] == '-' <==> a.Num? && a.n < 0
    ensures a.Text()[0] == 'T' <==> a == Bool(true)
    ensures a.Text()[0] == 'F' <==> a == Bool(false)
  {
    if a.Num? && a.n >= 0 {
      assert a.Text()[0] in NatText(a.n);
    }
  }

  lemma IntTextInjective(m: int, n: int)
    requires IntText(m) == IntText(n) && (m < 0 <==> n < 0)
    ensures m == n
  {
    if m < 0 {
      assert IntText(m)[1..] == NatText(-m) && IntText(n)[1..] == NatText(-n);
      NatTextInjective(-m, -n);
    } else {
      NatTextInjective(m, n);
    }
  }

  lemma SeqTextInjective(a: Seq, b: Seq)
    requires a.Text() == b.Text()
    ensures a == b
  {
    SeqTextStart(a);
    SeqTextStart(b);
    if a.Num? && b.Num? { IntTextInjective(a.n, b.n); }
  }

  lemma SeqTextHasNoNewline(a: Seq)
    ensures '\n' !in a.Text()
  {}

  ghost predicate FirstNewline(s: string, k: nat) {
    k < |s| && s[k] == '\n' && forall i :: 0 <= i < k ==> s[i] != '\n'
  }

  ghost predicate LastNewline(s: string, k: nat) {
    k < |s| && s[k] == '\n' && forall i :: k < i < |s| ==> s[i] != '\n'
  }

  /** The text up to the first newline is determined. */
  lemma {:induction false} CutAtFirstNewline(a: string, x: string, b: string, y: string)
    requires a + "\n" + x == b + "\n" + y && '\n' !in a && '\n' !in b
    ensures a == b && x == y
  {
    var s, t := a + "\n" + x, b + "\n" + y;
    assert FirstNewline(s, |a|) && FirstNewline(t, |b|);
    assert s[..|a|] == a && t[..|b|] == b && s[|a| + 1..] == x && t[|b| + 1..] == y;
  }

  /** The text after the last newline is determined. */
  lemma {:induction false} CutAtLastNewline(x: string, a: string, y: string, b: string)
    requires x + "\n" + a == y + "\n" + b && '\n' !in a && '\n' !in b
    ensures a == b && x == y
  {
    var s, t := x + "\n" + a, y + "\n" + b;
    assert LastNewline(s, |x|) && LastNewline(t, |y|);
    assert s[..|x|] == x && t[..|y|] == y && s[|x| + 1..] == a && t[|y| + 1..] == b;
  }

  /** The framing is injective although the previous hash is not escaped and may hold newlines. */
  lemma {:induction false} FrameInjective(a: Seq, p: string, c: string, b: Seq, q: string, d: string)
    requires Frame(a.Text(), p, c) == Frame(b.Text(), q, d) && '\n' !in c && '\n' !in d
    ensures a == b && p == q && c == d
  {
    SeqTextHasNoNewline(a);
    SeqTextHasNoNewline(b);
    assert Frame(a.Text(), p, c) == a.Text() + "\n" + (p + "\n" + c);
    assert Frame(b.Text(), q, d) == b.Text() + "\n" + (q + "\n" + d);
    CutAtFirstNewline(a.Text(), p + "\n" + c, b.Text(), q + "\n" + d);
    CutAtLastNewline(p, c, q, d);
    SeqTextInjective(a, b);
  }

  // ----- what the verifier accepts -------------------------------------------------------

  predicate HasChainFields(r: Record) {
    r.number.Some? && r.prev.Some? && r.hash.Some?
  }

  predicate SelfConsistent(sch: Scheme, r: Record) {
    HasChainFields(r) && r.hash.value == RecordHash(sch, r.number.value, r.prev.value, r.body)
  }

  predicate Follows(a: Record, b: Record) {
    && HasChainFields(a) && HasChainFields(b)
    && b.number.value.Value() == a.number.value.Value() + 1
    && b.prev.value == a.hash.value
  }

  /** One sub-chain: every record hashes to what it says, and each links to the one before it.  The
      first record is not anchored to anything. */
  ghost predicate Linked(sch: Scheme, chain: seq<Record>) {
    && (forall i :: 0 <= i < |chain| ==> SelfConsistent(sch, chain[i]))
    && (forall i :: 0 < i < |chain| ==> Follows(chain[i - 1], chain[i]))
  }

  ghost predicate Accepted(sch: Scheme, recs: seq<Record>) {
    forall inst {:trigger Linked(sch, Only(recs, inst))} :: Linked(sch, Only(recs, inst))
  }

  datatype Verdict =
    | NoRecords
    | Verified(records: nat, instances: nat)
    | MissingFields(index: nat, inst: string)
    | Altered(seqNo: int, inst: string)
    | Gap(inst: string, expected: int, got: int)
    | BrokenLink(seqNo: int, inst: string)

  /** Record `r` hashes to what it says and follows its writer's last record before it. */
  ghost predicate Continues(sch: Scheme, before: seq<Record>, r: Record) {
    var chain := Only(before, Instance(r));
    SelfConsistent(sch, r) && (chain != [] ==> Follows(Last(chain), r))
  }

  /** The verdict describes why record `r`, the `k`-th, cannot be appended to what precedes it. */
  ghost predicate Blames(sch: Scheme, v: Verdict, before: seq<Record>, r: Record, k: nat) {
    var chain := Only(before, Instance(r));
    if !HasChainFields(r) then v == MissingFields(k, Instance(r))
    else if !SelfConsistent(sch, r) then v == Altered(r.number.value.Value(), Instance(r))
    else
      && chain != [] && HasChainFields(Last(chain))
      && var expected := Last(chain).number.value.Value() + 1;
         if r.number.value.Value() != expected then v == Gap(Instance(r), expected, r.number.value.Value())
         else r.prev.value != Last(chain).hash.value && v == BrokenLink(r.number.value.Value(), Instance(r))
  }

  /** The verdict describes the first record at which the log stops being acceptable. */
  ghost predicate FirstFault(sch: Scheme, v: Verdict, recs: seq<Record>) {
    exists k: nat :: FaultAt(sch, v, recs, k)
  }

  ghost predicate FaultAt(sch: Scheme, v: Verdict, recs: seq<Record>, k: nat) {
    && k < |recs| && Blames(sch, v, recs[..k], recs[k], k)
    && Accepted(sch, recs[..k]) && !Accepted(sch, recs[..k + 1])
  }

  function Instances(recs: seq<Record>): set<string> {
    set i | 0 <= i < |recs| :: Instance(recs[i])
  }

  /** The checks made of one record, in order. */
  method CheckRecord(sch: Scheme, heads: Heads, k: nat, rec: Record, ghost before: seq<Record>)
    returns (fault: Option<Verdict>)
    requires HeadsOf(heads, before)
    ensures fault.Some? ==> Blames(sch, fault.value, before, rec, k)
    ensures fault.None? ==> Continues(sch, before, rec)
  {
    var inst := Instance(rec);
    assert HeadOk(heads, inst, Only(before, inst));
    if !HasChainFields(rec) {
      return Some(MissingFields(k, inst));
    }
    if RecordHash(sch, rec.number.value, rec.prev.value, rec.body) != rec.hash.value {
      return Some(Altered(rec.number.value.Value(), inst));
    }
    if inst in heads {
      var (expected, link) := heads[inst];
      if rec.number.value.Value() != expected {
        return Some(Gap(inst, expected, rec.number.value.Value()));
      }
      if rec.prev.value != link {
        return Some(BrokenLink(rec.number.value.Value(), inst));
      }
    }
    return None;
  }

  method VerifyChain(sch: Scheme, file: seq<Line>) returns (ok: bool, detail: Verdict)
    ensures ok <==> Accepted(sch, Records(file))
    ensures ok ==> var recs := Records(file);
                   detail == if recs == [] then NoRecords else Verified(|recs|, |Instances(recs)|)
    ensures !ok ==> FirstFault(sch, detail, Records(file))
  {
    var recs := Records(file);
    var fault, heads := Replay(sch, recs);
    if fault.Some? {
      return false, fault.value;
    }
    return true, if |recs| == 0 then NoRecords else Verified(|recs|, |heads|);
  }

  /** The verifier's loop: stops at the first record at fault. */
  method Replay(sch: Scheme, recs: seq<Record>) returns (fault: Option<Verdict>, heads: Heads)
    ensures fault.Some? ==> FirstFault(sch, fault.value, recs) && !Accepted(sch, recs)
    ensures fault.None? ==> Accepted(sch, recs) && heads.Keys == Instances(recs)
  {
    heads := map[];
    var count := 0;
    ghost var done: seq<Record> := [];
    while count < |recs|
      invariant 0 <= count <= |recs| && done == recs[..count]
      invariant Accepted(sch, done)
      invariant HeadsOf(heads, done)
    {
      var rec := recs[count];
      fault := CheckRecord(sch, heads, count, rec, done);
      if fault.Some? {
        RejectedHere(sch, fault.value, recs, count);
        return;
      }
      heads := TakeIn(sch, heads, rec, done);
      done := done + [rec];
      count := count + 1;
    }
    assert done == recs;
    HeadsAreInstances(heads, recs);
    fault := None;
  }

  /** The head of one sub-chain moves on. */
  method TakeIn(sch: Scheme, heads: Heads, rec: Record, ghost before: seq<Record>) returns (next: Heads)
    requires HeadsOf(heads, before) && Accepted(sch, before) && Continues(sch, before, rec)
    ensures HeadsOf(next, before + [rec]) && Accepted(sch, before + [rec])
  {
    AcceptAppend(sch, before, rec);
    HeadsAppend(heads, before, rec);
    next := heads[Instance(rec) := (rec.number.value.Value() + 1, rec.hash.value)];
  }

  type Heads = map<string, (int, string)>

  /** The verifier's memory: where each sub-chain seen so far must go on. */
  ghost predicate HeadsOf(heads: Heads, recs: seq<Record>) {
    forall inst {:trigger HeadOk(heads, inst, Only(recs, inst))} :: HeadOk(heads, inst, Only(recs, inst))
  }

  ghost predicate HeadOk(heads: Heads, inst: string, chain: seq<Record>) {
    if chain == [] then inst !in heads
    else
      && HasChainFields(Last(chain)) && inst in heads
      && heads[inst] == (Last(chain).number.value.Value() + 1, Last(chain).hash.value)
  }

  lemma OnlyAppend(recs: seq<Record>, r: Record, inst: string)
    ensures Only(recs + [r], inst) == Only(recs, inst) + (if Instance(r) == inst then [r] else [])
  {
    assert (recs + [r])[..|recs|] == recs;
  }

  /** Appending a record keeps a log acceptable exactly when the record is self-consistent and
      follows the last one of its writer. */
  lemma {:induction false} AcceptAppend(sch: Scheme, recs: seq<Record>, r: Record)
    requires Accepted(sch, recs)
    ensures Accepted(sch, recs + [r]) <==> Continues(sch, recs, r)
  {
    var chain := Only(recs, Instance(r));
    assert Linked(sch, chain);
    LinkedAppend(sch, chain, r);
    OnlyAppend(recs, r, Instance(r));
    if Linked(sch, chain + [r]) {
      forall inst ensures Linked(sch, Only(recs + [r], inst)) {
        OnlyAppend(recs, r, inst);
        assert Linked(sch, Only(recs, inst));
      }
    }
  }

  lemma {:induction false} LinkedAppend(sch: Scheme, chain: seq<Record>, r: Record)
    requires Linked(sch, chain)
    ensures Linked(sch, chain + [r]) <==> SelfConsistent(sch, r) && (chain != [] ==> Follows(Last(chain), r))
  {
    var longer := chain + [r];
    assert longer[|chain|] == r && (chain != [] ==> longer[|chain| - 1] == Last(chain));
  }

  lemma {:induction false} HeadsAppend(heads: Heads, recs: seq<Record>, r: Record)
    requires HeadsOf(heads, recs) && HasChainFields(r)
    ensures HeadsOf(heads[Instance(r) := (r.number.value.Value() + 1, r.hash.value)], recs + [r])
  {
    var next := heads[Instance(r) := (r.number.value.Value() + 1, r.hash.value)];
    forall inst ensures HeadOk(next, inst, Only(recs + [r], inst)) {
      assert HeadOk(heads, inst, Only(recs, inst));
      HeadStep(heads, inst, Only(recs, inst), r);
      OnlyAppend(recs, r, inst);
    }
  }

  lemma HeadStep(heads: Heads, inst: string, chain: seq<Record>, r: Record)
    requires HeadOk(heads, inst, chain) && HasChainFields(r)
    ensures HeadOk(heads[Instance(r) := (r.number.value.Value() + 1, r.hash.value)], inst,
                   chain + (if Instance(r) == inst then [r] else []))
  {}

  lemma {:induction false} InstanceHasRecords(recs: seq<Record>, inst: string)
    ensures inst in Instances(recs) <==> Only(recs, inst) != []
  {
    if recs != [] {
      var before := recs[..|recs| - 1];
      InstanceHasRecords(before, inst);
      assert forall i :: 0 <= i < |before| ==> before[i] == recs[i];
      assert Instance(recs[|recs| - 1]) in Instances(recs);
    }
  }

  lemma {:induction false} HeadsAreInstances(heads: Heads, recs: seq<Record>)
    requires HeadsOf(heads, recs)
    ensures heads.Keys == Instances(recs)
  {
    forall inst ensures inst in heads <==> inst in Instances(recs) {
      assert HeadOk(heads, inst, Only(recs, inst));
      InstanceHasRecords(recs, inst);
    }
  }

  lemma {:induction false} RejectedHere(sch: Scheme, v: Verdict, recs: seq<Record>, k: nat)
    requires k < |recs| && Accepted(sch, recs[..k]) && Blames(sch, v, recs[..k], recs[k], k)
    ensures FirstFault(sch, v, recs) && !Accepted(sch, recs)
  {
    BlamedDoesNotContinue(sch, v, recs[..k], recs[k], k);
    StopsHere(sch, recs, k);
    assert FaultAt(sch, v, recs, k);
  }

  lemma BlamedDoesNotContinue(sch: Scheme, v: Verdict, before: seq<Record>, r: Record, k: nat)
    requires Blames(sch, v, before, r, k)
    ensures !Continues(sch, before, r)
  {}

  lemma {:induction false} StopsHere(sch: Scheme, recs: seq<Record>, k: nat)
    requires k < |recs| && Accepted(sch, recs[..k]) && !Continues(sch, recs[..k], recs[k])
    ensures !Accepted(sch, recs[..k + 1]) && !Accepted(sch, recs)
  {
    assert recs[..k + 1] == recs[..k] + [recs[k]];
    AcceptAppend(sch, recs[..k], recs[k]);
    if Accepted(sch, recs) { AcceptedPrefix(sch, recs, k + 1); }
  }

  /** Acceptance is prefix-closed: once a log is rejected, nothing appended makes it acceptable. */
  lemma {:induction false} AcceptedPrefix(sch: Scheme, recs: seq<Record>, k: nat)
    requires Accepted(sch, recs) && k <= |recs|
    ensures Accepted(sch, recs[..k])
    decreases |recs| - k
  {
    if k == |recs| {
      assert recs[..k] == recs;
    } else {
      AcceptedPrefix(sch, recs, k + 1);
      assert recs[..k + 1] == recs[..k] + [recs[k]];
      forall inst ensures Linked(sch, Only(recs[..k], inst)) {
        OnlyAppend(recs[..k], recs[k], inst);
        var shorter, longer := Only(recs[..k], inst), Only(recs[..k + 1], inst);
        assert Linked(sch, longer);
        assert longer[..|shorter|] == shorter;
        assert forall i :: 0 <= i < |shorter| ==> shorter[i] == longer[i];
      }
    }
  }

  // ----- what the verdict says ---------------------------------------------------------------------

  lemma {:induction false} AcceptedShorter(sch: Scheme, recs: seq<Record>, j: nat, k: nat)
    requires j <= k <= |recs| && Accepted(sch, recs[..k])
    ensures Accepted(sch, recs[..j])
  {
    AcceptedPrefix(sch, recs[..k], j);
    assert recs[..k][..j] == recs[..j];
  }

  /** The first fault is where acceptance ends. */
  lemma {:induction false} FaultPosition(sch: Scheme, recs: seq<Record>, v: Verdict, k: nat, j: nat)
    requires k < |recs| && Accepted(sch, recs[..k]) && !Accepted(sch, recs[..k + 1]) && FaultAt(sch, v, recs, j)
    ensures j == k
  {
    if j < k { AcceptedShorter(sch, recs, j + 1, k); }
    if k < j { AcceptedShorter(sch, recs, k + 1, j); }
  }

  /** A rejected log is rejected for its first record that cannot follow, and the verdict says why: chain
      fields are missing; it does not hash to what it says; its number is not the next one of its writer;
      or it does not link to its writer's last record. */
  lemma {:induction false} VerdictSaysWhy(sch: Scheme, before: seq<Record>, r: Record, after: seq<Record>, v: Verdict)
    requires Accepted(sch, before) && !Accepted(sch, before + [r]) && FirstFault(sch, v, before + [r] + after)
    ensures var inst := Instance(r);
            var chain := Only(before, inst);
            if r.number.None? || r.prev.None? || r.hash.None? then v == MissingFields(|before|, inst)
            else
              var number := r.number.value.Value();
              if RecordHash(sch, r.number.value, r.prev.value, r.body) != r.hash.value then v == Altered(number, inst)
              else
                && chain != [] && HasChainFields(Last(chain))
                && var next := Last(chain).number.value.Value() + 1;
                   if number != next then v == Gap(inst, next, number) else v == BrokenLink(number, inst)
  {
    var recs, k := before + [r] + after, |before|;
    assert recs[..k] == before && recs[k] == r && recs[..k + 1] == before + [r];
    var j: nat :| FaultAt(sch, v, recs, j);
    FaultPosition(sch, recs, v, k, j);
    assert Blames(sch, v, before, r, k);
  }

  lemma {:induction false} OnlyConcat(a: seq<Record>, b: seq<Record>, inst: string)
    ensures Only(a + b, inst) == Only(a, inst) + Only(b, inst)
  {
    if b == [] {
      assert a + b == a;
    } else {
      assert a + b == a + b[..|b| - 1] + [Last(b)] && b == b[..|b| - 1] + [Last(b)];
      OnlyConcat(a, b[..|b| - 1], inst);
      OnlyAppend(a + b[..|b| - 1], Last(b), inst);
    }
  }

  /** A record taken out between two of its writer's is reported where the next one comes, as a gap that
      names the missing number. */
  lemma {:induction false} DeletionIsAGap(sch: Scheme, a: seq<Record>, x: Record, b: seq<Record>, y: Record,
                                          c: seq<Record>, v: Verdict)
    requires Accepted(sch, a + [x] + b + [y]) && Instance(x) == Instance(y)
    requires Only(a, Instance(x)) != [] && Only(b, Instance(x)) == []
    requires FirstFault(sch, v, a + b + [y] + c)
    ensures x.number.Some? && v == Gap(Instance(x), x.number.value.Value(), x.number.value.Value() + 1)
  {
    DeletedStops(sch, a, x, b, y, Instance(x));
    VerdictSaysWhy(sch, a + b, y, c, v);
  }

  lemma {:induction false} DeletedStops(sch: Scheme, a: seq<Record>, x: Record, b: seq<Record>, y: Record, inst: string)
    requires Accepted(sch, a + [x] + b + [y]) && Instance(x) == Instance(y) == inst
    requires Only(a, inst) != [] && Only(b, inst) == []
    ensures Accepted(sch, a + b) && !Accepted(sch, a + b + [y]) && SelfConsistent(sch, y)
    ensures x.number.Some? && y.number.value.Value() == x.number.value.Value() + 1
    ensures var chain := Only(a + b, inst);
            chain != [] && HasChainFields(Last(chain))
            && Last(chain).number.value.Value() + 1 == x.number.value.Value()
  {
    DeletedRuns(sch, a, x, b, y, inst);
    OnlyConcat(a, b, inst);
    assert Only(a + b, inst) == Only(a, inst);
    assert !Follows(Last(Only(a, inst)), y);
    AcceptAppend(sch, a + b, y);
  }

  lemma {:induction false} OnlyOfWhole(a: seq<Record>, x: Record, b: seq<Record>, y: Record, inst: string)
    ensures Only(a + [x] + b + [y], inst) ==
            Only(a, inst) + (if Instance(x) == inst then [x] else []) + Only(b, inst)
            + (if Instance(y) == inst then [y] else [])
  {
    OnlyAppend(a, x, inst);
    OnlyConcat(a + [x], b, inst);
    OnlyAppend(a + [x] + b, y, inst);
  }

  lemma {:induction false} LastTwoFollow(sch: Scheme, chain: seq<Record>, x: Record, y: Record)
    requires Linked(sch, chain + [x] + [y]) && chain != []
    ensures Follows(Last(chain), x) && Follows(x, y) && SelfConsistent(sch, y)
  {
    var longer, n := chain + [x] + [y], |chain|;
    assert longer[n - 1] == Last(chain) && longer[n] == x && longer[n + 1] == y;
    assert Follows(longer[n - 1], longer[n]) && Follows(longer[n], longer[n + 1]);
  }

  lemma {:induction false} LinkedStart(sch: Scheme, chain: seq<Record>, more: seq<Record>)
    requires Linked(sch, chain + more)
    ensures Linked(sch, chain)
  {
    SliceLinked(sch, chain + more, 0, |chain|);
    assert (chain + more)[0..|chain|] == chain;
  }

  /** Without the record the log is accepted up to the next one of its writer. */
  lemma {:induction false} DeletedRuns(sch: Scheme, a: seq<Record>, x: Record, b: seq<Record>, y: Record, inst: string)
    requires Accepted(sch, a + [x] + b + [y]) && Instance(x) == Instance(y) == inst
    requires Only(a, inst) != [] && Only(b, inst) == []
    ensures Accepted(sch, a + b) && Follows(Last(Only(a, inst)), x) && Follows(x, y) && SelfConsistent(sch, y)
  {
    OnlyOfWhole(a, x, b, y, inst);
    assert Linked(sch, Only(a + [x] + b + [y], inst));
    assert Only(a, inst) + [x] + [] + [y] == Only(a, inst) + [x] + [y];
    LastTwoFollow(sch, Only(a, inst), x, y);
    forall i ensures Linked(sch, Only(a + b, i)) { DeletedLinked(sch, a, x, b, y, i, inst); }
  }

  lemma {:induction false} DeletedLinked(sch: Scheme, a: seq<Record>, x: Record, b: seq<Record>, y: Record, i: string,
                                         inst: string)
    requires Accepted(sch, a + [x] + b + [y]) && Instance(x) == Instance(y) == inst && Only(b, inst) == []
    ensures Linked(sch, Only(a + b, i))
  {
    OnlyConcat(a, b, i);
    OnlyOfWhole(a, x, b, y, i);
    assert Linked(sch, Only(a + [x] + b + [y], i));
    StillLinked(sch, Only(a, i), Only(b, i), x, y, i == inst);
  }

  lemma {:induction false} StillLinked(sch: Scheme, p: seq<Record>, q: seq<Record>, x: Record, y: Record, mine: bool)
    requires Linked(sch, p + (if mine then [x] else []) + q + (if mine then [y] else [])) && (mine ==> q == [])
    ensures Linked(sch, p + q)
  {
    if mine {
      assert p + [x] + q + [y] == p + ([x] + [y]) && p + q == p;
      LinkedStart(sch, p, [x] + [y]);
    } else {
      assert p + [] + q + [] == p + q;
    }
  }

  // ----- tamper evidence ------------------------------------------------------------------

  /** A sub-chain as the writer starts it. */
  ghost predicate FromGenesis(chain: seq<Record>) {
    chain != [] ==> chain[0].number == Some(Num(0)) && chain[0].prev == Some(GENESIS)
  }

  /** Two self-consistent records with one hash are the same record. */
  lemma HashDeterminesRecord(sch: Scheme, a: Record, b: Record)
    requires sch.Ideal() && SelfConsistent(sch, a) && SelfConsistent(sch, b) && a.hash == b.hash
    ensures a == b
  {
    FrameInjective(a.number.value, a.prev.value, sch.canon(a.body), b.number.value, b.prev.value, sch.canon(b.body));
  }

  /** An accepted sub-chain that ends in a hash the writer produced is a contiguous piece of what
      the writer wrote, ending there: nothing in it was altered, inserted, reordered or dropped. */
  lemma {:induction false} TamperEvidence(sch: Scheme, written: seq<Record>, found: seq<Record>, k: nat)
    requires sch.Ideal()
    requires Linked(sch, written) && FromGenesis(written) && k < |written|
    requires Linked(sch, found) && found != [] && Last(found).hash == written[k].hash
    ensures EndsAt(found, written, k)
    decreases |found|
  {
    HashDeterminesRecord(sch, Last(found), written[k]);
    if |found| > 1 {
      WithoutItsLast(sch, written, found, k);
      TamperEvidence(sch, written, found[..|found| - 1], k - 1);
    }
    OneLonger(found, written, k);
  }

  /** `found` is the contiguous piece of `written` that ends with its `k`-th record. */
  ghost predicate EndsAt(found: seq<Record>, written: seq<Record>, k: int) {
    |found| <= k + 1 <= |written| && found == written[k + 1 - |found|..k + 1]
  }

  lemma {:induction false} OneLonger(found: seq<Record>, written: seq<Record>, k: nat)
    requires found != [] && k < |written| && Last(found) == written[k]
    requires |found| > 1 ==> EndsAt(found[..|found| - 1], written, k - 1)
    ensures EndsAt(found, written, k)
  {
    assert found == found[..|found| - 1] + [written[k]];
  }

  lemma {:induction false} WithoutItsLast(sch: Scheme, written: seq<Record>, found: seq<Record>, k: nat)
    requires sch.Ideal() && Linked(sch, written) && FromGenesis(written) && k < |written|
    requires Linked(sch, found) && |found| > 1 && Last(found) == written[k]
    ensures var shorter := found[..|found| - 1];
            k > 0 && Linked(sch, shorter) && Last(shorter).hash == written[k - 1].hash
  {
    SliceLinked(sch, found, 0, |found| - 1);
    LastFollows(sch, found);
    NotTheFirst(sch, written, k, found[|found| - 2]);
  }

  /** A record that follows another is not the first one written, and follows the same record there. */
  lemma {:induction false} NotTheFirst(sch: Scheme, written: seq<Record>, k: nat, before: Record)
    requires sch.Ideal() && Linked(sch, written) && FromGenesis(written) && k < |written|
    requires SelfConsistent(sch, before) && Follows(before, written[k])
    ensures k > 0 && written[k - 1].hash == before.hash
  {
    GenesisHasNoPredecessor(sch, before, written[k]);
    assert k > 0 ==> Follows(written[k - 1], written[k]);
  }

  lemma {:induction false} LastFollows(sch: Scheme, chain: seq<Record>)
    requires Linked(sch, chain) && |chain| > 1
    ensures Follows(Last(chain[..|chain| - 1]), Last(chain)) && SelfConsistent(sch, Last(chain[..|chain| - 1]))
  {
    assert Follows(chain[|chain| - 2], chain[|chain| - 1]);
  }

  lemma GenesisHasNoPredecessor(sch: Scheme, a: Record, b: Record)
    requires sch.Ideal() && SelfConsistent(sch, a) && Follows(a, b)
    ensures b.prev != Some(GENESIS)
  {}

  /** Exactly what an accepted sub-chain with a given last hash can be. */
  lemma {:induction false} AcceptedWithHeadIff(sch: Scheme, written: seq<Record>, found: seq<Record>, k: nat)
    requires sch.Ideal() && Linked(sch, written) && FromGenesis(written) && k < |written| && found != []
    ensures Linked(sch, found) && Last(found).hash == written[k].hash <==> EndsAt(found, written, k)
  {
    if Linked(sch, found) && Last(found).hash == written[k].hash {
      TamperEvidence(sch, written, found, k);
    }
    if EndsAt(found, written, k) {
      SliceLinked(sch, written, k + 1 - |found|, k + 1);
      assert Last(found) == written[k];
    }
  }

  lemma {:induction false} SliceLinked(sch: Scheme, chain: seq<Record>, from: nat, to: nat)
    requires Linked(sch, chain) && from <= to <= |chain|
    ensures Linked(sch, chain[from..to])
  {
    var slice := chain[from..to];
    assert forall i :: 0 <= i < |slice| ==> slice[i] == chain[from + i];
    forall i | 0 < i < |slice| ensures Follows(slice[i - 1], slice[i]) {
      assert Follows(chain[from + i - 1], chain[from + i]);
    }
  }
}
