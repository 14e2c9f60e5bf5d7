/** The audit writer and its restarts, and every run of any number of writers on one file.

    `record` advances the chain and then writes; nothing else runs in between, so it is one step.
    A failed write leaves no bytes behind but has already advanced the chain. */
module AuditLog {
  import opened Common
  import opened AuditChain
  import opened AuditKeyring

  datatype Chain = Chain(next: int, prev: string)

  const FRESH := Chain(0, GENESIS)

  function Committed(sch: Scheme, c: Chain, body: Body): Record {
    Record(body, Some(Num(c.next)), Some(c.prev), Some(RecordHash(sch, Num(c.next), c.prev, body)))
  }

  function Advanced(sch: Scheme, c: Chain, body: Body): Chain {
    Chain(c.next + 1, RecordHash(sch, Num(c.next), c.prev, body))
  }

  /** Where a restarted writer continues: after its own last record in the file. */
  function Seed(file: seq<Line>, inst: string): Chain {
    var mine := Only(Records(file), inst);
    if mine != [] && Last(mine).number.Some? && Last(mine).hash.Some?
    then Chain(Last(mine).number.value.Value() + 1, Last(mine).hash.value)
    else FRESH
  }

  // ----- the objects ---------------------------------------------------------------------

  class LogFile {
    var lines: seq<Line>
  }

  class AuditLog {
    const sch: Scheme
    const vault: Vault
    const inst: string
    const tenant: string
    const file: LogFile?
    const keyring: TenantKeyring
    var next: int
    var prev: string

    ghost function State(): Chain
      reads this
    {
      Chain(next, prev)
    }

    constructor (sch: Scheme, vault: Vault, inst: string, tenant: string, file: LogFile?, keyring: TenantKeyring)
      requires inst != ""
      ensures this.sch == sch && this.vault == vault && this.inst == inst && this.tenant == tenant
      ensures this.file == file && this.keyring == keyring
      ensures State() == if file == null then FRESH else Seed(file.lines, inst)
    {
      this.sch, this.vault, this.inst, this.tenant := sch, vault, inst, tenant;
      this.file, this.keyring := file, keyring;
      next, prev := 0, GENESIS;
      new;
      if file != null {
        var last := LastRecord(file.lines, inst);
        if last.Some? && last.value.number.Some? && last.value.hash.Some? {
          next, prev := last.value.number.value.Value() + 1, last.value.hash.value;
        }
      }
    }

    /** Appends one record: seal, advance, write.  `tenant` is "" when the caller named none. */
    method Record(tenant: string, ts: string, payload: string, nonce: nat, rest: map<string, string>, written: bool)
      returns (rec: Record)
      modifies this, file
      ensures var who := if tenant != "" then tenant else this.tenant;
              var (enc, content) := Seal(vault, keyring.keys, who, payload, nonce);
              rec == Committed(sch, old(State()), Body(Some(inst), ts, Some(who), Some(enc), content, rest))
      ensures State() == Advanced(sch, old(State()), rec.body)
      ensures file != null ==> file.lines == old(file.lines) + (if written then [Entry(rec)] else [])
    {
      var who := if tenant != "" then tenant else this.tenant;
      var (enc, content) := Seal(vault, keyring.keys, who, payload, nonce);
      var framed := Body(Some(inst), ts, Some(who), Some(enc), content, rest);
      var digest := RecordHash(sch, Num(next), prev, framed);
      rec := AuditChain.Record(framed, Some(Num(next)), Some(prev), Some(digest));
      next, prev := next + 1, digest;
      if file != null && written {
        file.lines := file.lines + [Entry(rec)];
      }
    }

    /** `tenant` is "" when the caller named none. */
    method Read(tenant: string, limit: int) returns (rows: seq<Row>)
      ensures if file == null then rows == []
              else
                var who := if tenant != "" then tenant else this.tenant;
                ReadsBack(vault, keyring.keys, Records(file.lines), who, limit, rows)
    {
      if file == null {
        return [];
      }
      rows := AuditKeyring.Read(vault, keyring, file.lines, if tenant != "" then tenant else this.tenant, limit);
    }

    /** The record just written is the first row its tenant reads. */
    method RecordThenRead(tenant: string, ts: string, payload: string, nonce: nat, rest: map<string, string>,
                          limit: int)
      returns (rec: Record, rows: seq<Row>)
      requires file != null && vault.Sound()
      modifies this, file
      ensures rows != []
      ensures rows[0] == Row(Some(Num(old(next))), ts, Some(if tenant != "" then tenant else this.tenant), Some(inst),
                             Some(payload))
    {
      rec := Record(tenant, ts, payload, nonce, rest, true);
      ghost var before := old(file.lines);
      assert file.lines == before + [Entry(rec)] + [];
      rows := Read(tenant, limit);
      AppendLine(before, Entry(rec));
      var who := if tenant != "" then tenant else this.tenant;
      assert Count(Records(file.lines), who) == Count(Records(before), who) + 1 by {
        assert (Records(before) + [rec])[..|Records(before)|] == Records(before);
      }
      WrittenIsReadBack(vault, keyring.keys, keyring.keys, before, rec, [], limit, rows, payload, nonce);
    }
  }

  /** What was written is read back: while the tenant's key is what it was, the record is the tenant's
      row with as many before it as the tenant has later records, with its number, time, tenant and
      writer, and its content as it was recorded. */
  lemma {:induction false} WrittenIsReadBack(vault: Vault, sealing: map<string, Key>, keys: map<string, Key>,
                                             before: seq<Line>, rec: Record, after: seq<Line>, limit: int,
                                             rows: seq<Row>, payload: string, nonce: nat)
    requires vault.Sound() && rec.body.tenant.Some?
    requires var who := rec.body.tenant.value;
             && rec.body.enc == Some(Seal(vault, sealing, who, payload, nonce).0)
             && rec.body.content == Seal(vault, sealing, who, payload, nonce).1
             && (who in sealing ==> who in keys && keys[who] == sealing[who])
             && ReadsBack(vault, keys, Records(before + [Entry(rec)] + after), who, limit, rows)
             && Count(Records(after), who) < |rows|
    ensures rows[Count(Records(after), rec.body.tenant.value)]
            == Row(rec.number, rec.body.ts, rec.body.tenant, rec.body.instance, Some(payload))
  {
    var who := rec.body.tenant.value;
    var recs, p := Records(before + [Entry(rec)] + after), |Records(before)|;
    RecordsAppend(before + [Entry(rec)], after);
    AppendLine(before, Entry(rec));
    assert recs == Records(before) + [rec] + Records(after);
    assert recs[p + 1..] == Records(after) && recs[p] == rec;
    assert FromEnd(recs, who, Count(Records(after), who), p);
  }

  lemma {:induction false} RecordsAppend(lines: seq<Line>, more: seq<Line>)
    ensures Records(lines + more) == Records(lines) + Records(more)
  {
    if more == [] {
      assert lines + more == lines;
    } else {
      assert lines + more == lines + more[..|more| - 1] + [Last(more)];
      RecordsAppend(lines, more[..|more| - 1]);
      AppendLine(lines + more[..|more| - 1], Last(more));
    }
  }

  method LastRecord(file: seq<Line>, inst: string) returns (last: Option<Record>)
    requires inst != ""
    ensures var mine := Only(Records(file), inst);
            last == if mine == [] then None else Some(Last(mine))
  {
    var recs := Records(file);
    last := None;
    for k := 0 to |recs|
      invariant var mine := Only(recs[..k], inst);
                last == if mine == [] then None else Some(Last(mine))
    {
      assert recs[..k + 1] == recs[..k] + [recs[k]];
      OnlyAppend(recs[..k], recs[k], inst);
      if recs[k].body.instance == Some(inst) {
        last := Some(recs[k]);
      }
    }
    assert recs[..|recs|] == recs;
  }

  // ----- any number of writers on one file ------------------------------------------------

  datatype Event =
    | Start(inst: string)                                 // a process starts, or restarts, under this id
    | Append(inst: string, body: Body, written: bool)     // its writer records; the write may be lost
    | Skip                                                // a line this log's readers pass over

  /** One live writer per instance id.  `lost`, `torn` and `dropped` are history: how many
      records the live writer has lost since the last one it got into the file; whether a writer
      with records in the file has ever written right after losing one; whether any write was ever
      lost. */
  datatype World = World(lines: seq<Line>, chains: map<string, Chain>,
                         lost: map<string, nat>, torn: bool, dropped: bool)   // history

  const EMPTY := World([], map[], map[], false, false)

  function Mine(w: World, inst: string): seq<Record> {
    Only(Records(w.lines), inst)
  }

  predicate Live(w: World, e: Event) {
    e.Append? && e.inst in w.chains && e.inst in w.lost && e.body.instance == Some(e.inst)
  }

  function Step(sch: Scheme, w: World, e: Event): World {
    match e
    case Start(inst) => w.(chains := w.chains[inst := Seed(w.lines, inst)], lost := w.lost[inst := 0])
    case Skip => w.(lines := w.lines + [Noise])
    case Append(inst, body, written) =>
      if !Live(w, e) then w
      else
        var c := w.chains[inst];
        var next := w.chains[inst := Advanced(sch, c, body)];
        if written then
          w.(lines := w.lines + [Entry(Committed(sch, c, body))], chains := next,
             lost := w.lost[inst := 0],
             torn := w.torn || (w.lost[inst] > 0 && Mine(w, inst) != []))
        else w.(chains := next, lost := w.lost[inst := w.lost[inst] + 1], dropped := true)
  }

  function Run(sch: Scheme, w: World, es: seq<Event>): World
    decreases |es|
  {
    if es == [] then w else Run(sch, Step(sch, w, es[0]), es[1..])
  }

  /** A live writer is `lost` records ahead of the file; with none lost it continues the file. */
  ghost predicate InStep(c: Chain, mine: seq<Record>, lost: nat) {
    if mine == [] then lost == 0 ==> c == FRESH
    else
      && HasChainFields(Last(mine))
      && c.next == Last(mine).number.value.Value() + 1 + lost
      && (lost == 0 ==> c.prev == Last(mine).hash.value)
  }

  ghost predicate WritersOk(w: World) {
    forall inst :: inst in w.chains ==> inst in w.lost && InStep(w.chains[inst], Mine(w, inst), w.lost[inst])
  }

  ghost predicate AllFromGenesis(recs: seq<Record>) {
    forall inst :: FromGenesis(Only(recs, inst))
  }

  ghost predicate FileOk(sch: Scheme, recs: seq<Record>, torn: bool) {
    && (Accepted(sch, recs) <==> !torn)
    && (forall r :: r in recs ==> SelfConsistent(sch, r))
  }

  ghost predicate NothingLost(w: World) {
    && !w.torn
    && (forall inst :: inst in w.lost ==> w.lost[inst] == 0)
    && AllFromGenesis(Records(w.lines))
  }

  ghost predicate Inv(sch: Scheme, w: World) {
    && FileOk(sch, Records(w.lines), w.torn)
    && WritersOk(w)
    && (!w.dropped ==> NothingLost(w))
  }

  lemma OnlyIn(recs: seq<Record>, inst: string)
    ensures forall r :: r in Only(recs, inst) ==> r in recs && Instance(r) == inst
  {}

  lemma {:induction false} AppendLine(lines: seq<Line>, l: Line)
    ensures Records(lines + [l]) == Records(lines) + (if l.Entry? then [l.record] else [])
  {
    assert (lines + [l])[..|lines|] == lines;
  }

  lemma StepKeepsInv(sch: Scheme, w: World, e: Event)
    requires Inv(sch, w)
    ensures Inv(sch, Step(sch, w, e))
  {
    match e
    case Start(inst) => StartKeepsInv(sch, w, inst);
    case Skip => SkipKeepsInv(sch, w);
    case Append(inst, body, written) =>
      if Live(w, e) {
        if written { WriteKeepsInv(sch, w, e); } else { LossKeepsInv(sch, w, e); }
      }
  }

  /** A step that leaves the records of the file as they are. */
  lemma SameRecordsOk(sch: Scheme, w: World, t: World)
    requires Inv(sch, w) && Records(t.lines) == Records(w.lines) && t.torn == w.torn && WritersOk(t)
    requires t.dropped || (!w.dropped && forall i :: i in t.lost ==> t.lost[i] == 0)
    ensures Inv(sch, t)
  {}

  lemma SkipKeepsInv(sch: Scheme, w: World)
    requires Inv(sch, w)
    ensures Inv(sch, Step(sch, w, Skip))
  {
    AppendLine(w.lines, Noise);
    var t := Step(sch, w, Skip);
    assert Records(t.lines) == Records(w.lines);
    forall i | i in t.chains ensures i in t.lost && InStep(t.chains[i], Mine(t, i), t.lost[i]) {
      assert InStep(w.chains[i], Mine(w, i), w.lost[i]);
    }
    SameRecordsOk(sch, w, t);
  }

  /** A lost write puts the writer one further ahead of the file. */
  lemma LossKeepsInv(sch: Scheme, w: World, e: Event)
    requires Inv(sch, w) && Live(w, e) && !e.written
    ensures Inv(sch, Step(sch, w, e))
  {
    var t := Step(sch, w, e);
    assert t.lines == w.lines && t.dropped;
    assert InStep(w.chains[e.inst], Mine(w, e.inst), w.lost[e.inst]);
    assert WritersOk(t) by { assert forall i :: Mine(t, i) == Mine(w, i); }
    SameRecordsOk(sch, w, t);
  }

  lemma WriteKeepsInv(sch: Scheme, w: World, e: Event)
    requires Inv(sch, w) && Live(w, e) && e.written
    ensures Inv(sch, Step(sch, w, e))
  {
    WriteKeepsFileOk(sch, w, e);
    WriteKeepsWritersOk(sch, w, e);
  }

  lemma {:induction false} StartKeepsInv(sch: Scheme, w: World, inst: string)
    requires Inv(sch, w)
    ensures Inv(sch, Step(sch, w, Start(inst)))
  {
    OnlyIn(Records(w.lines), inst);
    var mine := Mine(w, inst);
    if mine != [] { assert SelfConsistent(sch, Last(mine)); }
    var t := Step(sch, w, Start(inst));
    assert forall i :: Mine(t, i) == Mine(w, i);
    assert InStep(t.chains[inst], mine, 0);
  }

  lemma WriteKeepsFileOk(sch: Scheme, w: World, e: Event)
    requires Inv(sch, w) && Live(w, e) && e.written
    ensures FileOk(sch, Records(Step(sch, w, e).lines), Step(sch, w, e).torn)
    ensures !w.dropped ==> NothingLost(Step(sch, w, e))
  {
    var rec, recs, mine := Committed(sch, w.chains[e.inst], e.body), Records(w.lines), Mine(w, e.inst);
    AppendLine(w.lines, Entry(rec));
    assert InStep(w.chains[e.inst], mine, w.lost[e.inst]);
    CommittedFollowsIff(sch, w.chains[e.inst], e.body, mine, w.lost[e.inst]);
    FileOkAppend(sch, recs, rec, w.torn, Step(sch, w, e).torn);
    if !w.dropped { GenesisAppend(recs, rec); }
  }

  /** A writer's next record follows its last one in the file exactly if it has lost none in between. */
  lemma {:induction false} CommittedFollowsIff(sch: Scheme, c: Chain, body: Body, mine: seq<Record>, lost: nat)
    requires InStep(c, mine, lost)
    ensures SelfConsistent(sch, Committed(sch, c, body))
    ensures mine != [] ==> (Follows(Last(mine), Committed(sch, c, body)) <==> lost == 0)
  {}

  lemma {:induction false} FileOkAppend(sch: Scheme, recs: seq<Record>, rec: Record, torn: bool, next: bool)
    requires FileOk(sch, recs, torn) && SelfConsistent(sch, rec)
    requires var mine := Only(recs, Instance(rec));
             next <==> torn || (mine != [] && !Follows(Last(mine), rec))
    ensures FileOk(sch, recs + [rec], next)
  {
    if torn {
      assert (recs + [rec])[..|recs|] == recs;
      if Accepted(sch, recs + [rec]) { AcceptedPrefix(sch, recs + [rec], |recs|); }
    } else {
      AcceptAppend(sch, recs, rec);
    }
  }

  lemma {:induction false} GenesisAppend(recs: seq<Record>, rec: Record)
    requires AllFromGenesis(recs)
    requires Only(recs, Instance(rec)) == [] ==> rec.number == Some(Num(0)) && rec.prev == Some(GENESIS)
    ensures AllFromGenesis(recs + [rec])
  {
    forall i ensures FromGenesis(Only(recs + [rec], i)) {
      OnlyAppend(recs, rec, i);
      assert FromGenesis(Only(recs, i));
      var mine := Only(recs, i);
      if mine != [] { assert Only(recs + [rec], i)[0] == mine[0]; }
    }
  }

  lemma WriteKeepsWritersOk(sch: Scheme, w: World, e: Event)
    requires WritersOk(w) && Live(w, e) && e.written
    ensures WritersOk(Step(sch, w, e))
  {
    AppendLine(w.lines, Entry(Committed(sch, w.chains[e.inst], e.body)));
    WritersGoOn(sch, w, Step(sch, w, e), e);
  }

  lemma WritersGoOn(sch: Scheme, w: World, t: World, e: Event)
    requires WritersOk(w) && Live(w, e)
    requires t.chains == w.chains[e.inst := Advanced(sch, w.chains[e.inst], e.body)] && t.lost == w.lost[e.inst := 0]
    requires Records(t.lines) == Records(w.lines) + [Committed(sch, w.chains[e.inst], e.body)]
    ensures WritersOk(t)
  {
    forall i | i in t.chains ensures i in t.lost && InStep(t.chains[i], Mine(t, i), t.lost[i]) {
      OnlyAppend(Records(w.lines), Committed(sch, w.chains[e.inst], e.body), i);
      if i == e.inst {
        WriterGoesOn(sch, w.chains[i], e.body, Mine(w, i));
      } else {
        OtherWriter(w, t, i);
      }
    }
  }

  lemma OtherWriter(w: World, t: World, i: string)
    requires WritersOk(w) && i in w.chains && i in t.chains && t.chains[i] == w.chains[i]
    requires i in t.lost && (i in w.lost ==> t.lost[i] == w.lost[i]) && Mine(t, i) == Mine(w, i)
    ensures InStep(t.chains[i], Mine(t, i), t.lost[i])
  {}

  lemma {:induction false} WriterGoesOn(sch: Scheme, c: Chain, body: Body, mine: seq<Record>)
    ensures InStep(Advanced(sch, c, body), mine + [Committed(sch, c, body)], 0)
  {
    assert Last(mine + [Committed(sch, c, body)]) == Committed(sch, c, body);
  }

  lemma {:induction false} RunKeepsInv(sch: Scheme, w: World, es: seq<Event>)
    requires Inv(sch, w)
    ensures Inv(sch, Run(sch, w, es))
    decreases |es|
  {
    if es != [] {
      StepKeepsInv(sch, w, es[0]);
      RunKeepsInv(sch, Step(sch, w, es[0]), es[1..]);
    }
  }

  lemma {:induction false} RunAppend(sch: Scheme, w: World, es: seq<Event>, fs: seq<Event>)
    ensures Run(sch, w, es + fs) == Run(sch, Run(sch, w, es), fs)
    decreases |es|
  {
    if es == [] {
      assert es + fs == fs;
    } else {
      assert (es + fs)[0] == es[0] && (es + fs)[1..] == es[1..] + fs;
      RunAppend(sch, Step(sch, w, es[0]), es[1..], fs);
    }
  }

  /** The last event of a run acts on what the ones before it left. */
  lemma {:induction false} RunThen(sch: Scheme, w: World, es: seq<Event>, e: Event)
    ensures Run(sch, w, es + [e]) == Step(sch, Run(sch, w, es), e)
  {
    RunAppend(sch, w, es, [e]);
  }

  /** The file grows by the line a live writer gets written, or by a foreign one, and never otherwise. */
  lemma FileGrows(sch: Scheme, w: World, e: Event)
    ensures var t := Step(sch, w, e);
            match e
            case Start(_) => t.lines == w.lines
            case Skip => t.lines == w.lines + [Noise] && t.chains == w.chains
            case Append(inst, body, written) =>
              if Live(w, e) && written then
                && |t.lines| == |w.lines| + 1 && t.lines[..|w.lines|] == w.lines && Last(t.lines).Entry?
                && var rec := Last(t.lines).record;
                   && rec.body == body && rec.prev == Some(w.chains[inst].prev)
                   && rec.number == Some(Num(w.chains[inst].next)) && SelfConsistent(sch, rec)
              else t.lines == w.lines
  {}

  // ----- what is promised --------------------------------------------------------------------

  lemma EmptyOk(sch: Scheme)
    ensures Inv(sch, EMPTY)
  {}

  /** Writer and verifier agree over every run: the file is accepted exactly when no writer that
      already had a record in it wrote another one right after losing some. */
  lemma {:induction false} AcceptedIffNotTorn(sch: Scheme, es: seq<Event>)
    ensures Accepted(sch, Records(Run(sch, EMPTY, es).lines)) <==> !Run(sch, EMPTY, es).torn
  {
    EmptyOk(sch);
    RunKeepsInv(sch, EMPTY, es);
  }

  ghost predicate AllWritten(es: seq<Event>) {
    forall e :: e in es && e.Append? ==> e.written
  }

  lemma {:induction false} WrittenDropsNothing(sch: Scheme, w: World, es: seq<Event>)
    requires AllWritten(es)
    ensures Run(sch, w, es).dropped == w.dropped
    decreases |es|
  {
    if es != [] { WrittenDropsNothing(sch, Step(sch, w, es[0]), es[1..]); }
  }

  /** Every file produced by any interleaving of writers, restarts and foreign lines is accepted,
      and every sub-chain in it starts at genesis, as long as writes succeed. */
  lemma {:induction false} IntactRunIsAccepted(sch: Scheme, es: seq<Event>)
    requires AllWritten(es)
    ensures Accepted(sch, Records(Run(sch, EMPTY, es).lines))
    ensures AllFromGenesis(Records(Run(sch, EMPTY, es).lines))
  {
    EmptyOk(sch);
    RunKeepsInv(sch, EMPTY, es);
    WrittenDropsNothing(sch, EMPTY, es);
  }

  /** Rejection is permanent: nothing any writer does later makes the file acceptable again. */
  lemma {:induction false} RejectionIsPermanent(sch: Scheme, es: seq<Event>, fs: seq<Event>)
    requires !Accepted(sch, Records(Run(sch, EMPTY, es).lines))
    ensures !Accepted(sch, Records(Run(sch, EMPTY, es + fs).lines))
  {
    AcceptedIffNotTorn(sch, es);
    AcceptedIffNotTorn(sch, es + fs);
    RunAppend(sch, EMPTY, es, fs);
    TornStays(sch, Run(sch, EMPTY, es), fs);
  }

  lemma {:induction false} TornStays(sch: Scheme, w: World, fs: seq<Event>)
    requires w.torn
    ensures Run(sch, w, fs).torn
    decreases |fs|
  {
    if fs != [] { TornStays(sch, Step(sch, w, fs[0]), fs[1..]); }
  }

  /** What the other writers do between one writer's two records. */
  ghost predicate Others(es: seq<Event>, inst: string) {
    forall e :: e in es ==> e.Skip? || e.inst != inst
  }

  lemma {:induction false} OtherLeavesRecords(sch: Scheme, w: World, e: Event, inst: string)
    requires e.Skip? || e.inst != inst
    ensures Mine(Step(sch, w, e), inst) == Mine(w, inst)
  {
    var t := Step(sch, w, e);
    if e.Skip? {
      AppendLine(w.lines, Noise);
      assert Records(t.lines) == Records(w.lines);
    } else if Live(w, e) && e.written {
      var rec := Committed(sch, w.chains[e.inst], e.body);
      AppendLine(w.lines, Entry(rec));
      assert Records(t.lines) == Records(w.lines) + [rec];
      OnlyAppend(Records(w.lines), rec, inst);
    } else {
      assert t.lines == w.lines;
    }
  }

  lemma {:induction false} OthersLeaveWriter(sch: Scheme, w: World, fs: seq<Event>, inst: string)
    requires Others(fs, inst) && inst in w.chains && inst in w.lost
    ensures var t := Run(sch, w, fs);
            && inst in t.chains && t.chains[inst] == w.chains[inst]
            && inst in t.lost && t.lost[inst] == w.lost[inst]
            && Mine(t, inst) == Mine(w, inst)
            && (w.torn ==> t.torn)
    decreases |fs|
  {
    if fs != [] {
      var e := fs[0];
      assert e.Skip? || e.inst != inst;
      OtherLeavesRecords(sch, w, e, inst);
      OthersLeaveWriter(sch, Step(sch, w, e), fs[1..], inst);
    }
  }

  /** A lost write followed by another from the same process.  It is reported when, and only when,
      the file held a record of that writer before the loss: the verifier anchors no first record,
      so a writer whose very first writes are lost leaves an acceptable file. */
  lemma {:induction false} LostWriteReportedIff(sch: Scheme, es: seq<Event>, inst: string, lost: Body, fs: seq<Event>,
                                                kept: Body)
    requires var w := Run(sch, EMPTY, es);
             && inst in w.chains && Accepted(sch, Records(w.lines))
             && lost.instance == Some(inst) && kept.instance == Some(inst)
    requires Others(fs, inst) && Accepted(sch, Records(Run(sch, EMPTY, es + [Append(inst, lost, false)] + fs).lines))
    ensures var after := Run(sch, EMPTY, es + [Append(inst, lost, false)] + fs + [Append(inst, kept, true)]);
            Accepted(sch, Records(after.lines)) <==> Mine(Run(sch, EMPTY, es), inst) == []
  {
    var w := Run(sch, EMPTY, es);
    EmptyOk(sch);
    RunKeepsInv(sch, EMPTY, es);
    var first, second := Append(inst, lost, false), Append(inst, kept, true);
    RunAppend(sch, EMPTY, es, [first]);
    RunAppend(sch, EMPTY, es + [first], fs);
    RunAppend(sch, EMPTY, es + [first] + fs, [second]);
    var w1 := Step(sch, w, first);
    assert Run(sch, w, [first]) == w1;
    OthersLeaveWriter(sch, w1, fs, inst);
    var w2 := Run(sch, w1, fs);
    assert Run(sch, w2, [second]) == Step(sch, w2, second);
    AcceptedIffNotTorn(sch, es + [first] + fs);
    AcceptedIffNotTorn(sch, es + [first] + fs + [second]);
  }

  /** Tamper evidence for what was really written: take any run of writers, restarts and lost writes
      whose file is accepted, any writer whose records in it start at genesis, and any file a verifier
      accepts whose last record of that writer carries the hash of its k-th record.  The writer's
      records in that file are exactly its records up to that one, possibly without the oldest. */
  lemma {:induction false} TamperEvidenceOverRuns(sch: Scheme, es: seq<Event>, found: seq<Record>, inst: string, k: nat)
    requires sch.Ideal() && Accepted(sch, found)
    requires Accepted(sch, Records(Run(sch, EMPTY, es).lines)) && FromGenesis(Mine(Run(sch, EMPTY, es), inst))
    requires var written, kept := Mine(Run(sch, EMPTY, es), inst), Only(found, inst);
             k < |written| && kept != [] && Last(kept).hash == written[k].hash
    ensures EndsAt(Only(found, inst), Mine(Run(sch, EMPTY, es), inst), k)
  {
    var recs := Records(Run(sch, EMPTY, es).lines);
    assert Linked(sch, Only(recs, inst)) && Linked(sch, Only(found, inst));
    TamperEvidence(sch, Only(recs, inst), Only(found, inst), k);
  }

  /** A run without lost writes is such a run, for every writer. */
  lemma {:induction false} IntactRunIsEvident(sch: Scheme, es: seq<Event>, found: seq<Record>, inst: string, k: nat)
    requires sch.Ideal() && Accepted(sch, found) && AllWritten(es)
    requires var written, kept := Mine(Run(sch, EMPTY, es), inst), Only(found, inst);
             k < |written| && kept != [] && Last(kept).hash == written[k].hash
    ensures EndsAt(Only(found, inst), Mine(Run(sch, EMPTY, es), inst), k)
  {
    IntactRunIsAccepted(sch, es);
    TamperEvidenceOverRuns(sch, es, found, inst, k);
  }
}
