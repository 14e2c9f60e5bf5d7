/** The restore panel: an apply is bound to the preview of exactly these inputs, although every input
    can be edited, and a chosen file can finish loading, while a call is in flight.

    Each render sees the state the previous event left; `run` is two events, up to its await and
    after it. */
module BackupRestore {
  import opened Common
  import opened JsonText

  datatype OnConflict = SkipIt | Overwrite | FailIt

  function ModeText(mode: OnConflict): Text {
    match mode
    case SkipIt => [115, 107, 105, 112]
    case Overwrite => [111, 118, 101, 114, 119, 114, 105, 116, 101]
    case FailIt => [102, 97, 105, 108]
  }

  datatype Inputs = Inputs(text: Text, passphrase: Text, onConflict: OnConflict, includeDeadletters: bool)

  function BoolText(b: bool): Text {
    if b then [116, 114, 117, 101] else [102, 97, 108, 115, 101]
  }

  /** `JSON.stringify([text, passphrase, onConflict, includeDeadletters])` */
  function SignatureOf(i: Inputs): Text {
    [91] + Element(i.text, Element(i.passphrase,
      Element(ModeText(i.onConflict), BoolText(i.includeDeadletters) + [93])))
  }

  lemma ModeTextInjective(a: OnConflict, b: OnConflict)
    requires ModeText(a) == ModeText(b)
    ensures a == b
  {
    assert ModeText(a)[0] == ModeText(b)[0];
  }

  /** Equal signatures mean equal inputs. */
  lemma SignatureInjective(a: Inputs, b: Inputs)
    requires SignatureOf(a) == SignatureOf(b)
    ensures a == b
  {
    var flagA, flagB := BoolText(a.includeDeadletters) + [93], BoolText(b.includeDeadletters) + [93];
    var modeA, modeB := Element(ModeText(a.onConflict), flagA), Element(ModeText(b.onConflict), flagB);
    var passA, passB := Element(a.passphrase, modeA), Element(b.passphrase, modeB);
    assert SignatureOf(a)[1..] == Element(a.text, passA) && SignatureOf(b)[1..] == Element(b.text, passB);
    ElementInjective(a.text, passA, b.text, passB);
    ElementInjective(a.passphrase, modeA, b.passphrase, modeB);
    ElementInjective(ModeText(a.onConflict), flagA, ModeText(b.onConflict), flagB);
    ModeTextInjective(a.onConflict, b.onConflict);
    assert flagA[0] == flagB[0];
  }

  /** What `String.prototype.trim` removes. */
  predicate IsSpace(u: Unit) {
    9 <= u <= 13 || u == 32 || u == 0xA0 || u == 0x1680 || 0x2000 <= u <= 0x200A || u == 0x2028 || u == 0x2029
    || u == 0x202F || u == 0x205F || u == 0x3000 || u == 0xFEFF
  }

  /** The white space and line terminators of ECMA-262, sections 12.2 and 12.3, one by one. */
  lemma SpacesAre(u: Unit)
    ensures IsSpace(u) <==>
              u in [0x9, 0xA, 0xB, 0xC, 0xD, 0x20, 0xA0, 0x1680, 0x2000, 0x2001, 0x2002, 0x2003, 0x2004, 0x2005,
                    0x2006, 0x2007, 0x2008, 0x2009, 0x200A, 0x2028, 0x2029, 0x202F, 0x205F, 0x3000, 0xFEFF]
  {}

  function TrimLeft(s: Text): Text {
    if s != [] && IsSpace(s[0]) then TrimLeft(s[1..]) else s
  }

  function TrimRight(s: Text): Text {
    if s != [] && IsSpace(Last(s)) then TrimRight(s[..|s| - 1]) else s
  }

  function Trim(s: Text): Text {
    TrimRight(TrimLeft(s))
  }

  /** A parsed archive, as the library's JSON parser represents it. */
  datatype Archive = Archive(value: Text)

  datatype Request = Request(archive: Archive, dryRun: bool, onConflict: OnConflict, includeDeadletters: bool,
                             passphrase: Option<Text>, planToken: Option<Text>)

  /** What the gateway answers; `dryRun` and the token are its word, not assumed to be honest. */
  datatype Report = Report(dryRun: bool, planToken: Option<Text>)

  /** A call in flight, with what its closure captured. */
  datatype Call = Call(dryRun: bool, inputs: Inputs)

  datatype Entry = Sent(request: Request) | Answered(report: Report) | Failed

  datatype Panel = Panel(inputs: Inputs, report: Option<Report>, busy: Option<Call>, error: bool,
                         previewed: Option<Text>, log: seq<Entry>)

  const EMPTY := Panel(Inputs([], [], SkipIt, false), None, None, false, None, [])

  predicate Applied(p: Panel) {
    p.report.Some? && !p.report.value.dryRun
  }

  predicate Stale(p: Panel) {
    p.report.Some? && !Applied(p) && p.previewed != Some(SignatureOf(p.inputs))
  }

  predicate Enabled(p: Panel, dryRun: bool) {
    && p.busy.None?
    && if dryRun then Trim(p.inputs.text) != [] else p.report.Some? && !Stale(p) && !Applied(p)
  }

  type Parser = Text -> Option<Archive>

  /** The request body; a token that is missing or empty is not sent, and neither is a blank passphrase. */
  function RequestOf(archive: Archive, i: Inputs, dryRun: bool, report: Option<Report>): Request {
    Request(archive, dryRun, i.onConflict, i.includeDeadletters,
            if Trim(i.passphrase) != [] then Some(Trim(i.passphrase)) else None,
            if !dryRun && report.Some? && report.value.planToken.Some? && report.value.planToken.value != []
            then report.value.planToken else None)
  }

  datatype Event =
    | Edit(inputs: Inputs)              // any change to any field
    | FileLoaded(text: Text)            // a chosen file finished loading, whenever that is
    | Click(dryRun: bool)               // Preview or Apply, when enabled
    | Reply(report: Option<Report>)     // the call in flight ends: a report, or an error

  function DoClick(parse: Parser, p: Panel, dryRun: bool): Panel {
    if !Enabled(p, dryRun) then p
    else
      var archive := parse(p.inputs.text);
      if archive.None? then p.(error := true)
      else p.(busy := Some(Call(dryRun, p.inputs)), error := false,
              log := p.log + [Sent(RequestOf(archive.value, p.inputs, dryRun, p.report))])
  }

  function DoReply(p: Panel, report: Option<Report>): Panel {
    if p.busy.None? then p
    else if report.None? then
      p.(report := None, previewed := None, error := true, busy := None, log := p.log + [Failed])
    else p.(report := report,
            previewed := if p.busy.value.dryRun then Some(SignatureOf(p.busy.value.inputs)) else None,
            busy := None,
            log := p.log + [Answered(report.value)])
  }

  function Step(parse: Parser, p: Panel, e: Event): Panel {
    match e
    case Edit(inputs) => p.(inputs := inputs)
    case FileLoaded(text) => p.(inputs := p.inputs.(text := text), report := None, previewed := None, error := false)
    case Click(dryRun) => DoClick(parse, p, dryRun)
    case Reply(report) => DoReply(p, report)
  }

  function Run(parse: Parser, p: Panel, es: seq<Event>): Panel
    decreases |es|
  {
    if es == [] then p else Run(parse, Step(parse, p, es[0]), es[1..])
  }

  /** The last event of a run acts on what the ones before it left. */
  lemma {:induction false} RunThen(parse: Parser, p: Panel, es: seq<Event>, e: Event)
    ensures Run(parse, p, es + [e]) == Step(parse, Run(parse, p, es), e)
    decreases |es|
  {
    if es == [] {
      assert es + [e] == [e];
    } else {
      assert (es + [e])[0] == es[0] && (es + [e])[1..] == es[1..] + [e];
      RunThen(parse, Step(parse, p, es[0]), es[1..], e);
    }
  }

  // ----- the component ------------------------------------------------------------------

  class RestorePanel {
    const parse: Parser
    var inputs: Inputs
    var report: Option<Report>
    var busy: Option<Call>
    var error: bool
    var previewed: Option<Text>
    var log: seq<Entry>

    ghost function View(): Panel
      reads this
    {
      Panel(inputs, report, busy, error, previewed, log)
    }

    constructor (parse: Parser)
      ensures this.parse == parse && View() == EMPTY
    {
      this.parse := parse;
      inputs, report, busy := Inputs([], [], SkipIt, false), None, None;
      error, previewed, log := false, None, [];
    }

    method PickedFileLoaded(text: Text)
      modifies this
      ensures View() == Step(parse, old(View()), FileLoaded(text))
    {
      inputs := inputs.(text := text);
      report := None;
      previewed := None;
      error := false;
    }

    /** `run` up to its await. */
    method BeginRun(dryRun: bool)
      requires Enabled(View(), dryRun)
      modifies this
      ensures View() == Step(parse, old(View()), Click(dryRun))
    {
      var archive := parse(inputs.text);
      if archive.None? {
        error := true;
        return;
      }
      busy := Some(Call(dryRun, inputs));
      error := false;
      log := log + [Sent(RequestOf(archive.value, inputs, dryRun, report))];
    }

    /** `run` after its await. */
    method EndRun(result: Option<Report>)
      requires busy.Some?
      modifies this
      ensures View() == Step(parse, old(View()), Reply(result))
    {
      if result.Some? {
        report := result;
        previewed := if busy.value.dryRun then Some(SignatureOf(busy.value.inputs)) else None;
        log := log + [Answered(result.value)];
      } else {
        report := None;
        previewed := None;
        error := true;
        log := log + [Failed];
      }
      busy := None;
    }
  }

  // ----- what is promised ------------------------------------------------------------------

  /** The request at `j` applies the plan of the preview just before it: answered at `j - 1`, sent at
      `j - 2`, the same in everything but the dry-run flag, and carrying that answer's token. */
  ghost predicate AppliesItsPreview(log: seq<Entry>, j: nat)
    requires j < |log| && log[j].Sent?
  {
    && j >= 2
    && log[j - 1].Answered? && log[j - 1].report.dryRun
    && log[j - 2].Sent? && log[j - 2].request.dryRun && log[j - 2].request.planToken.None?
    && log[j].request == log[j - 2].request.(
         dryRun := false,
         planToken := if log[j - 1].report.planToken == Some([]) then None else log[j - 1].report.planToken)
  }

  ghost predicate EveryApplyIsBound(log: seq<Entry>) {
    forall j :: 0 <= j < |log| && log[j].Sent? && !log[j].request.dryRun ==> AppliesItsPreview(log, j)
  }

  /** While nothing is in flight, a remembered signature belongs to the report on screen and to the
      last request, which was a preview of inputs with that signature. */
  ghost predicate Remembered(parse: Parser, p: Panel) {
    p.busy.None? && p.previewed.Some? ==>
      var n := |p.log|;
      && n >= 2 && p.report.Some?
      && p.log[n - 1] == Answered(p.report.value)
      && exists i: Inputs :: PreviewOf(parse, p.log[n - 2], i) && p.previewed.value == SignatureOf(i)
  }

  ghost predicate PreviewOf(parse: Parser, entry: Entry, i: Inputs) {
    parse(i.text).Some? && entry == Sent(RequestOf(parse(i.text).value, i, true, None))
  }

  /** The call in flight is the last thing in the log. */
  ghost predicate InFlight(parse: Parser, p: Panel) {
    p.busy.Some? ==>
      && p.log != [] && Last(p.log).Sent?
      && Last(p.log).request.dryRun == p.busy.value.dryRun
      && (p.busy.value.dryRun ==> PreviewOf(parse, Last(p.log), p.busy.value.inputs))
  }

  ghost predicate Inv(parse: Parser, p: Panel) {
    EveryApplyIsBound(p.log) && Remembered(parse, p) && InFlight(parse, p)
  }

  /** An apply that is enabled goes out with the inputs of the preview on screen. */
  lemma ApplyMatchesPreview(parse: Parser, p: Panel)
    requires Remembered(parse, p) && Enabled(p, false) && parse(p.inputs.text).Some?
    ensures var n := |p.log|;
            AppliesItsPreview(p.log + [Sent(RequestOf(parse(p.inputs.text).value, p.inputs, false, p.report))], n)
  {
    PreviewWasOfThese(parse, p);
    ApplyFollowsPreview(parse, p.log, p.inputs, p.report.value);
  }

  /** An enabled apply shows that the preview on screen was of the inputs as they are now. */
  lemma PreviewWasOfThese(parse: Parser, p: Panel)
    requires Remembered(parse, p) && Enabled(p, false)
    ensures |p.log| >= 2 && p.report.Some? && p.report.value.dryRun
    ensures Last(p.log) == Answered(p.report.value) && PreviewOf(parse, p.log[|p.log| - 2], p.inputs)
  {
    var i: Inputs :| PreviewOf(parse, p.log[|p.log| - 2], i) && p.previewed.value == SignatureOf(i);
    SignatureInjective(i, p.inputs);
  }

  lemma {:induction false} ApplyFollowsPreview(parse: Parser, log: seq<Entry>, i: Inputs, report: Report)
    requires |log| >= 2 && PreviewOf(parse, log[|log| - 2], i) && Last(log) == Answered(report) && report.dryRun
    ensures AppliesItsPreview(log + [Sent(RequestOf(parse(i.text).value, i, false, Some(report)))], |log|)
  {
    var longer := log + [Sent(RequestOf(parse(i.text).value, i, false, Some(report)))];
    assert longer[|log| - 1] == Last(log) && longer[|log| - 2] == log[|log| - 2];
  }

  lemma {:induction false} LogGrows(log: seq<Entry>, e: Entry)
    requires EveryApplyIsBound(log)
    requires e.Sent? && !e.request.dryRun ==> AppliesItsPreview(log + [e], |log|)
    ensures EveryApplyIsBound(log + [e])
  {
    var longer := log + [e];
    forall j | 0 <= j < |longer| && longer[j].Sent? && !longer[j].request.dryRun ensures AppliesItsPreview(longer, j) {
      if j < |log| { assert AppliesItsPreview(log, j); }
    }
  }

  lemma ClickKeepsInv(parse: Parser, p: Panel, dryRun: bool)
    requires Inv(parse, p)
    ensures Inv(parse, DoClick(parse, p, dryRun))
  {
    if Enabled(p, dryRun) && parse(p.inputs.text).Some? {
      if !dryRun { ApplyMatchesPreview(parse, p); }
      LogGrows(p.log, Sent(RequestOf(parse(p.inputs.text).value, p.inputs, dryRun, p.report)));
    }
  }

  lemma ReplyKeepsInv(parse: Parser, p: Panel, report: Option<Report>)
    requires Inv(parse, p)
    ensures Inv(parse, DoReply(p, report))
  {
    var t := DoReply(p, report);
    if p.busy.Some? {
      LogGrows(p.log, Last(t.log));
      if t.previewed.Some? {
        assert PreviewOf(parse, t.log[|p.log| - 1], p.busy.value.inputs);
      }
    }
  }

  lemma {:induction false} RunKeepsInv(parse: Parser, p: Panel, es: seq<Event>)
    requires Inv(parse, p)
    ensures Inv(parse, Run(parse, p, es))
    decreases |es|
  {
    if es != [] {
      match es[0] {
        case Click(dryRun) => ClickKeepsInv(parse, p, dryRun);
        case Reply(report) => ReplyKeepsInv(parse, p, report);
        case _ =>
      }
      RunKeepsInv(parse, Step(parse, p, es[0]), es[1..]);
    }
  }

  /** Over every sequence of edits, file loads, clicks, answers and errors: each apply request carries
      exactly the archive, passphrase, conflict mode and dead-letter flag of the preview that issued
      its plan token, and nothing was sent in between. */
  lemma {:induction false} ApplyIsBoundToItsPreview(parse: Parser, es: seq<Event>)
    ensures EveryApplyIsBound(Run(parse, EMPTY, es).log)
  {
    RunKeepsInv(parse, EMPTY, es);
  }

  /** Between two applies there is always a preview, and the gateway answered it. */
  lemma {:induction false} PreviewBetweenApplies(parse: Parser, es: seq<Event>, i: nat, j: nat)
    requires var log := Run(parse, EMPTY, es).log;
             && i < j < |log| && log[i].Sent? && log[j].Sent?
             && !log[i].request.dryRun && !log[j].request.dryRun
    ensures var log := Run(parse, EMPTY, es).log;
            exists k :: i < k < j - 1 && log[k].Sent? && log[k].request.dryRun && log[k + 1].Answered?
  {
    RunKeepsInv(parse, EMPTY, es);
    var log := Run(parse, EMPTY, es).log;
    assert AppliesItsPreview(log, j);
    assert log[j - 2].Sent? && log[j - 2 + 1].Answered?;
  }

  // ----- what each event does ----------------------------------------------------------------------

  ghost predicate Blank(s: Text) {
    forall u :: u in s ==> IsSpace(u)
  }

  /** Trimming takes white space off both ends, all of it, and nothing else. */
  lemma TrimIs(s: Text) returns (before: Text, after: Text)
    ensures s == before + Trim(s) + after && Blank(before) && Blank(after)
    ensures Trim(s) != [] ==> !IsSpace(Trim(s)[0]) && !IsSpace(Last(Trim(s)))
  {
    before := TrimLeftIs(s);
    after := TrimRightIs(TrimLeft(s));
    assert TrimLeft(s) == Trim(s) + after;
    if Trim(s) != [] { assert TrimLeft(s)[0] == Trim(s)[0]; }
  }

  lemma {:induction false} TrimLeftIs(s: Text) returns (before: Text)
    ensures s == before + TrimLeft(s) && Blank(before)
    ensures TrimLeft(s) != [] ==> !IsSpace(TrimLeft(s)[0])
  {
    if s != [] && IsSpace(s[0]) {
      var rest := TrimLeftIs(s[1..]);
      before := [s[0]] + rest;
      assert s == [s[0]] + s[1..];
    } else {
      before := [];
    }
  }

  lemma {:induction false} TrimRightIs(s: Text) returns (after: Text)
    ensures s == TrimRight(s) + after && Blank(after)
    ensures TrimRight(s) != [] ==> !IsSpace(Last(TrimRight(s)))
  {
    if s != [] && IsSpace(Last(s)) {
      var rest := TrimRightIs(s[..|s| - 1]);
      after := rest + [Last(s)];
      assert s == s[..|s| - 1] + [Last(s)];
    } else {
      after := [];
    }
  }

  /** A preview carries what the form shows: the archive in the text box, the choices, and the passphrase
      without its surrounding space, if there is one.  It goes out when nothing is in flight and the box
      is not blank; text that is not JSON is said to be so, and nothing goes out. */
  lemma PreviewCarriesTheForm(parse: Parser, p: Panel)
    ensures var t, i, phrase := Step(parse, p, Click(true)), p.inputs, Trim(p.inputs.passphrase);
            if p.busy.Some? || Trim(i.text) == [] then t == p
            else if parse(i.text).None? then t == p.(error := true)
            else
              && t.log == p.log + [Sent(Request(parse(i.text).value, true, i.onConflict, i.includeDeadletters,
                                                if phrase == [] then None else Some(phrase), None))]
              && t.busy == Some(Call(true, i)) && !t.error
              && t.inputs == i && t.report == p.report && t.previewed == p.previewed
  {}

  /** An apply goes out exactly when nothing is in flight and a plan is on screen that was made of the
      inputs as they are now; and with the plan's token. */
  lemma ApplyCarriesThePlan(parse: Parser, p: Panel)
    ensures var t, i, phrase := Step(parse, p, Click(false)), p.inputs, Trim(p.inputs.passphrase);
            if p.busy.Some? || p.report.None? || !p.report.value.dryRun || p.previewed != Some(SignatureOf(i)) then
              t == p
            else if parse(i.text).None? then t == p.(error := true)
            else
              var token := p.report.value.planToken;
              && t.log == p.log + [Sent(Request(parse(i.text).value, false, i.onConflict, i.includeDeadletters,
                                                if phrase == [] then None else Some(phrase),
                                                if token == Some([]) then None else token))]
              && t.busy == Some(Call(false, i))
  {}

  /** A reply is what is on screen next, as a plan of the inputs it was asked for, or as an outcome that
      can be applied no more; an error clears the screen of both. */
  lemma ReplyIsShown(parse: Parser, p: Panel, result: Option<Report>)
    requires p.busy.Some?
    ensures var t := Step(parse, p, Reply(result));
            && t.busy.None? && t.inputs == p.inputs && t.report == result
            && (result.None? ==> t.previewed.None? && t.error && t.log == p.log + [Failed])
            && (result.Some? ==>
                  && t.log == p.log + [Answered(result.value)] && t.error == p.error
                  && t.previewed == if p.busy.value.dryRun then Some(SignatureOf(p.busy.value.inputs)) else None)
  {}

  /** Editing changes the inputs and nothing else; a loaded file is the new text, and withdraws the plan. */
  lemma EditsAndFiles(parse: Parser, p: Panel, inputs: Inputs, text: Text)
    ensures Step(parse, p, Edit(inputs)) == p.(inputs := inputs)
    ensures var t := Step(parse, p, FileLoaded(text));
            && t.inputs == p.inputs.(text := text) && t.report.None? && t.previewed.None? && !t.error
            && t.busy == p.busy && t.log == p.log
  {}
}
