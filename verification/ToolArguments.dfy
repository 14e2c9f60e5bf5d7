/** A tool's JSON Schema as a form, and the form back as call arguments.  JSON text, number syntax
    and `JSON.stringify` are the language's, so they come as parameters; numbers are mathematical. */
module ToolArguments {
  import opened Common

  /** A parsed JSON value; an object keeps its members in order, each name once. */
  datatype Json =
    | Null
    | Bool(b: bool)
    | Number(n: real)
    | Str(s: string)
    | Array(items: seq<Json>)
    | Object(members: seq<Member>)

  datatype Member = Member(name: string, value: Json)

  /** `JSON.parse`, `Number` restricted to finite results, and `JSON.stringify`. */
  datatype Language = Language(parse: string -> Option<Json>, number: string -> Option<real>, stringify: Json -> string)

  datatype Kind = KString | KNumber | KInteger | KBoolean | KEnum | KJson

  datatype Value = Text(s: string) | Flag(b: bool)

  datatype Field = Field(name: string, kind: Kind, required: bool, options: seq<string>, initial: Value)

  type Values = map<string, Value>

  // ----- from schema to form ------------------------------------------------------------

  function Lookup(members: seq<Member>, name: string): Option<Json> {
    if members == [] then None
    else if members[0].name == name then Some(members[0].value)
    else Lookup(members[1..], name)
  }

  function Property(j: Json, name: string): Option<Json> {
    if j.Object? then Lookup(j.members, name) else None
  }

  function Strings(items: seq<Json>): seq<string> {
    if items == [] then []
    else (if items[0].Str? then [items[0].s] else []) + Strings(items[1..])
  }

  function RequiredNames(schema: Json): seq<string> {
    var r := Property(schema, "required");
    if r.Some? && r.value.Array? then Strings(r.value.items) else []
  }

  predicate IsEnum(spec: Json) {
    var e := Property(spec, "enum");
    e.Some? && e.value.Array? && e.value.items != [] && forall i :: 0 <= i < |e.value.items| ==> e.value.items[i].Str?
  }

  /** A closed list wins over the declared type; anything not understood is a JSON box. */
  function KindOf(spec: Json): Kind {
    if IsEnum(spec) then KEnum
    else match Property(spec, "type")
      case Some(Str(t)) =>
        if t == "string" then KString else if t == "integer" then KInteger
        else if t == "number" then KNumber else if t == "boolean" then KBoolean else KJson
      case _ => KJson
  }

  function InitialFor(lang: Language, kind: Kind, default: Option<Json>): Value {
    if kind == KBoolean then Flag(default == Some(Bool(true)))
    else if default.None? then Text("")
    else if default.value.Str? then Text(default.value.s)
    else Text(lang.stringify(default.value))
  }

  function FieldOf(lang: Language, m: Member, required: seq<string>): Field {
    var kind := KindOf(m.value);
    Field(m.name, kind, m.name in required,
          if kind == KEnum then Strings(Property(m.value, "enum").value.items) else [],
          InitialFor(lang, kind, Property(m.value, "default")))
  }

  function FieldsOf(lang: Language, members: seq<Member>, required: seq<string>): (fields: seq<Field>)
    ensures |fields| == |members|
    ensures forall i :: 0 <= i < |members| ==> fields[i] == FieldOf(lang, members[i], required)
  {
    if members == [] then [] else [FieldOf(lang, members[0], required)] + FieldsOf(lang, members[1..], required)
  }

  function FieldsFor(lang: Language, schema: Json): seq<Field> {
    match Property(schema, "properties")
    case Some(Object(members)) => FieldsOf(lang, members, RequiredNames(schema))
    case _ => []
  }

  ghost predicate NamesOnce(members: seq<Member>) {
    forall i, j :: 0 <= i < j < |members| ==> members[i].name != members[j].name
  }

  ghost predicate OneFieldPerName(fields: seq<Field>) {
    forall i, j :: 0 <= i < j < |fields| ==> fields[i].name != fields[j].name
  }

  /** Controls that start as a checkbox are exactly the boolean ones. */
  ghost predicate Typed(fields: seq<Field>) {
    forall f :: f in fields ==> (f.initial.Flag? <==> f.kind == KBoolean)
  }

  lemma {:induction false} FieldsForIsWellFormed(lang: Language, schema: Json)
    requires var p := Property(schema, "properties"); p.Some? && p.value.Object? ==> NamesOnce(p.value.members)
    ensures OneFieldPerName(FieldsFor(lang, schema)) && Typed(FieldsFor(lang, schema))
  {
    var p := Property(schema, "properties");
    if p.Some? && p.value.Object? {
      var fields := FieldsFor(lang, schema);
      forall f | f in fields ensures f.initial.Flag? <==> f.kind == KBoolean {
        var i :| 0 <= i < |fields| && fields[i] == f;
        assert f == FieldOf(lang, p.value.members[i], RequiredNames(schema));
      }
    }
  }

  function InitialValues(fields: seq<Field>): Values {
    if fields == [] then map[] else InitialValues(fields[..|fields| - 1])[Last(fields).name := Last(fields).initial]
  }

  // ----- from form to arguments -----------------------------------------------------------

  /** What `String.prototype.trim` removes. */
  predicate IsSpace(c: char) {
    '\t' <= c <= '\r' || c == ' ' || c == '\U{a0}' || c == '\U{1680}' || '\U{2000}' <= c <= '\U{200a}'
    || c == '\U{2028}' || c == '\U{2029}' || c == '\U{202f}' || c == '\U{205f}' || c == '\U{3000}' || c == '\U{feff}'
  }

  /** The white space and line terminators of ECMA-262, sections 12.2 and 12.3, one by one. */
  lemma SpacesAre(c: char)
    ensures IsSpace(c) <==>
              c in "\t\n\U{b}\U{c}\r \U{a0}\U{1680}\U{2000}\U{2001}\U{2002}\U{2003}\U{2004}\U{2005}\U{2006}"
                   + "\U{2007}\U{2008}\U{2009}\U{200a}\U{2028}\U{2029}\U{202f}\U{205f}\U{3000}\U{feff}"
  {}

  function TrimLeft(s: string): string {
    if s != "" && IsSpace(s[0]) then TrimLeft(s[1..]) else s
  }

  function TrimRight(s: string): string {
    if s != "" && IsSpace(Last(s)) then TrimRight(s[..|s| - 1]) else s
  }

  function Trim(s: string): string {
    TrimRight(TrimLeft(s))
  }

  /** `/^-?\d+$/` */
  predicate IsWhole(text: string) {
    Unsigned(text) != "" && AllDigits(Unsigned(text))
  }

  function Unsigned(text: string): string {
    if text != "" && text[0] == '-' then text[1..] else text
  }

  predicate AllDigits(s: string) {
    forall i :: 0 <= i < |s| ==> '0' <= s[i] <= '9'
  }

  function DigitsValue(digits: string): int {
    if digits == "" then 0 else 10 * DigitsValue(digits[..|digits| - 1]) + (Last(digits) as int - '0' as int)
  }

  function WholeValue(text: string): int {
    if text != "" && text[0] == '-' then -DigitsValue(text[1..]) else DigitsValue(text)
  }

  function Entered(values: Values, name: string): Option<Value> {
    if name in values then Some(values[name]) else None
  }

  function EnteredText(values: Values, name: string): string {
    match Entered(values, name)
    case Some(Text(s)) => Trim(s)
    case _ => ""
  }

  predicate Untouched(f: Field, values: Values, initial: Values) {
    Entered(values, f.name) == Entered(initial, f.name)
  }

  datatype Built = Ok(args: map<string, Json>) | Failed(errors: map<string, string>)

  method BuildArguments(lang: Language, fields: seq<Field>, values: Values, initial: Values) returns (built: Built)
    ensures built == Build(lang, fields, values, initial)
  {
    var args: map<string, Json>, errors: map<string, string> := map[], map[];
    for k := 0 to |fields|
      invariant args == Args(lang, fields[..k], values, initial)
      invariant errors == Errors(lang, fields[..k], values, initial)
    {
      var f := fields[k];
      assert fields[..k + 1][..k] == fields[..k];
      if !f.required && Untouched(f, values, initial) {
        continue;
      }
      if f.kind == KBoolean {
        args := args[f.name := Bool(Entered(values, f.name) == Some(Flag(true)))];
        continue;
      }
      var text := EnteredText(values, f.name);
      if text == "" {
        if f.required {
          errors := errors[f.name := "Required."];
        }
        continue;
      }
      match f.kind {
        case KInteger =>
          if !IsWhole(text) {
            errors := errors[f.name := "Must be a whole number."];
          } else {
            args := args[f.name := Number(WholeValue(text) as real)];
          }
        case KNumber =>
          var n := lang.number(text);
          if n.None? {
            errors := errors[f.name := "Must be a number."];
          } else {
            args := args[f.name := Number(n.value)];
          }
        case KJson =>
          var j := lang.parse(text);
          if j.None? {
            errors := errors[f.name := "Must be valid JSON."];
          } else {
            args := args[f.name := j.value];
          }
        case _ =>
          args := args[f.name := Str(text)];
      }
    }
    assert fields[..|fields|] == fields;
    return if errors != map[] then Failed(errors) else Ok(args);
  }

  // ----- the rule, as a statement about one field ---------------------------------------------

  /** A field is sent if it is required or the operator changed it... */
  predicate Wanted(f: Field, values: Values, initial: Values) {
    f.required || !Untouched(f, values, initial)
  }

  /** ...and there is something to send: a checkbox always says something, text may be blank. */
  predicate Blank(f: Field, values: Values) {
    f.kind != KBoolean && EnteredText(values, f.name) == ""
  }

  /** The text cannot be read as the declared kind. */
  predicate Malformed(lang: Language, f: Field, text: string) {
    match f.kind
    case KInteger => !IsWhole(text)
    case KNumber => lang.number(text).None?
    case KJson => lang.parse(text).None?
    case _ => false
  }

  predicate Sent(lang: Language, f: Field, values: Values, initial: Values) {
    Wanted(f, values, initial) && !Blank(f, values) && !Malformed(lang, f, EnteredText(values, f.name))
  }

  predicate Reported(lang: Language, f: Field, values: Values, initial: Values) {
    Wanted(f, values, initial)
    && if Blank(f, values) then f.required else Malformed(lang, f, EnteredText(values, f.name))
  }

  /** The value sent for a field, in its declared kind. */
  function ValueOf(lang: Language, f: Field, values: Values): Json
    requires !Malformed(lang, f, EnteredText(values, f.name))
  {
    var text := EnteredText(values, f.name);
    match f.kind
    case KBoolean => Bool(Entered(values, f.name) == Some(Flag(true)))
    case KInteger => Number(WholeValue(text) as real)
    case KNumber => Number(lang.number(text).value)
    case KJson => lang.parse(text).value
    case _ => Str(text)
  }

  function ErrorOf(f: Field, values: Values): string {
    if Blank(f, values) then "Required."
    else match f.kind
      case KInteger => "Must be a whole number."
      case KNumber => "Must be a number."
      case _ => "Must be valid JSON."
  }

  function Args(lang: Language, fields: seq<Field>, values: Values, initial: Values): map<string, Json> {
    if fields == [] then map[]
    else
      var f, before := Last(fields), Args(lang, fields[..|fields| - 1], values, initial);
      if Sent(lang, f, values, initial) then before[f.name := ValueOf(lang, f, values)] else before
  }

  function Errors(lang: Language, fields: seq<Field>, values: Values, initial: Values): map<string, string> {
    if fields == [] then map[]
    else
      var f, before := Last(fields), Errors(lang, fields[..|fields| - 1], values, initial);
      if Reported(lang, f, values, initial) then before[f.name := ErrorOf(f, values)] else before
  }

  function Build(lang: Language, fields: seq<Field>, values: Values, initial: Values): Built {
    var errors := Errors(lang, fields, values, initial);
    if errors != map[] then Failed(errors) else Ok(Args(lang, fields, values, initial))
  }

  // ----- what is promised ------------------------------------------------------------------------

  /** Nothing but the fields is ever named in the arguments or the errors. */
  lemma {:induction false} OnlyFieldsAreNamed(lang: Language, fields: seq<Field>, values: Values, initial: Values,
                                              name: string)
    requires name in Args(lang, fields, values, initial) || name in Errors(lang, fields, values, initial)
    ensures exists i :: 0 <= i < |fields| && fields[i].name == name
  {
    var fewer := fields[..|fields| - 1];
    if Last(fields).name == name {
      assert fields[|fields| - 1].name == name;
    } else {
      OnlyFieldsAreNamed(lang, fewer, values, initial, name);
      var i :| 0 <= i < |fewer| && fewer[i].name == name;
      assert fields[i].name == name;
    }
  }

  /** Where one field of a form ends up. */
  lemma {:induction false} Placement(lang: Language, fields: seq<Field>, values: Values, initial: Values, k: nat)
    requires OneFieldPerName(fields) && k < |fields|
    ensures var f, args := fields[k], Args(lang, fields, values, initial);
            var errors := Errors(lang, fields, values, initial);
            && (f.name in args <==> Sent(lang, f, values, initial))
            && (f.name in args ==> args[f.name] == ValueOf(lang, f, values))
            && (f.name in errors <==> Reported(lang, f, values, initial))
            && (f.name in errors ==> errors[f.name] == ErrorOf(f, values))
  {
    var fewer, f := fields[..|fields| - 1], fields[k];
    assert forall i :: 0 <= i < |fewer| ==> fewer[i] == fields[i];
    if k < |fewer| {
      Placement(lang, fewer, values, initial, k);
    } else if f.name in Args(lang, fewer, values, initial) || f.name in Errors(lang, fewer, values, initial) {
      OnlyFieldsAreNamed(lang, fewer, values, initial, f.name);
    }
  }

  /** Every required field lands in exactly one of arguments and errors; an optional one that is
      untouched, or blank and not a checkbox, in neither; a touched one that is not blank in exactly
      one, and then an argument has its declared kind. */
  lemma {:induction false} EveryFieldHasItsPlace(lang: Language, fields: seq<Field>, values: Values, initial: Values,
                                                 k: nat)
    requires OneFieldPerName(fields) && k < |fields|
    ensures var f, args := fields[k], Args(lang, fields, values, initial);
            var errors := Errors(lang, fields, values, initial);
            var touched := if f.name in values && f.name in initial then values[f.name] != initial[f.name]
                           else f.name in values || f.name in initial;
            var text := if f.name in values && values[f.name].Text? then Trim(values[f.name].s) else "";
            var blank := f.kind != KBoolean && text == "";
            && !(f.name in args && f.name in errors)
            && (f.name in args || f.name in errors <==> f.required || (touched && !blank))
            && (f.required && blank ==> f.name in errors)
            && (f.name in args ==>
                 match f.kind
                 case KBoolean => args[f.name] == Bool(f.name in values && values[f.name] == Flag(true))
                 case KInteger => Numeral(text) && args[f.name].Number?
                                  && args[f.name].n == args[f.name].n.Floor as real
                                  && forall n: int :: Denotes(text, n) ==> args[f.name].n == n as real
                 case KNumber => args[f.name].Number? && lang.number(text) == Some(args[f.name].n)
                 case KJson => lang.parse(text) == Some(args[f.name])
                 case _ => args[f.name] == Str(text) && text != "")
            && (f.name in errors ==>
                 if blank then errors[f.name] == "Required."
                 else match f.kind
                   case KInteger => !Numeral(text) && errors[f.name] == "Must be a whole number."
                   case KNumber => lang.number(text).None? && errors[f.name] == "Must be a number."
                   case KJson => lang.parse(text).None? && errors[f.name] == "Must be valid JSON."
                   case _ => false)
  {
    Placement(lang, fields, values, initial, k);
    var text := EnteredText(values, fields[k].name);
    NumeralIsWhole(text);
    forall n: int | Denotes(text, n) ensures WholeValue(text) == n { DenotesValue(text, n); }
  }

  // ----- what a whole number's text denotes --------------------------------------------------------

  /** Digits, after a sign if there is one. */
  ghost predicate Numeral(text: string) {
    exists digits :: digits != "" && (text == digits || text == "-" + digits) && Digits(digits)
  }

  ghost predicate Digits(s: string) {
    forall c :: c in s ==> c in "0123456789"
  }

  /** The decimal notation of a number: no leading zero but for 0 itself, as in JSON. */
  function Decimal(n: nat): string {
    if n < 10 then ["0123456789"[n]] else Decimal(n / 10) + ["0123456789"[n % 10]]
  }

  function Magnitude(n: int): nat {
    if n < 0 then -n else n
  }

  ghost predicate Zeros(s: string) {
    forall i :: 0 <= i < |s| ==> s[i] == '0'
  }

  /** The text is the number's decimal notation, possibly with leading zeros. */
  ghost predicate Denotes(text: string, n: int) {
    exists zeros :: Zeros(zeros) && text == (if n < 0 then "-" else "") + (zeros + Decimal(Magnitude(n)))
  }

  lemma NumeralIsWhole(text: string)
    ensures Numeral(text) <==> IsWhole(text)
  {
    DigitsAre(Unsigned(text));
    assert text == Unsigned(text) || text == "-" + Unsigned(text);
    if Numeral(text) {
      var digits :| digits != "" && (text == digits || text == "-" + digits) && Digits(digits);
      DigitsAre(digits);
      assert text == "-" + digits ==> text[1..] == digits;
    }
  }

  lemma DigitsAre(s: string)
    ensures Digits(s) <==> AllDigits(s)
  {
    if AllDigits(s) {
      forall c | c in s ensures c in "0123456789" {
        var i :| 0 <= i < |s| && s[i] == c;
        DigitIn(s[i]);
      }
    }
    if Digits(s) {
      forall i | 0 <= i < |s| ensures '0' <= s[i] <= '9' { assert s[i] in s; }
    }
  }

  lemma DigitIn(c: char)
    requires '0' <= c <= '9'
    ensures c in "0123456789"
  {
    assert "0123456789"[c as int - '0' as int] == c;
  }

  lemma {:induction false} DecimalValue(n: nat)
    ensures DigitsValue(Decimal(n)) == n && Decimal(n) != "" && Decimal(n)[0] != '-'
  {
    if n >= 10 {
      DecimalValue(n / 10);
      assert Decimal(n)[..|Decimal(n)| - 1] == Decimal(n / 10);
      assert Decimal(n)[0] == Decimal(n / 10)[0];
    } else {
      assert Decimal(n)[..0] == "";
    }
  }

  lemma {:induction false} ZerosDoNotCount(zeros: string, digits: string)
    requires Zeros(zeros)
    ensures DigitsValue(zeros + digits) == DigitsValue(digits)
  {
    if digits != "" {
      assert (zeros + digits)[..|zeros + digits| - 1] == zeros + digits[..|digits| - 1];
      ZerosDoNotCount(zeros, digits[..|digits| - 1]);
    } else if zeros != "" {
      assert zeros + digits == zeros;
      assert zeros[..|zeros| - 1] + "" == zeros[..|zeros| - 1];
      ZerosDoNotCount(zeros[..|zeros| - 1], "");
    }
  }

  lemma DenotesValue(text: string, n: int)
    requires Denotes(text, n)
    ensures WholeValue(text) == n
  {
    var zeros :| Zeros(zeros) && text == (if n < 0 then "-" else "") + (zeros + Decimal(Magnitude(n)));
    var digits := zeros + Decimal(Magnitude(n));
    DecimalValue(Magnitude(n));
    ZerosDoNotCount(zeros, Decimal(Magnitude(n)));
    NoSign(zeros, Decimal(Magnitude(n)));
    SignedValue(text, digits, n < 0);
  }

  lemma NoSign(zeros: string, digits: string)
    requires Zeros(zeros) && digits != "" && digits[0] != '-'
    ensures (zeros + digits)[0] != '-'
  {
    if zeros != "" { assert (zeros + digits)[0] == zeros[0]; }
  }

  lemma SignedValue(text: string, digits: string, negative: bool)
    requires digits != "" && digits[0] != '-' && text == (if negative then "-" else "") + digits
    ensures WholeValue(text) == if negative then -DigitsValue(digits) else DigitsValue(digits)
  {
    if negative { assert text[1..] == digits; } else { assert text == digits; }
  }

  /** On success the arguments are exactly the fields that are required or touched, and a checkbox or
      not blank; on failure something is reported, and only about fields that had to be. */
  lemma {:induction false} SuccessSendsExactly(lang: Language, fields: seq<Field>, values: Values, initial: Values,
                                               name: string)
    requires OneFieldPerName(fields)
    ensures var built := Build(lang, fields, values, initial);
            && (if built.Ok? then built.args == Args(lang, fields, values, initial)
                else built.errors == Errors(lang, fields, values, initial))
            && (built.Ok? ==>
                  (name in built.args <==>
                     exists k :: 0 <= k < |fields| && fields[k].name == name
                              && Wanted(fields[k], values, initial) && !Blank(fields[k], values)))
            && (built.Ok? <==> forall k :: 0 <= k < |fields| ==> !Reported(lang, fields[k], values, initial))
  {
    var args, errors := Args(lang, fields, values, initial), Errors(lang, fields, values, initial);
    forall k | 0 <= k < |fields| ensures fields[k].name in errors <==> Reported(lang, fields[k], values, initial) {
      Placement(lang, fields, values, initial, k);
    }
    if errors != map[] {
      var n :| n in errors;
      OnlyFieldsAreNamed(lang, fields, values, initial, n);
      var k :| 0 <= k < |fields| && fields[k].name == n;
      assert Reported(lang, fields[k], values, initial);
    } else {
      if name in args {
        OnlyFieldsAreNamed(lang, fields, values, initial, name);
        var k :| 0 <= k < |fields| && fields[k].name == name;
        Placement(lang, fields, values, initial, k);
      }
      forall k | 0 <= k < |fields| && fields[k].name == name
                 && Wanted(fields[k], values, initial) && !Blank(fields[k], values)
        ensures name in args
      {
        Placement(lang, fields, values, initial, k);
        assert !Reported(lang, fields[k], values, initial);
      }
    }
  }

  /** An untouched form sends, or reports as missing, exactly its required fields. */
  lemma {:induction false} UntouchedFormSendsTheRequired(lang: Language, fields: seq<Field>, name: string)
    requires OneFieldPerName(fields)
    ensures var initial := InitialValues(fields);
            name in Args(lang, fields, initial, initial) || name in Errors(lang, fields, initial, initial)
            <==> exists k :: 0 <= k < |fields| && fields[k].name == name && fields[k].required
  {
    var initial := InitialValues(fields);
    if name in Args(lang, fields, initial, initial) || name in Errors(lang, fields, initial, initial) {
      OnlyFieldsAreNamed(lang, fields, initial, initial, name);
      var k :| 0 <= k < |fields| && fields[k].name == name;
      Placement(lang, fields, initial, initial, k);
    }
    forall k | 0 <= k < |fields| && fields[k].name == name && fields[k].required
      ensures name in Args(lang, fields, initial, initial) || name in Errors(lang, fields, initial, initial)
    {
      Placement(lang, fields, initial, initial, k);
    }
  }

  /** The starting value of each control is its field's own. */
  lemma {:induction false} InitialValuesAreTheFields(fields: seq<Field>, k: nat)
    requires OneFieldPerName(fields) && k < |fields|
    ensures Entered(InitialValues(fields), fields[k].name) == Some(fields[k].initial)
  {
    var fewer := fields[..|fields| - 1];
    assert forall i :: 0 <= i < |fewer| ==> fewer[i] == fields[i];
    if k < |fewer| { InitialValuesAreTheFields(fewer, k); }
  }

  /** From schema to call: opening the form and submitting it as it stands names exactly the
      properties the schema requires, so a default in the schema is left for the upstream to apply. */
  lemma {:induction false} UntouchedSchemaSendsItsRequired(lang: Language, schema: Json, members: seq<Member>,
                                                           name: string)
    requires Property(schema, "properties") == Some(Object(members)) && NamesOnce(members)
    ensures var fields := FieldsFor(lang, schema);
            var initial := InitialValues(fields);
            name in Args(lang, fields, initial, initial) || name in Errors(lang, fields, initial, initial)
            <==> name in RequiredNames(schema) && exists i :: 0 <= i < |members| && members[i].name == name
  {
    FieldsForIsWellFormed(lang, schema);
    var fields := FieldsFor(lang, schema);
    UntouchedFormSendsTheRequired(lang, fields, name);
    assert forall i :: 0 <= i < |members| ==> fields[i] == FieldOf(lang, members[i], RequiredNames(schema));
    if exists i :: 0 <= i < |members| && members[i].name == name {
      var i :| 0 <= i < |members| && members[i].name == name;
      assert fields[i].name == name;
    }
  }

  // ----- a field is what its property says ----------------------------------------------------------

  lemma {:induction false} StringsAre(items: seq<Json>, name: string)
    ensures name in Strings(items) <==> Str(name) in items
    ensures (forall i :: 0 <= i < |items| ==> items[i].Str?) ==>
              |Strings(items)| == |items| && forall i :: 0 <= i < |items| ==> Strings(items)[i] == items[i].s
  {
    if items != [] {
      assert items == [items[0]] + items[1..];
      StringsAre(items[1..], name);
    }
  }

  /** What the declared type makes of a property that is no closed list. */
  predicate TypeIs(kind: Kind, declared: Option<Json>) {
    match kind
    case KEnum => true
    case KString => declared == Some(Str("string"))
    case KNumber => declared == Some(Str("number"))
    case KInteger => declared == Some(Str("integer"))
    case KBoolean => declared == Some(Str("boolean"))
    case KJson =>
      !(declared.Some? && declared.value.Str? && declared.value.s in ["string", "integer", "number", "boolean"])
  }

  lemma KindIsTheTypes(spec: Json)
    ensures TypeIs(KindOf(spec), Property(spec, "type"))
  {}

  /** The name, kind, options and starting value of a field are those of its property, in the order of
      the schema; it is required if the schema lists it so. */
  lemma {:induction false} FieldDescribesItsProperty(lang: Language, schema: Json, members: seq<Member>, k: nat)
    requires Property(schema, "properties") == Some(Object(members)) && k < |members|
    ensures var fields, spec := FieldsFor(lang, schema), members[k].value;
            var enum, type_, default := Property(spec, "enum"), Property(spec, "type"), Property(spec, "default");
            var listed := Property(schema, "required");
            |fields| == |members| &&
            var f := fields[k];
            && f.name == members[k].name
            && (f.required <==> listed.Some? && listed.value.Array? && Str(f.name) in listed.value.items)
            && (f.kind == KEnum <==>
                  enum.Some? && enum.value.Array? && enum.value.items != []
                  && forall i :: 0 <= i < |enum.value.items| ==> enum.value.items[i].Str?)
            && (f.kind == KEnum ==>
                  && |f.options| == |enum.value.items|
                  && forall i :: 0 <= i < |f.options| ==> Str(f.options[i]) == enum.value.items[i])
            && TypeIs(f.kind, type_)
            && f.initial == if f.kind == KBoolean then Flag(default == Some(Bool(true)))
                            else match default
                              case None => Text("")
                              case Some(Str(d)) => Text(d)
                              case Some(d) => Text(lang.stringify(d))
  {
    KindIsTheTypes(members[k].value);
    var listed, enum := Property(schema, "required"), Property(members[k].value, "enum");
    if listed.Some? && listed.value.Array? { StringsAre(listed.value.items, members[k].name); }
    if enum.Some? && enum.value.Array? { StringsAre(enum.value.items, ""); }
  }

  /** The value looked up is the first one of that name. */
  lemma {:induction false} PropertyIs(members: seq<Member>, name: string, k: nat)
    requires k < |members| && members[k].name == name && forall j :: 0 <= j < k ==> members[j].name != name
    ensures Property(Object(members), name) == Some(members[k].value)
  {
    if k > 0 {
      PropertyIs(members[1..], name, k - 1);
    }
  }

  /** What is no object has no properties, and an object only those it lists. */
  lemma {:induction false} NoProperty(j: Json, name: string)
    requires j.Object? ==> forall k :: 0 <= k < |j.members| ==> j.members[k].name != name
    ensures Property(j, name).None?
    decreases if j.Object? then |j.members| else 0
  {
    if j.Object? && j.members != [] {
      NoProperty(Object(j.members[1..]), name);
    }
  }

  /** Trimming takes white space off both ends, all of it, and nothing else. */
  lemma TrimIs(s: string) returns (before: string, after: string)
    ensures s == before + Trim(s) + after
    ensures forall c :: c in before || c in after ==> IsSpace(c)
    ensures Trim(s) != "" ==> !IsSpace(Trim(s)[0]) && !IsSpace(Last(Trim(s)))
  {
    before := TrimLeftIs(s);
    after := TrimRightIs(TrimLeft(s));
    assert TrimLeft(s) == Trim(s) + after;
    if Trim(s) != "" { assert TrimLeft(s)[0] == Trim(s)[0]; }
  }

  lemma {:induction false} TrimLeftIs(s: string) returns (before: string)
    ensures s == before + TrimLeft(s) && forall c :: c in before ==> IsSpace(c)
    ensures TrimLeft(s) != "" ==> !IsSpace(TrimLeft(s)[0])
  {
    if s != "" && IsSpace(s[0]) {
      var rest := TrimLeftIs(s[1..]);
      before := [s[0]] + rest;
      assert s == [s[0]] + s[1..];
    } else {
      before := "";
    }
  }

  lemma {:induction false} TrimRightIs(s: string) returns (after: string)
    ensures s == TrimRight(s) + after && forall c :: c in after ==> IsSpace(c)
    ensures TrimRight(s) != "" ==> !IsSpace(Last(TrimRight(s)))
  {
    if s != "" && IsSpace(Last(s)) {
      var rest := TrimRightIs(s[..|s| - 1]);
      after := rest + [Last(s)];
      assert s == s[..|s| - 1] + [Last(s)];
    } else {
      after := "";
    }
  }
}
