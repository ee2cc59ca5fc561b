/**
 * Form handling: decoding the entries of a submitted form into a plain
 * object, and validating an object against a schema of per-field rules.
 */
module Form {

  import opened Wrappers
  import opened JsValues
  import Strings

  /** A form entry's value: text, or an uploaded file. */
  datatype FormValue = Text(s: string) | Upload(name: string, size: nat)

  datatype Entry = Entry(key: string, value: FormValue)

  predicate IsIdKey(key: string) {
    key == "id" || Strings.EndsWith(key, "Id")
  }

  /** `!isNaN(Number(s)) && !isNaN(parseFloat(s))` */
  predicate IsNumeric(s: string, host: Host) {
    host.numberOf(s).Some? && host.parseFloat(s).Some?
  }

  /**
   * What `parseFormData` writes for one entry, if anything: underscore keys
   * and empty files are skipped, `''` becomes null, a numeric string becomes
   * its `parseFloat` value (unless the key names an id), `'true'`/`'false'`
   * become booleans, and any other text is kept.
   */
  function Decode(e: Entry, host: Host): (r: Option<JsValue>)
    ensures Strings.StartsWith(e.key, "_") ==> r.None?
    ensures r.None? <==> Strings.StartsWith(e.key, "_") || (e.value.Upload? && e.value.size == 0)
    ensures r.Some? && e.value.Text? ==> r.value.Null? || r.value.Num? || r.value.Bool? || r.value.Str?
    ensures r.Some? && e.value == Text("") ==> r.value == Null
    ensures r.Some? && r.value.Num? ==> e.value.Text? && !IsIdKey(e.key) && IsNumeric(e.value.s, host)
    ensures (r.Some? && e.value.Text? && e.value.s != "" && IsNumeric(e.value.s, host) && IsIdKey(e.key)
             ==> r.value == Str(e.value.s))
  {
    if Strings.StartsWith(e.key, "_") then None
    else match e.value
      case Upload(name, size) => if size > 0 then Some(File(name, size)) else None
      case Text(s) =>
        if s == "" then Some(Null)
        else if IsNumeric(s, host) then
          if IsIdKey(e.key) then Some(Str(s)) else Some(Num(host.parseFloat(s).value))
        else if s == "true" then Some(Bool(true))
        else if s == "false" then Some(Bool(false))
        else Some(Str(s))
  }

  /** The object after the loop has visited `entries` in order. */
  function Parsed(entries: seq<Entry>, host: Host): Object {
    if entries == [] then map[]
    else
      var result := Parsed(entries[..|entries| - 1], host);
      var e := entries[|entries| - 1];
      match Decode(e, host)
      case Some(v) => result[e.key := v]
      case None => result
  }

  /** `parseFormData` */
  method ParseFormData(entries: seq<Entry>, host: Host) returns (result: Object)
    ensures result == Parsed(entries, host)
  {
    result := map[];
    var i := 0;
    while i < |entries|
      invariant 0 <= i <= |entries|
      invariant result == Parsed(entries[..i], host)
    {
      assert entries[..i + 1][..i] == entries[..i];
      var key := entries[i].key;
      var value := entries[i].value;
      i := i + 1;
      if Strings.StartsWith(key, "_") {
        continue;
      }
      if value.Upload? {
        if value.size > 0 {
          result := result[key := File(value.name, value.size)];
        }
        continue;
      }
      if value.s == "" {
        result := result[key := Null];
        continue;
      }
      if host.numberOf(value.s).Some? && host.parseFloat(value.s).Some? {
        if key == "id" || Strings.EndsWith(key, "Id") {
          result := result[key := Str(value.s)];
        } else {
          result := result[key := Num(host.parseFloat(value.s).value)];
        }
        continue;
      }
      if value.s == "true" {
        result := result[key := Bool(true)];
        continue;
      }
      if value.s == "false" {
        result := result[key := Bool(false)];
        continue;
      }
      result := result[key := Str(value.s)];
    }
    assert entries[..|entries|] == entries;
  }

  /** No key starting with '_' is ever written. */
  lemma {:induction false} ParsedSkipsUnderscore(entries: seq<Entry>, host: Host)
    ensures forall k :: k in Parsed(entries, host) ==> !Strings.StartsWith(k, "_")
  {
    if entries != [] {
      ParsedSkipsUnderscore(entries[..|entries| - 1], host);
    }
  }

  /** A key is present exactly when some entry with that key decodes to a value. */
  lemma {:induction false} ParsedKeys(entries: seq<Entry>, host: Host, k: string)
    ensures k in Parsed(entries, host) <==>
      exists i :: 0 <= i < |entries| && entries[i].key == k && Decode(entries[i], host).Some?
  {
    if entries != [] {
      var init := entries[..|entries| - 1];
      ParsedKeys(init, host, k);
      if exists i :: 0 <= i < |init| && init[i].key == k && Decode(init[i], host).Some? {
        var i :| 0 <= i < |init| && init[i].key == k && Decode(init[i], host).Some?;
        assert entries[i] == init[i];
      }
      if exists i :: 0 <= i < |entries| && entries[i].key == k && Decode(entries[i], host).Some? {
        var i :| 0 <= i < |entries| && entries[i].key == k && Decode(entries[i], host).Some?;
        if i < |init| {
          assert entries[i] == init[i];
        }
      }
    }
  }

  /**
   * When a key repeats, the last entry that writes it wins: its decoded
   * value is the one in the result.
   */
  lemma {:induction false} ParsedLastWins(entries: seq<Entry>, host: Host, i: nat)
    requires i < |entries| && Decode(entries[i], host).Some?
    requires forall j :: i < j < |entries| && entries[j].key == entries[i].key ==> Decode(entries[j], host).None?
    ensures entries[i].key in Parsed(entries, host)
    ensures Parsed(entries, host)[entries[i].key] == Decode(entries[i], host).value
  {
    if i < |entries| - 1 {
      var init := entries[..|entries| - 1];
      assert init[i] == entries[i];
      ParsedLastWins(init, host, i);
    }
  }

  // ---------------------------------------------------------------------
  // validateFormData
  // ---------------------------------------------------------------------

  /** A schema entry: `{required?, type?, min?, max?}`. */
  datatype Rules = Rules(required: bool, kind: Option<string>, min: Option<real>, max: Option<real>)

  /** Why a field fails; the message text is not modelled. */
  datatype Problem = Required | NotNumber | NotString | NotBoolean | NotDate | TooSmall | TooLarge

  predicate IsEmpty(v: JsValue) {
    v == Undefined || v == Null || v == Str("")
  }

  /**
   * `s.length`: the number of UTF-16 code units, so a character outside the
   * Basic Multilingual Plane (an emoji, say) counts twice.
   */
  function Utf16Length(s: string): (n: nat)
    ensures |s| <= n <= 2 * |s|
    ensures (forall k :: 0 <= k < |s| ==> (s[k] as int) < 0x1_0000) ==> n == |s|
  {
    if s == [] then 0 else (if (s[0] as int) < 0x1_0000 then 1 else 2) + Utf16Length(s[1..])
  }

  /** `typeof value === 'number' ? value : value.length` for a number or a string; None for NaN. */
  function Size(v: JsValue): Option<real> {
    match v
    case Num(n) => Some(n)
    case Str(s) => Some(Utf16Length(s) as real)
    case _ => None
  }

  /** The `switch (rules.type)` check. */
  function KindProblem(kind: Option<string>, v: JsValue, host: Host): Option<Problem> {
    if kind.None? || kind.value == "" then None
    else if kind.value == "number" then
      if !(v.Num? || v.NaN?) && ToNumber(v, host).NaN? then Some(NotNumber) else None
    else if kind.value == "string" then
      if !v.Str? then Some(NotString) else None
    else if kind.value == "boolean" then
      if !v.Bool? then Some(NotBoolean) else None
    else if kind.value == "date" then
      if NewDate(v, host).InvalidDate? then Some(NotDate) else None
    else None
  }

  /**
   * What each declared type accepts. A number field takes any number, NaN
   * included, and any other value `Number` can read; a string field only a
   * string; a boolean field only `true` or `false`; a date field whatever
   * `new Date` turns into a valid date, so a number beyond `MaxTime` fails.
   * A missing or unknown type accepts everything.
   */
  lemma KindProblemCases(kind: Option<string>, v: JsValue, host: Host)
    ensures kind == Some("number") ==>
      (KindProblem(kind, v, host) == Some(NotNumber) <==> !v.Num? && !v.NaN? && ToNumber(v, host).NaN?)
    ensures kind == Some("number") && v.Str? ==>
      (KindProblem(kind, v, host) == Some(NotNumber) <==> host.numberOf(v.s).None?)
    ensures kind == Some("number") && v.Arr? && |v.items| >= 2 ==> KindProblem(kind, v, host) == Some(NotNumber)
    ensures kind == Some("string") ==> (KindProblem(kind, v, host) == Some(NotString) <==> !v.Str?)
    ensures kind == Some("boolean") ==> (KindProblem(kind, v, host) == Some(NotBoolean) <==> !v.Bool?)
    ensures kind == Some("date") ==> (KindProblem(kind, v, host) == Some(NotDate) <==> NewDate(v, host).InvalidDate?)
    ensures kind == Some("date") && v.Num? ==> (KindProblem(kind, v, host) == Some(NotDate) <==> !InTimeRange(v.n))
    ensures kind == Some("date") && v.Str? ==> (KindProblem(kind, v, host) == Some(NotDate) <==> host.timeOf(v.s).None?)
    ensures kind.None? || kind.value !in {"number", "string", "boolean", "date"} ==> KindProblem(kind, v, host).None?
    ensures KindProblem(kind, v, host) != Some(Required)
      && KindProblem(kind, v, host) != Some(TooSmall) && KindProblem(kind, v, host) != Some(TooLarge)
  {
  }

  /**
   * A date field holding a number past the Date range, with no bound it
   * breaks, fails as an invalid date, as a form value such as
   * '100000000000000000' does once decoded.
   */
  lemma DateFieldOutOfRange(rules: Rules, x: real, host: Host)
    requires rules.kind == Some("date")
    requires !InTimeRange(x)
    requires rules.min.None? || x >= rules.min.value
    requires rules.max.None? || x <= rules.max.value
    ensures FieldProblem(rules, Num(x), host) == Some(NotDate)
  {
    KindProblemCases(rules.kind, Num(x), host);
  }

  /**
   * The error left for one field: the last one written, since the min and
   * max checks overwrite an earlier type error.
   */
  function FieldProblem(rules: Rules, v: JsValue, host: Host): (p: Option<Problem>)
    ensures rules.required && IsEmpty(v) ==> p == Some(Required)
    ensures !rules.required && IsEmpty(v) ==> p.None?
    ensures p == Some(Required) ==> rules.required && IsEmpty(v)
    ensures !IsEmpty(v) && rules.max.Some? && Size(v).Some? && Size(v).value > rules.max.value ==> p == Some(TooLarge)
    ensures (!IsEmpty(v) && rules.min.Some? && Size(v).Some? && Size(v).value < rules.min.value ==>
             p == Some(TooSmall) || (rules.max.Some? && Size(v).value > rules.max.value))
    ensures (!IsEmpty(v) && !(rules.min.Some? && Size(v).Some? && Size(v).value < rules.min.value)
             && !(rules.max.Some? && Size(v).Some? && Size(v).value > rules.max.value) ==>
             p == KindProblem(rules.kind, v, host))
  {
    if rules.required && IsEmpty(v) then Some(Required)
    else if IsEmpty(v) then None
    else
      var p1 := KindProblem(rules.kind, v, host);
      var p2 := if (v.Num? || v.NaN? || v.Str?) && rules.min.Some? && Size(v).Some? && Size(v).value < rules.min.value
        then Some(TooSmall) else p1;
      if (v.Num? || v.NaN? || v.Str?) && rules.max.Some? && Size(v).Some? && Size(v).value > rules.max.value
      then Some(TooLarge) else p2
  }

  /** The errors of the schema fields in `done`. */
  function ErrorsOf(data: Object, schema: map<string, Rules>, host: Host, done: set<string>): map<string, Problem> {
    map f | f in done && f in schema && FieldProblem(schema[f], Get(data, f), host).Some? ::
      FieldProblem(schema[f], Get(data, f), host).value
  }

  /** The errors of every schema field. */
  function Errors(data: Object, schema: map<string, Rules>, host: Host): map<string, Problem> {
    ErrorsOf(data, schema, host, schema.Keys)
  }

  /** Checking one more field adds at most that field's error. */
  lemma ErrorsOfStep(data: Object, schema: map<string, Rules>, host: Host, done: set<string>, field: string)
    requires field in schema && field !in done
    ensures var p := FieldProblem(schema[field], Get(data, field), host);
      ErrorsOf(data, schema, host, done + {field}) ==
        if p.Some? then ErrorsOf(data, schema, host, done)[field := p.value] else ErrorsOf(data, schema, host, done)
  {
  }

  /** Only the checked fields can carry an error. */
  lemma ErrorsOfWithin(data: Object, schema: map<string, Rules>, host: Host, done: set<string>)
    ensures ErrorsOf(data, schema, host, done).Keys <= done * schema.Keys
  {
  }

  datatype Validation = Validation(isValid: bool, errors: map<string, Problem>)

  /** One pass of the loop body: the field's checks, each overwriting the last error. */
  method CheckField(errors: map<string, Problem>, field: string, rules: Rules, value: JsValue, host: Host)
    returns (errors': map<string, Problem>)
    ensures var p := FieldProblem(rules, value, host);
      errors' == if p.Some? then errors[field := p.value] else errors
  {
    errors' := errors;
    if rules.required && IsEmpty(value) {
      errors' := errors'[field := Required];
      return;
    }
    if IsEmpty(value) {
      return;
    }
    var kindProblem := KindProblem(rules.kind, value, host);
    if kindProblem.Some? {
      errors' := errors'[field := kindProblem.value];
    }
    if value.Num? || value.NaN? || value.Str? {
      if rules.min.Some? && Size(value).Some? && Size(value).value < rules.min.value {
        errors' := errors'[field := TooSmall];
      }
      if rules.max.Some? && Size(value).Some? && Size(value).value > rules.max.value {
        errors' := errors'[field := TooLarge];
      }
    }
  }

  /** `validateFormData`: check every schema field in turn. */
  method ValidateFormData(data: Object, schema: map<string, Rules>, host: Host) returns (r: Validation)
    ensures r.errors == Errors(data, schema, host)
    ensures r.isValid <==> r.errors == map[]
    ensures r.errors.Keys <= schema.Keys
  {
    var errors := CheckFields(data, schema, host);
    ErrorsOfWithin(data, schema, host, schema.Keys);
    if |errors.Keys| == 0 {
      assert errors.Keys == {};
      assert errors == map[];
    }
    r := Validation(|errors.Keys| == 0, errors);
  }

  /** The loop over the schema's fields. */
  method CheckFields(data: Object, schema: map<string, Rules>, host: Host) returns (errors: map<string, Problem>)
    ensures errors == ErrorsOf(data, schema, host, schema.Keys)
  {
    errors := map[];
    var done: set<string> := {};
    var todo := schema.Keys;
    while todo != {}
      invariant todo <= schema.Keys && done == schema.Keys - todo
      invariant errors == ErrorsOf(data, schema, host, done)
      decreases |todo|
    {
      var field :| field in todo;
      ErrorsOfStep(data, schema, host, done, field);
      errors := CheckField(errors, field, schema[field], Get(data, field), host);
      todo := todo - {field};
      done := done + {field};
    }
    assert done == schema.Keys;
  }

  /** Every error belongs to a schema field, and a field has one exactly when its check fails. */
  lemma ErrorsAt(data: Object, schema: map<string, Rules>, host: Host, f: string)
    ensures f in Errors(data, schema, host) <==> f in schema && FieldProblem(schema[f], Get(data, f), host).Some?
    ensures f in schema && schema[f].required && IsEmpty(Get(data, f)) ==>
      f in Errors(data, schema, host) && Errors(data, schema, host)[f] == Required
    ensures f in schema && !schema[f].required && IsEmpty(Get(data, f)) ==> f !in Errors(data, schema, host)
  {
  }
}
