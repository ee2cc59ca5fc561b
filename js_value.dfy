/**
 * The untyped values the application passes around (`any` in its
 * TypeScript): form fields, JSON bodies and database rows. JavaScript tells
 * `undefined`, `null`, `''`, `0`, `false` and arrays apart, and the record
 * builders depend on those differences, so they are kept apart here too.
 */
module JsValues {

  import opened Wrappers
  import Strings

  datatype JsValue =
    | Undefined
    | Null
    | Bool(b: bool)
    | Num(n: real)
    | NaN
    | Str(s: string)
    | Arr(items: seq<JsValue>)
    | Date(time: int)          // a Date object holding a valid time value
    | InvalidDate              // a Date object whose time value is NaN
    | File(name: string, size: nat)

  /** A plain object: property name to value; an absent property reads as `undefined`. */
  type Object = map<string, JsValue>

  function Get(o: Object, key: string): JsValue {
    if key in o then o[key] else Undefined
  }

  /** JavaScript truthiness: `undefined`, `null`, `false`, `0`, `NaN` and `''` are falsy; every object (a Date, even an invalid one) is truthy. */
  predicate Truthy(v: JsValue) {
    match v
    case Undefined => false
    case Null => false
    case Bool(b) => b
    case Num(n) => n != 0.0
    case NaN => false
    case Str(s) => s != ""
    case _ => true
  }

  /** `a || b` */
  function Or(a: JsValue, b: JsValue): JsValue {
    if Truthy(a) then a else b
  }

  /** `a !== undefined ? a : b` */
  function IfDefined(a: JsValue, b: JsValue): JsValue {
    if a != Undefined then a else b
  }

  /**
   * What the application gets from its environment: the current time, the
   * next id `nanoid(8)` would produce, and the string conversions of the
   * JavaScript engine, kept abstract: `Number(s)`, `parseFloat(s)` (None for
   * NaN), the time value `new Date(s)` parses from a string (None for an
   * invalid date), and the text `String(n)` of a number and `String(d)` of a
   * date with time value `t`.
   */
  datatype Host = Host(
    now: int,
    freshId: string,
    numberOf: string -> Option<real>,
    parseFloat: string -> Option<real>,
    timeOf: string -> Option<int>,
    numberText: real -> string,
    dateText: int -> string)

  /** The largest time value a Date can hold, in milliseconds either side of the epoch. */
  const MaxTime: int := 8_640_000_000_000_000

  /**
   * The text an array element contributes to `items.join(',')`, which is
   * also the array's `toString()`: `undefined` and `null` give the empty
   * string, and every other value its `String` form.
   */
  function ElementText(v: JsValue, host: Host): string {
    match v
    case Undefined => ""
    case Null => ""
    case Bool(b) => if b then "true" else "false"
    case Num(n) => host.numberText(n)
    case NaN => "NaN"
    case Str(s) => s
    case Arr(items) => ArrayText(items, host)
    case Date(t) => host.dateText(t)
    case InvalidDate => "Invalid Date"
    case File(_, _) => "[object File]"
  }

  /** `items.join(',')`. */
  function ArrayText(items: seq<JsValue>, host: Host): (r: string)
    ensures |items| == 1 ==> r == ElementText(items[0], host)
    decreases items, 0
  {
    if items == [] then ""
    else if |items| == 1 then ElementText(items[0], host)
    else ElementText(items[0], host) + "," + ArrayText(items[1..], host)
  }

  /**
   * `Number(v)`. An array converts through its text: the empty array reads
   * as `Number('')`, which is 0; two or more elements put a comma in the
   * text, which no number literal contains; one element reads back as that
   * element would, except that `undefined` and `null` give the empty text,
   * `true`/`false` give words, and a date gives its text, none of them a
   * number.
   */
  function ToNumber(v: JsValue, host: Host): (r: JsValue)
    ensures r.Num? || r.NaN?
    ensures v.Num? ==> r == v
    ensures v == Null || v == Bool(false) || v == Arr([]) ==> r == Num(0.0)
    ensures v == Undefined ==> r == NaN
    ensures v.Arr? && |v.items| >= 2 ==> r == NaN
    ensures v.Arr? && |v.items| == 1 && (v.items[0].Num? || v.items[0].Str? || v.items[0].Arr?) ==>
      r == ToNumber(v.items[0], host)
    ensures v.Arr? && |v.items| == 1 && (v.items[0] == Null || v.items[0] == Undefined) ==> r == Num(0.0)
    decreases v
  {
    match v
    case Undefined => NaN
    case Null => Num(0.0)
    case Bool(b) => if b then Num(1.0) else Num(0.0)
    case Num(_) => v
    case NaN => NaN
    case Str(s) => (match host.numberOf(s) case Some(x) => Num(x) case None => NaN)
    case Arr(items) =>
      if items == [] then Num(0.0)
      else if |items| >= 2 then NaN
      else (match items[0]
        case Undefined => Num(0.0)
        case Null => Num(0.0)
        case Num(_) => items[0]
        case Str(_) => ToNumber(items[0], host)
        case Arr(_) => ToNumber(items[0], host)
        case _ => NaN)
    case Date(t) => Num(t as real)
    case InvalidDate => NaN
    case File(_, _) => NaN
  }

  /** The integer part of a time value, truncating toward zero as the Date constructor does. */
  function TruncateTime(x: real): (t: int)
    ensures (t as real) <= x < (t as real) + 1.0 || (t as real) - 1.0 < x <= (t as real)
    ensures x >= 0.0 ==> t >= 0
  {
    if x >= 0.0 then x.Floor else -((-x).Floor)
  }

  /** A time value a Date can hold. */
  predicate InTimeRange(x: real) {
    -(MaxTime as real) <= x <= MaxTime as real
  }

  /**
   * `new Date(v)`. A number is clipped: beyond `MaxTime` either side the
   * date is invalid, otherwise its integer part is the time value. An array
   * is converted to its text and parsed like a string.
   */
  function NewDate(v: JsValue, host: Host): (r: JsValue)
    ensures r.Date? || r.InvalidDate?
    ensures v.Date? || v.InvalidDate? ==> r == v
    ensures v == Null ==> r == Date(0)
    ensures v == Undefined ==> r == InvalidDate
    ensures v.Num? ==> (r.Date? <==> InTimeRange(v.n))
    ensures v.Num? && r.Date? ==> r.time as real <= v.n < r.time as real + 1.0 || r.time as real - 1.0 < v.n <= r.time as real
    ensures v.Str? ==> (r.Date? <==> host.timeOf(v.s).Some?)
    ensures v.Arr? ==> (r.Date? <==> host.timeOf(ArrayText(v.items, host)).Some?)
  {
    match v
    case Date(_) => v
    case InvalidDate => v
    case Null => Date(0)
    case Bool(b) => if b then Date(1) else Date(0)
    case Num(x) => if InTimeRange(x) then Date(TruncateTime(x)) else InvalidDate
    case Str(s) => (match host.timeOf(s) case Some(t) => Date(t) case None => InvalidDate)
    case Arr(items) => (match host.timeOf(ArrayText(items, host)) case Some(t) => Date(t) case None => InvalidDate)
    case _ => InvalidDate
  }

  /** A one-element array converts like its element: `Number(['5'])` is `Number('5')` and `new Date(['2024-01-01'])` is `new Date('2024-01-01')`. */
  lemma SingletonArrayConverts(s: string, host: Host)
    ensures ToNumber(Arr([Str(s)]), host) == ToNumber(Str(s), host)
    ensures NewDate(Arr([Str(s)]), host) == NewDate(Str(s), host)
    ensures ToNumber(Arr([Arr([Str(s)])]), host) == ToNumber(Str(s), host)
  {
    assert ArrayText([Str(s)], host) == s;
  }

  /** `v instanceof Date ? v : new Date(v)`. */
  function AsDate(v: JsValue, host: Host): (r: JsValue)
    ensures r.Date? || r.InvalidDate?
    ensures v.Date? || v.InvalidDate? ==> r == v
  {
    if v.Date? || v.InvalidDate? then v else NewDate(v, host)
  }

  // ---------------------------------------------------------------------
  // tag lists
  // ---------------------------------------------------------------------

  /** `parts.map(t => t.trim())` */
  function Trims(parts: seq<string>): (ts: seq<string>)
    ensures |ts| == |parts| && forall i :: 0 <= i < |parts| ==> ts[i] == Strings.Trim(parts[i])
  {
    if parts == [] then [] else [Strings.Trim(parts[0])] + Trims(parts[1..])
  }

  /** The pieces of a comma split, each trimmed, the empty ones dropped. */
  function TrimmedPieces(parts: seq<string>): (tags: seq<string>)
    ensures |tags| <= |parts|
    ensures forall t :: t in tags ==> t != "" && t in Trims(parts)
  {
    if parts == [] then []
    else
      var rest := TrimmedPieces(parts[1..]);
      var t := Strings.Trim(parts[0]);
      assert Trims(parts) == [t] + Trims(parts[1..]);
      if t == "" then rest else [t] + rest
  }

  /** `s.split(',').map(t => t.trim()).filter(t => t)` */
  function SplitTags(s: string): seq<string> {
    TrimmedPieces(Strings.SplitOn(s, ","))
  }

  function Strs(ss: seq<string>): (vs: seq<JsValue>)
    ensures |vs| == |ss| && forall i :: 0 <= i < |ss| ==> vs[i] == Str(ss[i])
  {
    if ss == [] then [] else [Str(ss[0])] + Strs(ss[1..])
  }

  /**
   * The tag normalisation every record builder inlines: an array is kept as
   * it is, a string becomes its comma-separated pieces, and anything else
   * becomes the empty array.
   */
  function NormalizeTags(v: JsValue): (r: JsValue)
    ensures r.Arr?
    ensures v.Arr? ==> r == v
    ensures !v.Arr? && !v.Str? ==> r == Arr([])
    ensures v.Str? ==> r == Arr(Strs(SplitTags(v.s)))
  {
    match v
    case Arr(_) => v
    case Str(s) => Arr(Strs(SplitTags(s)))
    case _ => Arr([])
  }

  lemma {:induction false} TrimmedPiecesWellFormed(parts: seq<string>, sep: string)
    requires forall k :: 0 <= k < |parts| ==> !Strings.Contains(parts[k], sep)
    ensures forall t :: t in TrimmedPieces(parts) ==>
      t != "" && Strings.Trim(t) == t && !Strings.Contains(t, sep)
  {
    if parts != [] {
      TrimmedPiecesWellFormed(parts[1..], sep);
      Strings.TrimIdempotent(parts[0]);
      Strings.TrimKeepsAbsence(parts[0], sep);
    }
  }

  /**
   * Every tag a string gives is non-empty, has no surrounding white space and
   * no comma.
   */
  lemma SplitTagsWellFormed(s: string)
    ensures forall t :: t in SplitTags(s) ==>
      t != "" && Strings.Trim(t) == t && !Strings.Contains(t, ",")
  {
    Strings.SplitPiecesFree(s, ",");
    TrimmedPiecesWellFormed(Strings.SplitOn(s, ","), ",");
  }

  /** A string without a comma is a single tag: itself, trimmed, or none at all when it is blank. */
  lemma SplitTagsSingle(s: string)
    requires !Strings.Contains(s, ",")
    ensures SplitTags(s) == if Strings.Trim(s) == "" then [] else [Strings.Trim(s)]
  {
    Strings.SplitWithoutSeparator(s, ",");
  }
}
