/**
 * The record builders of the database layer. Every `create*` function builds
 * a new row property by property from the caller's untyped input, and every
 * `update*` function builds the set of properties it writes over an existing
 * row. Each property is computed by one of a handful of expression shapes
 * (`data.x || default`, `data.x !== undefined ? data.x : existing.x`, …); a
 * `Rule` names the shape and a `Spec` lists, per entity, the rule of every
 * property in the order the source writes them.
 */
module Records {

  import opened Wrappers
  import opened JsValues
  import F = Fields

  /** A stored row: one value per column. */
  type Row = map<F.Field, JsValue>

  function At(row: Row, f: F.Field): JsValue {
    if f in row then row[f] else Undefined
  }

  datatype Entity =
    | Activities | Projects | WritingPieces | Books | Resources | Revenue | RevenueGoals | AITools

  /** How one property `f` is computed from the input `data` (and, in an update, the `existing` row). */
  datatype Rule =
    | GivenOrFresh                             // data.id || nanoid(8)
    | Given                                    // data.f
    | Fallback(alts: seq<F.Field>, dflt: JsValue) // data.f || data.alts[0] || … || dflt
    | NumberIfDefined(dflt: JsValue)           // data.f !== undefined ? Number(data.f) : dflt
    | NumberIfTruthy                           // data.f ? Number(data.f) : null
    | ArrayOrEmpty                             // Array.isArray(data.f) ? data.f : []
    | Tags                                     // the inline tag normalisation
    | IsTrue                                   // data.f === true
    | DateOf                                   // data.f instanceof Date ? data.f : new Date(data.f)
    | DateOrNow                                // data.f instanceof Date ? data.f : new Date(data.f || new Date())
    | DateIfTruthy                             // data.f ? (data.f as a Date) : null
    | Now                                      // new Date()
    | OrExisting                               // data.f || existing.f
    | DefinedOrExisting                        // data.f !== undefined ? data.f : existing.f
    | NumberOrExisting                         // data.f !== undefined ? Number(data.f) : existing.f
    | TagsOrExisting                           // data.f ? (normalised tags) : existing.f
    | DateOrExisting                           // data.f ? (data.f as a Date) : existing.f
    | ClearableDate                            // data.f !== undefined ? (data.f ? (a Date) : null) : existing.f

  /** `data[fields[0]] || data[fields[1]] || … || dflt` */
  function FirstTruthy(data: Object, fields: seq<F.Field>, dflt: JsValue): (r: JsValue)
    ensures Truthy(r) || r == dflt
    ensures (forall k :: 0 <= k < |fields| ==> !Truthy(Get(data, F.Key(fields[k])))) ==> r == dflt
    ensures |fields| > 0 && Truthy(Get(data, F.Key(fields[0]))) ==> r == Get(data, F.Key(fields[0]))
    ensures forall k :: FirstTruthyAt(data, fields, k) ==> r == Get(data, F.Key(fields[k]))
  {
    if fields == [] then dflt
    else
      var rest := FirstTruthy(data, fields[1..], dflt);
      assert forall k :: 1 <= k && FirstTruthyAt(data, fields, k) ==> FirstTruthyAt(data, fields[1..], k - 1);
      Or(Get(data, F.Key(fields[0])), rest)
  }

  /** `fields[k]` is the first of `fields` whose input is truthy. */
  predicate FirstTruthyAt(data: Object, fields: seq<F.Field>, k: int) {
    0 <= k < |fields| && Truthy(Get(data, F.Key(fields[k])))
    && forall j :: 0 <= j < k ==> !Truthy(Get(data, F.Key(fields[j])))
  }

  function Eval(rule: Rule, f: F.Field, data: Object, existing: Row, host: Host): JsValue {
    var v := Get(data, F.Key(f));
    match rule
    case GivenOrFresh => Or(v, Str(host.freshId))
    case Given => v
    case Fallback(alts, dflt) => FirstTruthy(data, [f] + alts, dflt)
    case NumberIfDefined(dflt) => if v != Undefined then ToNumber(v, host) else dflt
    case NumberIfTruthy => if Truthy(v) then ToNumber(v, host) else Null
    case ArrayOrEmpty => if v.Arr? then v else Arr([])
    case Tags => NormalizeTags(v)
    case IsTrue => Bool(v == Bool(true))
    case DateOf => AsDate(v, host)
    case DateOrNow => if v.Date? || v.InvalidDate? then v else NewDate(Or(v, Date(host.now)), host)
    case DateIfTruthy => if Truthy(v) then AsDate(v, host) else Null
    case Now => Date(host.now)
    case OrExisting => Or(v, At(existing, f))
    case DefinedOrExisting => IfDefined(v, At(existing, f))
    case NumberOrExisting => if v != Undefined then ToNumber(v, host) else At(existing, f)
    case TagsOrExisting => if Truthy(v) then NormalizeTags(v) else At(existing, f)
    case DateOrExisting => if Truthy(v) then AsDate(v, host) else At(existing, f)
    case ClearableDate =>
      if v == Undefined then At(existing, f) else if Truthy(v) then AsDate(v, host) else Null
  }

  /** The rule `create*` of table `e` computes column `f` by, if it writes `f`. */
  function CreateRule(e: Entity, f: F.Field): Option<Rule> {
    match e
    case Activities => ActivityCreate(f)
    case Projects => ProjectCreate(f)
    case WritingPieces => WritingCreate(f)
    case Books => BookCreate(f)
    case Resources => ResourceCreate(f)
    case Revenue => RevenueCreate(f)
    case RevenueGoals => GoalCreate(f)
    case AITools => ToolCreate(f)
  }

  /** The rule `update*` of table `e` computes column `f` by, if it writes `f`. */
  function UpdateRule(e: Entity, f: F.Field): Option<Rule> {
    match e
    case Activities => ActivityUpdate(f)
    case Projects => ProjectUpdate(f)
    case WritingPieces => WritingUpdate(f)
    case Books => BookUpdate(f)
    case Resources => ResourceUpdate(f)
    case Revenue => RevenueUpdate(f)
    case RevenueGoals => GoalUpdate(f)
    case AITools => ToolUpdate(f)
  }

  /** The row `create*` inserts and returns: one column per creation rule. */
  function NewRecord(e: Entity, data: Object, host: Host): Row {
    map f | f in F.All && CreateRule(e, f).Some? :: Eval(CreateRule(e, f).value, f, data, map[], host)
  }

  /** The columns `update*` writes over `existing`. */
  function Changes(e: Entity, existing: Row, data: Object, host: Host): Row {
    map f | f in F.All && UpdateRule(e, f).Some? :: Eval(UpdateRule(e, f).value, f, data, existing, host)
  }

  // ---------------------------------------------------------------------
  // the builders of every table, column by column
  // ---------------------------------------------------------------------

  /** The columns `createActivity` writes and the rule of each. */
  function ActivityCreate(f: F.Field): Option<Rule> {
    match f
    case Id => Some(GivenOrFresh)
    case ProjectId => Some(Given)
    case Type => Some(Given)
    case Description => Some(Given)
    case Date => Some(DateOf)
    case CreatedAt => Some(Now)
    case Duration => Some(NumberIfTruthy)
    case Url => Some(Fallback([], Null))
    case Tags => Some(Tags)
    case Visibility => Some(Fallback([], Str("private")))
    case _ => None
  }

  /** The columns `updateActivity` writes and the rule of each. */
  function ActivityUpdate(f: F.Field): Option<Rule> {
    match f
    case ProjectId => Some(Given)
    case Type => Some(Given)
    case Description => Some(Given)
    case Date => Some(DateOf)
    case Duration => Some(NumberIfTruthy)
    case Url => Some(Fallback([], Null))
    case Tags => Some(Tags)
    case Visibility => Some(OrExisting)
    case _ => None
  }

  /** The columns `createProject` writes and the rule of each. */
  function ProjectCreate(f: F.Field): Option<Rule> {
    match f
    case Id => Some(GivenOrFresh)
    case Title => Some(Fallback([F.Name], Str("Untitled Project")))
    case Description => Some(Fallback([], Str("")))
    case Status => Some(Fallback([], Str("planning")))
    case Category => Some(Fallback([], Str("other")))
    case StartDate => Some(DateOrNow)
    case LastUpdated => Some(Now)
    case Progress => Some(NumberIfDefined(Num(0.0)))
    case Tags => Some(Tags)
    case TechStack => Some(ArrayOrEmpty)
    case NextSteps => Some(Fallback([], Null))
    case Notes => Some(Fallback([], Null))
    case GithubUrl => Some(Fallback([], Null))
    case LiveUrl => Some(Fallback([], Null))
    case Visibility => Some(Fallback([], Str("private")))
    case _ => None
  }

  /** The columns `updateProject` writes and the rule of each. */
  function ProjectUpdate(f: F.Field): Option<Rule> {
    match f
    case Title => Some(OrExisting)
    case Description => Some(DefinedOrExisting)
    case Status => Some(OrExisting)
    case Category => Some(OrExisting)
    case StartDate => Some(DateOrExisting)
    case LastUpdated => Some(Now)
    case Progress => Some(NumberOrExisting)
    case Tags => Some(TagsOrExisting)
    case TechStack => Some(TagsOrExisting)
    case NextSteps => Some(DefinedOrExisting)
    case Notes => Some(DefinedOrExisting)
    case GithubUrl => Some(DefinedOrExisting)
    case LiveUrl => Some(DefinedOrExisting)
    case Visibility => Some(OrExisting)
    case _ => None
  }

  /** The columns `createWritingPiece` writes and the rule of each. */
  function WritingCreate(f: F.Field): Option<Rule> {
    match f
    case Id => Some(GivenOrFresh)
    case Title => Some(Fallback([], Str("Untitled Writing")))
    case Summary => Some(Fallback([], Str("")))
    case Status => Some(Fallback([], Str("draft")))
    case Category => Some(Fallback([], Str("blog")))
    case Tags => Some(Tags)
    case CreatedDate => Some(DateOrNow)
    case PublishedDate => Some(DateIfTruthy)
    case LastUpdated => Some(Now)
    case WordCount => Some(NumberIfDefined(Num(0.0)))
    case Content => Some(Fallback([], Null))
    case ExternalUrl => Some(Fallback([], Null))
    case Visibility => Some(Fallback([], Str("private")))
    case _ => None
  }

  /** The columns `updateWritingPiece` writes and the rule of each. */
  function WritingUpdate(f: F.Field): Option<Rule> {
    match f
    case Title => Some(OrExisting)
    case Summary => Some(DefinedOrExisting)
    case Status => Some(OrExisting)
    case Category => Some(OrExisting)
    case Tags => Some(TagsOrExisting)
    case PublishedDate => Some(DateOrExisting)
    case LastUpdated => Some(Now)
    case WordCount => Some(NumberOrExisting)
    case Content => Some(DefinedOrExisting)
    case ExternalUrl => Some(DefinedOrExisting)
    case Visibility => Some(OrExisting)
    case _ => None
  }

  /** The columns `createBook` writes and the rule of each. */
  function BookCreate(f: F.Field): Option<Rule> {
    match f
    case Id => Some(GivenOrFresh)
    case Title => Some(Fallback([], Str("Untitled Book")))
    case Author => Some(Fallback([], Str("Unknown Author")))
    case Category => Some(Fallback([], Str("other")))
    case Status => Some(Fallback([], Str("to-read")))
    case StartedDate => Some(DateIfTruthy)
    case CompletedDate => Some(DateIfTruthy)
    case Format => Some(Fallback([], Str("physical")))
    case Notes => Some(Fallback([], Null))
    case Rating => Some(NumberIfDefined(Null))
    case Tags => Some(Tags)
    case CoverUrl => Some(Fallback([], Null))
    case PurchaseUrl => Some(Fallback([], Null))
    case Visibility => Some(Fallback([], Str("private")))
    case _ => None
  }

  /** The columns `updateBook` writes and the rule of each. */
  function BookUpdate(f: F.Field): Option<Rule> {
    match f
    case Title => Some(OrExisting)
    case Author => Some(OrExisting)
    case Category => Some(OrExisting)
    case Status => Some(OrExisting)
    case StartedDate => Some(DateOrExisting)
    case CompletedDate => Some(DateOrExisting)
    case Format => Some(OrExisting)
    case Notes => Some(DefinedOrExisting)
    case Rating => Some(NumberOrExisting)
    case Tags => Some(TagsOrExisting)
    case CoverUrl => Some(DefinedOrExisting)
    case PurchaseUrl => Some(DefinedOrExisting)
    case Visibility => Some(OrExisting)
    case _ => None
  }

  /** The columns `createResource` writes and the rule of each. */
  function ResourceCreate(f: F.Field): Option<Rule> {
    match f
    case Id => Some(GivenOrFresh)
    case Title => Some(Fallback([], Str("Untitled Resource")))
    case Url => Some(Fallback([], Str("")))
    case Description => Some(Fallback([], Null))
    case Category => Some(Fallback([], Str("other")))
    case Type => Some(Fallback([], Str("link")))
    case Tags => Some(Tags)
    case DateAdded => Some(DateOrNow)
    case LastAccessed => Some(DateIfTruthy)
    case IsFavorite => Some(IsTrue)
    case Visibility => Some(Fallback([], Str("private")))
    case _ => None
  }

  /** The columns `updateResource` writes and the rule of each. */
  function ResourceUpdate(f: F.Field): Option<Rule> {
    match f
    case Title => Some(OrExisting)
    case Url => Some(OrExisting)
    case Description => Some(DefinedOrExisting)
    case Category => Some(OrExisting)
    case Type => Some(OrExisting)
    case Tags => Some(TagsOrExisting)
    case LastAccessed => Some(DateOrExisting)
    case IsFavorite => Some(DefinedOrExisting)
    case Visibility => Some(OrExisting)
    case _ => None
  }

  /** The columns `createRevenue` writes and the rule of each. */
  function RevenueCreate(f: F.Field): Option<Rule> {
    match f
    case Id => Some(GivenOrFresh)
    case ProjectId => Some(Fallback([], Null))
    case Amount => Some(NumberIfDefined(Num(0.0)))
    case Date => Some(DateOrNow)
    case Description => Some(Fallback([], Str("")))
    case Type => Some(Fallback([], Str("other")))
    case Status => Some(Fallback([], Str("paid")))
    case Visibility => Some(Fallback([], Str("private")))
    case _ => None
  }

  /** The columns `updateRevenue` writes and the rule of each. */
  function RevenueUpdate(f: F.Field): Option<Rule> {
    match f
    case ProjectId => Some(DefinedOrExisting)
    case Amount => Some(NumberOrExisting)
    case Date => Some(DateOrExisting)
    case Description => Some(DefinedOrExisting)
    case Type => Some(OrExisting)
    case Status => Some(OrExisting)
    case Visibility => Some(OrExisting)
    case _ => None
  }

  /** The columns `createRevenueGoal` writes and the rule of each. */
  function GoalCreate(f: F.Field): Option<Rule> {
    match f
    case Id => Some(GivenOrFresh)
    case Name => Some(Fallback([], Str("Untitled Goal")))
    case Target => Some(NumberIfDefined(Num(0.0)))
    case Period => Some(Fallback([], Str("monthly")))
    case StartDate => Some(DateOrNow)
    case EndDate => Some(DateIfTruthy)
    case Visibility => Some(Fallback([], Str("private")))
    case _ => None
  }

  /** The columns `updateRevenueGoal` writes and the rule of each. */
  function GoalUpdate(f: F.Field): Option<Rule> {
    match f
    case Name => Some(OrExisting)
    case Target => Some(NumberOrExisting)
    case Period => Some(OrExisting)
    case StartDate => Some(DateOrExisting)
    case EndDate => Some(ClearableDate)
    case Visibility => Some(OrExisting)
    case _ => None
  }

  /** The columns `createAITool` writes and the rule of each. */
  function ToolCreate(f: F.Field): Option<Rule> {
    match f
    case Id => Some(GivenOrFresh)
    case Name => Some(Fallback([], Str("Untitled Tool")))
    case Description => Some(Fallback([], Str("")))
    case Prompt => Some(Fallback([], Str("")))
    case Category => Some(Fallback([], Str("other")))
    case Tags => Some(Tags)
    case DateCreated => Some(DateOrNow)
    case LastUsed => Some(DateIfTruthy)
    case ExampleResponse => Some(Fallback([], Null))
    case IsFavorite => Some(IsTrue)
    case Visibility => Some(Fallback([], Str("private")))
    case _ => None
  }

  /** The columns `updateAITool` writes and the rule of each. */
  function ToolUpdate(f: F.Field): Option<Rule> {
    match f
    case Name => Some(OrExisting)
    case Description => Some(DefinedOrExisting)
    case Prompt => Some(DefinedOrExisting)
    case Category => Some(OrExisting)
    case Tags => Some(TagsOrExisting)
    case LastUsed => Some(DateOrExisting)
    case ExampleResponse => Some(DefinedOrExisting)
    case IsFavorite => Some(DefinedOrExisting)
    case Visibility => Some(OrExisting)
    case _ => None
  }

  // ---------------------------------------------------------------------
  // what the stored rows look like
  // ---------------------------------------------------------------------

  /** The sort of value a property is guaranteed to hold. */
  datatype Kind = AnyValue | TruthyValue | ArrayValue | DateValue | DateOrNull | NumberValue | NumberOrNull

  predicate HasKind(v: JsValue, k: Kind) {
    match k
    case AnyValue => true
    case TruthyValue => Truthy(v)
    case ArrayValue => v.Arr?
    case DateValue => v.Date? || v.InvalidDate?
    case DateOrNull => v.Date? || v.InvalidDate? || v == Null
    case NumberValue => v.Num? || v.NaN?
    case NumberOrNull => v.Num? || v.NaN? || v == Null
  }

  /** Every value of kind `a` is of kind `b`. */
  predicate SubKind(a: Kind, b: Kind) {
    a == b || b == AnyValue
    || (a == DateValue && b == DateOrNull) || (a == NumberValue && b == NumberOrNull)
  }

  /**
   * What a creation rule guarantees about the value it writes. `isFavorite`
   * (IsTrue) is only a boolean at creation: an update may write any defined
   * input over it, so it is not constrained here.
   */
  function KindOf(rule: Rule): Kind {
    match rule
    case Fallback(_, dflt) => if Truthy(dflt) then TruthyValue else AnyValue
    case NumberIfDefined(dflt) =>
      if dflt.Num? || dflt.NaN? then NumberValue else if dflt == Null then NumberOrNull else AnyValue
    case NumberIfTruthy => NumberOrNull
    case ArrayOrEmpty => ArrayValue
    case Tags => ArrayValue
    case DateOf => DateValue
    case DateOrNow => DateValue
    case DateIfTruthy => DateOrNull
    case Now => DateValue
    case _ => AnyValue
  }

  /** An update rule keeps a property of kind `k` of kind `k`. */
  predicate Keeps(rule: Rule, k: Kind) {
    match rule
    case OrExisting => k == AnyValue || k == TruthyValue
    case DefinedOrExisting => k == AnyValue
    case NumberOrExisting => k == AnyValue || k == NumberValue || k == NumberOrNull
    case TagsOrExisting => k == AnyValue || k == ArrayValue
    case DateOrExisting => k == AnyValue || k == DateValue || k == DateOrNull
    case ClearableDate => k == AnyValue || k == DateOrNull
    case _ => SubKind(KindOf(rule), k)
  }

  lemma SubKindHolds(v: JsValue, a: Kind, b: Kind)
    requires SubKind(a, b) && HasKind(v, a)
    ensures HasKind(v, b)
  {
  }

  /** A creation rule writes a value of its kind, whatever the input. */
  lemma EvalKind(rule: Rule, f: F.Field, data: Object, existing: Row, host: Host)
    ensures HasKind(Eval(rule, f, data, existing, host), KindOf(rule))
  {
  }

  /** An update rule keeps the kind of the property it rewrites. */
  lemma EvalKeeps(rule: Rule, k: Kind, f: F.Field, data: Object, existing: Row, host: Host)
    requires Keeps(rule, k) && HasKind(At(existing, f), k)
    ensures HasKind(Eval(rule, f, data, existing, host), k)
  {
    match rule
    case OrExisting =>
    case DefinedOrExisting =>
    case NumberOrExisting =>
    case TagsOrExisting =>
    case DateOrExisting =>
    case ClearableDate =>
    case _ =>
      EvalKind(rule, f, data, existing, host);
      SubKindHolds(Eval(rule, f, data, existing, host), KindOf(rule), k);
  }

  /** A stored row of table `e`: exactly the columns `create*` writes, each of its kind. */
  predicate RowFits(e: Entity, row: Row) {
    (forall f :: f in row <==> CreateRule(e, f).Some?)
    && forall f :: f in row ==> HasKind(row[f], KindOf(CreateRule(e, f).value))
  }

  /** Every column an update writes is one `create*` writes, and its rule keeps that column's kind. */
  predicate Compatible(e: Entity) {
    forall f :: UpdateRule(e, f).Some? ==>
      CreateRule(e, f).Some? && Keeps(UpdateRule(e, f).value, KindOf(CreateRule(e, f).value))
  }

  lemma SpecsWellFormed(e: Entity)
    ensures CreateRule(e, F.Id) == Some(GivenOrFresh)
    ensures CreateRule(e, F.Visibility) == Some(Fallback([], Str("private")))
    ensures UpdateRule(e, F.Id).None?
    ensures Compatible(e)
  {
    match e
    case Activities => CompatibleActivities();
    case Projects => CompatibleProjects();
    case WritingPieces => CompatibleWritingPieces();
    case Books => CompatibleBooks();
    case Resources => CompatibleResources();
    case Revenue => CompatibleRevenue();
    case RevenueGoals => CompatibleRevenueGoals();
    case AITools => CompatibleAITools();
  }

  lemma CompatibleActivities()
    ensures Compatible(Activities)
  {
  }

  lemma CompatibleProjects()
    ensures Compatible(Projects)
  {
  }

  lemma CompatibleWritingPieces()
    ensures Compatible(WritingPieces)
  {
  }

  lemma CompatibleBooks()
    ensures Compatible(Books)
  {
  }

  lemma CompatibleResources()
    ensures Compatible(Resources)
  {
  }

  lemma CompatibleRevenue()
    ensures Compatible(Revenue)
  {
  }

  lemma CompatibleRevenueGoals()
    ensures Compatible(RevenueGoals)
  {
  }

  lemma CompatibleAITools()
    ensures Compatible(AITools)
  {
  }

  /** A new record has exactly the columns of its table, each of its kind. */
  lemma NewRecordFits(e: Entity, data: Object, host: Host)
    ensures RowFits(e, NewRecord(e, data, host))
  {
    var r := NewRecord(e, data, host);
    forall f ensures f in r <==> CreateRule(e, f).Some? {
      F.InAll(f);
    }
    forall f | f in r ensures HasKind(r[f], KindOf(CreateRule(e, f).value)) {
      EvalKind(CreateRule(e, f).value, f, data, map[], host);
    }
  }

  /**
   * Writing an update's columns over a stored row gives a stored row of the
   * same table, with the same id.
   */
  lemma UpdateFits(e: Entity, existing: Row, data: Object, host: Host)
    requires RowFits(e, existing)
    ensures RowFits(e, existing + Changes(e, existing, data, host))
    ensures F.Id in existing && (existing + Changes(e, existing, data, host))[F.Id] == existing[F.Id]
  {
    var changes := Changes(e, existing, data, host);
    var row := existing + changes;
    SpecsWellFormed(e);
    assert changes.Keys <= existing.Keys;
    forall f | f in row ensures HasKind(row[f], KindOf(CreateRule(e, f).value)) {
      if f in changes {
        EvalKeeps(UpdateRule(e, f).value, KindOf(CreateRule(e, f).value), f, data, existing, host);
      }
    }
  }

  // ---------------------------------------------------------------------
  // defaults and merge rules
  // ---------------------------------------------------------------------

  /**
   * Every `create*` keeps a supplied (truthy) id and generates one only
   * otherwise, and defaults a falsy visibility to 'private'.
   */
  lemma CreateIdAndVisibility(e: Entity, data: Object, host: Host)
    ensures F.Id in NewRecord(e, data, host) && F.Visibility in NewRecord(e, data, host)
    ensures NewRecord(e, data, host)[F.Id] ==
      (if Truthy(Get(data, "id")) then Get(data, "id") else Str(host.freshId))
    ensures NewRecord(e, data, host)[F.Visibility] ==
      (if Truthy(Get(data, "visibility")) then Get(data, "visibility") else Str("private"))
  {
    assert F.Key(F.Id) == "id" && F.Key(F.Visibility) == "visibility";
    assert [F.Visibility] + [] == [F.Visibility];
    SpecsWellFormed(e);
    NewRecordIs(e, data, host, F.Id, GivenOrFresh);
    NewRecordIs(e, data, host, F.Visibility, Fallback([], Str("private")));
  }

  lemma NewRecordAt(e: Entity, data: Object, host: Host, f: F.Field)
    requires CreateRule(e, f).Some?
    ensures f in NewRecord(e, data, host)
    ensures NewRecord(e, data, host)[f] == Eval(CreateRule(e, f).value, f, data, map[], host)
  {
    F.InAll(f);
  }

  lemma ChangesAt(e: Entity, existing: Row, data: Object, host: Host, f: F.Field)
    requires UpdateRule(e, f).Some?
    ensures f in Changes(e, existing, data, host)
    ensures Changes(e, existing, data, host)[f] == Eval(UpdateRule(e, f).value, f, data, existing, host)
  {
    F.InAll(f);
  }

  /** The rules that fall back to the existing row. */
  predicate FallsBack(rule: Rule) {
    rule.OrExisting? || rule.DefinedOrExisting? || rule.NumberOrExisting?
    || rule.TagsOrExisting? || rule.DateOrExisting? || rule.ClearableDate?
  }

  /** Outside the activity table every update is a merge: each column but `lastUpdated` falls back to the existing row. */
  lemma MergeTables(e: Entity, f: F.Field)
    requires e != Activities && UpdateRule(e, f).Some?
    ensures FallsBack(UpdateRule(e, f).value) || (f == F.LastUpdated && UpdateRule(e, f) == Some(Now))
  {
  }

  /** A rule that falls back does so on an undefined input. */
  lemma FallBackOnUndefined(rule: Rule, f: F.Field, data: Object, existing: Row, host: Host)
    requires FallsBack(rule) && Get(data, F.Key(f)) == Undefined
    ensures Eval(rule, f, data, existing, host) == At(existing, f)
  {
  }

  /** What a falling-back rule makes of a null input. */
  lemma FallBackOnNull(rule: Rule, f: F.Field, data: Object, existing: Row, host: Host)
    requires FallsBack(rule) && Get(data, F.Key(f)) == Null
    ensures Eval(rule, f, data, existing, host) ==
      if rule.OrExisting? || rule.TagsOrExisting? || rule.DateOrExisting? then At(existing, f)
      else if rule.NumberOrExisting? then Num(0.0)
      else Null
  {
  }

  /** A rule that does not fall back ignores the existing row. */
  lemma IgnoresExisting(rule: Rule, f: F.Field, data: Object, ex1: Row, ex2: Row, host: Host)
    requires !FallsBack(rule)
    ensures Eval(rule, f, data, ex1, host) == Eval(rule, f, data, ex2, host)
  {
  }

  /** A column the input leaves undefined keeps its existing value (all tables but activities; `lastUpdated` is always refreshed). */
  lemma UpdateKeepsUndefined(e: Entity, existing: Row, data: Object, host: Host, f: F.Field)
    requires e != Activities && f != F.LastUpdated && UpdateRule(e, f).Some?
    requires Get(data, F.Key(f)) == Undefined
    ensures f in Changes(e, existing, data, host)
    ensures Changes(e, existing, data, host)[f] == At(existing, f)
  {
    ChangesAt(e, existing, data, host, f);
    MergeTables(e, f);
    FallBackOnUndefined(UpdateRule(e, f).value, f, data, existing, host);
  }

  /**
   * A null input keeps the existing value of an `||` column (title, status,
   * tags, dates, …), clears a `!== undefined` column to null, and sets a
   * numeric column to `Number(null)`, which is 0.
   */
  lemma UpdateWithNull(e: Entity, existing: Row, data: Object, host: Host, f: F.Field)
    requires e != Activities && f != F.LastUpdated && UpdateRule(e, f).Some?
    requires Get(data, F.Key(f)) == Null
    ensures f in Changes(e, existing, data, host)
    ensures var rule := UpdateRule(e, f).value;
      Changes(e, existing, data, host)[f] ==
        if rule.OrExisting? || rule.TagsOrExisting? || rule.DateOrExisting? then At(existing, f)
        else if rule.NumberOrExisting? then Num(0.0)
        else Null
  {
    ChangesAt(e, existing, data, host, f);
    MergeTables(e, f);
    FallBackOnNull(UpdateRule(e, f).value, f, data, existing, host);
  }

  /** The point-wise form of `NewRecord`, for a known rule. */
  lemma NewRecordIs(e: Entity, data: Object, host: Host, f: F.Field, rule: Rule)
    requires CreateRule(e, f) == Some(rule)
    ensures f in NewRecord(e, data, host)
    ensures NewRecord(e, data, host)[f] == Eval(rule, f, data, map[], host)
  {
    NewRecordAt(e, data, host, f);
  }

  /** The point-wise form of `Changes`, for a known rule. */
  lemma ChangesIs(e: Entity, existing: Row, data: Object, host: Host, f: F.Field, rule: Rule)
    requires UpdateRule(e, f) == Some(rule)
    ensures f in Changes(e, existing, data, host)
    ensures Changes(e, existing, data, host)[f] == Eval(rule, f, data, existing, host)
  {
    ChangesAt(e, existing, data, host, f);
  }

  /** A two-step fallback `data.f || data.g || dflt`. */
  lemma FallbackTwice(f: F.Field, g: F.Field, dflt: JsValue, data: Object, existing: Row, host: Host)
    ensures Eval(Fallback([g], dflt), f, data, existing, host) ==
      if Truthy(Get(data, F.Key(f))) then Get(data, F.Key(f))
      else if Truthy(Get(data, F.Key(g))) then Get(data, F.Key(g))
      else dflt
  {
    assert [f] + [g] == [f, g];
    assert [f, g][1..] == [g];
    assert [g][1..] == [];
  }

  /** The visibility `updateActivity` writes: the input's, or else the existing one. */
  lemma ActivityUpdateVisibility(existing: Row, data: Object, host: Host)
    ensures F.Visibility in Changes(Activities, existing, data, host)
    ensures Changes(Activities, existing, data, host)[F.Visibility] == Or(Get(data, "visibility"), At(existing, F.Visibility))
  {
    assert F.Key(F.Visibility) == "visibility";
    assert Eval(OrExisting, F.Visibility, data, existing, host) == Or(Get(data, "visibility"), At(existing, F.Visibility));
    assert UpdateRule(Activities, F.Visibility) == Some(OrExisting);
    ChangesIs(Activities, existing, data, host, F.Visibility, OrExisting);
  }

  /**
   * `updateActivity` replaces instead of merging: apart from the visibility,
   * what it writes does not depend on the existing row.
   */
  lemma ActivityUpdateReplaces(ex1: Row, ex2: Row, data: Object, host: Host)
    ensures Changes(Activities, ex1, data, host).Keys == Changes(Activities, ex2, data, host).Keys
    ensures forall f :: f in Changes(Activities, ex1, data, host) && f != F.Visibility ==>
      Changes(Activities, ex1, data, host)[f] == Changes(Activities, ex2, data, host)[f]
  {
    var c1, c2 := Changes(Activities, ex1, data, host), Changes(Activities, ex2, data, host);
    forall f ensures f in c1 <==> f in c2 {
      F.InAll(f);
    }
    forall f | f in c1 && f != F.Visibility ensures c1[f] == c2[f] {
      var rule := UpdateRule(Activities, f).value;
      ActivityRulesReplace(f);
      IgnoresExisting(rule, f, data, ex1, ex2, host);
      ChangesIs(Activities, ex1, data, host, f, rule);
      ChangesIs(Activities, ex2, data, host, f, rule);
    }
  }

  /** Apart from the visibility, no column of `updateActivity` falls back to the existing row. */
  lemma ActivityRulesReplace(f: F.Field)
    requires UpdateRule(Activities, f).Some? && f != F.Visibility
    ensures !FallsBack(UpdateRule(Activities, f).value)
  {
  }

  /** Absent tags, duration and url in an activity update become `[]`, null and null. */
  lemma ActivityUpdateClears(existing: Row, data: Object, host: Host)
    requires Get(data, "tags") == Undefined && Get(data, "duration") == Undefined && Get(data, "url") == Undefined
    ensures F.Tags in Changes(Activities, existing, data, host) && F.Duration in Changes(Activities, existing, data, host)
    ensures F.Url in Changes(Activities, existing, data, host)
    ensures Changes(Activities, existing, data, host)[F.Tags] == Arr([])
    ensures Changes(Activities, existing, data, host)[F.Duration] == Null
    ensures Changes(Activities, existing, data, host)[F.Url] == Null
  {
    assert F.Key(F.Tags) == "tags" && F.Key(F.Duration) == "duration" && F.Key(F.Url) == "url";
    assert [F.Url] + [] == [F.Url];
    assert Eval(Tags, F.Tags, data, existing, host) == Arr([]);
    assert Eval(NumberIfTruthy, F.Duration, data, existing, host) == Null;
    assert Eval(Fallback([], Null), F.Url, data, existing, host) == Null;
    assert UpdateRule(Activities, F.Tags) == Some(Tags);
    assert UpdateRule(Activities, F.Duration) == Some(NumberIfTruthy);
    assert UpdateRule(Activities, F.Url) == Some(Fallback([], Null));
    ChangesIs(Activities, existing, data, host, F.Tags, Tags);
    ChangesIs(Activities, existing, data, host, F.Duration, NumberIfTruthy);
    ChangesIs(Activities, existing, data, host, F.Url, Fallback([], Null));
  }

  /** A project's title falls back from `title` to `name` to 'Untitled Project'. */
  lemma ProjectTitleDefault(data: Object, host: Host)
    ensures F.Title in NewRecord(Projects, data, host)
    ensures NewRecord(Projects, data, host)[F.Title] ==
      if Truthy(Get(data, "title")) then Get(data, "title")
      else if Truthy(Get(data, "name")) then Get(data, "name")
      else Str("Untitled Project")
  {
    assert F.Key(F.Title) == "title" && F.Key(F.Name) == "name";
    assert CreateRule(Projects, F.Title) == Some(Fallback([F.Name], Str("Untitled Project")));
    FallbackTwice(F.Title, F.Name, Str("Untitled Project"), data, map[], host);
    NewRecordIs(Projects, data, host, F.Title, Fallback([F.Name], Str("Untitled Project")));
  }

  /** `data.f !== undefined ? Number(data.f) : dflt` */
  lemma NumberIfDefinedMeans(dflt: JsValue, f: F.Field, data: Object, existing: Row, host: Host)
    ensures Eval(NumberIfDefined(dflt), f, data, existing, host) ==
      if Get(data, F.Key(f)) == Undefined then dflt else ToNumber(Get(data, F.Key(f)), host)
  {
  }

  /** `Array.isArray(data.f) ? data.f : []` */
  lemma ArrayOrEmptyMeans(f: F.Field, data: Object, existing: Row, host: Host)
    ensures Eval(ArrayOrEmpty, f, data, existing, host) ==
      if Get(data, F.Key(f)).Arr? then Get(data, F.Key(f)) else Arr([])
  {
  }

  /** A project's `progress` is 0 only when undefined, otherwise `Number` of the input. */
  lemma ProjectProgressDefault(data: Object, host: Host)
    ensures F.Progress in NewRecord(Projects, data, host)
    ensures NewRecord(Projects, data, host)[F.Progress] ==
      if Get(data, "progress") == Undefined then Num(0.0) else ToNumber(Get(data, "progress"), host)
  {
    assert F.Key(F.Progress) == "progress";
    assert ProjectCreate(F.Progress) == Some(NumberIfDefined(Num(0.0)));
    NewRecordIs(Projects, data, host, F.Progress, NumberIfDefined(Num(0.0)));
    NumberIfDefinedMeans(Num(0.0), F.Progress, data, map[], host);
  }

  /** A project's `techStack` is `[]` unless it is already an array. */
  lemma ProjectTechStackDefault(data: Object, host: Host)
    ensures F.TechStack in NewRecord(Projects, data, host)
    ensures NewRecord(Projects, data, host)[F.TechStack] ==
      if Get(data, "techStack").Arr? then Get(data, "techStack") else Arr([])
  {
    assert F.Key(F.TechStack) == "techStack";
    assert ProjectCreate(F.TechStack) == Some(ArrayOrEmpty);
    NewRecordIs(Projects, data, host, F.TechStack, ArrayOrEmpty);
    ArrayOrEmptyMeans(F.TechStack, data, map[], host);
  }

  /** An activity's duration is null whenever the input is falsy, so a duration of 0 becomes null. */
  lemma ActivityDurationFalsyIsNull(data: Object, host: Host)
    requires !Truthy(Get(data, "duration"))
    ensures F.Duration in NewRecord(Activities, data, host)
    ensures NewRecord(Activities, data, host)[F.Duration] == Null
  {
    assert F.Key(F.Duration) == "duration";
    assert Eval(NumberIfTruthy, F.Duration, data, map[], host) == Null;
    assert CreateRule(Activities, F.Duration) == Some(NumberIfTruthy);
    NewRecordIs(Activities, data, host, F.Duration, NumberIfTruthy);
  }

  /**
   * A goal's `endDate` in an update: kept when the input leaves it undefined,
   * cleared to null when the input is present but falsy, otherwise the date.
   */
  lemma GoalEndDateUpdate(existing: Row, data: Object, host: Host)
    ensures F.EndDate in Changes(RevenueGoals, existing, data, host)
    ensures var v := Get(data, "endDate");
      Changes(RevenueGoals, existing, data, host)[F.EndDate] ==
        if v == Undefined then At(existing, F.EndDate)
        else if Truthy(v) then AsDate(v, host)
        else Null
  {
    assert F.Key(F.EndDate) == "endDate";
    assert UpdateRule(RevenueGoals, F.EndDate) == Some(ClearableDate);
    var v := Get(data, "endDate");
    assert Eval(ClearableDate, F.EndDate, data, existing, host) ==
      if v == Undefined then At(existing, F.EndDate) else if Truthy(v) then AsDate(v, host) else Null;
    ChangesIs(RevenueGoals, existing, data, host, F.EndDate, ClearableDate);
  }

  /** A new resource or AI tool is a favourite only for the literal `true`. */
  lemma FavoriteOnlyLiteralTrue(e: Entity, data: Object, host: Host)
    requires e == Resources || e == AITools
    ensures F.IsFavorite in NewRecord(e, data, host)
    ensures NewRecord(e, data, host)[F.IsFavorite] == Bool(Get(data, "isFavorite") == Bool(true))
  {
    assert F.Key(F.IsFavorite) == "isFavorite";
    assert Eval(IsTrue, F.IsFavorite, data, map[], host) == Bool(Get(data, "isFavorite") == Bool(true));
    if e == Resources {
      assert ResourceCreate(F.IsFavorite) == Some(IsTrue);
    } else {
      assert ToolCreate(F.IsFavorite) == Some(IsTrue);
    }
    NewRecordIs(e, data, host, F.IsFavorite, IsTrue);
  }
}
