/**
 * The `get*Stats` aggregations: frequency tables built by `forEach` loops
 * that bump a dictionary entry per row (`t[k] = (t[k] || 0) + w`), sums
 * built by `reduce`, and the ten most frequent tags.
 *
 * A frequency table is keyed by the row's value itself; JavaScript would key
 * it by that value's string form.
 */
module Stats {

  import opened Wrappers
  import opened JsValues
  import F = Fields
  import opened Records
  import opened Seqs
  import opened Tallies

  type Tally = map<JsValue, real>

  /** `v || 0` added to a number: the value of a truthy number, otherwise 0. */
  function NumberOrZero(v: JsValue): (x: real)
    ensures Truthy(v) && v.Num? ==> x == v.n
    ensures !Truthy(v) ==> x == 0.0
  {
    if Truthy(v) && v.Num? then v.n else 0.0
  }

  /**
   * One grouping pass of a stats function: the column whose value is the
   * key, whether rows with a falsy key are skipped (`if (category) …`), and
   * what each row adds: 1 to count it, or its `amount || 0` to sum amounts.
   */
  datatype Grouping = Grouping(key: F.Field, skipFalsy: bool, weight: Option<F.Field>)

  predicate Counted(g: Grouping, row: Row) {
    !g.skipFalsy || Truthy(At(row, g.key))
  }

  function Weight(g: Grouping, row: Row): real {
    match g.weight
    case None => 1.0
    case Some(f) => NumberOrZero(At(row, f))
  }

  /** The table a grouping pass leaves after visiting `rows` in order. */
  function Grouped(g: Grouping, rows: seq<Row>): Tally {
    if rows == [] then map[]
    else
      var t := Grouped(g, rows[..|rows| - 1]);
      var row := rows[|rows| - 1];
      if Counted(g, row) then Bump(t, At(row, g.key), Weight(g, row)) else t
  }

  /** What the counted rows add up to. */
  function TotalWeight(g: Grouping, rows: seq<Row>): real {
    if rows == [] then 0.0
    else
      TotalWeight(g, rows[..|rows| - 1])
        + (if Counted(g, rows[|rows| - 1]) then Weight(g, rows[|rows| - 1]) else 0.0)
  }

  /** The `forEach` loop that builds a frequency table. */
  method GroupBy(g: Grouping, rows: seq<Row>) returns (t: Tally)
    ensures t == Grouped(g, rows)
  {
    t := map[];
    var i := 0;
    while i < |rows|
      invariant 0 <= i <= |rows|
      invariant t == Grouped(g, rows[..i])
    {
      var row := rows[i];
      assert rows[..i + 1][..i] == rows[..i];
      if Counted(g, row) {
        var k := At(row, g.key);
        t := t[k := (if k in t then t[k] else 0.0) + Weight(g, row)];
      }
      i := i + 1;
    }
    assert rows[..|rows|] == rows;
  }

  /** The entries of a frequency table add up to what the counted rows add. */
  lemma {:induction false} GroupedSum(g: Grouping, rows: seq<Row>)
    ensures SumValues(Grouped(g, rows)) == TotalWeight(g, rows)
  {
    if rows != [] {
      var row := rows[|rows| - 1];
      GroupedSum(g, rows[..|rows| - 1]);
      if Counted(g, row) {
        SumValuesBump(Grouped(g, rows[..|rows| - 1]), At(row, g.key), Weight(g, row));
      }
    }
  }

  /** A key is in the table exactly when some counted row carries it. */
  lemma {:induction false} GroupedKeys(g: Grouping, rows: seq<Row>, k: JsValue)
    ensures k in Grouped(g, rows) <==>
      exists i :: 0 <= i < |rows| && Counted(g, rows[i]) && At(rows[i], g.key) == k
  {
    if rows != [] {
      var init := rows[..|rows| - 1];
      GroupedKeys(g, init, k);
      if exists i :: 0 <= i < |init| && Counted(g, init[i]) && At(init[i], g.key) == k {
        var i :| 0 <= i < |init| && Counted(g, init[i]) && At(init[i], g.key) == k;
        assert rows[i] == init[i];
      }
      if exists i :: 0 <= i < |rows| && Counted(g, rows[i]) && At(rows[i], g.key) == k {
        var i :| 0 <= i < |rows| && Counted(g, rows[i]) && At(rows[i], g.key) == k;
        if i < |init| {
          assert rows[i] == init[i];
        }
      }
    }
  }

  /** The test `row[key] === k`. */
  function KeyIs(g: Grouping, k: JsValue): Row -> bool {
    row => At(row, g.key) == k
  }

  lemma TotalWeightSnoc(g: Grouping, s: seq<Row>, x: Row)
    ensures TotalWeight(g, s + [x]) == TotalWeight(g, s) + (if Counted(g, x) then Weight(g, x) else 0.0)
  {
    assert (s + [x])[..|s|] == s;
  }

  /** A key's entry is what the counted rows carrying that key add up to. */
  lemma {:induction false} GroupedAt(g: Grouping, rows: seq<Row>, k: JsValue)
    ensures (if k in Grouped(g, rows) then Grouped(g, rows)[k] else 0.0)
      == TotalWeight(g, Filter(rows, KeyIs(g, k)))
  {
    if rows != [] {
      var init := rows[..|rows| - 1];
      var row := rows[|rows| - 1];
      var p := KeyIs(g, k);
      GroupedAt(g, init, k);
      var t := Grouped(g, init);
      var t' := Grouped(g, rows);
      assert t' == if Counted(g, row) then Bump(t, At(row, g.key), Weight(g, row)) else t;
      var v := if k in t then t[k] else 0.0;
      var v' := if k in t' then t'[k] else 0.0;
      assert rows == init + [row];
      FilterSnoc(init, row, p);
      var fi := Filter(init, p);
      assert v == TotalWeight(g, fi);
      if p(row) {
        assert Filter(rows, p) == fi + [row];
        TotalWeightSnoc(g, fi, row);
        assert v' == v + (if Counted(g, row) then Weight(g, row) else 0.0);
      } else {
        assert Filter(rows, p) == fi;
        assert v' == v;
      }
    }
  }

  /** In a table that skips falsy keys, every key is truthy. */
  lemma SkippedKeysAbsent(g: Grouping, rows: seq<Row>, k: JsValue)
    requires g.skipFalsy && !Truthy(k)
    ensures k !in Grouped(g, rows)
  {
    GroupedKeys(g, rows, k);
  }

  /** When every row is counted by 1, the counts add up to the number of rows. */
  lemma {:induction false} CountsSumToTotal(g: Grouping, rows: seq<Row>)
    requires !g.skipFalsy && g.weight.None?
    ensures SumValues(Grouped(g, rows)) == |rows| as real
  {
    GroupedSum(g, rows);
    TotalIsLength(g, rows);
  }

  lemma {:induction false} TotalIsLength(g: Grouping, rows: seq<Row>)
    requires !g.skipFalsy && g.weight.None?
    ensures TotalWeight(g, rows) == |rows| as real
  {
    if rows != [] {
      TotalIsLength(g, rows[..|rows| - 1]);
    }
  }

  // ---------------------------------------------------------------------
  // sums and favourites
  // ---------------------------------------------------------------------

  /** `rows.reduce((sum, row) => sum + (row[f] || 0), 0)` */
  function ColumnSum(rows: seq<Row>, f: F.Field): real {
    if rows == [] then 0.0
    else ColumnSum(rows[..|rows| - 1], f) + NumberOrZero(At(rows[|rows| - 1], f))
  }

  /** A sum over every row is what a weighted grouping that skips nothing adds up to. */
  lemma {:induction false} ColumnSumIsTotal(g: Grouping, rows: seq<Row>)
    requires !g.skipFalsy && g.weight.Some?
    ensures ColumnSum(rows, g.weight.value) == TotalWeight(g, rows)
  {
    if rows != [] {
      ColumnSumIsTotal(g, rows[..|rows| - 1]);
    }
  }

  predicate IsFavorite(row: Row) {
    Truthy(At(row, F.IsFavorite))
  }

  /** `rows.filter(row => row.isFavorite).length` */
  function FavoriteCount(rows: seq<Row>): (n: nat)
    ensures n <= |rows|
  {
    |Filter(rows, IsFavorite)|
  }

  /** The positions of the favourite rows. */
  function FavoriteIndices(rows: seq<Row>): set<int> {
    set i | 0 <= i < |rows| && IsFavorite(rows[i])
  }

  /** The favourite count is the number of rows whose `isFavorite` is truthy. */
  lemma {:induction false} FavoriteCountCounts(rows: seq<Row>)
    ensures FavoriteCount(rows) == |FavoriteIndices(rows)|
  {
    if rows != [] {
      var init := rows[..|rows| - 1];
      var x := rows[|rows| - 1];
      assert rows == init + [x];
      FavoriteCountCounts(init);
      FilterSnoc(init, x, IsFavorite);
      FavoriteIndicesSnoc(init, x);
    }
  }

  lemma FavoriteIndicesSnoc(init: seq<Row>, x: Row)
    ensures |FavoriteIndices(init + [x])| == |FavoriteIndices(init)| + if IsFavorite(x) then 1 else 0
  {
    var rows := init + [x];
    var a := FavoriteIndices(init);
    var b := FavoriteIndices(rows);
    assert forall i :: 0 <= i < |init| ==> rows[i] == init[i];
    assert |init| !in a;
    if IsFavorite(x) {
      assert b == a + {|init|};
    } else {
      assert b == a;
    }
  }

  // ---------------------------------------------------------------------
  // top tags
  // ---------------------------------------------------------------------

  function RowTags(row: Row): seq<JsValue> {
    var v := At(row, F.Tags);
    if v.Arr? then v.items else []
  }

  /** The tags of the rows whose `tags` is an array, in the order the nested `forEach` visits them. */
  function TagList(rows: seq<Row>): seq<JsValue> {
    if rows == [] then [] else TagList(rows[..|rows| - 1]) + RowTags(rows[|rows| - 1])
  }

  /** An entry `{tag, count}` of `Object.entries(tagCounts)`. */
  datatype TagCount = TagCount(tag: JsValue, count: nat)

  function IndexOfTag(entries: seq<TagCount>, t: JsValue): (r: Option<nat>)
    ensures r.Some? ==> r.value < |entries| && entries[r.value].tag == t
    ensures r.None? ==> forall i :: 0 <= i < |entries| ==> entries[i].tag != t
  {
    if entries == [] then None
    else if entries[|entries| - 1].tag == t then Some(|entries| - 1)
    else IndexOfTag(entries[..|entries| - 1], t)
  }

  /** `tagCounts[tag] = (tagCounts[tag] || 0) + 1`, the dictionary kept in insertion order. */
  function AddTag(entries: seq<TagCount>, t: JsValue): seq<TagCount> {
    match IndexOfTag(entries, t)
    case Some(i) => entries[i := TagCount(t, entries[i].count + 1)]
    case None => entries + [TagCount(t, 1)]
  }

  /** The tag counts after visiting `tags` in order. */
  function Tallied(tags: seq<JsValue>): seq<TagCount> {
    if tags == [] then [] else AddTag(Tallied(tags[..|tags| - 1]), tags[|tags| - 1])
  }

  predicate DistinctTags(entries: seq<TagCount>) {
    forall i, j :: 0 <= i < j < |entries| ==> entries[i].tag != entries[j].tag
  }

  /**
   * The tag counts have one entry per distinct tag, and each entry's count
   * is the number of times its tag occurs.
   */
  lemma {:induction false} TalliedCounts(tags: seq<JsValue>)
    ensures DistinctTags(Tallied(tags))
    ensures forall i :: 0 <= i < |Tallied(tags)| ==>
      Tallied(tags)[i].count == multiset(tags)[Tallied(tags)[i].tag]
    ensures forall t :: t in tags <==> exists i :: 0 <= i < |Tallied(tags)| && Tallied(tags)[i].tag == t
  {
    if tags != [] {
      var init := tags[..|tags| - 1];
      var t := tags[|tags| - 1];
      TalliedCounts(init);
      assert tags == init + [t];
      assert multiset(tags) == multiset(init) + multiset{t};
      var e := Tallied(init);
      var r := Tallied(tags);
      assert r == AddTag(e, t);
      match IndexOfTag(e, t)
      case Some(k) =>
        assert r == e[k := TagCount(t, e[k].count + 1)];
        forall u ensures u in tags <==> exists i :: 0 <= i < |r| && r[i].tag == u {
          if u in tags && u != t {
            assert u in init;
            var i :| 0 <= i < |e| && e[i].tag == u;
            assert r[i].tag == u;
          }
          if u == t {
            assert r[k].tag == u;
          }
          if exists i :: 0 <= i < |r| && r[i].tag == u {
            var i :| 0 <= i < |r| && r[i].tag == u;
            if i != k {
              assert e[i].tag == u;
              assert u in init;
            }
          }
        }
      case None =>
        assert r == e + [TagCount(t, 1)];
        assert t !in init;
        forall u ensures u in tags <==> exists i :: 0 <= i < |r| && r[i].tag == u {
          if u in tags && u != t {
            assert u in init;
            var i :| 0 <= i < |e| && e[i].tag == u;
            assert r[i].tag == u;
          }
          if u == t {
            assert r[|e|].tag == u;
          }
          if exists i :: 0 <= i < |r| && r[i].tag == u {
            var i :| 0 <= i < |r| && r[i].tag == u;
            if i < |e| {
              assert r[i] == e[i];
              assert u in init;
            } else {
              assert u == t;
            }
          }
        }
    }
  }

  /** The nested `forEach` over the rows and their tags. */
  method CountTags(rows: seq<Row>) returns (entries: seq<TagCount>)
    ensures entries == Tallied(TagList(rows))
  {
    entries := [];
    var i := 0;
    while i < |rows|
      invariant 0 <= i <= |rows|
      invariant entries == Tallied(TagList(rows[..i]))
    {
      assert rows[..i + 1][..i] == rows[..i];
      entries := CountRowTags(entries, TagList(rows[..i]), RowTags(rows[i]));
      i := i + 1;
    }
    assert rows[..|rows|] == rows;
  }

  /** The inner `forEach`: counting one row's tags on top of the counts of the tags before them. */
  method CountRowTags(counted: seq<TagCount>, before: seq<JsValue>, tags: seq<JsValue>) returns (entries: seq<TagCount>)
    requires counted == Tallied(before)
    ensures entries == Tallied(before + tags)
  {
    entries := counted;
    var j := 0;
    assert before + tags[..0] == before;
    while j < |tags|
      invariant 0 <= j <= |tags|
      invariant entries == Tallied(before + tags[..j])
    {
      assert (before + tags[..j + 1])[..|before + tags[..j]|] == before + tags[..j];
      assert before + tags[..j + 1] == (before + tags[..j]) + [tags[j]];
      entries := AddTag(entries, tags[j]);
      j := j + 1;
    }
    assert tags[..j] == tags;
  }

  /** `b.count - a.count` order: non-increasing counts. */
  predicate Descending(s: seq<TagCount>) {
    forall i, j :: 0 <= i < j < |s| ==> s[i].count >= s[j].count
  }

  /** Insert `x` after every entry counted at least as often, so ties keep their order. */
  function Insert(x: TagCount, s: seq<TagCount>): seq<TagCount> {
    if s == [] then [x]
    else if s[0].count >= x.count then [s[0]] + Insert(x, s[1..])
    else [x] + s
  }

  /** The stable sort `sort((a, b) => b.count - a.count)`. */
  function SortDesc(entries: seq<TagCount>): seq<TagCount> {
    if entries == [] then []
    else Insert(entries[|entries| - 1], SortDesc(entries[..|entries| - 1]))
  }

  lemma {:induction false} InsertPermutes(x: TagCount, s: seq<TagCount>)
    ensures multiset(Insert(x, s)) == multiset(s) + multiset{x}
  {
    if s != [] && s[0].count >= x.count {
      InsertPermutes(x, s[1..]);
      assert s == [s[0]] + s[1..];
    }
  }

  lemma {:induction false} InsertDescending(x: TagCount, s: seq<TagCount>)
    requires Descending(s)
    ensures Descending(Insert(x, s))
  {
    if s != [] && s[0].count >= x.count {
      InsertDescending(x, s[1..]);
      InsertPermutes(x, s[1..]);
      var r := Insert(x, s[1..]);
      forall j | 0 <= j < |r| ensures s[0].count >= r[j].count {
        assert r[j] in multiset(r);
        if r[j] != x {
          assert r[j] in multiset(s[1..]);
          var k :| 0 <= k < |s[1..]| && s[1..][k] == r[j];
          assert s[k + 1] == r[j];
        }
      }
    }
  }

  /** The sort rearranges the entries into non-increasing count order. */
  lemma {:induction false} SortDescSpec(entries: seq<TagCount>)
    ensures multiset(SortDesc(entries)) == multiset(entries)
    ensures Descending(SortDesc(entries))
  {
    if entries != [] {
      var init := entries[..|entries| - 1];
      var x := entries[|entries| - 1];
      SortDescSpec(init);
      InsertPermutes(x, SortDesc(init));
      InsertDescending(x, SortDesc(init));
      assert entries == init + [x];
    }
  }

  /** `.slice(0, 10)` of the sorted entries. */
  function TopTags(entries: seq<TagCount>): (r: seq<TagCount>)
    ensures |r| <= 10
  {
    var sorted := SortDesc(entries);
    if |sorted| <= 10 then sorted else sorted[..10]
  }

  /**
   * The top tags: at most ten entries, in non-increasing count order, taken
   * from the entries, and no entry left out is counted more often than any
   * entry kept.
   */
  lemma TopTagsSpec(entries: seq<TagCount>)
    ensures |TopTags(entries)| == if |entries| < 10 then |entries| else 10
    ensures Descending(TopTags(entries))
    ensures forall x :: x in TopTags(entries) ==> x in entries
    ensures forall x, y :: x in entries && x !in TopTags(entries) && y in TopTags(entries) ==> y.count >= x.count
  {
    var sorted := SortDesc(entries);
    SortDescSpec(entries);
    assert |sorted| == |multiset(sorted)| == |entries|;
    var r := TopTags(entries);
    forall x | x in r ensures x in entries {
      assert x in multiset(sorted);
    }
    forall x, y | x in entries && x !in r && y in r ensures y.count >= x.count {
      assert x in multiset(entries);
      var i :| 0 <= i < |sorted| && sorted[i] == x;
      var j :| 0 <= j < |r| && r[j] == y;
      assert i >= 10 && sorted[j] == y;
    }
  }

  /**
   * Each top tag carries its true number of occurrences, and a tag that
   * misses the top ten occurs no more often than any tag in it.
   */
  lemma TopTagsOfRows(rows: seq<Row>)
    ensures forall x :: x in TopTags(Tallied(TagList(rows))) ==> x.count == multiset(TagList(rows))[x.tag]
    ensures forall t, y ::
      (t in TagList(rows) && y in TopTags(Tallied(TagList(rows))) && t !in TagsOf(TopTags(Tallied(TagList(rows)))))
      ==> y.count >= multiset(TagList(rows))[t]
  {
    var tags := TagList(rows);
    var e := Tallied(tags);
    var r := TopTags(e);
    TalliedCounts(tags);
    TopTagsSpec(e);
    forall x | x in r ensures x.count == multiset(tags)[x.tag] {
      var i :| 0 <= i < |e| && e[i] == x;
    }
    forall t, y | t in tags && y in r && t !in TagsOf(r)
      ensures y.count >= multiset(tags)[t]
    {
      var i :| 0 <= i < |e| && e[i].tag == t;
      assert e[i] in e && e[i] !in r;
    }
  }

  function TagsOf(entries: seq<TagCount>): set<JsValue> {
    set z | z in entries :: z.tag
  }

  /** Counting the tags of the rows, sorting and keeping the first ten. */
  method TopTagsOf(rows: seq<Row>) returns (top: seq<TagCount>)
    ensures top == TopTags(Tallied(TagList(rows)))
  {
    var entries := CountTags(rows);
    top := TopTags(entries);
  }

  // ---------------------------------------------------------------------
  // the stats of each table, over the rows `getAll*(auth)` returns
  // ---------------------------------------------------------------------

  /** Count the rows by the value of `f`, rows with a falsy value included. */
  function CountAll(f: F.Field): Grouping { Grouping(f, false, None) }

  /** Count the rows by the value of `f`, skipping rows whose value is falsy. */
  function CountTruthy(f: F.Field): Grouping { Grouping(f, true, None) }

  /** Sum the amounts by the value of `f`, skipping rows whose value is falsy. */
  function SumTruthy(f: F.Field): Grouping { Grouping(f, true, Some(F.Amount)) }

  datatype ActivityStats = ActivityStats(total: nat, byType: Tally, byProject: Tally)

  method GetActivityStats(rows: seq<Row>) returns (s: ActivityStats)
    ensures s.total == |rows|
    ensures s.byType == Grouped(CountAll(F.Type), rows)
    ensures s.byProject == Grouped(CountTruthy(F.ProjectId), rows)
  {
    var byType := GroupBy(CountAll(F.Type), rows);
    var byProject := GroupBy(CountTruthy(F.ProjectId), rows);
    s := ActivityStats(|rows|, byType, byProject);
  }

  datatype ProjectStats = ProjectStats(total: nat, byStatus: Tally, byCategory: Tally, topTags: seq<TagCount>)

  method GetProjectStats(rows: seq<Row>) returns (s: ProjectStats)
    ensures s.total == |rows|
    ensures s.byStatus == Grouped(CountAll(F.Status), rows)
    ensures s.byCategory == Grouped(CountTruthy(F.Category), rows)
    ensures s.topTags == TopTags(Tallied(TagList(rows)))
  {
    var byStatus := GroupBy(CountAll(F.Status), rows);
    var byCategory := GroupBy(CountTruthy(F.Category), rows);
    var top := TopTagsOf(rows);
    s := ProjectStats(|rows|, byStatus, byCategory, top);
  }

  datatype WritingStats = WritingStats(total: nat, byStatus: Tally, byCategory: Tally, wordCount: real, topTags: seq<TagCount>)

  /** Unlike the other tables, writing counts an empty category too. */
  method GetWritingStats(rows: seq<Row>) returns (s: WritingStats)
    ensures s.total == |rows|
    ensures s.byStatus == Grouped(CountAll(F.Status), rows)
    ensures s.byCategory == Grouped(CountAll(F.Category), rows)
    ensures s.wordCount == ColumnSum(rows, F.WordCount)
    ensures s.topTags == TopTags(Tallied(TagList(rows)))
  {
    var byStatus := GroupBy(CountAll(F.Status), rows);
    var byCategory := GroupBy(CountAll(F.Category), rows);
    var top := TopTagsOf(rows);
    s := WritingStats(|rows|, byStatus, byCategory, ColumnSum(rows, F.WordCount), top);
  }

  datatype BookStats = BookStats(total: nat, byStatus: Tally, byCategory: Tally, byFormat: Tally, topTags: seq<TagCount>)

  method GetBookStats(rows: seq<Row>) returns (s: BookStats)
    ensures s.total == |rows|
    ensures s.byStatus == Grouped(CountAll(F.Status), rows)
    ensures s.byCategory == Grouped(CountTruthy(F.Category), rows)
    ensures s.byFormat == Grouped(CountTruthy(F.Format), rows)
    ensures s.topTags == TopTags(Tallied(TagList(rows)))
  {
    var byStatus := GroupBy(CountAll(F.Status), rows);
    var byCategory := GroupBy(CountTruthy(F.Category), rows);
    var byFormat := GroupBy(CountTruthy(F.Format), rows);
    var top := TopTagsOf(rows);
    s := BookStats(|rows|, byStatus, byCategory, byFormat, top);
  }

  datatype ResourceStats = ResourceStats(total: nat, byCategory: Tally, byType: Tally, favoriteCount: nat, topTags: seq<TagCount>)

  method GetResourceStats(rows: seq<Row>) returns (s: ResourceStats)
    ensures s.total == |rows|
    ensures s.byCategory == Grouped(CountTruthy(F.Category), rows)
    ensures s.byType == Grouped(CountTruthy(F.Type), rows)
    ensures s.favoriteCount == FavoriteCount(rows)
    ensures s.topTags == TopTags(Tallied(TagList(rows)))
  {
    var byCategory := GroupBy(CountTruthy(F.Category), rows);
    var byType := GroupBy(CountTruthy(F.Type), rows);
    var top := TopTagsOf(rows);
    s := ResourceStats(|rows|, byCategory, byType, FavoriteCount(rows), top);
  }

  datatype RevenueStats = RevenueStats(total: real, byType: Tally, byStatus: Tally)

  method GetRevenueStats(rows: seq<Row>) returns (s: RevenueStats)
    ensures s.total == ColumnSum(rows, F.Amount)
    ensures s.byType == Grouped(SumTruthy(F.Type), rows)
    ensures s.byStatus == Grouped(SumTruthy(F.Status), rows)
  {
    var byType := GroupBy(SumTruthy(F.Type), rows);
    var byStatus := GroupBy(SumTruthy(F.Status), rows);
    s := RevenueStats(ColumnSum(rows, F.Amount), byType, byStatus);
  }

  datatype ToolStats = ToolStats(total: nat, byCategory: Tally, favoriteCount: nat, topTags: seq<TagCount>)

  method GetToolStats(rows: seq<Row>) returns (s: ToolStats)
    ensures s.total == |rows|
    ensures s.byCategory == Grouped(CountTruthy(F.Category), rows)
    ensures s.favoriteCount == FavoriteCount(rows)
    ensures s.topTags == TopTags(Tallied(TagList(rows)))
  {
    var byCategory := GroupBy(CountTruthy(F.Category), rows);
    var top := TopTagsOf(rows);
    s := ToolStats(|rows|, byCategory, FavoriteCount(rows), top);
  }

  /** When every row is counted, skipping falsy keys changes nothing. */
  lemma {:induction false} TotalWeightAllCounted(g: Grouping, rows: seq<Row>)
    requires forall i :: 0 <= i < |rows| ==> Counted(g, rows[i])
    ensures TotalWeight(g, rows) == TotalWeight(g.(skipFalsy := false), rows)
  {
    if rows != [] {
      TotalWeightAllCounted(g, rows[..|rows| - 1]);
    }
  }

  /**
   * The revenue by type adds up to the revenue total when every entry has a
   * type; entries without one are in the total only.
   */
  lemma RevenueByTypeAddsUp(rows: seq<Row>)
    requires forall i :: 0 <= i < |rows| ==> Truthy(At(rows[i], F.Type))
    ensures SumValues(Grouped(SumTruthy(F.Type), rows)) == ColumnSum(rows, F.Amount)
  {
    var g := SumTruthy(F.Type);
    GroupedSum(g, rows);
    TotalWeightAllCounted(g, rows);
    ColumnSumIsTotal(g.(skipFalsy := false), rows);
  }
}
