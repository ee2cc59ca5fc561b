/**
 * The in-memory collection utilities of the client: visibility filtering,
 * lookup by id, counting by a property, tag filtering, sorting by date, and
 * the upsert, delete and merge-with-defaults steps of local persistence.
 * Items are of any type; the property each utility reads is passed in as a
 * function (`item.id`, `item.visibility`, `String(item[property])`, …).
 */
module Data {

  import opened Wrappers
  import opened Seqs
  import opened Tallies

  /** `getVisibleContent`: everything when signed in, otherwise the public items in order. */
  function VisibleContent<T(!new)>(items: seq<T>, visibility: T -> string, auth: bool): (r: seq<T>)
    ensures auth ==> r == items
    ensures !auth ==> forall x :: x in r <==> x in items && visibility(x) == "public"
    ensures Subseq(r, items)
  {
    if auth then (SubseqRefl(items); items) else Filter(items, x => visibility(x) == "public")
  }

  /** `items.findIndex(i => i.id === id)`, None for -1. */
  function FindIndex<T>(items: seq<T>, idOf: T -> string, id: string): (r: Option<nat>)
    ensures r.Some? ==>
      r.value < |items| && idOf(items[r.value]) == id && forall j :: 0 <= j < r.value ==> idOf(items[j]) != id
    ensures r.None? ==> forall j :: 0 <= j < |items| ==> idOf(items[j]) != id
  {
    if items == [] then None
    else if idOf(items[0]) == id then Some(0)
    else match FindIndex(items[1..], idOf, id)
      case Some(i) => Some(i + 1)
      case None => None
  }

  /** `getItemById`: the first item with the id, or undefined. */
  function GetItemById<T>(items: seq<T>, idOf: T -> string, id: string): (r: Option<T>)
    ensures r.Some? ==> r.value in items && idOf(r.value) == id
    ensures r.None? ==> forall x :: x in items ==> idOf(x) != id
  {
    match FindIndex(items, idOf, id)
    case Some(i) => Some(items[i])
    case None => None
  }

  /** The first item with the id is the one `getItemById` returns. */
  lemma GetItemByIdFirst<T>(items: seq<T>, idOf: T -> string, id: string, i: nat)
    requires i < |items| && idOf(items[i]) == id
    requires forall j :: 0 <= j < i ==> idOf(items[j]) != id
    ensures GetItemById(items, idOf, id) == Some(items[i])
  {
    var k := FindIndex(items, idOf, id).value;
    assert !(k < i) && !(i < k);
  }

  // ---------------------------------------------------------------------
  // countByProperty
  // ---------------------------------------------------------------------

  /** The counts after the `reduce` has visited `items` in order. */
  function Counts<T>(items: seq<T>, keyOf: T -> string): map<string, real> {
    if items == [] then map[]
    else Bump(Counts(items[..|items| - 1], keyOf), keyOf(items[|items| - 1]), 1.0)
  }

  /** `countByProperty`: `acc[String(item[property])] = (acc[…] || 0) + 1` for every item. */
  method CountByProperty<T>(items: seq<T>, keyOf: T -> string) returns (acc: map<string, real>)
    ensures acc == Counts(items, keyOf)
  {
    acc := map[];
    var i := 0;
    while i < |items|
      invariant 0 <= i <= |items|
      invariant acc == Counts(items[..i], keyOf)
    {
      assert items[..i + 1][..i] == items[..i];
      var value := keyOf(items[i]);
      acc := acc[value := (if value in acc then acc[value] else 0.0) + 1.0];
      i := i + 1;
    }
    assert items[..|items|] == items;
  }

  /** The number of items whose key is `k`. */
  function CountOf<T>(items: seq<T>, keyOf: T -> string, k: string): nat {
    if items == [] then 0
    else CountOf(items[..|items| - 1], keyOf, k) + (if keyOf(items[|items| - 1]) == k then 1 else 0)
  }

  /** The counts add up to the number of items. */
  lemma {:induction false} CountsSumToLength<T>(items: seq<T>, keyOf: T -> string)
    ensures SumValues(Counts(items, keyOf)) == |items| as real
  {
    if items != [] {
      CountsSumToLength(items[..|items| - 1], keyOf);
      SumValuesBump(Counts(items[..|items| - 1], keyOf), keyOf(items[|items| - 1]), 1.0);
    }
  }

  /** Each key's count is the number of items with that key; a key no item has is absent. */
  lemma {:induction false} CountsAt<T>(items: seq<T>, keyOf: T -> string, k: string)
    ensures k in Counts(items, keyOf) <==> CountOf(items, keyOf, k) > 0
    ensures k in Counts(items, keyOf) ==> Counts(items, keyOf)[k] == CountOf(items, keyOf, k) as real
  {
    if items != [] {
      CountsAt(items[..|items| - 1], keyOf, k);
    }
  }

  /** `CountOf` counts the items with the key. */
  lemma {:induction false} CountOfCounts<T>(items: seq<T>, keyOf: T -> string, k: string)
    ensures CountOf(items, keyOf, k) == |set i | 0 <= i < |items| && keyOf(items[i]) == k|
  {
    if items != [] {
      var init := items[..|items| - 1];
      CountOfCounts(init, keyOf, k);
      var a := set i | 0 <= i < |init| && keyOf(init[i]) == k;
      var b := set i | 0 <= i < |items| && keyOf(items[i]) == k;
      assert forall i :: 0 <= i < |init| ==> items[i] == init[i];
      assert |init| !in a;
      if keyOf(items[|items| - 1]) == k {
        assert b == a + {|init|};
      } else {
        assert b == a;
      }
    }
  }

  // ---------------------------------------------------------------------
  // filterByTag and sortByDate
  // ---------------------------------------------------------------------

  /** `filterByTag`: the items whose tags include the tag, in order. */
  function FilterByTag<T(!new)>(items: seq<T>, tagsOf: T -> seq<string>, tag: string): (r: seq<T>)
    ensures Subseq(r, items)
    ensures forall x :: x in r <==> x in items && tag in tagsOf(x)
  {
    Filter(items, x => tag in tagsOf(x))
  }

  /** `a` may come before `b`: `dateA - dateB` (ascending) or `dateB - dateA` is not positive. */
  predicate InOrder(a: int, b: int, ascending: bool) {
    if ascending then a <= b else a >= b
  }

  predicate SortedBy<T>(s: seq<T>, timeOf: T -> int, ascending: bool) {
    forall i, j :: 0 <= i < j < |s| ==> InOrder(timeOf(s[i]), timeOf(s[j]), ascending)
  }

  /** The key the comparator orders by: the time, negated for newest first. */
  function SortKey<T>(timeOf: T -> int, ascending: bool, x: T): int {
    if ascending then timeOf(x) else -timeOf(x)
  }

  /** `s[..hi]` is in non-decreasing key order. */
  ghost predicate KeySorted<T>(s: seq<T>, timeOf: T -> int, ascending: bool, hi: int) {
    forall i, k :: 0 <= i < k < hi && k < |s| ==> SortKey(timeOf, ascending, s[i]) <= SortKey(timeOf, ascending, s[k])
  }

  lemma KeySortedIsSorted<T>(s: seq<T>, timeOf: T -> int, ascending: bool)
    requires KeySorted(s, timeOf, ascending, |s|)
    ensures SortedBy(s, timeOf, ascending)
  {
    forall i, j | 0 <= i < j < |s| ensures InOrder(timeOf(s[i]), timeOf(s[j]), ascending) {
      assert SortKey(timeOf, ascending, s[i]) <= SortKey(timeOf, ascending, s[j]);
    }
  }

  /** Exchange `a[j - 1]` and `a[j]`. */
  method Swap<T>(a: array<T>, j: int)
    requires 0 < j < a.Length
    modifies a
    ensures a[..] == old(a[..])[j - 1 := old(a[j])][j := old(a[j - 1])]
    ensures multiset(a[..]) == multiset(old(a[..]))
  {
    a[j - 1], a[j] := a[j], a[j - 1];
  }

  /**
   * One insertion step as a value: `x` placed after the last element of `s`
   * whose key is not greater than its own. Equal keys keep `x` after them.
   */
  function Inserted<T>(s: seq<T>, x: T, timeOf: T -> int, ascending: bool): seq<T>
    decreases |s|
  {
    if s == [] || SortKey(timeOf, ascending, s[|s| - 1]) <= SortKey(timeOf, ascending, x) then s + [x]
    else Inserted(s[..|s| - 1], x, timeOf, ascending) + [s[|s| - 1]]
  }

  /** Insertion sort as a value: each element in turn inserted into the sorted prefix before it. */
  function InsertionSorted<T>(s: seq<T>, timeOf: T -> int, ascending: bool): seq<T>
    decreases |s|
  {
    if s == [] then [] else Inserted(InsertionSorted(s[..|s| - 1], timeOf, ascending), s[|s| - 1], timeOf, ascending)
  }

  /** The test "has time `t`". */
  function AtTime<T>(timeOf: T -> int, t: int): T -> bool {
    x => timeOf(x) == t
  }

  /** An insertion step adds the item and loses nothing. */
  lemma {:induction false} InsertedPermutes<T>(s: seq<T>, x: T, timeOf: T -> int, ascending: bool)
    ensures multiset(Inserted(s, x, timeOf, ascending)) == multiset(s) + multiset{x}
    ensures |Inserted(s, x, timeOf, ascending)| == |s| + 1
    decreases |s|
  {
    if s != [] && SortKey(timeOf, ascending, s[|s| - 1]) > SortKey(timeOf, ascending, x) {
      InsertedPermutes(s[..|s| - 1], x, timeOf, ascending);
      assert s == s[..|s| - 1] + [s[|s| - 1]];
    }
  }

  /** An insertion step into a sorted sequence gives a sorted sequence. */
  lemma {:induction false} InsertedSorted<T>(s: seq<T>, x: T, timeOf: T -> int, ascending: bool)
    requires KeySorted(s, timeOf, ascending, |s|)
    ensures KeySorted(Inserted(s, x, timeOf, ascending), timeOf, ascending, |s| + 1)
    decreases |s|
  {
    if s != [] && SortKey(timeOf, ascending, s[|s| - 1]) > SortKey(timeOf, ascending, x) {
      var init, last := s[..|s| - 1], s[|s| - 1];
      InsertedSorted(init, x, timeOf, ascending);
      InsertedPermutes(init, x, timeOf, ascending);
      var r := Inserted(init, x, timeOf, ascending);
      forall j | 0 <= j < |r| ensures SortKey(timeOf, ascending, r[j]) <= SortKey(timeOf, ascending, last) {
        InsertedBelow(s, r, x, j, timeOf, ascending);
      }
    }
  }

  /** An item of `Inserted(init, x)` is `x` or an item of `init`, so no greater than `s`'s last key. */
  lemma InsertedBelow<T>(s: seq<T>, r: seq<T>, x: T, j: int, timeOf: T -> int, ascending: bool)
    requires s != [] && KeySorted(s, timeOf, ascending, |s|)
    requires SortKey(timeOf, ascending, s[|s| - 1]) > SortKey(timeOf, ascending, x)
    requires multiset(r) == multiset(s[..|s| - 1]) + multiset{x} && 0 <= j < |r|
    ensures SortKey(timeOf, ascending, r[j]) <= SortKey(timeOf, ascending, s[|s| - 1])
  {
    assert r[j] in multiset(r);
    if r[j] != x {
      assert r[j] in multiset(s[..|s| - 1]);
      var k :| 0 <= k < |s| - 1 && s[..|s| - 1][k] == r[j];
      assert s[k] == r[j];
    }
  }

  /** Insertion sort gives a sorted permutation of its input. */
  lemma {:induction false} InsertionSortedSpec<T>(s: seq<T>, timeOf: T -> int, ascending: bool)
    ensures multiset(InsertionSorted(s, timeOf, ascending)) == multiset(s)
    ensures |InsertionSorted(s, timeOf, ascending)| == |s|
    ensures KeySorted(InsertionSorted(s, timeOf, ascending), timeOf, ascending, |s|)
    decreases |s|
  {
    if s != [] {
      var init, last := s[..|s| - 1], s[|s| - 1];
      var sorted := InsertionSorted(init, timeOf, ascending);
      InsertionSortedSpec(init, timeOf, ascending);
      InsertedPermutes(sorted, last, timeOf, ascending);
      InsertedSorted(sorted, last, timeOf, ascending);
      assert s == init + [last];
    }
  }

  /** An insertion step keeps the items of each time in their order, with the inserted one last. */
  lemma {:induction false} InsertedStable<T(!new)>(s: seq<T>, x: T, timeOf: T -> int, ascending: bool, t: int)
    ensures Filter(Inserted(s, x, timeOf, ascending), AtTime(timeOf, t)) ==
      Filter(s, AtTime(timeOf, t)) + (if timeOf(x) == t then [x] else [])
    decreases |s|
  {
    var p := AtTime(timeOf, t);
    if s == [] || SortKey(timeOf, ascending, s[|s| - 1]) <= SortKey(timeOf, ascending, x) {
      FilterSnoc(s, x, p);
    } else {
      var init, last := s[..|s| - 1], s[|s| - 1];
      var xs := if timeOf(x) == t then [x] else [];
      var ls := if timeOf(last) == t then [last] else [];
      assert timeOf(last) != timeOf(x);
      calc {
        Filter(Inserted(s, x, timeOf, ascending), p);
        Filter(Inserted(init, x, timeOf, ascending) + [last], p);
        { FilterSnoc(Inserted(init, x, timeOf, ascending), last, p); }
        Filter(Inserted(init, x, timeOf, ascending), p) + ls;
        { InsertedStable(init, x, timeOf, ascending, t); }
        Filter(init, p) + xs + ls;
        { assert xs == [] || ls == []; }
        Filter(init, p) + ls + xs;
        { FilterSnoc(init, last, p); assert s == init + [last]; }
        Filter(s, p) + xs;
      }
    }
  }

  /** Insertion sort is stable: the items of each time keep their input order. */
  lemma {:induction false} InsertionSortedStable<T(!new)>(s: seq<T>, timeOf: T -> int, ascending: bool, t: int)
    ensures Filter(InsertionSorted(s, timeOf, ascending), AtTime(timeOf, t)) == Filter(s, AtTime(timeOf, t))
    decreases |s|
  {
    if s != [] {
      var init, last := s[..|s| - 1], s[|s| - 1];
      assert s == init + [last];
      InsertionSortedStable(init, timeOf, ascending, t);
      InsertedStable(InsertionSorted(init, timeOf, ascending), last, timeOf, ascending, t);
      FilterSnoc(init, last, AtTime(timeOf, t));
    }
  }

  /** Sink `a[n]` into `a[..n]`, moving it past every greater key before it. */
  method InsertAt<T>(a: array<T>, n: int, timeOf: T -> int, ascending: bool)
    requires 0 < n < a.Length
    modifies a
    ensures a[..n + 1] == Inserted(old(a[..n]), old(a[n]), timeOf, ascending)
    ensures a[n + 1..] == old(a[n + 1..])
  {
    var j := n;
    while j > 0 && SortKey(timeOf, ascending, a[j - 1]) > SortKey(timeOf, ascending, a[j])
      invariant 0 <= j <= n
      invariant a[j] == old(a[n]) && a[..j] == old(a[..j]) && a[n + 1..] == old(a[n + 1..])
      invariant Inserted(old(a[..n]), old(a[n]), timeOf, ascending) ==
        Inserted(a[..j], a[j], timeOf, ascending) + a[j + 1..n + 1]
    {
      ghost var before := a[..];
      Swap(a, j);
      SinkSwapped(old(a[..n]), old(a[n]), before, a[..], j, n, timeOf, ascending);
      j := j - 1;
    }
    SinkDone(a[..], j, n);
  }

  /** The slices a swap of `s[j - 1]` and `s[j]` leaves, seen from the sinking loop. */
  lemma SwapSlices<T>(s: seq<T>, t: seq<T>, j: int, n: int)
    requires 0 < j <= n < |s| && t == s[j - 1 := s[j]][j := s[j - 1]]
    ensures t[j - 1] == s[j] && t[..j - 1] == s[..j - 1] && t[n + 1..] == s[n + 1..]
    ensures t[j..n + 1] == s[j - 1..j] + s[j + 1..n + 1]
  {
  }

  lemma SinkDone<T>(s: seq<T>, j: int, n: int)
    requires 0 <= j <= n < |s|
    ensures s[..j] + [s[j]] + s[j + 1..n + 1] == s[..n + 1]
  {
  }

  /** The sinking loop's invariant survives one swap. */
  lemma SinkSwapped<T>(o: seq<T>, x: T, s: seq<T>, t: seq<T>, j: int, n: int, timeOf: T -> int, ascending: bool)
    requires 0 < j <= n < |s| && t == s[j - 1 := s[j]][j := s[j - 1]]
    requires SortKey(timeOf, ascending, s[j - 1]) > SortKey(timeOf, ascending, s[j])
    requires Inserted(o, x, timeOf, ascending) == Inserted(s[..j], s[j], timeOf, ascending) + s[j + 1..n + 1]
    ensures t[j - 1] == s[j] && t[..j - 1] == s[..j - 1] && t[n + 1..] == s[n + 1..]
    ensures Inserted(o, x, timeOf, ascending) == Inserted(t[..j - 1], t[j - 1], timeOf, ascending) + t[j..n + 1]
  {
    SinkStep(s, j, n, timeOf, ascending);
    SwapSlices(s, t, j, n);
  }

  /** One swap of the sinking loop moves the inserted item past one greater key. */
  lemma SinkStep<T>(s: seq<T>, j: int, n: int, timeOf: T -> int, ascending: bool)
    requires 0 < j <= n < |s|
    requires SortKey(timeOf, ascending, s[j - 1]) > SortKey(timeOf, ascending, s[j])
    ensures Inserted(s[..j], s[j], timeOf, ascending) + s[j + 1..n + 1] ==
      Inserted(s[..j - 1], s[j], timeOf, ascending) + (s[j - 1..j] + s[j + 1..n + 1])
  {
    assert s[..j][..j - 1] == s[..j - 1];
    assert [s[..j][j - 1]] == s[j - 1..j];
  }

  /**
   * `sortByDate`: copy the items and sort the copy by time, newest first
   * unless ascending. The input is a value and is left as it was. The sort
   * is stable, as `Array.prototype.sort` is: items with the same time keep
   * their input order.
   */
  method SortByDate<T(!new)>(items: seq<T>, timeOf: T -> int, ascending: bool) returns (r: seq<T>)
    ensures multiset(r) == multiset(items)
    ensures SortedBy(r, timeOf, ascending)
    ensures forall t :: Filter(r, AtTime(timeOf, t)) == Filter(items, AtTime(timeOf, t))
  {
    var a := new T[|items|](i requires 0 <= i < |items| => items[i]);
    assert a[..] == items;
    if a.Length > 0 {
      var n := 1;
      InsertionSortedPrefix(items, 0, timeOf, ascending);
      while n < a.Length
        invariant 1 <= n <= a.Length
        invariant a[..n] == InsertionSorted(items[..n], timeOf, ascending)
        invariant a[n..] == items[n..]
      {
        InsertAt(a, n, timeOf, ascending);
        InsertionSortedPrefix(items, n, timeOf, ascending);
        n := n + 1;
      }
      assert a[..] == a[..n] && items[..n] == items;
    }
    r := a[..];
    InsertionSortedFacts(items, timeOf, ascending);
  }

  /** The sorted prefix one item longer. */
  lemma InsertionSortedPrefix<T>(items: seq<T>, n: nat, timeOf: T -> int, ascending: bool)
    requires n < |items|
    ensures InsertionSorted(items[..n + 1], timeOf, ascending) ==
      Inserted(InsertionSorted(items[..n], timeOf, ascending), items[n], timeOf, ascending)
  {
    assert items[..n + 1][..n] == items[..n];
  }

  /** What `sortByDate` promises, for the insertion sort. */
  lemma InsertionSortedFacts<T(!new)>(items: seq<T>, timeOf: T -> int, ascending: bool)
    ensures multiset(InsertionSorted(items, timeOf, ascending)) == multiset(items)
    ensures SortedBy(InsertionSorted(items, timeOf, ascending), timeOf, ascending)
    ensures forall t :: Filter(InsertionSorted(items, timeOf, ascending), AtTime(timeOf, t)) == Filter(items, AtTime(timeOf, t))
  {
    InsertionSortedSpec(items, timeOf, ascending);
    KeySortedIsSorted(InsertionSorted(items, timeOf, ascending), timeOf, ascending);
    forall t ensures Filter(InsertionSorted(items, timeOf, ascending), AtTime(timeOf, t)) == Filter(items, AtTime(timeOf, t)) {
      InsertionSortedStable(items, timeOf, ascending, t);
    }
  }

  // ---------------------------------------------------------------------
  // saveItem, deleteItem, initializeData (the storage writes left out)
  // ---------------------------------------------------------------------

  /** `saveItem`: replace the first item with the same id where it stands, or append. */
  function SaveItem<T>(item: T, items: seq<T>, idOf: T -> string): (r: seq<T>)
    ensures FindIndex(items, idOf, idOf(item)).Some? ==>
      var i := FindIndex(items, idOf, idOf(item)).value;
      |r| == |items| && r[i] == item && forall j :: 0 <= j < |items| && j != i ==> r[j] == items[j]
    ensures FindIndex(items, idOf, idOf(item)).None? ==> r == items + [item]
  {
    match FindIndex(items, idOf, idOf(item))
    case Some(index) => items[..index] + [item] + items[index + 1..]
    case None => items + [item]
  }

  /** After `saveItem` the id finds the saved item. */
  lemma SaveThenGet<T>(item: T, items: seq<T>, idOf: T -> string)
    ensures GetItemById(SaveItem(item, items, idOf), idOf, idOf(item)) == Some(item)
  {
    var r := SaveItem(item, items, idOf);
    match FindIndex(items, idOf, idOf(item))
    case Some(i) =>
      GetItemByIdFirst(r, idOf, idOf(item), i);
    case None =>
      GetItemByIdFirst(r, idOf, idOf(item), |items|);
  }

  /** `deleteItem`: every item whose id differs, in order. */
  function DeleteItem<T(!new)>(id: string, items: seq<T>, idOf: T -> string): (r: seq<T>)
    ensures Subseq(r, items)
    ensures forall x :: x in r <==> x in items && idOf(x) != id
    ensures GetItemById(r, idOf, id) == None
  {
    Filter(items, x => idOf(x) != id)
  }

  /**
   * `initializeData`: outside a browser, or with nothing stored, the
   * defaults; otherwise the stored items followed by the defaults whose ids
   * are not stored. `stored` is what local storage held (`[]` when empty or
   * unreadable).
   */
  function InitializeData<T(!new)>(inBrowser: bool, stored: seq<T>, defaults: seq<T>, idOf: T -> string): (r: seq<T>)
    ensures !inBrowser || stored == [] ==> r == defaults
    ensures inBrowser && stored != [] ==> (
      |r| >= |stored| && r[..|stored|] == stored && Subseq(r[|stored|..], defaults)
      && forall x :: x in r[|stored|..] ==> forall y :: y in stored ==> idOf(x) != idOf(y))
  {
    if !inBrowser then defaults
    else if |stored| == 0 then defaults
    else
      var storedIds := set i | 0 <= i < |stored| :: idOf(stored[i]);
      var missing := Filter(defaults, x => idOf(x) !in storedIds);
      if |missing| > 0 then
        assert (stored + missing)[|stored|..] == missing;
        stored + missing
      else
        assert stored[|stored|..] == [];
        stored
  }

  /** Every default's id is present after `initializeData`. */
  lemma InitializeKeepsIds<T(!new)>(inBrowser: bool, stored: seq<T>, defaults: seq<T>, idOf: T -> string)
    ensures forall d :: d in defaults ==>
      exists x :: x in InitializeData(inBrowser, stored, defaults, idOf) && idOf(x) == idOf(d)
  {
    var r := InitializeData(inBrowser, stored, defaults, idOf);
    if inBrowser && stored != [] {
      var storedIds := set i | 0 <= i < |stored| :: idOf(stored[i]);
      var missing := Filter(defaults, x => idOf(x) !in storedIds);
      forall d | d in defaults
        ensures exists x :: x in r && idOf(x) == idOf(d)
      {
        if idOf(d) in storedIds {
          var i :| 0 <= i < |stored| && idOf(stored[i]) == idOf(d);
          assert stored[i] in r;
        } else {
          assert d in missing;
          assert d in r;
        }
      }
    }
  }
}
