/**
 * The eight database tables and the operations the database layer runs on
 * them: visibility-filtered reads, `get*` by id, `create*` (an insert),
 * `update*` (a lookup, then an update of the matching row) and `delete*`.
 * A table is the list of its rows in insertion order; the `id` column is the
 * primary key, so two rows never share an id.
 */
module Tables {

  import opened Wrappers
  import opened JsValues
  import F = Fields
  import opened Records
  import opened Seqs

  /** Why an insert or update throws. */
  datatype DbError =
    | DuplicateKey            // the insert violates the primary key on `id`
    | NotFound(id: string)    // `update*` found no row with that id

  /** What `delete*` returns. */
  datatype Deleted = Deleted(success: bool, id: string)

  predicate IsPublic(row: Row) {
    At(row, F.Visibility) == Str("public")
  }

  predicate HasId(row: Row, id: JsValue) {
    At(row, F.Id) == id
  }

  /** No two rows share an id. */
  ghost predicate UniqueIds(rows: seq<Row>) {
    forall i, j :: 0 <= i < j < |rows| ==> At(rows[i], F.Id) != At(rows[j], F.Id)
  }

  predicate IdTaken(rows: seq<Row>, id: JsValue) {
    exists i :: 0 <= i < |rows| && HasId(rows[i], id)
  }

  /**
   * `with*Visibility`: an authenticated reader sees every row, anyone else
   * only the rows whose visibility is 'public', in the same order.
   */
  function Visible(rows: seq<Row>, auth: bool): (r: seq<Row>)
    ensures auth ==> r == rows
    ensures !auth ==> forall row :: row in r <==> row in rows && IsPublic(row)
    ensures Subseq(r, rows)
  {
    if auth then (SubseqRefl(rows); rows) else Filter(rows, IsPublic)
  }

  /** `get*ByX` and `getFavorite*`: the visible rows whose column `f` equals `v`. */
  function Where(rows: seq<Row>, f: F.Field, v: JsValue, auth: bool): (r: seq<Row>)
    ensures forall row :: row in r <==> row in rows && At(row, f) == v && (auth || IsPublic(row))
    ensures Subseq(r, rows)
  {
    var matching := Filter(rows, row => At(row, f) == v);
    SubseqTrans(Visible(matching, auth), matching, rows);
    Visible(matching, auth)
  }

  /** `get*(id, auth)`: the first visible row with that id, if there is one. */
  function Find(rows: seq<Row>, id: string, auth: bool): (r: Option<Row>)
    ensures r.Some? ==> r.value in rows && HasId(r.value, Str(id)) && (auth || IsPublic(r.value))
    ensures r.None? ==> forall row :: row in rows && HasId(row, Str(id)) ==> !auth && !IsPublic(row)
  {
    var found := Where(rows, F.Id, Str(id), auth);
    if found == [] then None else Some(found[0])
  }

  /**
   * `with*Visibility` as the query builder runs it: a second `.where`
   * replaces the first condition instead of adding to it, so a reader who is
   * not signed in gets every public row, whatever the first condition asked
   * for.
   */
  function WhereLastWins(rows: seq<Row>, f: F.Field, v: JsValue, auth: bool): (r: seq<Row>)
    ensures auth ==> r == Where(rows, f, v, true)
    ensures !auth ==> r == Visible(rows, false)
  {
    if auth then Where(rows, f, v, true) else Visible(rows, false)
  }

  /** `get*(id, auth)` over `WhereLastWins`. */
  function FindLastWins(rows: seq<Row>, id: string, auth: bool): (r: Option<Row>)
    ensures auth ==> r == Find(rows, id, true)
    ensures !auth ==> (r.Some? <==> exists row :: row in rows && IsPublic(row))
    ensures !auth && r.Some? ==> r.value in rows && IsPublic(r.value)
  {
    var found := WhereLastWins(rows, F.Id, Str(id), auth);
    if found == [] then None
    else
      assert found[0] in found;
      Some(found[0])
  }

  /**
   * With the replacing `.where`, a visitor asking for an id no row has gets
   * the first public row instead of nothing; `Find` gives nothing.
   */
  lemma VisitorGetsAnotherRow()
    ensures var row := map[F.Id := Str("a"), F.Visibility := Str("public")];
      FindLastWins([row], "b", false) == Some(row) && Find([row], "b", false) == None
  {
    var row := map[F.Id := Str("a"), F.Visibility := Str("public")];
    assert IsPublic(row) && !HasId(row, Str("b"));
    assert Visible([row], false) == [row];
  }

  /** The changes `.set()` writes: it leaves out every property whose value is `undefined`. */
  function Defined(changes: Row): (d: Row)
    ensures forall f :: f in d <==> f in changes && changes[f] != Undefined
    ensures forall f :: f in d ==> d[f] == changes[f]
  {
    map f | f in changes && changes[f] != Undefined :: changes[f]
  }

  /**
   * `.set(changes).where(eq(id))`: the rows with that id get the defined
   * changes written over them; all others, and every column whose change is
   * `undefined`, keep their values.
   */
  function SetWhere(rows: seq<Row>, id: string, changes: Row): (r: seq<Row>)
    ensures |r| == |rows|
    ensures forall i :: 0 <= i < |rows| ==>
      r[i] == if HasId(rows[i], Str(id)) then rows[i] + Defined(changes) else rows[i]
    ensures forall i, f :: 0 <= i < |rows| && At(changes, f) == Undefined ==> At(r[i], f) == At(rows[i], f)
  {
    if rows == [] then []
    else
      var row := if HasId(rows[0], Str(id)) then rows[0] + Defined(changes) else rows[0];
      [row] + SetWhere(rows[1..], id, changes)
  }

  /** A reader who is not signed in sees a part of what a signed-in reader sees, in the same order. */
  lemma PublicSubsetOfAll(rows: seq<Row>)
    ensures Subseq(Visible(rows, false), Visible(rows, true))
    ensures forall row :: row in Visible(rows, false) ==> row in Visible(rows, true)
  {
    SubseqMembers(Visible(rows, false), rows);
  }

  /** A row a reader who is not signed in can fetch is the one a signed-in reader fetches. */
  lemma {:induction false} FindPublicAgrees(rows: seq<Row>, id: string)
    requires UniqueIds(rows)
    requires Find(rows, id, false).Some?
    ensures Find(rows, id, true) == Find(rows, id, false)
  {
    var r := Find(rows, id, false).value;
    var s := Find(rows, id, true).value;
    var i :| 0 <= i < |rows| && rows[i] == r;
    var j :| 0 <= j < |rows| && rows[j] == s;
    assert i == j;
  }

  /** Under unique ids, a visible row with the id is what `get*` returns. */
  lemma FindUnique(rows: seq<Row>, id: string, auth: bool, row: Row)
    requires UniqueIds(rows)
    requires row in rows && HasId(row, Str(id)) && (auth || IsPublic(row))
    ensures Find(rows, id, auth) == Some(row)
  {
    assert row in Where(rows, F.Id, Str(id), auth);
    var x := Find(rows, id, auth).value;
    var i :| 0 <= i < |rows| && rows[i] == row;
    var j :| 0 <= j < |rows| && rows[j] == x;
    assert At(rows[i], F.Id) == At(rows[j], F.Id);
    assert i == j;
  }

  /** A row inserted under a fresh id is what `get*` then returns to a signed-in reader. */
  lemma FindAfterCreate(rows: seq<Row>, rec: Row, id: string)
    requires UniqueIds(rows)
    requires HasId(rec, Str(id)) && !IdTaken(rows, At(rec, F.Id))
    ensures UniqueIds(rows + [rec])
    ensures Find(rows + [rec], id, true) == Some(rec)
  {
    var after := rows + [rec];
    forall i, j | 0 <= i < j < |after| ensures At(after[i], F.Id) != At(after[j], F.Id) {
      if j == |rows| {
        assert after[i] == rows[i];
      } else {
        assert after[i] == rows[i] && after[j] == rows[j];
      }
    }
    FindUnique(after, id, true, rec);
  }

  /** After `delete*(id)` no reader finds the id, and every other id is found as before. */
  lemma FindAfterDelete(rows: seq<Row>, id: string, other: string, auth: bool)
    requires UniqueIds(rows)
    ensures Find(Filter(rows, row => !HasId(row, Str(id))), id, auth) == None
    ensures other != id ==>
      Find(Filter(rows, row => !HasId(row, Str(id))), other, auth) == Find(rows, other, auth)
  {
    var after := Filter(rows, row => !HasId(row, Str(id)));
    FilterKeepsUnique(rows, row => !HasId(row, Str(id)));
    if other != id {
      match Find(rows, other, auth)
      case Some(row) =>
        assert row in after;
        FindUnique(after, other, auth, row);
      case None =>
        if Find(after, other, auth).Some? {
          var row := Find(after, other, auth).value;
          assert row in rows;
          FindUnique(rows, other, auth, row);
          assert false;
        }
    }
  }

  /**
   * After `update*(id)` a signed-in reader finds the old row with the
   * defined changes written over it: a column whose change is `undefined`
   * keeps its stored value.
   */
  lemma FindAfterUpdate(rows: seq<Row>, id: string, changes: Row, existing: Row)
    requires UniqueIds(rows)
    requires Find(rows, id, true) == Some(existing)
    requires F.Id !in changes
    ensures Find(SetWhere(rows, id, changes), id, true) == Some(existing + Defined(changes))
    ensures forall f :: At(changes, f) == Undefined ==> At(existing + Defined(changes), f) == At(existing, f)
    ensures forall f :: At(changes, f) != Undefined ==> At(existing + Defined(changes), f) == At(changes, f)
  {
    var after := SetWhere(rows, id, changes);
    var k :| 0 <= k < |rows| && rows[k] == existing;
    assert after[k] == existing + Defined(changes);
    forall i | 0 <= i < |after| ensures At(after[i], F.Id) == At(rows[i], F.Id) {
    }
    assert UniqueIds(after);
    FindUnique(after, id, true, existing + Defined(changes));
  }

  /** A table of one entity. */
  class Table {
    const entity: Entity
    var rows: seq<Row>

    ghost predicate Valid()
      reads this
    {
      (forall i :: 0 <= i < |rows| ==> RowFits(entity, rows[i])) && UniqueIds(rows)
    }

    constructor(e: Entity)
      ensures entity == e && rows == [] && Valid()
    {
      entity := e;
      rows := [];
    }

    /** `getAll*(auth)`, in insertion order. */
    function All(auth: bool): (r: seq<Row>)
      reads this
      ensures Subseq(r, rows)
      ensures forall row :: row in r <==> row in rows && (auth || IsPublic(row))
    {
      Visible(rows, auth)
    }

    /**
     * `create*`: build the record, insert it and return it. The insert fails
     * when the id is taken, and then nothing is written.
     */
    method Create(data: Object, host: Host) returns (r: Result<Row, DbError>)
      requires Valid()
      modifies this
      ensures Valid()
      ensures var rec := NewRecord(entity, data, host);
        if IdTaken(old(rows), At(rec, F.Id)) then r == Err(DuplicateKey) && rows == old(rows)
        else r == Ok(rec) && rows == old(rows) + [rec]
    {
      var rec := NewRecord(entity, data, host);
      if exists i :: 0 <= i < |rows| && HasId(rows[i], At(rec, F.Id)) {
        return Err(DuplicateKey);
      }
      NewRecordFits(entity, data, host);
      InsertKeepsValid(rows, entity, rec);
      rows := rows + [rec];
      r := Ok(rec);
    }

    /**
     * `update*`: look the row up as a signed-in reader (so a private row
     * counts); when there is none throw and write nothing, otherwise write
     * the changes over it and return `{id, ...changes}`.
     */
    method Update(id: string, data: Object, host: Host) returns (r: Result<Row, DbError>)
      requires Valid()
      modifies this
      ensures Valid()
      ensures Find(old(rows), id, true).None? ==> r == Err(NotFound(id)) && rows == old(rows)
      ensures Find(old(rows), id, true).Some? ==>
        var changes := Changes(entity, Find(old(rows), id, true).value, data, host);
        r == Ok(changes[F.Id := Str(id)]) && rows == SetWhere(old(rows), id, changes)
    {
      var existing := Find(rows, id, true);
      if existing.None? {
        return Err(NotFound(id));
      }
      var changes := Changes(entity, existing.value, data, host);
      UpdatedRowFits(rows, entity, existing.value, id, data, host);
      rows := SetWhere(rows, id, changes);
      r := Ok(changes[F.Id := Str(id)]);
    }

    /** `delete*`: remove the rows with that id (if any) and report success. */
    method Delete(id: string) returns (r: Deleted)
      requires Valid()
      modifies this
      ensures Valid()
      ensures rows == Filter(old(rows), row => !HasId(row, Str(id)))
      ensures r == Deleted(true, id)
    {
      rows := Filter(rows, row => !HasId(row, Str(id)));
      DeleteKeepsValid(old(rows), rows, entity, id);
      r := Deleted(true, id);
    }
  }

  /** The update keeps every row of the right shape and keeps the ids unique. */
  lemma UpdatedRowFits(rows: seq<Row>, e: Entity, existing: Row, id: string, data: Object, host: Host)
    requires forall i :: 0 <= i < |rows| ==> RowFits(e, rows[i])
    requires UniqueIds(rows)
    requires existing in rows && HasId(existing, Str(id))
    ensures var r := SetWhere(rows, id, Changes(e, existing, data, host));
      (forall i :: 0 <= i < |r| ==> RowFits(e, r[i])) && UniqueIds(r)
  {
    var changes := Changes(e, existing, data, host);
    var r := SetWhere(rows, id, changes);
    UpdateFits(e, existing, data, host);
    DefinedFits(e, existing, changes);
    var k :| 0 <= k < |rows| && rows[k] == existing;
    forall i | 0 <= i < |r| ensures RowFits(e, r[i]) && At(r[i], F.Id) == At(rows[i], F.Id) {
      if HasId(rows[i], Str(id)) {
        assert At(rows[i], F.Id) == At(rows[k], F.Id);
        assert i == k;
      }
    }
  }

  /** Writing only the defined part of a fitting update still fits, and keeps the id. */
  lemma DefinedFits(e: Entity, existing: Row, changes: Row)
    requires RowFits(e, existing) && RowFits(e, existing + changes)
    requires F.Id in existing && (existing + changes)[F.Id] == existing[F.Id]
    ensures RowFits(e, existing + Defined(changes))
    ensures (existing + Defined(changes))[F.Id] == existing[F.Id]
  {
    var row := existing + Defined(changes);
    forall f | f in row ensures HasKind(row[f], KindOf(CreateRule(e, f).value)) {
      if f in Defined(changes) {
        assert row[f] == (existing + changes)[f];
      }
    }
  }

  /** Appending a well-formed row under a fresh id keeps every row well-formed and the ids unique. */
  lemma InsertKeepsValid(rows: seq<Row>, e: Entity, rec: Row)
    requires forall i :: 0 <= i < |rows| ==> RowFits(e, rows[i])
    requires UniqueIds(rows)
    requires RowFits(e, rec) && !IdTaken(rows, At(rec, F.Id))
    ensures (forall i :: 0 <= i < |rows + [rec]| ==> RowFits(e, (rows + [rec])[i])) && UniqueIds(rows + [rec])
  {
    var r := rows + [rec];
    forall i, j | 0 <= i < j < |r| ensures At(r[i], F.Id) != At(r[j], F.Id) {
      if j == |rows| {
        assert !HasId(rows[i], At(rec, F.Id));
      }
    }
  }

  /** Removing rows keeps every remaining row and the uniqueness of ids. */
  lemma DeleteKeepsValid(before: seq<Row>, after: seq<Row>, e: Entity, id: string)
    requires forall i :: 0 <= i < |before| ==> RowFits(e, before[i])
    requires UniqueIds(before)
    requires after == Filter(before, row => !HasId(row, Str(id)))
    ensures (forall i :: 0 <= i < |after| ==> RowFits(e, after[i])) && UniqueIds(after)
  {
    forall i | 0 <= i < |after| ensures RowFits(e, after[i]) {
      assert after[i] in before;
    }
    FilterKeepsUnique(before, row => !HasId(row, Str(id)));
  }

  lemma {:induction false} FilterKeepsUnique(rows: seq<Row>, p: Row -> bool)
    requires UniqueIds(rows)
    ensures UniqueIds(Filter(rows, p))
  {
    if rows != [] {
      var rest := rows[1..];
      assert UniqueIds(rest) by {
        forall i, j | 0 <= i < j < |rest| ensures At(rest[i], F.Id) != At(rest[j], F.Id) {
          assert rest[i] == rows[i + 1] && rest[j] == rows[j + 1];
        }
      }
      FilterKeepsUnique(rest, p);
      if p(rows[0]) {
        var fr := Filter(rest, p);
        var r := [rows[0]] + fr;
        forall i, j | 0 <= i < j < |r| ensures At(r[i], F.Id) != At(r[j], F.Id) {
          if i == 0 {
            assert r[j] in rest;
            var k :| 0 <= k < |rest| && rest[k] == r[j];
            assert rows[k + 1] == r[j];
          } else {
            assert r[i] == fr[i - 1] && r[j] == fr[j - 1];
          }
        }
      }
    }
  }
}
