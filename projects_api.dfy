/**
 * The `/api/projects` route: `POST` turns a submitted project form into a
 * delete, an insert or an error response, and `GET` lists the projects the
 * reader may see. Authentication is the flag `auth`; the form is its list of
 * entries in submission order.
 */
module ProjectsApi {

  import opened Wrappers
  import opened JsValues
  import F = Fields
  import opened Records
  import opened Tables
  import Form
  import Seqs
  import Strings

  /** What the route answers. */
  datatype Response =
    | JsonError(status: nat, error: string)
      // `303 /projects?success=<title> created|updated successfully&action=<action>`;
      // a delete carries no title
    | Redirect(status: nat, action: string, title: JsValue)
    | Json(status: nat, rows: seq<Row>)

  /** What a `POST` does to the projects table. */
  datatype Effect =
    | Unchanged
    | Removed(id: string)     // `deleteProject(id)`
    | Inserted(rec: Row)      // `createProject(data)` succeeded with this record

  datatype Decision = Decision(resp: Response, effect: Effect)

  /** The rows after the effect. */
  function Apply(rows: seq<Row>, effect: Effect): seq<Row> {
    match effect
    case Unchanged => rows
    case Removed(id) => Seqs.Filter(rows, row => !HasId(row, Str(id)))
    case Inserted(rec) => rows + [rec]
  }

  // ---------------------------------------------------------------------
  // reading the form
  // ---------------------------------------------------------------------

  /** `formData.get(key)`: the value of the first entry with that key, if any. */
  function FirstValue(entries: seq<Form.Entry>, key: string): (r: Option<Form.FormValue>)
    ensures r.None? <==> forall i :: 0 <= i < |entries| ==> entries[i].key != key
    ensures r.Some? ==>
      exists i :: (0 <= i < |entries| && entries[i].key == key &&
        entries[i].value == r.value && forall j :: 0 <= j < i ==> entries[j].key != key)
  {
    if entries == [] then None
    else if entries[0].key == key then Some(entries[0].value)
    else
      var r := FirstValue(entries[1..], key);
      assert r.Some? ==>
        exists i :: (0 <= i < |entries| && entries[i].key == key &&
          entries[i].value == r.value && forall j :: 0 <= j < i ==> entries[j].key != key)
      by {
        if r.Some? {
          var i :| 0 <= i < |entries[1..]| && entries[1..][i].key == key &&
            entries[1..][i].value == r.value && forall j :: 0 <= j < i ==> entries[1..][j].key != key;
          assert forall j :: 0 <= j < i + 1 ==> entries[j].key != key by {
            forall j | 0 <= j < i + 1 ensures entries[j].key != key {
              if j > 0 { assert entries[j] == entries[1..][j - 1]; }
            }
          }
        }
      }
      r
  }

  /** The `_method` override asks for a delete. */
  predicate IsDeleteOverride(entries: seq<Form.Entry>) {
    FirstValue(entries, "_method") == Some(Form.Text("DELETE"))
  }

  /** `!id` for `formData.get('id')`: no entry, or the empty text. */
  predicate MissingId(entries: seq<Form.Entry>) {
    var id := FirstValue(entries, "id");
    id.None? || id == Some(Form.Text(""))
  }

  /** Every value of a split tag list is a non-empty, trimmed, comma-free string. */
  lemma TagValuesWellFormed(s: string)
    ensures forall v :: v in Strs(SplitTags(s)) ==>
      v.Str? && v.s != "" && Strings.Trim(v.s) == v.s && !Strings.Contains(v.s, ",")
  {
    var tags := SplitTags(s);
    SplitTagsWellFormed(s);
    forall v | v in Strs(tags) ensures v.Str? && v.s in tags {
      var i :| 0 <= i < |Strs(tags)| && Strs(tags)[i] == v;
      assert v == Str(tags[i]);
    }
  }

  /**
   * A string property becomes its comma-separated pieces, trimmed, the
   * empty ones dropped; any other value, and every other property, is kept.
   */
  function SplitIfString(data: Object, key: string): (r: Object)
    ensures r.Keys == data.Keys
    ensures forall k :: k in data && k != key ==> r[k] == data[k]
    ensures !Get(data, key).Str? ==> r == data
    ensures Get(data, key).Str? ==> r[key] == Arr(Strs(SplitTags(Get(data, key).s)))
    ensures Get(data, key).Str? ==>
      forall v :: v in r[key].items ==>
        v.Str? && v.s != "" && Strings.Trim(v.s) == v.s && !Strings.Contains(v.s, ",")
  {
    match Get(data, key)
    case Str(s) =>
      TagValuesWellFormed(s);
      data[key := Arr(Strs(SplitTags(s)))]
    case _ => data
  }

  /** The form as the route hands it to `createProject`. */
  function ProjectData(entries: seq<Form.Entry>, host: Host): Object {
    SplitIfString(SplitIfString(Form.Parsed(entries, host), "tags"), "techStack")
  }

  // ---------------------------------------------------------------------
  // POST
  // ---------------------------------------------------------------------

  /**
   * The outcome of a `POST` against a table holding `rows`. The insert is
   * the only thing that can throw, when the record's id is already taken.
   */
  function Decide(rows: seq<Row>, auth: bool, entries: seq<Form.Entry>, host: Host): (d: Decision)
    // the sign-in check comes before the form is read
    ensures !auth ==> d == Decision(JsonError(401, "Unauthorized"), Unchanged)
    // a delete without an id is refused and deletes nothing
    ensures auth && IsDeleteOverride(entries) && MissingId(entries) ==>
      d == Decision(JsonError(400, "Project ID is required"), Unchanged)
    // a delete with an id removes exactly that id and redirects
    ensures d.effect.Removed? <==>
      (auth && IsDeleteOverride(entries) &&
       exists s :: s != "" && FirstValue(entries, "id") == Some(Form.Text(s)))
    ensures d.effect.Removed? ==>
      (FirstValue(entries, "id") == Some(Form.Text(d.effect.id)) &&
       d.resp == Redirect(303, "delete", Undefined))
    // a missing title is refused before anything is written
    ensures d.resp == JsonError(400, "Title is required") <==>
      auth && !IsDeleteOverride(entries) && !Truthy(Get(ProjectData(entries, host), "title"))
    ensures d.resp == JsonError(400, "Title is required") ==> d.effect == Unchanged
    // otherwise `createProject` runs, with or without an id
    ensures d.effect.Inserted? ==>
      auth && !IsDeleteOverride(entries) && d.effect.rec == NewRecord(Projects, ProjectData(entries, host), host)
    ensures auth && !IsDeleteOverride(entries) && Truthy(Get(ProjectData(entries, host), "title")) ==>
      var data := ProjectData(entries, host);
      if IdTaken(rows, At(NewRecord(Projects, data, host), F.Id)) then
        d == Decision(JsonError(500, "Failed to process project"), Unchanged)
      else
        d.effect.Inserted? &&
        d.resp == Redirect(303, if Truthy(Get(data, "id")) then "update" else "create", Get(data, "title"))
    // an error changes nothing
    ensures d.resp.JsonError? ==> d.effect == Unchanged
    ensures d.resp.Redirect? ==> d.resp.status == 303
  {
    if !auth then Decision(JsonError(401, "Unauthorized"), Unchanged)
    else if IsDeleteOverride(entries) then
      var id := FirstValue(entries, "id");
      if MissingId(entries) then Decision(JsonError(400, "Project ID is required"), Unchanged)
      else if id.value.Text? then Decision(Redirect(303, "delete", Undefined), Removed(id.value.s))
      else Decision(Redirect(303, "delete", Undefined), Unchanged)
    else
      var data := ProjectData(entries, host);
      if !Truthy(Get(data, "title")) then Decision(JsonError(400, "Title is required"), Unchanged)
      else
        var rec := NewRecord(Projects, data, host);
        if IdTaken(rows, At(rec, F.Id)) then
          Decision(JsonError(500, "Failed to process project"), Unchanged)
        else
          var action := if Truthy(Get(data, "id")) then "update" else "create";
          Decision(Redirect(303, action, Get(data, "title")), Inserted(rec))
  }

  /**
   * `POST /api/projects` on the projects table, step by step as the handler
   * runs: the result and the new rows are those `Decide` gives.
   */
  method Post(table: Table, auth: bool, entries: seq<Form.Entry>, host: Host) returns (resp: Response)
    requires table.entity == Projects && table.Valid()
    modifies table
    ensures table.Valid()
    ensures var d := Decide(old(table.rows), auth, entries, host);
      resp == d.resp && table.rows == Apply(old(table.rows), d.effect)
  {
    if !auth {
      return JsonError(401, "Unauthorized");
    }
    var override := FirstValue(entries, "_method");
    if override == Some(Form.Text("DELETE")) {
      var id := FirstValue(entries, "id");
      if id.None? || id == Some(Form.Text("")) {
        return JsonError(400, "Project ID is required");
      }
      if id.value.Text? {
        var _ := table.Delete(id.value.s);
      }
      return Redirect(303, "delete", Undefined);
    }
    var projectData := Form.ParseFormData(entries, host);
    projectData := SplitIfString(projectData, "tags");
    projectData := SplitIfString(projectData, "techStack");
    if !Truthy(Get(projectData, "title")) {
      return JsonError(400, "Title is required");
    }
    var saved := table.Create(projectData, host);
    if saved.Err? {
      return JsonError(500, "Failed to process project");
    }
    var isNewProject := !Truthy(Get(projectData, "id"));
    resp := Redirect(303, if isNewProject then "create" else "update", Get(projectData, "title"));
  }

  // ---------------------------------------------------------------------
  // GET
  // ---------------------------------------------------------------------

  /** `GET /api/projects`: 200 with the projects the reader may see, in table order. */
  function GetProjects(table: Table, auth: bool): (r: Response)
    reads table
    ensures r.Json? && r.status == 200
    ensures Seqs.Subseq(r.rows, table.rows)
    ensures forall row :: row in r.rows <==> row in table.rows && (auth || IsPublic(row))
  {
    Json(200, table.All(auth))
  }

  // ---------------------------------------------------------------------
  // properties
  // ---------------------------------------------------------------------

  /**
   * Updating through this route cannot succeed: a form that carries the id
   * of a stored project still goes to `createProject`, whose insert hits the
   * primary key, so the answer is the 500 error and nothing changes.
   */
  lemma UpdateViaPostFails(rows: seq<Row>, entries: seq<Form.Entry>, host: Host, id: string)
    requires !IsDeleteOverride(entries)
    requires Truthy(Get(ProjectData(entries, host), "title"))
    requires Get(ProjectData(entries, host), "id") == Str(id) && id != ""
    requires Find(rows, id, true).Some?
    ensures Decide(rows, true, entries, host) ==
      Decision(JsonError(500, "Failed to process project"), Unchanged)
  {
    var data := ProjectData(entries, host);
    CreateIdAndVisibility(Projects, data, host);
    var rec := NewRecord(Projects, data, host);
    assert At(rec, F.Id) == Str(id);
    var row := Find(rows, id, true).value;
    var i :| 0 <= i < |rows| && rows[i] == row;
    assert HasId(rows[i], At(rec, F.Id));
  }

  /** A project created without an id gets the fresh id and is then what a signed-in reader fetches by it. */
  lemma CreatedProjectFound(rows: seq<Row>, entries: seq<Form.Entry>, host: Host)
    requires UniqueIds(rows)
    requires Decide(rows, true, entries, host).effect.Inserted?
    requires !Truthy(Get(ProjectData(entries, host), "id"))
    ensures Decide(rows, true, entries, host).resp.action == "create"
    ensures var d := Decide(rows, true, entries, host);
      Find(Apply(rows, d.effect), host.freshId, true) == Some(d.effect.rec)
  {
    var data := ProjectData(entries, host);
    CreateIdAndVisibility(Projects, data, host);
    var rec := NewRecord(Projects, data, host);
    FindAfterCreate(rows, rec, host.freshId);
  }

  /** After a delete no reader finds that id any more, and every other project is found as before. */
  lemma DeletedProjectGone(rows: seq<Row>, entries: seq<Form.Entry>, host: Host, other: string, auth: bool)
    requires UniqueIds(rows)
    requires Decide(rows, true, entries, host).effect.Removed?
    ensures var id := Decide(rows, true, entries, host).effect.id;
      Find(Apply(rows, Removed(id)), id, auth) == None &&
      (other != id ==> Find(Apply(rows, Removed(id)), other, auth) == Find(rows, other, auth))
  {
    FindAfterDelete(rows, Decide(rows, true, entries, host).effect.id, other, auth);
  }

  /**
   * A tech stack typed as text survives: the route splits it before
   * `createProject`, which would otherwise store `[]` for anything that is
   * not already an array.
   */
  lemma TechStackFromText(parsed: Object, host: Host, s: string)
    requires Get(parsed, "techStack") == Str(s)
    ensures var data := SplitIfString(SplitIfString(parsed, "tags"), "techStack");
      At(NewRecord(Projects, data, host), F.TechStack) == Arr(Strs(SplitTags(s)))
  {
    var tagged := SplitIfString(parsed, "tags");
    assert Get(tagged, "techStack") == Str(s);
    ProjectTechStackDefault(SplitIfString(tagged, "techStack"), host);
  }
}
