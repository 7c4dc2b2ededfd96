/** Export and import of a whole project as JSON.  The exporter wraps the
    store's data in a version-1 envelope; the import validator checks only
    the envelope's shape (three arrays and a project with a string id and
    name) and never looks inside the arrays. */
module Export {
  import opened Types

  /** A value as `JSON.parse` produces it.  Objects are maps, so a key that
      occurs twice keeps its last value, as in JavaScript. */
  datatype Json =
    | JNull
    | JBool(b: bool)
    | JNumber(n: real)
    | JString(s: string)
    | JArray(items: seq<Json>)
    | JObject(fields: map<string, Json>)

  /** JavaScript's `typeof`: `null` and arrays are objects too. */
  function TypeOf(j: Json): (r: string)
    ensures r == "object" <==> j.JNull? || j.JArray? || j.JObject?
  {
    match j
    case JNull => "object"
    case JBool(_) => "boolean"
    case JNumber(_) => "number"
    case JString(_) => "string"
    case JArray(_) => "object"
    case JObject(_) => "object"
  }

  /** JavaScript truthiness; `NaN` cannot arise from parsed JSON. */
  function Truthy(j: Json): (r: bool)
    ensures (j.JArray? || j.JObject?) ==> r
    ensures j.JNull? ==> !r
  {
    match j
    case JNull => false
    case JBool(b) => b
    case JNumber(n) => n != 0.0
    case JString(s) => s != []
    case JArray(_) => true
    case JObject(_) => true
  }

  /** `j.key`: `None` stands for `undefined`.  Parsed arrays, strings and
      numbers carry none of the keys read here. */
  function Member(j: Json, key: string): Option<Json> {
    match j
    case JObject(fields) => if key in fields then Some(fields[key]) else None
    case _ => None
  }

  /** `Array.isArray(v)`. */
  predicate IsArray(v: Option<Json>)
    ensures IsArray(v) ==> v.Some? && TypeOf(v.value) == "object" && Truthy(v.value)
  {
    v.Some? && v.value.JArray?
  }

  /** `!(!v || typeof v !== 'object')`: present, truthy and an object. */
  predicate IsObjectValue(v: Option<Json>)
    ensures IsObjectValue(v) <==> v.Some? && (v.value.JObject? || v.value.JArray?)
  {
    v.Some? && Truthy(v.value) && TypeOf(v.value) == "object"
  }

  /** `typeof v === 'string'`. */
  predicate IsStringValue(v: Option<Json>)
    ensures IsStringValue(v) <==> v.Some? && v.value.JString?
  {
    v.Some? && TypeOf(v.value) == "string"
  }

  /** The guard chain of `validateImportData`, in the source's order. */
  function ValidateImportData(data: Json): (ok: bool)
    ensures ok <==>
      && data.JObject?
      && (forall key :: key in ["tasks", "dependencies", "groups"] ==> key in data.fields && data.fields[key].JArray?)
      && "project" in data.fields && data.fields["project"].JObject?
      && (forall key :: key in ["id", "name"] ==>
            key in data.fields["project"].fields && data.fields["project"].fields[key].JString?)
  {
    if !IsObjectValue(Some(data)) then false
    else if !IsArray(Member(data, "tasks")) then false
    else if !IsArray(Member(data, "dependencies")) then false
    else if !IsArray(Member(data, "groups")) then false
    else if !IsObjectValue(Member(data, "project")) then false
    else
      var p := Member(data, "project").value;
      if !IsStringValue(Member(p, "id")) || !IsStringValue(Member(p, "name")) then false
      else true
  }

  /** The envelope `buildExportData` returns. */
  datatype PlanlineExport = PlanlineExport(
    version: int,
    project: Project,
    tasks: seq<Task>,
    dependencies: seq<Dependency>,
    groups: seq<Group>)

  const ExportVersion := 1

  function BuildExportData(project: Project, tasks: seq<Task>, dependencies: seq<Dependency>, groups: seq<Group>)
    : (e: PlanlineExport)
    ensures e.version == ExportVersion
    ensures e.project == project && e.tasks == tasks && e.dependencies == dependencies && e.groups == groups
    ensures ValidateImportData(ExportJson(e))
  {
    PlanlineExport(ExportVersion, project, tasks, dependencies, groups)
  }

  // ---------------------------------------------------------------------
  // The JSON text an export becomes
  // ---------------------------------------------------------------------

  /** A task as `JSON.stringify` writes it: an unset `groupId` is left out. */
  function TaskJson(t: Task): (j: Json)
    ensures j.JObject? && "groupId" in j.fields <==> t.groupId.Some?
  {
    var fields := map[
      "id" := JString(t.id),
      "name" := JString(t.name),
      "startDayIndex" := JNumber(t.startDayIndex as real),
      "durationDays" := JNumber(t.durationDays as real),
      "color" := JString(t.color),
      "sortOrder" := JNumber(t.sortOrder)];
    match t.groupId
    case Some(g) => JObject(fields["groupId" := JString(g)])
    case None => JObject(fields)
  }

  function DependencyJson(d: Dependency): Json {
    JObject(map["id" := JString(d.id), "fromTaskId" := JString(d.fromTaskId), "toTaskId" := JString(d.toTaskId)])
  }

  function GroupJson(g: Group): Json {
    JObject(map["id" := JString(g.id), "name" := JString(g.name), "collapsed" := JBool(g.collapsed),
                "sortOrder" := JNumber(g.sortOrder)])
  }

  function ProjectJson(p: Project): Json {
    JObject(map["id" := JString(p.id), "name" := JString(p.name), "epoch" := JString(p.epoch)])
  }

  function ExportJson(e: PlanlineExport): Json {
    JObject(map[
      "version" := JNumber(e.version as real),
      "project" := ProjectJson(e.project),
      "tasks" := JArray(seq(|e.tasks|, i requires 0 <= i < |e.tasks| => TaskJson(e.tasks[i]))),
      "dependencies" := JArray(seq(|e.dependencies|, i requires 0 <= i < |e.dependencies| => DependencyJson(e.dependencies[i]))),
      "groups" := JArray(seq(|e.groups|, i requires 0 <= i < |e.groups| => GroupJson(e.groups[i])))])
  }

  // ---------------------------------------------------------------------
  // Properties of the validator
  // ---------------------------------------------------------------------

  /** Anything that is not an object is refused, `null` first of all. */
  lemma NonObjectRejected(data: Json)
    requires !data.JObject?
    ensures !ValidateImportData(data)
  {
  }

  /** Each of the three lists must be present and an array. */
  lemma MissingListRejected(data: Json, key: string)
    requires key in ["tasks", "dependencies", "groups"]
    requires !IsArray(Member(data, key))
    ensures !ValidateImportData(data)
  {
  }

  /** The project must be an object with a string id and a string name. */
  lemma BadProjectRejected(data: Json, key: string)
    requires data.JObject? && "project" in data.fields
    requires key in ["id", "name"]
    requires !IsStringValue(Member(data.fields["project"], key))
    ensures !ValidateImportData(data)
  {
  }

  /** The validator never looks inside the arrays or at any other key:
      replacing the elements of the lists, or adding keys, keeps a valid
      file valid. */
  lemma ElementsIgnored(data: Json, tasks: seq<Json>, deps: seq<Json>, groups: seq<Json>, extra: map<string, Json>)
    requires ValidateImportData(data)
    requires extra.Keys !! {"tasks", "dependencies", "groups", "project"}
    ensures ValidateImportData(JObject(data.fields + extra + map[
              "tasks" := JArray(tasks), "dependencies" := JArray(deps), "groups" := JArray(groups)]))
  {
    var f := data.fields + extra + map["tasks" := JArray(tasks), "dependencies" := JArray(deps), "groups" := JArray(groups)];
    assert f["project"] == data.fields["project"];
  }

  /** Every export passes the import check: a file written by the exporter
      can always be read back. */
  lemma ExportValidates(e: PlanlineExport)
    ensures ValidateImportData(ExportJson(e))
  {
    var j := ExportJson(e);
    assert j.fields["project"] == ProjectJson(e.project);
  }

  // ---------------------------------------------------------------------
  // The cases of the export tests
  // ---------------------------------------------------------------------

  const EmptyEnvelope := JObject(map[
    "version" := JNumber(1.0),
    "project" := JObject(map["id" := JString("p1"), "name" := JString("Test"), "epoch" := JString("2024-01-01")]),
    "tasks" := JArray([]), "dependencies" := JArray([]), "groups" := JArray([])])

  lemma ValidatorExamples()
    ensures ValidateImportData(EmptyEnvelope)
    ensures !ValidateImportData(JNull)
    ensures !ValidateImportData(JObject(map[]))
    ensures !ValidateImportData(JObject(map[
              "version" := JNumber(1.0), "tasks" := JArray([]), "dependencies" := JArray([]), "groups" := JArray([])]))
    ensures !ValidateImportData(JObject(map[
              "version" := JNumber(1.0), "project" := JObject(map["id" := JString("x")]), "tasks" := JArray([])]))
  {
    var noProject := map["version" := JNumber(1.0), "tasks" := JArray([]), "dependencies" := JArray([]), "groups" := JArray([])];
    assert "project" !in noProject;
    var partial := map["version" := JNumber(1.0), "project" := JObject(map["id" := JString("x")]), "tasks" := JArray([])];
    assert "dependencies" !in partial;
    assert "project" in EmptyEnvelope.fields;
  }
}
