/**
 * The request bodies the data-source client sends: the form fields of a
 * data source are folded into a `connection_params` object according to
 * the data-source type. A JavaScript object is a map from its keys to its
 * values; a key bound to `undefined` is still a key of the object.
 */
module DataSourceApi {

  datatype JsValue =
    | Undefined
    | Null
    | Str(s: string)
    | Num(n: int)
    | Bool(b: bool)
    | Object(fields: map<string, JsValue>)

  type JsObject = map<string, JsValue>

  /** A property read: `undefined` when the key is absent. */
  function Get(o: JsObject, key: string): JsValue
  {
    if key in o then o[key] else Undefined
  }

  /** JavaScript truthiness. */
  predicate Truthy(v: JsValue)
  {
    match v
    case Undefined => false
    case Null => false
    case Str(s) => s != ""
    case Num(n) => n != 0
    case Bool(b) => b
    case Object(_) => true
  }

  /** The `...rest` of a destructuring that names the keys `named`. */
  function Rest(o: JsObject, named: set<string>): (r: JsObject)
    ensures r.Keys == o.Keys - named
    ensures forall k :: k in r ==> r[k] == o[k]
  {
    map k | k in o && k !in named :: o[k]
  }

  /** An object literal `{a: x, ...b}`: the later spread wins on a shared key. */
  function Spread(a: JsObject, b: JsObject): (r: JsObject)
    ensures r.Keys == a.Keys + b.Keys
    ensures forall k :: k in r ==> r[k] == if k in b then b[k] else a[k]
  {
    a + b
  }

  const RelationalTypes: set<string> := {"MYSQL", "POSTGRESQL", "ORACLE", "SQLSERVER"}
  const FileTypes: set<string> := {"CSV", "EXCEL"}
  const ConnectionFields: set<string> := {"host", "port", "database", "username", "password"}

  /** `list.includes(type)`. */
  predicate OneOf(t: JsValue, names: set<string>)
  {
    t.Str? && t.s in names
  }

  /** The keys the create and update requests destructure before `...rest`. */
  const BodyFields: set<string> := {"name", "type", "description"} + ConnectionFields

  /** The keys the test-connection request destructures before `...rest`. */
  const TestFields: set<string> := {"type"} + ConnectionFields

  /**
   * The connection parameters of a create or test request: the five
   * connection fields for a relational type, `filePath` for a file type,
   * `jsonContent` for JSON, each followed by the rest of the fields, and
   * nothing for any other type.
   */
  function ConnectionParams(o: JsObject, named: set<string>): JsObject
  {
    var t := Get(o, "type");
    var rest := Rest(o, named);
    if OneOf(t, RelationalTypes) then
      Spread(map["host" := Get(o, "host"), "port" := Get(o, "port"), "database" := Get(o, "database"),
                 "username" := Get(o, "username"), "password" := Get(o, "password")], rest)
    else if OneOf(t, FileTypes) then Spread(map["filePath" := Get(o, "filePath")], rest)
    else if t == Str("JSON") then Spread(map["jsonContent" := Get(o, "jsonContent")], rest)
    else map[]
  }

  /**
   * A relational type always carries all five connection fields, with the
   * request's values (`undefined` where absent), and every field that was
   * not destructured; an unknown type carries nothing.
   */
  lemma ConnectionParamsByType(o: JsObject, named: set<string>)
    requires ConnectionFields <= named
    ensures var p := ConnectionParams(o, named);
      var t := Get(o, "type");
      (OneOf(t, RelationalTypes) ==>
        p.Keys == ConnectionFields + (o.Keys - named) && forall k :: k in ConnectionFields ==> p[k] == Get(o, k))
      && (OneOf(t, FileTypes) ==> p.Keys == {"filePath"} + (o.Keys - named) && p["filePath"] == Get(o, "filePath"))
      && (t == Str("JSON") ==> p.Keys == {"jsonContent"} + (o.Keys - named) && p["jsonContent"] == Get(o, "jsonContent"))
      && (!OneOf(t, RelationalTypes) && !OneOf(t, FileTypes) && t != Str("JSON") ==> p == map[])
    ensures forall k :: k in ConnectionParams(o, named) && k in o && k !in named ==> ConnectionParams(o, named)[k] == o[k]
  {
    var t := Get(o, "type");
    if OneOf(t, RelationalTypes) {
      RelationalParams(o, named);
    } else if OneOf(t, FileTypes) {
      SingleFieldParams(o, named, "filePath");
    } else if t == Str("JSON") {
      SingleFieldParams(o, named, "jsonContent");
    }
  }

  lemma RelationalParams(o: JsObject, named: set<string>)
    requires ConnectionFields <= named && OneOf(Get(o, "type"), RelationalTypes)
    ensures var p := ConnectionParams(o, named);
      p.Keys == ConnectionFields + (o.Keys - named)
      && (forall k :: k in ConnectionFields ==> p[k] == Get(o, k))
      && (forall k :: k in p && k in o && k !in named ==> p[k] == o[k])
  {
    var head := map["host" := Get(o, "host"), "port" := Get(o, "port"), "database" := Get(o, "database"),
                    "username" := Get(o, "username"), "password" := Get(o, "password")];
    assert head.Keys == ConnectionFields;
    assert ConnectionParams(o, named) == Spread(head, Rest(o, named));
  }

  lemma SingleFieldParams(o: JsObject, named: set<string>, key: string)
    requires ConnectionFields <= named
    requires key == "filePath" || key == "jsonContent"
    requires key == "filePath" ==> OneOf(Get(o, "type"), FileTypes)
    requires key == "jsonContent" ==> !OneOf(Get(o, "type"), FileTypes) && Get(o, "type") == Str("JSON")
    ensures var p := ConnectionParams(o, named);
      p.Keys == {key} + (o.Keys - named) && key in p && p[key] == Get(o, key)
      && (forall k :: k in p && k in o && k !in named ==> p[k] == o[k])
  {
    assert !OneOf(Get(o, "type"), RelationalTypes);
    assert ConnectionParams(o, named) == Spread(map[key := Get(o, key)], Rest(o, named));
  }

  /** createDataSource: exactly name, type, description and the connection parameters. */
  function CreateBody(o: JsObject): (body: JsObject)
    ensures body.Keys == {"name", "type", "description", "connection_params"}
    ensures body["name"] == Get(o, "name") && body["type"] == Get(o, "type") && body["description"] == Get(o, "description")
  {
    map["name" := Get(o, "name"), "type" := Get(o, "type"), "description" := Get(o, "description"),
        "connection_params" := Object(ConnectionParams(o, BodyFields))]
  }

  /** The name, type and description of a create request never leak into its connection parameters. */
  lemma CreateParamsOmitBodyFields(o: JsObject)
    ensures CreateBody(o)["connection_params"].Object?
    ensures forall k :: k in {"name", "type", "description"} ==> k !in CreateBody(o)["connection_params"].fields
  {
  }

  /** testConnection: the type, a fixed name and the connection parameters. */
  function TestBody(o: JsObject): (body: JsObject)
    ensures body.Keys == {"type", "name", "connection_params"}
    ensures body["type"] == Get(o, "type") && body["name"] == Str("temp_test_connection")
  {
    map["type" := Get(o, "type"), "name" := Str("temp_test_connection"),
        "connection_params" := Object(ConnectionParams(o, TestFields))]
  }

  /**
   * The test request does not destructure name or description, so for a
   * supported type they travel inside its connection parameters.
   */
  lemma TestParamsKeepName(o: JsObject)
    requires "name" in o
    requires OneOf(Get(o, "type"), RelationalTypes + FileTypes) || Get(o, "type") == Str("JSON")
    ensures "name" in TestBody(o)["connection_params"].fields
    ensures TestBody(o)["connection_params"].fields["name"] == o["name"]
  {
  }

  /** `...(cond && {key: v})`: the key only when the condition holds. */
  function When(cond: bool, key: string, v: JsValue): (r: JsObject)
    ensures key in r <==> cond
    ensures r.Keys <= {key} && (cond ==> r[key] == v)
  {
    if cond then map[key := v] else map[]
  }

  /** The connection fields an update defines, each only where it is not `undefined`. */
  function DefinedFields(o: JsObject): (r: JsObject)
    ensures r.Keys <= ConnectionFields
    ensures forall k :: k in ConnectionFields ==> (k in r <==> Get(o, k) != Undefined)
    ensures forall k :: k in r ==> r[k] == Get(o, k)
  {
    map k | k in ConnectionFields && Get(o, k) != Undefined :: Get(o, k)
  }

  /**
   * The connection parameters of an update: a connection field only where
   * the request defines it; a file path or JSON content only where it is
   * truthy; nothing without a type.
   */
  function UpdateParams(o: JsObject): JsObject
  {
    var t := Get(o, "type");
    var rest := Rest(o, BodyFields);
    if Truthy(t) && OneOf(t, RelationalTypes) then Spread(DefinedFields(o), rest)
    else if Truthy(t) && OneOf(t, FileTypes) then
      Spread(When(Truthy(Get(o, "filePath")), "filePath", Get(o, "filePath")), rest)
    else if t == Str("JSON") then
      Spread(When(Truthy(Get(o, "jsonContent")), "jsonContent", Get(o, "jsonContent")), rest)
    else map[]
  }

  /** Without a type an update sends no connection parameters, whatever else it holds. */
  lemma UpdateWithoutType(o: JsObject)
    requires !Truthy(Get(o, "type"))
    ensures UpdateParams(o) == map[]
  {
  }

  /**
   * For a relational update a connection field is sent exactly when it is
   * defined, with its value, alongside every field that was not destructured.
   */
  lemma UpdateRelationalParams(o: JsObject)
    requires OneOf(Get(o, "type"), RelationalTypes)
    ensures forall k :: k in ConnectionFields ==>
      (k in UpdateParams(o) <==> Get(o, k) != Undefined) && (k in UpdateParams(o) ==> UpdateParams(o)[k] == Get(o, k))
    ensures UpdateParams(o).Keys - ConnectionFields == o.Keys - BodyFields
  {
    assert Truthy(Get(o, "type"));
  }

  /**
   * For a file update the path is sent when truthy; the remaining fields
   * (the path among them when the request holds one) follow.
   */
  lemma UpdateFileParams(o: JsObject)
    requires OneOf(Get(o, "type"), FileTypes)
    ensures UpdateParams(o).Keys == (if Truthy(Get(o, "filePath")) then {"filePath"} else {}) + (o.Keys - BodyFields)
    ensures forall k :: k in UpdateParams(o) ==> UpdateParams(o)[k] == Get(o, k)
  {
    assert Truthy(Get(o, "type"));
    assert !OneOf(Get(o, "type"), RelationalTypes);
  }

  /** updateDataSource builds its body field by field. */
  method UpdateBody(o: JsObject) returns (body: JsObject)
    ensures "name" in body <==> Truthy(Get(o, "name"))
    ensures "type" in body <==> Truthy(Get(o, "type"))
    ensures "description" in body <==> Get(o, "description") != Undefined
    ensures "connection_params" in body <==> |UpdateParams(o).Keys| > 0
    ensures body.Keys <= {"name", "type", "description", "connection_params"}
    ensures forall k :: k in body && k != "connection_params" ==> body[k] == Get(o, k)
    ensures "connection_params" in body ==> body["connection_params"] == Object(UpdateParams(o))
  {
    var params := UpdateParams(o);
    body := When(Truthy(Get(o, "name")), "name", Get(o, "name"));
    if Truthy(Get(o, "type")) {
      body := body["type" := Get(o, "type")];
    }
    assert forall k :: k in body ==> body[k] == Get(o, k);
    if Get(o, "description") != Undefined {
      body := body["description" := Get(o, "description")];
    }
    assert forall k :: k in body ==> body[k] == Get(o, k);
    assert body.Keys <= {"name", "type", "description"};
    if |params.Keys| > 0 {
      body := body["connection_params" := Object(params)];
    }
  }
}
