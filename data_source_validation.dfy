/**
 * The connection test of a data source: the type dispatch and the
 * validators, which check only that the required connection parameters
 * are present (the connection itself is simulated as succeeding).
 */
module DataSourceValidation {
  import opened Common

  /** DataSourceTestResult: status `success` or `failed` and a message. */
  datatype TestResult = TestResult(status: string, message: string)

  const RelationalParams: seq<string> := ["host", "port", "username", "password", "database"]

  function Failed(message: string): TestResult
  {
    TestResult("failed", message)
  }

  function MissingMessage(param: string): string
  {
    "缺少必要的连接参数: " + param
  }

  /** The first required parameter that is not a key of the connection parameters. */
  function FirstMissing<V>(required: seq<string>, params: map<string, V>): (r: Option<string>)
  {
    if |required| == 0 then None
    else if required[0] !in params then Some(required[0])
    else FirstMissing(required[1..], params)
  }

  /**
   * Nothing is missing exactly when every required key is present;
   * otherwise the one reported is absent and every key before it present.
   */
  lemma {:induction false} FirstMissingFacts<V>(required: seq<string>, params: map<string, V>)
    ensures FirstMissing(required, params).None? <==> forall i :: 0 <= i < |required| ==> required[i] in params
    ensures FirstMissing(required, params).Some? ==>
      exists i :: 0 <= i < |required| && required[i] == FirstMissing(required, params).value
        && required[i] !in params && forall j :: 0 <= j < i ==> required[j] in params
  {
    if |required| > 0 && required[0] in params {
      var rest := required[1..];
      FirstMissingFacts(rest, params);
      assert forall i :: 0 <= i < |rest| ==> rest[i] == required[i + 1];
      if FirstMissing(rest, params).Some? {
        var i :| 0 <= i < |rest| && rest[i] == FirstMissing(rest, params).value
          && rest[i] !in params && forall j :: 0 <= j < i ==> rest[j] in params;
        assert required[i + 1] == rest[i];
        assert forall j :: 0 <= j < i + 1 ==> required[j] in params by {
          forall j | 0 <= j < i + 1
            ensures required[j] in params
          {
            if j > 0 {
              assert required[j] == rest[j - 1];
            }
          }
        }
      } else {
        assert forall i :: 0 <= i < |required| ==> required[i] in params by {
          forall i | 0 <= i < |required|
            ensures required[i] in params
          {
            if i > 0 {
              assert required[i] == rest[i - 1];
            }
          }
        }
      }
    }
  }

  /** A validator: the first missing parameter fails the test, else it succeeds with `success`. */
  function Validate<V>(required: seq<string>, params: map<string, V>, success: string): TestResult
  {
    match FirstMissing(required, params)
    case Some(p) => Failed(MissingMessage(p))
    case None => TestResult("success", success)
  }

  /** test_data_source_connection, dispatching on the type's text. */
  function TestConnection<V>(kind: string, params: map<string, V>): (r: TestResult)
    ensures r.status == "success" || r.status == "failed"
  {
    if kind == "MySQL" then Validate(RelationalParams, params, "MySQL连接测试成功")
    else if kind == "PostgreSQL" then Validate(RelationalParams, params, "PostgreSQL连接测试成功")
    else if kind == "CSV" then Validate(["filePath"], params, "CSV文件连接测试成功")
    else if kind == "Excel" then Validate(["filePath"], params, "Excel文件连接测试成功")
    else if kind == "API" then Validate(["url"], params, "API连接测试成功")
    else Failed("不支持的数据源类型: " + kind)
  }

  /** The parameters each type requires, in the order they are checked. */
  function Required(kind: string): seq<string>
  {
    if kind == "MySQL" || kind == "PostgreSQL" then RelationalParams
    else if kind == "CSV" || kind == "Excel" then ["filePath"]
    else if kind == "API" then ["url"]
    else []
  }

  predicate Supported(kind: string)
  {
    kind in ["MySQL", "PostgreSQL", "CSV", "Excel", "API"]
  }

  /**
   * A supported type succeeds exactly when all its required keys are
   * present; otherwise it fails naming the first missing key in order.
   */
  lemma TestConnectionSupported<V>(kind: string, params: map<string, V>)
    requires Supported(kind)
    ensures TestConnection(kind, params).status == "success" <==> forall i :: 0 <= i < |Required(kind)| ==> Required(kind)[i] in params
    ensures TestConnection(kind, params).status == "failed" ==>
      exists i :: 0 <= i < |Required(kind)| && Required(kind)[i] !in params
        && (forall j :: 0 <= j < i ==> Required(kind)[j] in params)
        && TestConnection(kind, params).message == MissingMessage(Required(kind)[i])
  {
    FirstMissingFacts(Required(kind), params);
  }

  /**
   * An unsupported type always fails, and the message names it. Behind the
   * endpoint this branch is unreachable: the request field is a
   * DataSourceType enum (backend/app/api/v1/schemas/data_source_schemas.py:6-11)
   * whose five values are exactly the supported ones, so any other type is
   * refused when the request is parsed, before the dispatch runs. The lemma
   * states the dispatch's own else branch.
   */
  lemma TestConnectionUnsupported<V>(kind: string, params: map<string, V>)
    requires !Supported(kind)
    ensures TestConnection(kind, params).status == "failed"
    ensures Contains(TestConnection(kind, params).message, kind)
  {
    ContainsInfix("不支持的数据源类型: ", kind, "");
    assert "不支持的数据源类型: " + kind + "" == "不支持的数据源类型: " + kind;
  }

  /** Only the keys are looked at, never the values. */
  lemma TestConnectionKeysOnly<V>(kind: string, p: map<string, V>, q: map<string, V>)
    requires p.Keys == q.Keys
    ensures TestConnection(kind, p) == TestConnection(kind, q)
  {
    FirstMissingSameKeys(Required(kind), p, q);
  }

  lemma {:induction false} FirstMissingSameKeys<V>(required: seq<string>, p: map<string, V>, q: map<string, V>)
    requires p.Keys == q.Keys
    ensures FirstMissing(required, p) == FirstMissing(required, q)
  {
    if |required| > 0 {
      assert (required[0] in p) == (required[0] in q);
      FirstMissingSameKeys(required[1..], p, q);
    }
  }
}
