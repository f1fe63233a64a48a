/**
 * The JSON-RPC 2.0 messages exchanged between the CLI and the daemon: JSON
 * values, requests and responses, the parameter records of each method with
 * their serde defaults, and the records the daemon answers with.
 */
module Protocol {
  import opened Common
  import opened Text

  /** A JSON value; numbers are split into integers and floating-point numbers, as `serde_json` keeps them. */
  datatype Json =
    | JNull
    | JBool(b: bool)
    | JInt(i: int)
    | JFloat(f: real)
    | JStr(s: string)
    | JArr(items: seq<Json>)
    | JObj(fields: map<string, Json>)

  /** `Value::get(key)` on an object; `None` for a missing key or a non-object. */
  function Get(j: Json, key: string): Option<Json>
  {
    if j.JObj? && key in j.fields then Some(j.fields[key]) else None
  }

  /** A JSON-RPC request; `params` may be absent. */
  datatype Request = Request(jsonrpc: Option<string>, id: Option<Json>, methodName: string, params: Option<Json>)

  /** A JSON-RPC error object. */
  datatype RpcError = RpcError(code: int, message: string, data: Option<Json>)

  /** A JSON-RPC response. */
  datatype Response = Response(jsonrpc: string, id: Option<Json>, result: Option<Json>, error: Option<RpcError>)

  /** Section 5 of JSON-RPC 2.0: version "2.0" and exactly one of `result` and `error`. */
  predicate WellFormed(r: Response)
  {
    r.jsonrpc == "2.0" && (r.result.Some? <==> r.error.None?)
  }

  /** `Response::success`: echoes the request id and carries the result. */
  function Success(id: Option<Json>, result: Json): (r: Response)
    ensures WellFormed(r)
    ensures r.id == id && r.result == Some(result)
  {
    Response("2.0", id, Some(result), None)
  }

  /** `Response::error`: no id, no result, and an error with the code and message and no data. */
  function Error(code: int, message: string): (r: Response)
    ensures WellFormed(r)
    ensures r.id.None? && r.error == Some(RpcError(code, message, None))
  {
    Response("2.0", None, None, Some(RpcError(code, message, None)))
  }

  // Error codes of section 5.1 of JSON-RPC 2.0, and the one the daemon uses for backend failures.
  const PARSE_ERROR: int := -32700
  const METHOD_NOT_FOUND: int := -32601
  const INVALID_PARAMS: int := -32602
  const INTERNAL_ERROR: int := -32603
  const SERVER_ERROR: int := -32000

  /** Weights of the prediction score. */
  datatype RankingWeights = RankingWeights(
    frequency: real, recency: real, dirExact: real, dirHierarchy: real,
    failurePenalty: real, frecentBoostMax: real, ngram: real)

  // The per-field serde defaults.
  function DefaultFreqWeight(): real { 0.35 }
  function DefaultRecencyWeight(): real { 0.30 }
  function DefaultDirExactWeight(): real { 0.35 }
  function DefaultDirHierarchyWeight(): real { 0.15 }
  function DefaultFailurePenalty(): real { 0.5 }
  function DefaultFrecentBoostMax(): real { 0.1 }
  function DefaultNgramWeight(): real { 0.40 }

  /** `RankingWeights::default()`. */
  function DefaultWeights(): RankingWeights
  {
    RankingWeights(0.35, 0.30, 0.35, 0.15, 0.5, 0.1, 0.40)
  }

  // Decoding of single fields, following serde: a missing field takes its
  // default, an `Option` field also accepts `null`, and a value of the wrong
  // type is an error. The error texts of serde are not modelled.

  const U64_MAX: int := 0xFFFF_FFFF_FFFF_FFFF
  const I64_MIN: int := -0x8000_0000_0000_0000
  const I64_MAX: int := 0x7FFF_FFFF_FFFF_FFFF
  const I32_MIN: int := -0x8000_0000
  const I32_MAX: int := 0x7FFF_FFFF

  /** A required string field. */
  function ReqString(o: map<string, Json>, k: string): (r: Result<string, string>)
    ensures r.Ok? <==> k in o && o[k].JStr?
    ensures r.Ok? ==> o[k] == JStr(r.value)
  {
    if k in o && o[k].JStr? then Ok(o[k].s) else Err("invalid or missing field " + k)
  }

  /** A string field with a default. */
  function DefString(o: map<string, Json>, k: string, d: string): (r: Result<string, string>)
    ensures k !in o ==> r == Ok(d)
    ensures k in o ==> (r.Ok? <==> o[k].JStr?) && (r.Ok? ==> o[k] == JStr(r.value))
  {
    if k !in o then Ok(d) else if o[k].JStr? then Ok(o[k].s) else Err("invalid type for " + k)
  }

  /** An optional string field. */
  function OptString(o: map<string, Json>, k: string): (r: Result<Option<string>, string>)
    ensures k !in o || o[k] == JNull ==> r == Ok(None)
    ensures k in o && o[k].JStr? ==> r == Ok(Some(o[k].s))
    ensures r.Err? <==> k in o && !o[k].JNull? && !o[k].JStr?
  {
    if k !in o || o[k].JNull? then Ok(None)
    else if o[k].JStr? then Ok(Some(o[k].s))
    else Err("invalid type for " + k)
  }

  /** An optional integer field within `[lo, hi]`. */
  function OptInt(o: map<string, Json>, k: string, lo: int, hi: int): (r: Result<Option<int>, string>)
    ensures k !in o || o[k] == JNull ==> r == Ok(None)
    ensures r.Ok? && r.value.Some? ==> k in o && o[k] == JInt(r.value.value) && lo <= r.value.value <= hi
    ensures k in o && o[k].JInt? && lo <= o[k].i <= hi ==> r == Ok(Some(o[k].i))
  {
    if k !in o || o[k].JNull? then Ok(None)
    else if o[k].JInt? && lo <= o[k].i <= hi then Ok(Some(o[k].i))
    else Err("invalid type for " + k)
  }

  /** An optional floating-point field; an integer is accepted as a float. */
  function OptReal(o: map<string, Json>, k: string): (r: Result<Option<real>, string>)
    ensures k !in o || o[k] == JNull ==> r == Ok(None)
    ensures k in o && o[k].JFloat? ==> r == Ok(Some(o[k].f))
    ensures k in o && o[k].JInt? ==> r == Ok(Some(o[k].i as real))
  {
    if k !in o || o[k].JNull? then Ok(None)
    else if o[k].JFloat? then Ok(Some(o[k].f))
    else if o[k].JInt? then Ok(Some(o[k].i as real))
    else Err("invalid type for " + k)
  }

  /** A non-negative integer (`usize`) field with a default. */
  function DefCount(o: map<string, Json>, k: string, d: nat): (r: Result<nat, string>)
    ensures k !in o ==> r == Ok(d)
    ensures k in o && o[k].JInt? && 0 <= o[k].i <= U64_MAX ==> r == Ok(o[k].i)
    ensures k in o && r.Ok? ==> o[k] == JInt(r.value)
  {
    if k !in o then Ok(d)
    else if o[k].JInt? && 0 <= o[k].i <= U64_MAX then Ok(o[k].i)
    else Err("invalid type for " + k)
  }

  /** A boolean field with a default. */
  function DefBool(o: map<string, Json>, k: string, d: bool): (r: Result<bool, string>)
    ensures k !in o ==> r == Ok(d)
    ensures k in o ==> (r.Ok? <==> o[k].JBool?) && (r.Ok? ==> o[k] == JBool(r.value))
  {
    if k !in o then Ok(d) else if o[k].JBool? then Ok(o[k].b) else Err("invalid type for " + k)
  }

  predicate AllStrings(items: seq<Json>)
  {
    forall n :: 0 <= n < |items| ==> items[n].JStr?
  }

  /** A list-of-strings field that defaults to the empty list. */
  function DefStrings(o: map<string, Json>, k: string): (r: Result<seq<string>, string>)
    ensures k !in o ==> r == Ok([])
    ensures r.Ok? && k in o ==>
      (o[k].JArr? && |r.value| == |o[k].items| && forall n :: 0 <= n < |r.value| ==> o[k].items[n] == JStr(r.value[n]))
  {
    if k !in o then Ok([])
    else if o[k].JArr? && AllStrings(o[k].items) then
      Ok(seq(|o[k].items|, n requires 0 <= n < |o[k].items| => o[k].items[n].s))
    else Err("invalid type for " + k)
  }

  /** A weight field with its default. */
  function DefWeight(o: map<string, Json>, k: string, d: real): (r: Result<real, string>)
    ensures k !in o ==> r == Ok(d)
  {
    if k !in o then Ok(d)
    else if o[k].JFloat? then Ok(o[k].f)
    else if o[k].JInt? then Ok(o[k].i as real)
    else Err("invalid type for " + k)
  }

  /** Decoding of `RankingWeights`, each missing field taking its own default. */
  function DecodeWeights(j: Json): Result<RankingWeights, string>
  {
    if !j.JObj? then Err("expected an object")
    else
      var o := j.fields;
      var f := DefWeight(o, "frequency", DefaultFreqWeight());
      var r := DefWeight(o, "recency", DefaultRecencyWeight());
      var de := DefWeight(o, "dir_exact", DefaultDirExactWeight());
      var dh := DefWeight(o, "dir_hierarchy", DefaultDirHierarchyWeight());
      var fp := DefWeight(o, "failure_penalty", DefaultFailurePenalty());
      var fb := DefWeight(o, "frecent_boost_max", DefaultFrecentBoostMax());
      var ng := DefWeight(o, "ngram", DefaultNgramWeight());
      if f.Err? || r.Err? || de.Err? || dh.Err? || fp.Err? || fb.Err? || ng.Err? then Err("invalid weights")
      else Ok(RankingWeights(f.value, r.value, de.value, dh.value, fp.value, fb.value, ng.value))
  }

  /** `RankingWeights::default()` agrees with the per-field defaults: an empty weights object decodes to it. */
  lemma DefaultWeightsAgree()
    ensures DecodeWeights(JObj(map[])) == Ok(DefaultWeights())
    ensures DefaultWeights() == RankingWeights(
      DefaultFreqWeight(), DefaultRecencyWeight(), DefaultDirExactWeight(), DefaultDirHierarchyWeight(),
      DefaultFailurePenalty(), DefaultFrecentBoostMax(), DefaultNgramWeight())
  {
  }

  /** Parameters of `store`. */
  datatype StoreParams = StoreParams(
    cmd: string, cwd: string, exitStatus: Option<int>, durationMs: Option<int>,
    startTime: Option<int>, sessionId: Option<int>, prevCmd: Option<string>, prev2Cmd: Option<string>)

  function DecodeStoreParams(j: Json): (r: Result<StoreParams, string>)
    ensures r.Ok? ==> j.JObj? && Get(j, "cmd") == Some(JStr(r.value.cmd)) && Get(j, "cwd") == Some(JStr(r.value.cwd))
  {
    if !j.JObj? then Err("expected an object")
    else
      var o := j.fields;
      var cmd := ReqString(o, "cmd");
      var cwd := ReqString(o, "cwd");
      var es := OptInt(o, "exit_status", I32_MIN, I32_MAX);
      var du := OptInt(o, "duration_ms", I64_MIN, I64_MAX);
      var st := OptInt(o, "start_time", I64_MIN, I64_MAX);
      var si := OptInt(o, "session_id", I64_MIN, I64_MAX);
      var p1 := OptString(o, "prev_cmd");
      var p2 := OptString(o, "prev2_cmd");
      if cmd.Err? || cwd.Err? || es.Err? || du.Err? || st.Err? || si.Err? || p1.Err? || p2.Err? then
        Err("invalid params")
      else
        Ok(StoreParams(cmd.value, cwd.value, es.value, du.value, st.value, si.value, p1.value, p2.value))
  }

  /** Parameters of `predict`. */
  datatype PredictParams = PredictParams(
    prefix: string, cwd: string, lastCmds: seq<string>, limit: nat, frecentBoost: bool,
    weights: Option<RankingWeights>)

  /** `prefix` and `cwd` are required strings; an absent `limit` is 5 and an absent `frecent_boost` is on. */
  function DecodePredictParams(j: Json): (r: Result<PredictParams, string>)
    ensures r.Ok? ==> Get(j, "prefix") == Some(JStr(r.value.prefix)) && Get(j, "cwd") == Some(JStr(r.value.cwd))
    ensures r.Ok? && Get(j, "limit").None? ==> r.value.limit == 5
    ensures r.Ok? && Get(j, "frecent_boost").None? ==> r.value.frecentBoost
  {
    if !j.JObj? then Err("expected an object")
    else
      var o := j.fields;
      var prefix := ReqString(o, "prefix");
      var cwd := ReqString(o, "cwd");
      var last := DefStrings(o, "last_cmds");
      var limit := DefCount(o, "limit", 5);
      var boost := DefBool(o, "frecent_boost", true);
      var weights: Result<Option<RankingWeights>, string> :=
        if "weights" !in o || o["weights"].JNull? then Ok(None)
        else match DecodeWeights(o["weights"])
          case Ok(w) => Ok(Some(w))
          case Err(e) => Err(e);
      if prefix.Err? || cwd.Err? || last.Err? || limit.Err? || boost.Err? || weights.Err? then
        Err("invalid params")
      else Ok(PredictParams(prefix.value, cwd.value, last.value, limit.value, boost.value, weights.value))
  }

  /** `predict` parameters with only a prefix and a directory take the defaults: no recent commands, 5 results, frecent boost on, default weights. */
  lemma PredictParamsDefaults(prefix: string, cwd: string)
    ensures DecodePredictParams(JObj(map["prefix" := JStr(prefix), "cwd" := JStr(cwd)]))
      == Ok(PredictParams(prefix, cwd, [], 5, true, None))
  {
  }

  /** A given limit and a given list of recent commands are kept. */
  lemma PredictParamsGiven(prefix: string, cwd: string, limit: nat, last: seq<string>)
    requires limit <= U64_MAX
    ensures var o := map["prefix" := JStr(prefix), "cwd" := JStr(cwd), "limit" := JInt(limit),
        "last_cmds" := JArr(seq(|last|, n requires 0 <= n < |last| => JStr(last[n])))];
      DecodePredictParams(JObj(o)) == Ok(PredictParams(prefix, cwd, last, limit, true, None))
  {
    var items := seq(|last|, n requires 0 <= n < |last| => JStr(last[n]));
    var o := map["prefix" := JStr(prefix), "cwd" := JStr(cwd), "limit" := JInt(limit), "last_cmds" := JArr(items)];
    assert o["last_cmds"] == JArr(items);
    assert AllStrings(items);
    assert seq(|items|, n requires 0 <= n < |items| => items[n].s) == last;
    assert DefStrings(o, "last_cmds") == Ok(last);
  }

  /** Parameters of `context`. */
  datatype ContextParams = ContextParams(cwd: string)

  function DecodeContextParams(j: Json): (r: Result<ContextParams, string>)
    ensures r.Ok? <==> Get(j, "cwd").Some? && Get(j, "cwd").value.JStr?
  {
    if !j.JObj? then Err("expected an object")
    else match ReqString(j.fields, "cwd")
      case Ok(c) => Ok(ContextParams(c))
      case Err(e) => Err(e)
  }

  /** Parameters of `delete`. */
  datatype DeleteParams = DeleteParams(cmd: string)

  function DecodeDeleteParams(j: Json): (r: Result<DeleteParams, string>)
    ensures r.Ok? <==> Get(j, "cmd").Some? && Get(j, "cmd").value.JStr?
  {
    if !j.JObj? then Err("expected an object")
    else match ReqString(j.fields, "cmd")
      case Ok(c) => Ok(DeleteParams(c))
      case Err(e) => Err(e)
  }

  /** Parameters of `search`. */
  datatype SearchParams = SearchParams(
    pattern: string, limit: nat, dir: Option<string>, exitStatus: Option<int>,
    lastCmds: seq<string>, cwd: Option<string>, ngramBoost: bool)

  /** `pattern` is a required string; an absent `limit` is 20 and an absent `ngram_boost` is off. */
  function DecodeSearchParams(j: Json): (r: Result<SearchParams, string>)
    ensures r.Ok? ==> Get(j, "pattern") == Some(JStr(r.value.pattern))
    ensures r.Ok? && Get(j, "limit").None? ==> r.value.limit == 20
    ensures r.Ok? && Get(j, "ngram_boost").None? ==> !r.value.ngramBoost
  {
    if !j.JObj? then Err("expected an object")
    else
      var o := j.fields;
      var pattern := ReqString(o, "pattern");
      var limit := DefCount(o, "limit", 20);
      var dir := OptString(o, "dir");
      var es := OptInt(o, "exit_status", I32_MIN, I32_MAX);
      var last := DefStrings(o, "last_cmds");
      var cwd := OptString(o, "cwd");
      var ng := DefBool(o, "ngram_boost", false);
      if pattern.Err? || limit.Err? || dir.Err? || es.Err? || last.Err? || cwd.Err? || ng.Err? then
        Err("invalid params")
      else Ok(SearchParams(pattern.value, limit.value, dir.value, es.value, last.value, cwd.value, ng.value))
  }

  /** `search` defaults: 20 results, no filters, no n-gram boost. */
  lemma SearchParamsDefaults(pattern: string)
    ensures DecodeSearchParams(JObj(map["pattern" := JStr(pattern)]))
      == Ok(SearchParams(pattern, 20, None, None, [], None, false))
  {
  }

  /** Parameters of `frecent_add`. */
  datatype FrecentAddParams = FrecentAddParams(path: string, pathType: string, rank: Option<real>, timestamp: Option<int>)

  /** `path` is a required string; an absent `path_type` is "d". */
  function DecodeFrecentAddParams(j: Json): (r: Result<FrecentAddParams, string>)
    ensures r.Ok? ==> Get(j, "path") == Some(JStr(r.value.path))
    ensures r.Ok? && Get(j, "path_type").None? ==> r.value.pathType == "d"
  {
    if !j.JObj? then Err("expected an object")
    else
      var o := j.fields;
      var path := ReqString(o, "path");
      var pt := DefString(o, "path_type", "d");
      var rank := OptReal(o, "rank");
      var ts := OptInt(o, "timestamp", I64_MIN, I64_MAX);
      if path.Err? || pt.Err? || rank.Err? || ts.Err? then Err("invalid params")
      else Ok(FrecentAddParams(path.value, pt.value, rank.value, ts.value))
  }

  /** `frecent_add` defaults: a directory, with no rank or timestamp override. */
  lemma FrecentAddParamsDefaults(path: string)
    ensures DecodeFrecentAddParams(JObj(map["path" := JStr(path)])) == Ok(FrecentAddParams(path, "d", None, None))
  {
  }

  /** Parameters of `frecent_query`. */
  datatype FrecentQueryParams = FrecentQueryParams(terms: seq<string>, pathType: Option<string>, limit: nat, raw: bool)

  /** Every field is optional, but the parameters must be an object; an absent `limit` is 20 and an absent `raw` is off. */
  function DecodeFrecentQueryParams(j: Json): (r: Result<FrecentQueryParams, string>)
    ensures r.Ok? ==> j.JObj?
    ensures r.Ok? && Get(j, "limit").None? ==> r.value.limit == 20
    ensures r.Ok? && Get(j, "raw").None? ==> !r.value.raw
  {
    if !j.JObj? then Err("expected an object")
    else
      var o := j.fields;
      var terms := DefStrings(o, "terms");
      var pt := OptString(o, "path_type");
      var limit := DefCount(o, "limit", 20);
      var raw := DefBool(o, "raw", false);
      if terms.Err? || pt.Err? || limit.Err? || raw.Err? then Err("invalid params")
      else Ok(FrecentQueryParams(terms.value, pt.value, limit.value, raw.value))
  }

  /** `frecent_query` defaults: no terms, any type, 20 results, no raw fields. */
  lemma FrecentQueryParamsDefaults()
    ensures DecodeFrecentQueryParams(JObj(map[])) == Ok(FrecentQueryParams([], None, 20, false))
  {
  }

  /** A suggestion of `predict`. */
  datatype Suggestion = Suggestion(cmd: string, score: real)

  function SuggestionToJson(s: Suggestion): Json
  {
    JObj(map["cmd" := JStr(s.cmd), "score" := JFloat(s.score)])
  }

  /** The context of a directory; absent fields are not serialised. */
  datatype ContextInfo = ContextInfo(vcs: Option<string>, branch: Option<string>, vcsRoot: Option<string>, project: Option<string>)

  /** Serialisation with `skip_serializing_if = "Option::is_none"` on every field. */
  function ContextInfoToJson(c: ContextInfo): (j: Json)
    ensures j.JObj?
    ensures "vcs" in j.fields <==> c.vcs.Some?
    ensures "branch" in j.fields <==> c.branch.Some?
    ensures "vcs_root" in j.fields <==> c.vcsRoot.Some?
    ensures "project" in j.fields <==> c.project.Some?
  {
    var m0: map<string, Json> := map[];
    var m1 := if c.vcs.Some? then m0["vcs" := JStr(c.vcs.value)] else m0;
    var m2 := if c.branch.Some? then m1["branch" := JStr(c.branch.value)] else m1;
    var m3 := if c.vcsRoot.Some? then m2["vcs_root" := JStr(c.vcsRoot.value)] else m2;
    var m4 := if c.project.Some? then m3["project" := JStr(c.project.value)] else m3;
    JObj(m4)
  }

  /** A history entry returned by `search`. */
  datatype SearchResult = SearchResult(
    cmd: string, cwd: string, timestamp: int, exitStatus: Option<int>, durationMs: Option<int>, score: Option<real>)

  function SearchResultToJson(r: SearchResult): Json
  {
    var m: map<string, Json> := map["cmd" := JStr(r.cmd), "cwd" := JStr(r.cwd), "timestamp" := JInt(r.timestamp)];
    var m1 := if r.exitStatus.Some? then m["exit_status" := JInt(r.exitStatus.value)] else m;
    var m2 := if r.durationMs.Some? then m1["duration_ms" := JInt(r.durationMs.value)] else m1;
    var m3 := if r.score.Some? then m2["score" := JFloat(r.score.value)] else m2;
    JObj(m3)
  }

  /** A search result always carries its command. */
  lemma SearchResultCarriesCmd(r: SearchResult)
    ensures Get(SearchResultToJson(r), "cmd") == Some(JStr(r.cmd))
  {
    assert "exit_status" != "cmd" && "duration_ms" != "cmd" && "score" != "cmd";
  }

  /** A frecent path returned by `frecent_query`; `rank` and `last_access` only in raw mode. */
  datatype FrecencyResult = FrecencyResult(path: string, pathType: string, score: real, rank: Option<real>, lastAccess: Option<int>)

  function FrecencyResultToJson(r: FrecencyResult): Json
  {
    var m: map<string, Json> := map["path" := JStr(r.path), "path_type" := JStr(r.pathType), "score" := JFloat(r.score)];
    var m1 := if r.rank.Some? then m["rank" := JFloat(r.rank.value)] else m;
    var m2 := if r.lastAccess.Some? then m1["last_access" := JInt(r.lastAccess.value)] else m1;
    JObj(m2)
  }
}
