/**
 * The daemon's request handling: the dispatch from a JSON-RPC method name
 * and its parameters to a response, the one-request-per-connection client
 * loop, and the location of the listening socket. The database and the
 * context collector are reached through a `Backend` of answers.
 */
module Daemon {
  import opened Common
  import opened Text
  import opened Numbers
  import opened Paths
  import opened Protocol

  /** The methods that take parameters. */
  const ParamMethods: set<string> := {"store", "predict", "context", "search", "delete", "frecent_add", "frecent_query"}

  /**
   * What the database and the context collector answer for decoded
   * parameters; an `Err` carries the failure's message.
   */
  datatype Backend = Backend(
    store: StoreParams -> Result<int, string>,
    predict: PredictParams -> Result<seq<Suggestion>, string>,
    context: string -> ContextInfo,
    search: SearchParams -> Result<seq<SearchResult>, string>,
    delete: string -> Result<(), string>,
    frecentAdd: FrecentAddParams -> Result<(), string>,
    frecentQuery: FrecentQueryParams -> Result<seq<FrecencyResult>, string>)

  /** A JSON array of encoded items. */
  function JsonArray<T>(items: seq<T>, encode: T -> Json): (j: Json)
    ensures j.JArr? && |j.items| == |items|
  {
    JArr(seq(|items|, k requires 0 <= k < |items| => encode(items[k])))
  }

  /** A one-field JSON object. */
  function Field(key: string, value: Json): Json
  {
    JObj(map[key := value])
  }

  /** A call of a method that takes parameters, with its decoded parameters. */
  datatype Call =
    | StoreCall(store: StoreParams)
    | PredictCall(predict: PredictParams)
    | ContextCall(context: ContextParams)
    | SearchCall(search: SearchParams)
    | DeleteCall(delete: DeleteParams)
    | FrecentAddCall(frecentAdd: FrecentAddParams)
    | FrecentQueryCall(frecentQuery: FrecentQueryParams)

  /** `serde_json::from_value` into the parameter record of method `m`. */
  function DecodeCall(m: string, j: Json): (r: Result<Call, string>)
    requires m in ParamMethods
    ensures r.Ok? ==>
      && (r.value.StoreCall? <==> m == "store") && (r.value.PredictCall? <==> m == "predict")
      && (r.value.ContextCall? <==> m == "context") && (r.value.SearchCall? <==> m == "search")
      && (r.value.DeleteCall? <==> m == "delete") && (r.value.FrecentAddCall? <==> m == "frecent_add")
      && (r.value.FrecentQueryCall? <==> m == "frecent_query")
    ensures m == "store" ==> (r.Ok? <==> DecodeStoreParams(j).Ok?)
    ensures m == "predict" ==> (r.Ok? <==> DecodePredictParams(j).Ok?)
    ensures m == "context" ==> (r.Ok? <==> DecodeContextParams(j).Ok?)
    ensures m == "search" ==> (r.Ok? <==> DecodeSearchParams(j).Ok?)
    ensures m == "delete" ==> (r.Ok? <==> DecodeDeleteParams(j).Ok?)
    ensures m == "frecent_add" ==> (r.Ok? <==> DecodeFrecentAddParams(j).Ok?)
    ensures m == "frecent_query" ==> (r.Ok? <==> DecodeFrecentQueryParams(j).Ok?)
  {
    if m == "store" then
      match DecodeStoreParams(j) case Ok(p) => Ok(StoreCall(p)) case Err(e) => Err(e)
    else if m == "predict" then
      match DecodePredictParams(j) case Ok(p) => Ok(PredictCall(p)) case Err(e) => Err(e)
    else if m == "context" then
      match DecodeContextParams(j) case Ok(p) => Ok(ContextCall(p)) case Err(e) => Err(e)
    else if m == "search" then
      match DecodeSearchParams(j) case Ok(p) => Ok(SearchCall(p)) case Err(e) => Err(e)
    else if m == "delete" then
      match DecodeDeleteParams(j) case Ok(p) => Ok(DeleteCall(p)) case Err(e) => Err(e)
    else if m == "frecent_add" then
      match DecodeFrecentAddParams(j) case Ok(p) => Ok(FrecentAddCall(p)) case Err(e) => Err(e)
    else
      match DecodeFrecentQueryParams(j) case Ok(p) => Ok(FrecentQueryCall(p)) case Err(e) => Err(e)
  }

  /** A backend answer as a response: its encoding on success, -32000 with the failure message otherwise. */
  function Answer<T>(id: Option<Json>, outcome: Result<T, string>, failure: string, encode: T -> Json): (r: Response)
    ensures WellFormed(r)
    ensures outcome.Ok? ==> r == Success(id, encode(outcome.value))
    ensures outcome.Err? ==> r == Error(SERVER_ERROR, failure + outcome.error)
  {
    match outcome
    case Ok(v) => Success(id, encode(v))
    case Err(e) => Error(SERVER_ERROR, failure + e)
  }

  /** Runs a decoded call: a success echoing `id`, or -32000 when the backend fails; `context` cannot fail. */
  function Execute(id: Option<Json>, c: Call, b: Backend): (r: Response)
    ensures WellFormed(r)
    ensures r.result.Some? ==> r.id == id
    ensures r.error.Some? ==> r.id.None? && r.error.value.code == SERVER_ERROR && !c.ContextCall?
  {
    match c
    case StoreCall(p) =>
      Answer(id, b.store(p), "Store failed: ", (n: int) => Field("id", JInt(n)))
    case PredictCall(p) =>
      Answer(id, b.predict(p), "Predict failed: ",
        (s: seq<Suggestion>) => Field("suggestions", JsonArray(s, SuggestionToJson)))
    case ContextCall(p) =>
      Success(id, ContextInfoToJson(b.context(p.cwd)))
    case SearchCall(p) =>
      Answer(id, b.search(p), "Search failed: ",
        (s: seq<SearchResult>) => Field("results", JsonArray(s, SearchResultToJson)))
    case DeleteCall(p) =>
      Answer(id, b.delete(p.cmd), "Delete failed: ", (u: ()) => Field("deleted", JBool(true)))
    case FrecentAddCall(p) =>
      Answer(id, b.frecentAdd(p), "frecent_add failed: ", (u: ()) => Field("ok", JBool(true)))
    case FrecentQueryCall(p) =>
      Answer(id, b.frecentQuery(p), "frecent_query failed: ",
        (s: seq<FrecencyResult>) => Field("results", JsonArray(s, FrecencyResultToJson)))
  }

  /** The answer to `ping`. */
  const Pong: Json := Field("pong", JBool(true))

  /**
   * `handle_request`: a method that takes parameters needs them present and
   * decodable (-32602 otherwise); `ping` always answers; any other name is
   * -32601.
   */
  function HandleRequest(req: Request, b: Backend): (r: Response)
    ensures WellFormed(r)
    ensures r.result.Some? ==> r.id == req.id
    ensures r.error.Some? ==> r.id.None? && r.error.value.code in {METHOD_NOT_FOUND, INVALID_PARAMS, SERVER_ERROR}
  {
    var m := req.methodName;
    if m in ParamMethods then
      match req.params
      case None => Error(INVALID_PARAMS, "Missing params")
      case Some(j) =>
        match DecodeCall(m, j)
        case Err(e) => Error(INVALID_PARAMS, "Invalid params: " + e)
        case Ok(c) => Execute(req.id, c, b)
    else if m == "ping" then
      Success(req.id, Pong)
    else
      Error(METHOD_NOT_FOUND, "Method not found: " + m)
  }

  /** The parameters decode for a method that takes them. */
  predicate Decodes(m: string, j: Json)
  {
    m in ParamMethods && DecodeCall(m, j).Ok?
  }

  /** `ping` succeeds with `{"pong": true}` and echoes the id, whatever the parameters. */
  lemma PingAlwaysAnswers(req: Request, b: Backend)
    requires req.methodName == "ping"
    ensures HandleRequest(req, b) == Success(req.id, Pong)
    ensures HandleRequest(req, b).id == req.id
  {
  }

  /** Exactly the names outside the known methods get -32601, with the name in the message. */
  lemma MethodNotFoundIff(req: Request, b: Backend)
    ensures HandleRequest(req, b).error.Some? && HandleRequest(req, b).error.value.code == METHOD_NOT_FOUND
      <==> req.methodName !in ParamMethods && req.methodName != "ping"
    ensures req.methodName !in ParamMethods && req.methodName != "ping" ==>
      HandleRequest(req, b).error.value.message == "Method not found: " + req.methodName
  {
  }

  /** A method that takes parameters answers "Missing params" when they are absent. */
  lemma MissingParams(req: Request, b: Backend)
    requires req.methodName in ParamMethods && req.params.None?
    ensures HandleRequest(req, b) == Error(INVALID_PARAMS, "Missing params")
  {
  }

  /** -32602 is answered exactly when a method that takes parameters gets none, or gets ones that do not decode. */
  lemma InvalidParamsIff(req: Request, b: Backend)
    ensures HandleRequest(req, b).error.Some? && HandleRequest(req, b).error.value.code == INVALID_PARAMS
      <==> req.methodName in ParamMethods && (req.params.None? || !Decodes(req.methodName, req.params.value))
  {
  }

  /** -32000 is answered only after the parameters decoded and the backend failed; `context` never fails. */
  lemma ServerErrorMeansBackendFailed(req: Request, b: Backend)
    requires HandleRequest(req, b).error.Some? && HandleRequest(req, b).error.value.code == SERVER_ERROR
    ensures req.methodName in ParamMethods - {"context"}
    ensures req.params.Some? && Decodes(req.methodName, req.params.value)
  {
  }

  /** A `store` whose backend succeeds answers with the new id. */
  lemma StoreSucceeds(req: Request, b: Backend, p: StoreParams, n: int)
    requires req.methodName == "store" && req.params.Some?
    requires DecodeStoreParams(req.params.value) == Ok(p) && b.store(p) == Ok(n)
    ensures HandleRequest(req, b) == Success(req.id, Field("id", JInt(n)))
  {
  }

  /** The response to one request line: the dispatch's answer, or -32700 when the line is not a request. */
  function Respond(line: string, parse: string -> Result<Request, string>, b: Backend): (r: Response)
    ensures WellFormed(r)
    ensures parse(line).Err? ==> r == Error(PARSE_ERROR, "Parse error: " + parse(line).error)
    ensures parse(line).Ok? ==> r == HandleRequest(parse(line).value, b)
  {
    match parse(line)
    case Ok(req) => HandleRequest(req, b)
    case Err(e) => Error(PARSE_ERROR, "Parse error: " + e)
  }

  /** The outcome of one `read_line`. */
  datatype ReadOutcome = Eof | Line(text: string) | ReadFailed

  /**
   * `handle_client`: reads lines until end of input or a read error; the
   * first line read is answered and the loop ends, so a connection gets at
   * most one response. `incoming` holds the successive read outcomes; reading
   * past them is end of input.
   */
  method HandleClient(incoming: seq<ReadOutcome>, parse: string -> Result<Request, string>, b: Backend)
    returns (written: seq<Response>)
    ensures |written| <= 1
    ensures |written| == 1 <==> |incoming| > 0 && incoming[0].Line?
    ensures |written| == 1 ==> written[0] == Respond(incoming[0].text, parse, b)
  {
    written := [];
    var done := false;
    var i := 0;
    while !done
      invariant (i == 0 && written == []) || done
      invariant done && written != [] ==> |incoming| > 0 && incoming[0].Line? && written == [Respond(incoming[0].text, parse, b)]
      invariant done && written == [] ==> |incoming| == 0 || !incoming[0].Line?
      decreases if done then 0 else 1
    {
      var next := if i < |incoming| then incoming[i] else Eof;
      match next
      case Eof =>
        done := true;
      case ReadFailed =>
        done := true;
      case Line(text) =>
        written := written + [Respond(text, parse, b)];
        done := true;
    }
  }

  /** The file name of the socket. */
  const SocketName: string := "nicehist.sock"

  /** `socket_path`: in `$XDG_RUNTIME_DIR` when it is set, else `/tmp/nicehist-<uid>.sock`. */
  function SocketPath(runtimeDir: Option<string>, uid: nat): (p: string)
    ensures runtimeDir.Some? ==> StartsWith(p, runtimeDir.value) && EndsWith(p, SocketName)
    ensures runtimeDir.None? ==> StartsWith(p, "/tmp/nicehist-") && EndsWith(p, ".sock")
  {
    match runtimeDir
    case Some(dir) =>
      assert SocketName[0] == 'n';
      Join(dir, SocketName)
    case None => "/tmp/nicehist-" + ShowNat(uid) + ".sock"
  }

  /** Without `$XDG_RUNTIME_DIR`, different users get different sockets. */
  lemma SocketPathPerUser(u1: nat, u2: nat)
    requires SocketPath(None, u1) == SocketPath(None, u2)
    ensures u1 == u2
  {
    var p := SocketPath(None, u1);
    var a := ShowNat(u1);
    var c := ShowNat(u2);
    assert |a| == |c|;
    assert a == p[14..14 + |a|];
    assert c == p[14..14 + |c|];
  }

  /** The examples of the default locations. */
  lemma SocketPathExamples()
    ensures SocketPath(Some("/run/user/1000"), 1000) == "/run/user/1000/nicehist.sock"
    ensures SocketPath(Some("/run/user/1000/"), 1000) == "/run/user/1000/nicehist.sock"
  {
  }
}
