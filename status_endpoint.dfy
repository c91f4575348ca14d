/** The delivery-status endpoint: a request carrying a shared key, a message
    id and a status, answered with one of five responses. */
module StatusEndpoint {
  import opened Sessions
  import opened Messages

  /** The JSON body as parsed: each field may be missing. A falsy id (0) or
      status ("") counts as missing. */
  datatype Body = Body(messageId: Option<int>, status: Option<string>)

  /** `parsed` is None when the body is not JSON, which throws. */
  datatype Request = Request(httpMethod: string, apiKey: Option<string>, parsed: Option<Body>)

  datatype Payload =
    | Text(text: string)
    | ErrorJson(error: string)
    | ServerError
    | UpdatedJson(row: HistoryRow)

  datatype Response = Response(code: int, payload: Payload, headers: map<string, string>)

  const Cors: map<string, string> := map[
    "Access-Control-Allow-Origin" := "*",
    "Access-Control-Allow-Headers" := "x-api-key, authorization, x-client-info, apikey, content-type"]

  const Json: map<string, string> := Cors["Content-Type" := "application/json"]

  const Unauthorized := "No autorizado."
  const MissingFields := "Faltan 'messageId' o 'status'."

  /** The key header must equal the configured secret; a header or a secret
      that is not there never matches anything, not even each other. */
  predicate Authorized(apiKey: Option<string>, secret: Option<string>)
  {
    apiKey.Some? && secret.Some? && apiKey.value == secret.value
  }

  /** `!messageId || !status` */
  predicate MissingField(b: Body)
  {
    b.messageId.None? || b.messageId == Some(0) || b.status.None? || b.status == Some("")
  }

  /** Serves one request against the chat-history table (keyed by id).
      `dbOk` is false when the update errs for any other reason than a
      missing row. */
  function Handle(req: Request, secret: Option<string>, table: map<int, HistoryRow>, dbOk: bool)
    : (r: (Response, map<int, HistoryRow>))
  {
    if req.httpMethod == "OPTIONS" then (Response(200, Text("ok"), Cors), table)
    else if !Authorized(req.apiKey, secret) then (Response(401, ErrorJson(Unauthorized), Json), table)
    else if req.parsed.None? then (Response(500, ServerError, Json), table)
    else if MissingField(req.parsed.value) then (Response(400, ErrorJson(MissingFields), Json), table)
    else
      var id, status := req.parsed.value.messageId.value, req.parsed.value.status.value;
      if !dbOk || id !in table then (Response(500, ServerError, Json), table)
      else
        var row := table[id].(status := Some(status));
        (Response(200, UpdatedJson(row), Json), table[id := row])
  }

  /** The classification: OPTIONS is answered before anything else; a wrong
      key is refused before the body is read; a missing field is refused
      before any write; a failed or empty update is a server error; only a
      successful update changes the table, and only the status of that row. */
  lemma HandleOutcomes(req: Request, secret: Option<string>, table: map<int, HistoryRow>, dbOk: bool)
    ensures var (resp, after) := Handle(req, secret, table, dbOk);
            && (req.httpMethod == "OPTIONS" ==> resp == Response(200, Text("ok"), Cors) && after == table)
            && (req.httpMethod != "OPTIONS" ==> resp.code in {200, 400, 401, 500} && resp.headers == Json)
            && (resp.code == 401 <==> req.httpMethod != "OPTIONS" && !Authorized(req.apiKey, secret))
            && (resp.code == 400 <==> && req.httpMethod != "OPTIONS" && Authorized(req.apiKey, secret)
                                      && req.parsed.Some? && MissingField(req.parsed.value))
            && (after != table ==> resp.code == 200)
            && (resp.code == 200 && req.httpMethod != "OPTIONS" <==>
                  && req.httpMethod != "OPTIONS" && Authorized(req.apiKey, secret) && req.parsed.Some? && !MissingField(req.parsed.value)
                  && dbOk && req.parsed.value.messageId.value in table)
  {
  }

  /** A successful update rewrites exactly the status of the row named, and
      answers with the row as it now is. */
  lemma HandleUpdatesOneStatus(req: Request, secret: Option<string>, table: map<int, HistoryRow>, dbOk: bool)
    requires req.httpMethod != "OPTIONS"
    requires Handle(req, secret, table, dbOk).0.code == 200
    ensures var (resp, after) := Handle(req, secret, table, dbOk);
            var id := req.parsed.value.messageId.value;
            && after.Keys == table.Keys
            && after[id] == table[id].(status := req.parsed.value.status)
            && (forall other :: other in table && other != id ==> after[other] == table[other])
            && resp.payload == UpdatedJson(after[id])
  {
  }

  /** Repeating a successful request changes nothing more and gets the same
      answer. */
  lemma HandleIdempotent(req: Request, secret: Option<string>, table: map<int, HistoryRow>, dbOk: bool)
    requires req.httpMethod != "OPTIONS"
    requires Handle(req, secret, table, dbOk).0.code == 200
    ensures var (resp, after) := Handle(req, secret, table, dbOk);
            Handle(req, secret, after, dbOk) == (resp, after)
  {
    var (resp, after) := Handle(req, secret, table, dbOk);
    var id := req.parsed.value.messageId.value;
    assert after[id].(status := req.parsed.value.status) == after[id];
    assert after[id := after[id]] == after;
  }

  /** Without a configured secret every request but OPTIONS is refused. */
  lemma UnsetSecretRefusesAll(req: Request, table: map<int, HistoryRow>, dbOk: bool)
    requires req.httpMethod != "OPTIONS"
    ensures Handle(req, None, table, dbOk).0.code == 401
    ensures Handle(req, None, table, dbOk).1 == table
  {
  }
}
