/** The response envelope every endpoint uses: `{success, message, data?,
    errors?}` together with an HTTP status code. */
module BaseController {
  import opened Php
  import opened Json

  const HTTP_OK: int := 200
  const HTTP_CREATED: int := 201
  const HTTP_NO_CONTENT: int := 204
  const HTTP_BAD_REQUEST: int := 400
  const HTTP_UNAUTHORIZED: int := 401
  const HTTP_FORBIDDEN: int := 403
  const HTTP_NOT_FOUND: int := 404
  const HTTP_UNPROCESSABLE_ENTITY: int := 422

  /** Translation key used by `sendCreated` when no message is given. */
  const RESOURCE_CREATED: string := "messages.resource_created"

  datatype Body = JsonBody(json: Json) | TextBody(text: string)

  datatype Response = Response(status: int, body: Body)

  /** The top-level entry `key` of a JSON response. */
  function Field(r: Response, key: string): Option<Json> {
    if r.body.JsonBody? then Get(r.body.json, key) else None
  }

  /** The top-level keys of a JSON response, in order. */
  function TopKeys(r: Response): seq<string> {
    if r.body.JsonBody? then KeysOf(r.body.json) else []
  }

  predicate Succeeded(r: Response) {
    Field(r, "success") == Some(JBool(true))
  }

  predicate Failed(r: Response) {
    Field(r, "success") == Some(JBool(false))
  }

  /** The invariant every envelope keeps: a JSON object whose first two keys
      are a boolean `success` and a string `message`. */
  predicate Enveloped(r: Response) {
    && r.body.JsonBody?
    && |TopKeys(r)| >= 2 && TopKeys(r)[..2] == ["success", "message"]
    && Field(r, "success").Some? && Field(r, "success").value.JBool?
    && Field(r, "message").Some? && Field(r, "message").value.JStr?
  }

  function Message(r: Response): string {
    if Field(r, "message").Some? && Field(r, "message").value.JStr? then Field(r, "message").value.s else ""
  }

  /** The `data` object of a response, or an empty field list. */
  function Data(r: Response): seq<(string, Json)> {
    if Field(r, "data").Some? && Field(r, "data").value.JObj? then Field(r, "data").value.fields else []
  }

  function SendData(data: seq<(string, Json)>, message: string := "", code: int := HTTP_OK): (r: Response)
    ensures r.status == code
    ensures Enveloped(r) && Succeeded(r) && Message(r) == message
    ensures TopKeys(r) == ["success", "message", "data"]
    ensures Field(r, "data") == Some(JObj(data)) && Data(r) == data
  {
    Response(code, JsonBody(JObj([("success", JBool(true)), ("message", JStr(message)), ("data", JObj(data))])))
  }

  function SendSuccess(message: string, code: int := HTTP_OK): (r: Response)
    ensures r.status == code
    ensures Enveloped(r) && Succeeded(r) && Message(r) == message
    ensures TopKeys(r) == ["success", "message"]
    ensures Field(r, "data").None?
  {
    Response(code, JsonBody(JObj([("success", JBool(true)), ("message", JStr(message))])))
  }

  /** The response `sendError` returns. */
  function ErrorEnvelope(error: string, code: int, errors: seq<(string, Json)>): (r: Response)
    ensures r.status == code
    ensures Enveloped(r) && Failed(r) && Message(r) == error
    ensures Field(r, "errors").Some? <==> errors != []
    ensures errors != [] ==> Field(r, "errors") == Some(JObj(errors))
    ensures TopKeys(r) == if errors == [] then ["success", "message"] else ["success", "message", "errors"]
  {
    var base := [("success", JBool(false)), ("message", JStr(error))];
    var full := base + [("errors", JObj(errors))];
    assert Keys(base) == ["success", "message"];
    assert Keys(full) == ["success", "message", "errors"];
    Response(code, JsonBody(JObj(if errors == [] then base else full)))
  }

  /** `sendError`: build the array, then add `errors` only when some are given. */
  method SendError(error: string, code: int := HTTP_BAD_REQUEST, errors: seq<(string, Json)> := []) returns (r: Response)
    ensures r == ErrorEnvelope(error, code, errors)
    ensures r.status == code && Failed(r) && Message(r) == error
    ensures Field(r, "errors").Some? <==> errors != []
  {
    var response := [("success", JBool(false)), ("message", JStr(error))];
    if errors != [] {
      response := response + [("errors", JObj(errors))];
    }
    r := Response(code, JsonBody(JObj(response)));
  }

  function SendNotFound(error: string := "Resource not found."): (r: Response)
    ensures r.status == HTTP_NOT_FOUND
    ensures Enveloped(r) && Failed(r) && Message(r) == error
    ensures TopKeys(r) == ["success", "message"]
  {
    ErrorEnvelope(error, HTTP_NOT_FOUND, [])
  }

  function SendForbidden(error: string := "You do not have permission to access this resource."): (r: Response)
    ensures r.status == HTTP_FORBIDDEN
    ensures Enveloped(r) && Failed(r) && Message(r) == error
    ensures TopKeys(r) == ["success", "message"]
  {
    ErrorEnvelope(error, HTTP_FORBIDDEN, [])
  }

  function SendUnauthenticated(error: string := "Authentication required."): (r: Response)
    ensures r.status == HTTP_UNAUTHORIZED
    ensures Enveloped(r) && Failed(r) && Message(r) == error
    ensures TopKeys(r) == ["success", "message"]
  {
    ErrorEnvelope(error, HTTP_UNAUTHORIZED, [])
  }

  function SendValidationError(message: string, errors: seq<(string, Json)>): (r: Response)
    ensures r.status == HTTP_UNPROCESSABLE_ENTITY
    ensures Enveloped(r) && Failed(r) && Message(r) == message
    ensures errors != [] ==> Field(r, "errors") == Some(JObj(errors))
    ensures errors == [] ==> Field(r, "errors").None?
  {
    ErrorEnvelope(message, HTTP_UNPROCESSABLE_ENTITY, errors)
  }

  /** `sendCreated`: an `empty()` message ("" or "0") is replaced by the
      `messages.resource_created` text. */
  function SendCreated(message: string := "", code: int := HTTP_CREATED): (r: Response)
    ensures r.status == code
    ensures Enveloped(r) && Succeeded(r)
    ensures Message(r) == if message == "" || message == "0" then RESOURCE_CREATED else message
    ensures TopKeys(r) == ["success", "message"]
  {
    SendSuccess(if EmptyString(message) then RESOURCE_CREATED else message, code)
  }

  function SendNoContent(): (r: Response)
    ensures r.status == HTTP_NO_CONTENT && r.body == TextBody("")
    ensures TopKeys(r) == []
  {
    Response(HTTP_NO_CONTENT, TextBody(""))
  }

  /** The defaults of the builders, as the unit tests pin them down. */
  lemma Defaults(data: seq<(string, Json)>, message: string)
    ensures SendData(data).status == HTTP_OK && Message(SendData(data)) == ""
    ensures SendSuccess(message).status == HTTP_OK
    ensures SendCreated().status == HTTP_CREATED && Message(SendCreated()) == RESOURCE_CREATED
    ensures Message(SendNotFound()) == "Resource not found."
    ensures Message(SendUnauthenticated()) == "Authentication required."
    ensures Message(SendForbidden()) == "You do not have permission to access this resource."
  {
  }
}
