/** JSON-RPC messages as a session builds and reads them (JSON-RPC 2.0, sections 4, 4.1 and 5). */
module Messages {
  import opened Results
  import opened Json
  import opened Schemas

  /** What the code knows about a request from its type: its method, whether it has parameters,
      and whether it has an error type of its own. */
  datatype RequestKind = RequestKind(method_: string, hasParams: bool, hasError: bool)

  /** How a received response is decoded, by the types of the request it answers. */
  datatype Codec = Codec(
    accessors: Accessors,
    result: (string, Json) -> Option<Value>,
    error: (string, Json) -> Option<Value>)

  /** What a handler answers: one member, named `result` or `error`. */
  datatype Answer = ResultAnswer(value: Json) | ErrorAnswer(value: Json)

  /** What a promise is set with. */
  datatype Settlement = Resolved(value: Value) | Rejected(value: Value)

  // ---- Building ----

  function RequestMessage(id: int, kind: RequestKind, params: Json): Json {
    var base: map<string, Json> :=
      map["jsonrpc" := Str("2.0"), "id" := Num(I64(id)), "method" := Str(kind.method_)];
    Obj(if kind.hasParams then base["params" := params] else base)
  }

  function NotificationMessage(name: string, hasParams: bool, params: Json): Json {
    var base: map<string, Json> := map["jsonrpc" := Str("2.0"), "method" := Str(name)];
    Obj(if hasParams then base["params" := params] else base)
  }

  function ReplyMessage(id: int, answer: Answer): Json {
    var base: map<string, Json> := map["id" := Num(I64(id)), "jsonrpc" := Str("2.0")];
    Obj(match answer
        case ResultAnswer(v) => base["result" := v]
        case ErrorAnswer(v) => base["error" := v])
  }

  // ---- Reading ----

  function GetString(v: Json, name: string): Option<string> {
    if v.Obj? && name in v.members && v.members[name].Str? then Some(v.members[name].s) else None
  }

  function GetI64(accessors: Accessors, v: Json, name: string): Option<int> {
    if v.Obj? && name in v.members && v.members[name].Num? then accessors.i64(v.members[name].n) else None
  }

  function Has(v: Json, name: string): bool { v.Obj? && name in v.members }

  datatype Incoming =
    | Malformed
    | Response(id: int)
    | Request(id: int, name: string)
    | Notification(name: string)

  /** The kind of a received message; None is a message that is not JSON. A message without a
      method string counts as a response, one with a method and an id as a request. */
  function Classify(accessors: Accessors, message: Option<Json>): Incoming {
    match message
    case None => Malformed
    case Some(v) =>
      match (GetString(v, "method"), GetI64(accessors, v, "id"))
      case (None, None) => Malformed
      case (None, Some(id)) => Response(id)
      case (Some(name), Some(id)) => Request(id, name)
      case (Some(name), None) => if Has(v, "id") then Malformed else Notification(name)
  }

  /** What a response handler sets its promise with, or why it fails. A `result` member is
      looked for first, and then decides alone. */
  function Settle(codec: Codec, kind: RequestKind, response: Json): Result<Settlement> {
    if Has(response, "result") then
      match codec.result(kind.method_, response.members["result"])
      case Some(v) => Success(Resolved(v))
      case None => Failure("result does not decode")
    else if !kind.hasError then Failure("response missing 'result'")
    else if !Has(response, "error") then Failure("object has no field with name 'error'")
    else
      match codec.error(kind.method_, response.members["error"])
      case Some(v) => Success(Rejected(v))
      case None => Failure("error does not decode")
  }

  /** The parameters a handler finds in the message it is given. */
  function ParamsOf(v: Json): Option<Json> {
    if Has(v, "params") then Some(v.members["params"]) else None
  }

  // ---- What messages hold ----

  ghost predicate Holds(v: Json, name: string, w: Json) { v.Obj? && name in v.members && v.members[name] == w }

  /** A message with just these members besides `jsonrpc`, which says 2.0. */
  ghost predicate IsMessage(v: Json, names: set<string>) {
    Holds(v, "jsonrpc", Str("2.0")) && v.members.Keys == {"jsonrpc"} + names
  }

  /** A request object: an id, a method, and the parameters if there are any. */
  ghost predicate IsRequest(v: Json, id: int, method_: string, params: Option<Json>) {
    && IsMessage(v, if params.Some? then {"id", "method", "params"} else {"id", "method"})
    && Holds(v, "id", Num(I64(id))) && Holds(v, "method", Str(method_))
    && (params.Some? ==> Holds(v, "params", params.value))
  }

  /** A notification: a request object without an id. */
  ghost predicate IsNotification(v: Json, method_: string, params: Option<Json>) {
    && IsMessage(v, if params.Some? then {"method", "params"} else {"method"})
    && Holds(v, "method", Str(method_)) && (params.Some? ==> Holds(v, "params", params.value))
  }

  /** A response object: an id, and either a result or an error. */
  ghost predicate IsReply(v: Json, id: int, answer: Answer) {
    && IsMessage(v, if answer.ResultAnswer? then {"id", "result"} else {"id", "error"})
    && Holds(v, "id", Num(I64(id)))
    && Holds(v, if answer.ResultAnswer? then "result" else "error", answer.value)
  }

  /** The parameters that a message of this kind carries. */
  function Carried(hasParams: bool, params: Json): Option<Json> { if hasParams then Some(params) else None }

  /** The messages that are built are the ones that hold what they were built from, and nothing else. */
  lemma RequestHolds(id: int, kind: RequestKind, params: Json, v: Json)
    ensures v == RequestMessage(id, kind, params) <==> IsRequest(v, id, kind.method_, Carried(kind.hasParams, params))
  {
    if IsRequest(v, id, kind.method_, Carried(kind.hasParams, params)) {
      assert v.members == RequestMessage(id, kind, params).members;
    }
  }

  lemma NotificationHolds(name: string, hasParams: bool, params: Json, v: Json)
    ensures v == NotificationMessage(name, hasParams, params) <==> IsNotification(v, name, Carried(hasParams, params))
  {
    if IsNotification(v, name, Carried(hasParams, params)) {
      assert v.members == NotificationMessage(name, hasParams, params).members;
    }
  }

  lemma ReplyHolds(id: int, answer: Answer, v: Json)
    ensures v == ReplyMessage(id, answer) <==> IsReply(v, id, answer)
  {
    if IsReply(v, id, answer) {
      assert v.members == ReplyMessage(id, answer).members;
    }
  }

  // ---- What a message is taken for ----

  ghost predicate HoldsId(accessors: Accessors, v: Json, id: int) {
    exists n :: Holds(v, "id", Num(n)) && accessors.i64(n) == Some(id)
  }

  lemma HoldsIdIff(accessors: Accessors, v: Json, id: int)
    ensures HoldsId(accessors, v, id) <==> GetI64(accessors, v, "id") == Some(id)
  {
    if v.Obj? && "id" in v.members && v.members["id"].Num? {
      assert Holds(v, "id", Num(v.members["id"].n));
    }
  }

  /** A message with a method is a request if it holds an id, and a notification if it has no member of
      that name; one without a method is a response if it holds an id; anything else is nothing. */
  lemma ClassifyIff(accessors: Accessors, v: Json, id: int, name: string)
    ensures Classify(accessors, Some(v)) == Request(id, name) <==>
            Holds(v, "method", Str(name)) && HoldsId(accessors, v, id)
    ensures Classify(accessors, Some(v)) == Response(id) <==>
            (forall s :: !Holds(v, "method", Str(s))) && HoldsId(accessors, v, id)
    ensures Classify(accessors, Some(v)) == Notification(name) <==>
            Holds(v, "method", Str(name)) && forall w :: !Holds(v, "id", w)
  {
    HoldsIdIff(accessors, v, id);
    if v.Obj? && "method" in v.members && v.members["method"].Str? {
      assert Holds(v, "method", Str(v.members["method"].s));
    }
    if v.Obj? && "id" in v.members {
      assert Holds(v, "id", v.members["id"]);
    }
  }

  /** A response settles its request with its result, if it has one that decodes; and with its error
      only if it has no result, and requests of this kind have errors. */
  lemma SettleIff(codec: Codec, kind: RequestKind, response: Json, s: Settlement)
    ensures Settle(codec, kind, response) == Success(s) <==>
            || (exists r ::
                 Holds(response, "result", r) && s.Resolved? && codec.result(kind.method_, r) == Some(s.value))
            || ((forall r :: !Holds(response, "result", r)) && kind.hasError && s.Rejected? &&
                exists e :: Holds(response, "error", e) && codec.error(kind.method_, e) == Some(s.value))
  {
    if Has(response, "result") {
      assert Holds(response, "result", response.members["result"]);
    } else if Has(response, "error") {
      assert Holds(response, "error", response.members["error"]);
    }
  }

  // ---- What is built is read back ----

  /** Each built message is classified as what it is, with its own id and method. */
  lemma BuiltIsClassified(accessors: Accessors, id: int, kind: RequestKind, name: string, has: bool,
                          params: Json, answer: Answer)
    requires accessors.Lawful() && IsI64(id)
    ensures Classify(accessors, Some(RequestMessage(id, kind, params))) == Request(id, kind.method_)
    ensures Classify(accessors, Some(NotificationMessage(name, has, params))) == Notification(name)
    ensures Classify(accessors, Some(ReplyMessage(id, answer))) == Response(id)
  {
    assert accessors.i64(I64(id)) == Some(id);
  }

  /** A reply settles its promise with what its own answer decodes to, and an error answer to a
      request without an error type settles nothing. */
  lemma ReplySettles(codec: Codec, kind: RequestKind, id: int, answer: Answer, s: Settlement)
    ensures Settle(codec, kind, ReplyMessage(id, answer)) == Success(s) <==>
            match answer
            case ResultAnswer(v) => s.Resolved? && codec.result(kind.method_, v) == Some(s.value)
            case ErrorAnswer(v) => kind.hasError && s.Rejected? && codec.error(kind.method_, v) == Some(s.value)
  {
  }
}
