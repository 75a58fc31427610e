/** JavaScript values, as far as sending them as JSON can tell them apart. */
module JsonValues {
  import opened Options

  datatype Value =
    | Undefined
    | Null
    | Bool(flag: bool)
    | Num(number: int)
    | NotFinite
    | Str(text: string)
    | Arr(items: seq<Value>)
    | Obj(fields: map<string, Value>)
    | Exception(message: string, extra: map<string, Value>)
    | Function
    | Unserialisable

  /** Whether JSON.stringify accepts the value; it throws on cycles and big integers. */
  predicate Serialisable(v: Value) {
    match v
    case Arr(items) => forall i | 0 <= i < |items| :: Serialisable(items[i])
    case Obj(fields) => forall k | k in fields :: Serialisable(fields[k])
    case Exception(_, extra) => forall k | k in extra :: Serialisable(extra[k])
    case Unserialisable => false
    case _ => true
  }

  /** What JSON.parse reads from the text of the value; undefined stands for no text at all. */
  function Wire(v: Value): Value {
    match v
    case Arr(items) => Arr(seq(|items|, i requires 0 <= i < |items| =>
        if Wire(items[i]).Undefined? then Null else Wire(items[i])))
    case Obj(fields) => Obj(map k | k in fields && Wire(fields[k]) != Undefined :: Wire(fields[k]))
    case Exception(_, extra) => Obj(map k | k in extra && Wire(extra[k]) != Undefined :: Wire(extra[k]))
    case NotFinite => Null
    case Function => Undefined
    case Unserialisable => Undefined
    case _ => v
  }

  /** The values that a JSON text can denote. */
  predicate IsJson(v: Value) {
    match v
    case Null => true
    case Bool(_) => true
    case Num(_) => true
    case Str(_) => true
    case Arr(items) => forall i | 0 <= i < |items| :: IsJson(items[i])
    case Obj(fields) => forall k | k in fields :: IsJson(fields[k])
    case _ => false
  }

  predicate IsDefined(v: Value) {
    !v.Undefined?
  }

  /** Exactly the JSON values, and undefined, arrive as they were sent. */
  lemma {:induction false} SurvivesExactly(v: Value)
    ensures Serialisable(v) && Wire(v) == v <==> IsJson(v) || v.Undefined?
  {
    match v
    case Arr(items) =>
      forall i | 0 <= i < |items|
        ensures Serialisable(items[i]) && Wire(items[i]) == items[i] <==> IsJson(items[i]) || items[i].Undefined?
        ensures IsJson(items[i]) ==> IsDefined(items[i])
      {
        SurvivesExactly(items[i]);
      }
      if IsJson(v) {
        assert forall i | 0 <= i < |items| :: IsJson(items[i]) && IsDefined(items[i]);
      }
      if Serialisable(v) && Wire(v) == v {
        forall i | 0 <= i < |items| ensures IsJson(items[i]) {
          assert items[i] == Wire(v).items[i];
        }
      }
    case Obj(fields) =>
      forall k | k in fields
        ensures Serialisable(fields[k]) && Wire(fields[k]) == fields[k] <==> IsJson(fields[k]) || fields[k].Undefined?
        ensures IsJson(fields[k]) ==> IsDefined(fields[k])
      {
        SurvivesExactly(fields[k]);
      }
      if IsJson(v) {
        assert forall k | k in fields :: IsJson(fields[k]) && IsDefined(fields[k]);
      }
      if Serialisable(v) && Wire(v) == v {
        forall k | k in fields ensures IsJson(fields[k]) {
          assert k in Wire(v).fields && fields[k] == Wire(v).fields[k];
        }
      }
    case _ =>
  }

  lemma {:induction false} WireIsJson(v: Value)
    ensures Wire(v).Undefined? || IsJson(Wire(v))
  {
    match v
    case Arr(items) =>
      forall i | 0 <= i < |items| ensures IsJson(Wire(v).items[i]) {
        WireIsJson(items[i]);
      }
    case Obj(fields) =>
      forall k | k in Wire(v).fields ensures IsJson(Wire(v).fields[k]) {
        WireIsJson(fields[k]);
      }
    case Exception(_, extra) =>
      forall k | k in Wire(v).fields ensures IsJson(Wire(v).fields[k]) {
        WireIsJson(extra[k]);
      }
    case _ =>
  }

  /** A place inside a value. */
  datatype Step = Item(index: nat) | Field(name: string)

  /** What is at a place that JSON.stringify visits: the message of an exception is not visited. */
  function At(v: Value, path: seq<Step>): Option<Value>
    decreases |path|
  {
    if path == [] then Some(v)
    else
      match (v, path[0])
      case (Arr(items), Item(i)) => if i < |items| then At(items[i], path[1..]) else None
      case (Obj(fields), Field(name)) => if name in fields then At(fields[name], path[1..]) else None
      case (Exception(_, extra), Field(name)) => if name in extra then At(extra[name], path[1..]) else None
      case _ => None
  }

  lemma {:induction false} UnsendableInside(v: Value, path: seq<Step>)
    requires Serialisable(v)
    ensures At(v, path) != Some(Unserialisable)
    decreases |path|
  {
    if path != [] {
      match (v, path[0])
      case (Arr(items), Item(i)) => if i < |items| { UnsendableInside(items[i], path[1..]); }
      case (Obj(fields), Field(name)) => if name in fields { UnsendableInside(fields[name], path[1..]); }
      case (Exception(_, extra), Field(name)) => if name in extra { UnsendableInside(extra[name], path[1..]); }
      case _ =>
    }
  }

  lemma {:induction false} UnsendablePlace(v: Value) returns (path: seq<Step>)
    requires !Serialisable(v)
    ensures At(v, path) == Some(Unserialisable)
  {
    match v
    case Unserialisable => path := [];
    case Arr(items) =>
      var i :| 0 <= i < |items| && !Serialisable(items[i]);
      var rest := UnsendablePlace(items[i]);
      path := [Item(i)] + rest;
    case Obj(fields) =>
      var k :| k in fields && !Serialisable(fields[k]);
      var rest := UnsendablePlace(fields[k]);
      path := [Field(k)] + rest;
    case Exception(_, extra) =>
      var k :| k in extra && !Serialisable(extra[k]);
      var rest := UnsendablePlace(extra[k]);
      path := [Field(k)] + rest;
  }

  /** Exactly the values with no cycle and no big integer anywhere in them can be sent. */
  lemma SendableExactly(v: Value)
    ensures Serialisable(v) <==> forall path :: At(v, path) != Some(Unserialisable)
  {
    if Serialisable(v) {
      forall path ensures At(v, path) != Some(Unserialisable) {
        UnsendableInside(v, path);
      }
    } else {
      var path := UnsendablePlace(v);
    }
  }

  /** What becomes of the values that are not JSON: undefined and functions vanish from an object and are null in an
      array, numbers that are not finite are null everywhere, and an exception is an object without its message. */
  lemma LostExactly(v: Value)
    requires Serialisable(v)
    ensures Wire(v) == Undefined <==> v == Undefined || v == Function
    ensures Wire(v) == Null <==> v == Null || v == NotFinite
    ensures v.Arr? ==> Wire(v).Arr? && |Wire(v).items| == |v.items| && forall i | 0 <= i < |v.items| ::
      Wire(v).items[i] == if v.items[i] == Undefined || v.items[i] == Function then Null else Wire(v.items[i])
    ensures v.Obj? || v.Exception? ==>
      var fields := if v.Obj? then v.fields else v.extra;
      && Wire(v).Obj?
      && (forall k :: k in Wire(v).fields <==> k in fields && fields[k] != Undefined && fields[k] != Function)
      && (forall k | k in Wire(v).fields :: Wire(v).fields[k] == Wire(fields[k]))
  {}

  /** Reading a property; null and undefined have none, and asking for one throws. */
  function Property(v: Value, name: string): Value
    requires !v.Null? && !v.Undefined?
  {
    match v
    case Obj(fields) => if name in fields then fields[name] else Undefined
    case Exception(message, extra) =>
      if name in extra then extra[name] else if name == "message" then Str(message) else Undefined
    case _ => Undefined
  }

  predicate Truthy(v: Value) {
    match v
    case Undefined => false
    case Null => false
    case Bool(b) => b
    case Num(n) => n != 0
    case NotFinite => true
    case Str(s) => s != ""
    case _ => true
  }
}

/** The JSON-RPC layer over the calls (components/nxpod-messagebus/src/jsonrpc-server.ts and
    jsonrpc-client.ts; the JSON-RPC 2.0 specification). */
module JsonRpc {
  import opened JsonValues
  import opened Options
  import opened Rpc

  /** The content of a request message: a JSON value, or text that is not JSON. */
  datatype Content = Malformed | Parsed(request: Value)

  /** How a call of a delegate's method ends. */
  datatype Outcome = Returns(value: Value) | Throws(error: Value)

  /** The object that answers the calls: which keys it has, and how calling `delegate[method](...params)` may end. */
  datatype Delegate = Delegate(has: Value -> bool, run: (Value, Value, Outcome) -> bool)

  datatype ErrorObject = ErrorObject(code: int, message: Value, data: Value)

  /** A response; an undefined id or result is an absent member. */
  datatype Response = Response(id: Value, result: Value, error: Option<ErrorObject>)

  const PARSE_ERROR := -32700
  const INTERNAL_ERROR := -32603
  const METHOD_NOT_FOUND := -32601

  // ---- The server ----

  function BuildResponse(result: Value, error: Option<ErrorObject>, req: Option<Value>): Response {
    Response(if req.Some? && Truthy(req.value) then Property(req.value, "id") else Null, result, error)
  }

  function BuildError(code: int, message: string, req: Option<Value>): Response {
    BuildResponse(Undefined, Some(ErrorObject(code, Str(message), Undefined)), req)
  }

  datatype Handled = Built(response: Response) | Thrown

  /** One request, for a delegate whose call ends in `o`. */
  function HandleRequest(delegate: Delegate, req: Value, o: Outcome): Handled {
    if req.Null? || req.Undefined? then Thrown
    else if delegate.has(Property(req, "method")) then
      match o
      case Returns(v) => Built(BuildResponse(v, None, Some(req)))
      case Throws(e) =>
        if e.Null? || e.Undefined? then Thrown
        else Built(BuildResponse(Undefined, Some(ErrorObject(0, Property(e, "message"), e)), Some(req)))
    else Built(BuildError(METHOD_NOT_FOUND, "Method not found", Some(req)))
  }

  predicate SerialisableResponse(r: Response) {
    Serialisable(r.id) && Serialisable(r.result)
    && (r.error.Some? ==> Serialisable(r.error.value.message) && Serialisable(r.error.value.data))
  }

  /** The response that the client's JSON.parse reads. */
  function WireResponse(r: Response): Response {
    Response(Wire(r.id), Wire(r.result),
      if r.error.None? then None
      else Some(ErrorObject(r.error.value.code, Wire(r.error.value.message), Wire(r.error.value.data))))
  }

  /** The response that is published for a message. */
  function Answer(delegate: Delegate, content: Content, o: Outcome): Response {
    match content
    case Malformed => BuildError(PARSE_ERROR, "Parse error", None)
    case Parsed(req) =>
      match HandleRequest(delegate, req, o)
      case Thrown => BuildError(INTERNAL_ERROR, "Internal error", Some(req))
      case Built(r) => if SerialisableResponse(r) then r else BuildError(INTERNAL_ERROR, "Internal error", Some(req))
  }

  /** Whether the server calls its delegate for this message. */
  predicate CallsDelegate(delegate: Delegate, content: Content) {
    content.Parsed? && !content.request.Null? && !content.request.Undefined?
    && delegate.has(Property(content.request, "method"))
  }

  /** The responses a message may get: those of the ways the call it makes may end. */
  ghost predicate Answers(delegate: Delegate, content: Content, response: Response) {
    if CallsDelegate(delegate, content) then
      exists o :: delegate.run(Property(content.request, "method"), Property(content.request, "params"), o)
        && response == WireResponse(Answer(delegate, content, o))
    else response == WireResponse(Answer(delegate, content, Returns(Undefined)))
  }

  /** A parsed id can always be sent back unchanged. */
  lemma IdComesBack(delegate: Delegate, content: Content, o: Outcome)
    requires content.Parsed? ==> IsJson(content.request)
    ensures SerialisableResponse(Answer(delegate, content, o))
    ensures WireResponse(Answer(delegate, content, o)).id
         == if content.Parsed? && content.request !in [Null, Undefined, Bool(false), Num(0), Str("")]
            then Property(content.request, "id") else Null
  {
    hide SerialisableResponse, WireResponse, IsJson;
    var req := if content.Malformed? then None else Some(content.request);
    ErrorIsSent(PARSE_ERROR, "Parse error", None);
    ErrorIsSent(INTERNAL_ERROR, "Internal error", req);
    ErrorIsSent(METHOD_NOT_FOUND, "Method not found", req);
    if content.Parsed? && HandleRequest(delegate, content.request, o).Built? {
      var r := HandleRequest(delegate, content.request, o).response;
      BuiltIsSent(r.result, r.error, req);
    }
  }

  lemma BuiltIsSent(result: Value, error: Option<ErrorObject>, req: Option<Value>)
    requires req.Some? ==> IsJson(req.value)
    ensures WireResponse(BuildResponse(result, error, req)).id == BuildResponse(result, error, req).id
  {
    if req.Some? && Truthy(req.value) {
      IdSurvives(req.value);
    }
  }

  lemma ErrorIsSent(code: int, message: string, req: Option<Value>)
    requires req.Some? ==> IsJson(req.value)
    ensures SerialisableResponse(BuildError(code, message, req))
    ensures WireResponse(BuildError(code, message, req)).id == BuildError(code, message, req).id
  {
    if req.Some? && Truthy(req.value) {
      IdSurvives(req.value);
    }
  }

  lemma IdSurvives(req: Value)
    requires IsJson(req) && Truthy(req)
    ensures Serialisable(Property(req, "id")) && Wire(Property(req, "id")) == Property(req, "id")
  {
    SurvivesExactly(Property(req, "id"));
  }

  /** The answer, case by case. */
  lemma AnswerCases(delegate: Delegate, content: Content, o: Outcome)
    requires content.Parsed? ==> IsJson(content.request)
    ensures Answer(delegate, content, o)
         == if content.Malformed? then BuildError(PARSE_ERROR, "Parse error", None)
            else
              var req := Some(content.request);
              var internal := BuildError(INTERNAL_ERROR, "Internal error", req);
              if content.request.Null? then internal
              else if !CallsDelegate(delegate, content) then BuildError(METHOD_NOT_FOUND, "Method not found", req)
              else
                match o
                case Returns(v) => if Serialisable(v) then BuildResponse(v, None, req) else internal
                case Throws(e) =>
                  if e.Null? || e.Undefined? || !Serialisable(e) then internal
                  else BuildResponse(Undefined, Some(ErrorObject(0, Property(e, "message"), e)), req)
  {
    if content.Parsed? {
      if Truthy(content.request) {
        IdSurvives(content.request);
      }
      if o.Throws? && !o.error.Null? && !o.error.Undefined? && Serialisable(o.error) {
        MessageSurvives(o.error);
      }
    }
  }

  /** Sections 5 and 5.1 of the JSON-RPC 2.0 specification: never both members, and the error codes by case. Two of
      their demands are not met: there is neither member exactly when the result has no JSON text, and the error
      message is no string exactly when what was thrown has none. */
  lemma ResponseIsWellFormed(delegate: Delegate, content: Content, o: Outcome)
    requires content.Parsed? ==> IsJson(content.request)
    ensures var r := WireResponse(Answer(delegate, content, o));
      && !(r.error.Some? && !r.result.Undefined?)
      && (content.Malformed? <==> r.error.Some? && r.error.value.code == -32700)
      && (content.Parsed? && !content.request.Null? && !CallsDelegate(delegate, content)
          <==> r.error.Some? && r.error.value.code == -32601)
      && (r.error.Some? ==>
            || r.error.value in {
                 ErrorObject(-32700, Str("Parse error"), Undefined),
                 ErrorObject(-32601, Str("Method not found"), Undefined),
                 ErrorObject(-32603, Str("Internal error"), Undefined)}
            || r.error.value.code == 0)
      && (r.error.Some? && r.error.value.code == 0
          <==> && CallsDelegate(delegate, content) && o.Throws? && !o.error.Null? && !o.error.Undefined?
               && Serialisable(o.error))
      && (r.error.None? && r.result.Undefined?
          <==> CallsDelegate(delegate, content) && o.Returns? && Serialisable(o.value) && Wire(o.value) == Undefined)
      && (r.error.Some? && !r.error.value.message.Str?
          <==> && CallsDelegate(delegate, content) && o.Throws? && !o.error.Null? && !o.error.Undefined?
               && Serialisable(o.error) && !Property(o.error, "message").Str?)
  {
    hide Answer, Serialisable, IsJson;
    AnswerCases(delegate, content, o);
    if o.Throws? && !o.error.Null? && !o.error.Undefined? && Serialisable(o.error) {
      MessageSurvives(o.error);
    }
  }

  /** The handler: whatever the message and however the call ends, it publishes one response. */
  class JsonRpcServer {
    const delegate: Delegate
    const channel: Channel<Content, Response>

    constructor (delegate: Delegate, channel: Channel<Content, Response>)
      ensures this.delegate == delegate && this.channel == channel
    {
      this.delegate, this.channel := delegate, channel;
    }

    method DoHandle(msg: Message<Content>, o: Outcome, ghost i: nat)
      requires channel.Valid() && i < |channel.handling| && channel.handling[i] == msg
      requires msg.content.Parsed? ==> IsJson(msg.content.request)
      modifies channel`handling, channel`replies
      ensures channel.Valid()
      ensures channel.State() == Next(old(channel.State()), Finish(i, WireResponse(Answer(delegate, msg.content, o))))
    {
      IdComesBack(delegate, msg.content, o);
      if msg.content.Malformed? {
        var _ := Reply(BuildError(PARSE_ERROR, "Parse error", None), msg, i);
        return;
      }
      var req := msg.content.request;
      var handled := HandleRequest(delegate, req, o);
      var sent := false;
      if handled.Built? {
        sent := Reply(handled.response, msg, i);
      }
      if !sent {
        var _ := Reply(BuildError(INTERNAL_ERROR, "Internal error", Some(req)), msg, i);
      }
    }

    /** Publishes a response; false stands for the error of serialising it. */
    method Reply(resp: Response, msg: Message<Content>, ghost i: nat) returns (ok: bool)
      requires channel.Valid() && i < |channel.handling| && channel.handling[i] == msg
      modifies channel`handling, channel`replies
      ensures channel.Valid() && ok == SerialisableResponse(resp)
      ensures channel.State()
           == if ok then Next(old(channel.State()), Finish(i, WireResponse(resp))) else old(channel.State())
    {
      ok := SerialisableResponse(resp);
      if ok {
        channel.handling := Without(channel.handling, i);
        channel.replies := channel.replies + [Message(msg.id, WireResponse(resp))];
      }
    }
  }

  // ---- The client ----

  /** The message of an error object: the constructor turns a value that is no string into text. */
  datatype ErrorMessage = Text(text: string) | TextOf(value: Value)

  /** What the caller of a proxied method gets. */
  datatype CallResult = Returned(value: Value) | RemoteError(code: int, data: Value, message: ErrorMessage)

  /** What `super(message)` makes of its argument; without one, the message is empty. */
  function MessageOf(message: Value): ErrorMessage {
    match message
    case Undefined => Text("")
    case Str(s) => Text(s)
    case _ => TextOf(message)
  }

  function RequestFor(name: string, args: seq<Value>, id: string): Value {
    Obj(map["jsonrpc" := Str("2.0"), "method" := Str(name), "id" := Str(id), "params" := Arr(args)])
  }

  function ResultOf(r: Response): CallResult {
    if r.error.Some? then RemoteError(r.error.value.code, r.error.value.data, MessageOf(r.error.value.message))
    else Returned(r.result)
  }

  /** The outcome of the direct call, as the wire lets the caller see it. */
  function Seen(o: Outcome): CallResult {
    match o
    case Returns(v) =>
      if Serialisable(v) then Returned(Wire(v)) else RemoteError(INTERNAL_ERROR, Undefined, Text("Internal error"))
    case Throws(e) =>
      if !e.Null? && !e.Undefined? && Serialisable(e) && Serialisable(Property(e, "message"))
      then RemoteError(0, Wire(e), MessageOf(Wire(Property(e, "message"))))
      else RemoteError(INTERNAL_ERROR, Undefined, Text("Internal error"))
  }

  /** The request that arrives asks for the method, the parameters and the id that were sent. */
  lemma RequestArrives(name: string, args: seq<Value>, id: string)
    ensures var req := Wire(RequestFor(name, args, id));
      && IsJson(req) && req.Obj?
      && req.fields.Keys == {"jsonrpc", "method", "id", "params"}
      && Property(req, "jsonrpc") == Str("2.0")
      && Property(req, "method") == Str(name)
      && Property(req, "params") == Wire(Arr(args))
      && Property(req, "id") == Str(id)
  {
    hide Wire, IsJson;
    WireIsJson(RequestFor(name, args, id));
    KeysDiffer();
    FourFields("jsonrpc", "method", "id", "params", Str("2.0"), Str(name), Str(id), Arr(args));
  }

  lemma FourFields(j: string, m: string, i: string, p: string, version: Value, name: Value, id: Value, args: Value)
    requires j != m && j != i && j != p && m != i && m != p && i != p
    requires version.Str? && name.Str? && id.Str? && args.Arr?
    ensures Wire(Obj(map[j := version, m := name, i := id, p := args]))
         == Obj(map[j := version, m := name, i := id, p := Wire(args)])
  {
    var sent := map[j := version, m := name, i := id, p := args];
    forall k | k in sent ensures Wire(sent[k]) == if k == p then Wire(args) else sent[k] {}
  }

  lemma KeysDiffer()
    ensures "jsonrpc" != "method" && "jsonrpc" != "id" && "jsonrpc" != "params"
    ensures "method" != "id" && "method" != "params" && "id" != "params"
  {
    assert |"jsonrpc"| == 7 && |"method"| == 6 == |"params"| && |"id"| == 2;
    assert "method"[0] != "params"[0];
  }

  /** What the client makes of the answer is the outcome of the call that the server made. */
  lemma AnswerIsSeen(delegate: Delegate, req: Value, o: Outcome)
    requires IsJson(req) && Truthy(req)
    ensures ResultOf(WireResponse(Answer(delegate, Parsed(req), o)))
         == if CallsDelegate(delegate, Parsed(req)) then Seen(o)
            else RemoteError(METHOD_NOT_FOUND, Undefined, Text("Method not found"))
  {
    hide Answer, CallsDelegate, Serialisable, IsJson;
    AnswerCases(delegate, Parsed(req), o);
    if o.Throws? && !o.error.Null? && !o.error.Undefined? && Serialisable(o.error) {
      MessageSurvives(o.error);
    }
  }

  /** A proxied call ends as the direct call on the received parameters ends, seen through the wire; without
      such a method it raises -32601; and the response carries the id of the request. */
  lemma ProxiedCall(delegate: Delegate, name: string, args: seq<Value>, id: string, response: Response)
    requires Answers(delegate, Parsed(Wire(RequestFor(name, args, id))), response)
    ensures response.id == Str(id)
    ensures if delegate.has(Str(name))
            then exists o :: delegate.run(Str(name), Wire(Arr(args)), o) && ResultOf(response) == Seen(o)
            else ResultOf(response) == RemoteError(-32601, Undefined, Text("Method not found"))
  {
    hide Wire, IsJson, RequestFor, Answer, WireResponse, ResultOf, Seen;
    RequestArrives(name, args, id);
    var req := Wire(RequestFor(name, args, id));
    var o := Returns(Undefined);
    if CallsDelegate(delegate, Parsed(req)) {
      o :| delegate.run(Property(req, "method"), Property(req, "params"), o)
        && response == WireResponse(Answer(delegate, Parsed(req), o));
    }
    AnswerIsSeen(delegate, req, o);
    IdComesBack(delegate, Parsed(req), o);
  }

  /** The proxy returns exactly what the method returns, if and only if that is a JSON value or undefined. */
  lemma ReturnsExactly(v: Value)
    ensures Seen(Returns(v)) == Returned(v) <==> IsJson(v) || v.Undefined?
  {
    SurvivesExactly(v);
  }

  /** A thrown value arrives with code 0 if and only if it is not null or undefined and can be sent, and then
      keeps its message if and only if that is a string. */
  lemma ThrowsExactly(e: Value)
    ensures Seen(Throws(e)).RemoteError?
    ensures Seen(Throws(e)).code == 0 <==> !e.Null? && !e.Undefined? && Serialisable(e)
    ensures Seen(Throws(e)).code != 0 ==> Seen(Throws(e)) == RemoteError(-32603, Undefined, Text("Internal error"))
    ensures Seen(Throws(e)).code == 0 ==> Seen(Throws(e)).data == Wire(e)
    ensures Seen(Throws(e)).code == 0 ==>
      (forall s :: Property(e, "message") == Str(s) ==> Seen(Throws(e)).message == Text(s))
      && (e.Exception? && "message" !in e.extra ==> Seen(Throws(e)).message == Text(e.message))
      && (e.Exception? && "message" in e.extra && e.extra["message"].Str? ==>
            Seen(Throws(e)).message == Text(e.extra["message"].text))
      && (Property(e, "message").Undefined? ==> Seen(Throws(e)).message == Text(""))
      && (!Property(e, "message").Str? ==> forall s | Seen(Throws(e)).message == Text(s) :: s == "")
  {
    if !e.Null? && !e.Undefined? && Serialisable(e) {
      MessageSurvives(e);
    }
  }

  lemma MessageSurvives(e: Value)
    requires !e.Null? && !e.Undefined? && Serialisable(e)
    ensures Serialisable(Property(e, "message"))
    ensures Property(e, "message").Str? ==> Wire(Property(e, "message")) == Property(e, "message")
    ensures !Property(e, "message").Str? ==> !Wire(Property(e, "message")).Str?
  {}

  /** In every run of the message layer, a resolved proxied call has the result of a direct call on its own
      arguments. */
  lemma EveryProxiedCall(delegate: Delegate, run: seq<Event<Content, Response>>, k: nat,
                         name: string, args: seq<Value>, id: string)
    requires IsRun((c, r) => Answers(delegate, c, r), Initial(), run)
    requires k in After(Initial(), run).resolved && k < |After(Initial(), run).calls|
    requires After(Initial(), run).calls[k].content == Parsed(Wire(RequestFor(name, args, id)))
    ensures var result := ResultOf(After(Initial(), run).resolved[k]);
      if delegate.has(Str(name)) then exists o :: delegate.run(Str(name), Wire(Arr(args)), o) && result == Seen(o)
      else result == RemoteError(-32601, Undefined, Text("Method not found"))
  {
    EveryCallInOnePlace((c, r) => Answers(delegate, c, r), run);
    ProxiedCall(delegate, name, args, id, After(Initial(), run).resolved[k]);
  }
}
