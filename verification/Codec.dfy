/** The message codec above JSON text: reading fields out of a parsed value,
    writing them back, and the whole-object laws that follow. */
module Codec {
  import opened Common

  /** The keys the protocol uses, and any other. */
  datatype K =
    | Type | Id | Model | Prompt | MaxTokens | Stream | ClientSocket | Token | ResultText | Finished | MessageText
    | NodeId | Available | Load
    | RequestId | Request | Response | Status | CreateTime | AssignTime | CompleteTime | Priority | ErrorMsg
    | Other(name: string)

  datatype Json =
    | Null
    | Bool(b: bool)
    | Int(i: int)
    | Float(r: real)
    | Str(s: string)
    | Arr(items: seq<Json>)
    | Obj(fields: map<K, Json>)

  type int32 = x: int | -0x8000_0000 <= x < 0x8000_0000

  datatype MessageType = REQUEST | TASK | RESPONSE | ERROR | HEARTBEAT | STATUS | UNKNOWN

  datatype Fields = Fields(
    kind: MessageType, id: string, model: string, prompt: string, maxTokens: int32, stream: bool,
    clientSocket: int32, token: string, result: string, finished: bool, message: string,
    nodeId: string, available: bool, load: real)

  const FRESH: Fields := Fields(UNKNOWN, "", "", "", 1000, true, -1, "", "", false, "", "", false, 0.0)

  // Reading one field

  function Member(j: Json, key: K): Option<Json> {
    if j.Obj? && key in j.fields then Some(j.fields[key]) else None
  }

  predicate Number(j: Json) {
    j.Int? || j.Float?
  }

  /** The conversion to a 32-bit int: a real is cut towards zero, and what does
      not fit wraps around. */
  function ToInt32(j: Json): int32
    requires Number(j)
  {
    var n := if j.Int? then j.i else if j.r >= 0.0 then j.r.Floor else -((-j.r).Floor);
    (n + 0x8000_0000) % 0x1_0000_0000 - 0x8000_0000
  }

  function ToFloat(j: Json): real
    requires Number(j)
  {
    if j.Int? then j.i as real else j.r
  }

  /** The value read from each kind of number: an integer that fits as it is, a
      fraction cut towards zero, and either of them as a real. */
  lemma NumbersRead(i: int32, r: real)
    ensures ToInt32(Int(i)) == i && ToFloat(Int(i)) == i as real && ToFloat(Float(r)) == r
    ensures 0.0 <= r < 2147483648.0 ==> ToInt32(Float(r)) as real <= r < ToInt32(Float(r)) as real + 1.0
    ensures -2147483649.0 < r <= 0.0 ==> ToInt32(Float(r)) as real - 1.0 < r <= ToInt32(Float(r)) as real
  {
  }

  /** What does not fit differs by a multiple of 2^32. */
  lemma WrapsAround(i: int)
    ensures (ToInt32(Int(i)) - i) % 0x1_0000_0000 == 0
  {
  }

  function AsString(v: Option<Json>, current: string): string {
    match v case Some(Str(s)) => s case _ => current
  }

  function AsBool(v: Option<Json>, current: bool): bool {
    match v case Some(Bool(b)) => b case _ => current
  }

  function AsInt(v: Option<Json>, current: int32): int32 {
    if v.Some? && Number(v.value) then ToInt32(v.value) else current
  }

  function AsFloat(v: Option<Json>, current: real): real {
    if v.Some? && Number(v.value) then ToFloat(v.value) else current
  }

  // Messages

  /** `from_json`: every known field that is present with the right type replaces
      the old value; everything else stays, the type included. */
  function Merge(m: Fields, j: Json): Fields {
    Fields(
      m.kind, AsString(Member(j, K.Id), m.id), AsString(Member(j, K.Model), m.model), AsString(Member(j, K.Prompt), m.prompt),
      AsInt(Member(j, K.MaxTokens), m.maxTokens), AsBool(Member(j, K.Stream), m.stream),
      AsInt(Member(j, K.ClientSocket), m.clientSocket), AsString(Member(j, K.Token), m.token),
      AsString(Member(j, K.ResultText), m.result), AsBool(Member(j, K.Finished), m.finished),
      AsString(Member(j, K.MessageText), m.message), AsString(Member(j, K.NodeId), m.nodeId),
      AsBool(Member(j, K.Available), m.available), AsFloat(Member(j, K.Load), m.load))
  }

  function ToJson(m: Fields): Json {
    Obj(map[
      K.Id := Str(m.id), K.Model := Str(m.model), K.Prompt := Str(m.prompt),
      K.MaxTokens := Int(m.maxTokens), K.Stream := Bool(m.stream), K.ClientSocket := Int(m.clientSocket),
      K.Token := Str(m.token), K.ResultText := Str(m.result), K.Finished := Bool(m.finished),
      K.MessageText := Str(m.message), K.NodeId := Str(m.nodeId), K.Available := Bool(m.available),
      K.Load := Float(m.load)])
  }

  function WithType(j: Json, name: string): Json
    requires j.Obj?
  {
    Obj(j.fields[K.Type := Str(name)])
  }

  predicate IsType(j: Json, name: string) {
    Member(j, K.Type) == Some(Str(name))
  }

  function GetMessageType(j: Json): MessageType {
    if IsType(j, "request") then REQUEST
    else if IsType(j, "task") then TASK
    else if IsType(j, "response") then RESPONSE
    else if IsType(j, "error") then ERROR
    else if IsType(j, "heartbeat") then HEARTBEAT
    else if IsType(j, "status") then STATUS
    else UNKNOWN
  }

  /** A message has its type if and only if its `type` is that name, and no type if
      and only if it is none of the six, or not a string, or absent. */
  lemma TypeIff(j: Json)
    ensures GetMessageType(j) == REQUEST <==> Member(j, K.Type) == Some(Str("request"))
    ensures GetMessageType(j) == TASK <==> Member(j, K.Type) == Some(Str("task"))
    ensures GetMessageType(j) == RESPONSE <==> Member(j, K.Type) == Some(Str("response"))
    ensures GetMessageType(j) == ERROR <==> Member(j, K.Type) == Some(Str("error"))
    ensures GetMessageType(j) == HEARTBEAT <==> Member(j, K.Type) == Some(Str("heartbeat"))
    ensures GetMessageType(j) == STATUS <==> Member(j, K.Type) == Some(Str("status"))
    ensures GetMessageType(j) == UNKNOWN <==>
            forall name :: name in {"request", "task", "response", "error", "heartbeat", "status"} ==> Member(j, K.Type) != Some(Str(name))
  {
    hide Member;
    NamesDiffer();
  }

  lemma NamesDiffer()
    ensures "request" != "task" && "request" != "response" && "request" != "error" && "request" != "heartbeat" && "request" != "status"
    ensures "task" != "response" && "task" != "error" && "task" != "heartbeat" && "task" != "status"
    ensures "response" != "error" && "response" != "heartbeat" && "response" != "status"
    ensures "error" != "heartbeat" && "error" != "status" && "heartbeat" != "status"
  {
    assert "request"[2] != "response"[2];
  }

  /** `parse_message` on a text that parses to `j`. */
  function Parsed(m: Fields, j: Json): Fields {
    Merge(m, j).(kind := GetMessageType(j))
  }

  /** The message object, updated in place. */
  class Message {
    var kind: MessageType
    var id: string
    var model: string
    var prompt: string
    var maxTokens: int32
    var stream: bool
    var clientSocket: int32
    var token: string
    var result: string
    var finished: bool
    var message: string
    var nodeId: string
    var available: bool
    var load: real

    function Value(): Fields
      reads this
    {
      Fields(kind, id, model, prompt, maxTokens, stream, clientSocket, token, result, finished, message, nodeId, available, load)
    }

    constructor ()
      ensures Value() == FRESH
      ensures kind == UNKNOWN && maxTokens == 1000 && stream && clientSocket == -1 && !finished && !available && load == 0.0
      ensures id == model == prompt == token == result == message == nodeId == ""
    {
      kind, maxTokens, stream, clientSocket, finished, available, load := UNKNOWN, 1000, true, -1, false, false, 0.0;
      id, model, prompt, token, result, message, nodeId := "", "", "", "", "", "", "";
    }

    method FromJson(j: Json)
      modifies this
      ensures Value() == Merge(old(Value()), j)
    {
      ReadRequestPart(j);
      ReadAnswerPart(j);
    }

    method ReadRequestPart(j: Json)
      modifies this`id, this`model, this`prompt, this`maxTokens, this`stream, this`clientSocket
      ensures id == AsString(Member(j, K.Id), old(id))
      ensures model == AsString(Member(j, K.Model), old(model))
      ensures prompt == AsString(Member(j, K.Prompt), old(prompt))
      ensures maxTokens == AsInt(Member(j, K.MaxTokens), old(maxTokens))
      ensures stream == AsBool(Member(j, K.Stream), old(stream))
      ensures clientSocket == AsInt(Member(j, K.ClientSocket), old(clientSocket))
    {
      id := AsString(Member(j, K.Id), id);
      model := AsString(Member(j, K.Model), model);
      prompt := AsString(Member(j, K.Prompt), prompt);
      maxTokens := AsInt(Member(j, K.MaxTokens), maxTokens);
      stream := AsBool(Member(j, K.Stream), stream);
      clientSocket := AsInt(Member(j, K.ClientSocket), clientSocket);
    }

    method ReadAnswerPart(j: Json)
      modifies this`token, this`result, this`finished, this`message, this`nodeId, this`available, this`load
      ensures token == AsString(Member(j, K.Token), old(token))
      ensures result == AsString(Member(j, K.ResultText), old(result))
      ensures finished == AsBool(Member(j, K.Finished), old(finished))
      ensures message == AsString(Member(j, K.MessageText), old(message))
      ensures nodeId == AsString(Member(j, K.NodeId), old(nodeId))
      ensures available == AsBool(Member(j, K.Available), old(available))
      ensures load == AsFloat(Member(j, K.Load), old(load))
    {
      token := AsString(Member(j, K.Token), token);
      result := AsString(Member(j, K.ResultText), result);
      finished := AsBool(Member(j, K.Finished), finished);
      message := AsString(Member(j, K.MessageText), message);
      nodeId := AsString(Member(j, K.NodeId), nodeId);
      available := AsBool(Member(j, K.Available), available);
      load := AsFloat(Member(j, K.Load), load);
    }

    /** The overrides in the request and response classes: the type is their own
        whatever the JSON says. */
    method FromJsonAs(own: MessageType, j: Json)
      modifies this
      ensures Value() == Merge(old(Value()), j).(kind := own)
    {
      FromJson(j);
      kind := own;
    }

    /** `None` is a text that is not JSON: nothing changes. */
    method ParseMessage(parsed: Option<Json>) returns (ok: bool)
      modifies this
      ensures ok == parsed.Some?
      ensures Value() == if parsed.Some? then Parsed(old(Value()), parsed.value) else old(Value())
    {
      if parsed.None? {
        return false;
      }
      kind := GetMessageType(parsed.value);
      FromJson(parsed.value);
      ok := true;
    }
  }

  // Reading twice

  /** The keys `from_json` looks at. */
  predicate Known(key: K) {
    key in {K.Id, K.Model, K.Prompt, K.MaxTokens, K.Stream, K.ClientSocket, K.Token, K.ResultText, K.Finished,
            K.MessageText, K.NodeId, K.Available, K.Load}
  }

  predicate WellTyped(key: K, v: Json) {
    if key in {K.Stream, K.Finished, K.Available} then v.Bool?
    else if key in {K.MaxTokens, K.ClientSocket, K.Load} then Number(v)
    else v.Str?
  }

  function FieldsOf(j: Json): map<K, Json> {
    if j.Obj? then j.fields else map[]
  }

  /** The first value, overridden by the well-typed known fields of the second. */
  function Override(a: Json, b: Json): Json {
    Obj(FieldsOf(a) + (map k | k in FieldsOf(b) && Known(k) && WellTyped(k, FieldsOf(b)[k]) :: FieldsOf(b)[k]))
  }

  lemma OverrideMember(a: Json, b: Json, key: K)
    requires Known(key)
    ensures Member(Override(a, b), key) ==
            if Member(b, key).Some? && WellTyped(key, Member(b, key).value) then Member(b, key) else Member(a, key)
  {
  }

  lemma ReadTwiceString(a: Json, b: Json, key: K, x: string)
    requires key in {K.Id, K.Model, K.Prompt, K.Token, K.ResultText, K.MessageText, K.NodeId}
    ensures AsString(Member(Override(a, b), key), x) == AsString(Member(b, key), AsString(Member(a, key), x))
  {
    OverrideMember(a, b, key);
  }

  lemma ReadTwiceBool(a: Json, b: Json, key: K, x: bool)
    requires key in {K.Stream, K.Finished, K.Available}
    ensures AsBool(Member(Override(a, b), key), x) == AsBool(Member(b, key), AsBool(Member(a, key), x))
  {
    OverrideMember(a, b, key);
  }

  lemma ReadTwiceNumber(a: Json, b: Json, key: K, x: int32, y: real)
    requires key in {K.MaxTokens, K.ClientSocket, K.Load}
    ensures AsInt(Member(Override(a, b), key), x) == AsInt(Member(b, key), AsInt(Member(a, key), x))
    ensures AsFloat(Member(Override(a, b), key), y) == AsFloat(Member(b, key), AsFloat(Member(a, key), y))
  {
    OverrideMember(a, b, key);
  }

  /** Reading one value and then another is reading the first overridden by the
      well-typed known fields of the second. */
  lemma ReadTwice(m: Fields, a: Json, b: Json)
    ensures Merge(Merge(m, a), b) == Merge(m, Override(a, b))
  {
    ReadTwiceString(a, b, K.Id, m.id);
    ReadTwiceString(a, b, K.Model, m.model);
    ReadTwiceString(a, b, K.Prompt, m.prompt);
    ReadTwiceString(a, b, K.Token, m.token);
    ReadTwiceString(a, b, K.ResultText, m.result);
    ReadTwiceString(a, b, K.MessageText, m.message);
    ReadTwiceString(a, b, K.NodeId, m.nodeId);
    ReadTwiceBool(a, b, K.Stream, m.stream);
    ReadTwiceBool(a, b, K.Finished, m.finished);
    ReadTwiceBool(a, b, K.Available, m.available);
    ReadTwiceNumber(a, b, K.MaxTokens, m.maxTokens, 0.0);
    ReadTwiceNumber(a, b, K.ClientSocket, m.clientSocket, 0.0);
    ReadTwiceNumber(a, b, K.Load, 0, m.load);
    hide AsString, AsBool, AsInt, AsFloat, Override;
  }

  /** Values that are not objects, or hold none of the known fields with the right
      type, change nothing. */
  lemma NothingKnown(m: Fields, j: Json)
    requires forall key :: Known(key) && Member(j, key).Some? ==> !WellTyped(key, Member(j, key).value)
    ensures Merge(m, j) == m
  {
    assert forall key :: Known(key) ==> Member(j, key).None? || !WellTyped(key, Member(j, key).value);
  }

  // Builders

  /** The calls of the message builders. */
  datatype Built =
    | NewRequest(id: string, model: string, prompt: string, maxTokens: int32, stream: bool)
    | NewTask(id: string, clientSocket: int32, model: string, prompt: string, maxTokens: int32, stream: bool)
    | NewResponse(id: string, result: string, finished: bool)
    | NewStreamResponse(id: string, clientSocket: int32, token: string, finished: bool)
    | NewError(id: string, message: string)  // both error builders
    | NewHeartbeat
    | NewStatus(nodeId: string, available: bool, load: real)

  function Build(b: Built): Json {
    match b
    case NewRequest(id, model, prompt, maxTokens, stream) =>
      Obj(map[K.Type := Str("request"), K.Id := Str(id), K.Model := Str(model), K.Prompt := Str(prompt),
              K.MaxTokens := Int(maxTokens), K.Stream := Bool(stream)])
    case NewTask(id, clientSocket, model, prompt, maxTokens, stream) =>
      Obj(map[K.Type := Str("task"), K.Id := Str(id), K.ClientSocket := Int(clientSocket), K.Model := Str(model),
              K.Prompt := Str(prompt), K.MaxTokens := Int(maxTokens), K.Stream := Bool(stream)])
    case NewResponse(id, result, finished) =>
      Obj(map[K.Type := Str("response"), K.Id := Str(id), K.ResultText := Str(result), K.Finished := Bool(finished)])
    case NewStreamResponse(id, clientSocket, token, finished) =>
      Obj(map[K.Type := Str("response"), K.Id := Str(id), K.ClientSocket := Int(clientSocket), K.Token := Str(token),
              K.Finished := Bool(finished)])
    case NewError(id, message) =>
      Obj(map[K.Type := Str("error"), K.Id := Str(id), K.MessageText := Str(message)])
    case NewHeartbeat =>
      Obj(map[K.Type := Str("heartbeat")])
    case NewStatus(nodeId, available, load) =>
      Obj(map[K.Type := Str("status"), K.NodeId := Str(nodeId), K.Available := Bool(available), K.Load := Float(load)])
  }

  /** The message that carries the arguments of the call, and the rest of `m`. */
  function Carries(m: Fields, b: Built): Fields {
    match b
    case NewRequest(id, model, prompt, maxTokens, stream) =>
      m.(kind := REQUEST, id := id, model := model, prompt := prompt, maxTokens := maxTokens, stream := stream)
    case NewTask(id, clientSocket, model, prompt, maxTokens, stream) =>
      m.(kind := TASK, id := id, clientSocket := clientSocket, model := model, prompt := prompt, maxTokens := maxTokens, stream := stream)
    case NewResponse(id, result, finished) => m.(kind := RESPONSE, id := id, result := result, finished := finished)
    case NewStreamResponse(id, clientSocket, token, finished) =>
      m.(kind := RESPONSE, id := id, clientSocket := clientSocket, token := token, finished := finished)
    case NewError(id, message) => m.(kind := ERROR, id := id, message := message)
    case NewHeartbeat => m.(kind := HEARTBEAT)
    case NewStatus(nodeId, available, load) => m.(kind := STATUS, nodeId := nodeId, available := available, load := load)
  }

  lemma KindOfBuilt(m: Fields, b: Built)
    ensures GetMessageType(Build(b)) == Carries(m, b).kind
  {
    var name := match b
      case NewRequest(_, _, _, _, _) => "request"
      case NewTask(_, _, _, _, _, _) => "task"
      case NewError(_, _) => "error"
      case NewHeartbeat => "heartbeat"
      case NewStatus(_, _, _) => "status"
      case _ => "response";
    assert Member(Build(b), K.Type) == Some(Str(name));
  }

  lemma RequestParses(m: Fields, b: Built)
    requires b.NewRequest?
    ensures Parsed(m, Build(b)) == Carries(m, b)
  {
    hide ToInt32, GetMessageType, IsType;
    KindOfBuilt(m, b);
    IntRoundTrip(b.maxTokens);
  }

  lemma TaskParses(m: Fields, b: Built)
    requires b.NewTask?
    ensures Parsed(m, Build(b)) == Carries(m, b)
  {
    hide ToInt32, GetMessageType, IsType, Build, Member;
    KindOfBuilt(m, b);
    IntRoundTrip(b.maxTokens);
    IntRoundTrip(b.clientSocket);
    TaskMembers(b);
  }

  lemma TaskMembers(b: Built)
    requires b.NewTask?
    ensures var j := Build(b);
            && Member(j, K.Id) == Some(Str(b.id)) && Member(j, K.ClientSocket) == Some(Int(b.clientSocket))
            && Member(j, K.Model) == Some(Str(b.model)) && Member(j, K.Prompt) == Some(Str(b.prompt))
            && Member(j, K.MaxTokens) == Some(Int(b.maxTokens)) && Member(j, K.Stream) == Some(Bool(b.stream))
            && forall key :: key in {K.Token, K.ResultText, K.Finished, K.MessageText, K.NodeId, K.Available, K.Load} ==>
                 Member(j, key) == None
  {
  }

  lemma ResponseParses(m: Fields, b: Built)
    requires b.NewResponse?
    ensures Parsed(m, Build(b)) == Carries(m, b)
  {
    hide ToInt32, GetMessageType, IsType;
    KindOfBuilt(m, b);
  }

  lemma StreamResponseParses(m: Fields, b: Built)
    requires b.NewStreamResponse?
    ensures Parsed(m, Build(b)) == Carries(m, b)
  {
    hide ToInt32, GetMessageType, IsType;
    KindOfBuilt(m, b);
    IntRoundTrip(b.clientSocket);
  }

  lemma ErrorParses(m: Fields, b: Built)
    requires b.NewError?
    ensures Parsed(m, Build(b)) == Carries(m, b)
  {
    hide ToInt32, GetMessageType, IsType;
    KindOfBuilt(m, b);
  }

  lemma HeartbeatParses(m: Fields, b: Built)
    requires b.NewHeartbeat?
    ensures Parsed(m, Build(b)) == Carries(m, b)
  {
    hide ToInt32, GetMessageType, IsType;
    KindOfBuilt(m, b);
  }

  lemma StatusParses(m: Fields, b: Built)
    requires b.NewStatus?
    ensures Parsed(m, Build(b)) == Carries(m, b)
  {
    hide ToInt32, GetMessageType, IsType;
    KindOfBuilt(m, b);
  }

  /** What any builder built, parsed over any previous message, sets the builder's
      type and every argument, and leaves the rest. */
  lemma BuiltParses(m: Fields, b: Built)
    ensures Parsed(m, Build(b)) == Carries(m, b)
  {
    hide Parsed, Build, Carries;
    match b
    case NewRequest(_, _, _, _, _) => RequestParses(m, b);
    case NewTask(_, _, _, _, _, _) => TaskParses(m, b);
    case NewResponse(_, _, _) => ResponseParses(m, b);
    case NewStreamResponse(_, _, _, _) => StreamResponseParses(m, b);
    case NewError(_, _) => ErrorParses(m, b);
    case NewHeartbeat => HeartbeatParses(m, b);
    case NewStatus(_, _, _) => StatusParses(m, b);
  }

  lemma IntRoundTrip(n: int32)
    ensures ToInt32(Int(n)) == n
  {
  }

  lemma ToJsonMembers(m: Fields)
    ensures var j := ToJson(m);
            && Member(j, K.Id) == Some(Str(m.id)) && Member(j, K.Model) == Some(Str(m.model))
            && Member(j, K.Prompt) == Some(Str(m.prompt)) && Member(j, K.MaxTokens) == Some(Int(m.maxTokens))
            && Member(j, K.Stream) == Some(Bool(m.stream)) && Member(j, K.ClientSocket) == Some(Int(m.clientSocket))
            && Member(j, K.Token) == Some(Str(m.token)) && Member(j, K.ResultText) == Some(Str(m.result))
            && Member(j, K.Finished) == Some(Bool(m.finished)) && Member(j, K.MessageText) == Some(Str(m.message))
            && Member(j, K.NodeId) == Some(Str(m.nodeId)) && Member(j, K.Available) == Some(Bool(m.available))
            && Member(j, K.Load) == Some(Float(m.load))
  {
  }

  /** A message written and read back into any other message restores every field
      but the type. */
  lemma MessageRoundTrip(m: Fields, into: Fields)
    ensures Merge(into, ToJson(m)) == m.(kind := into.kind)
  {
    ToJsonMembers(m);
    IntRoundTrip(m.maxTokens);
    IntRoundTrip(m.clientSocket);
    hide ToInt32, ToJson, Member;
  }

  /** The type name is not among the fields that are read. */
  lemma TypeIsIgnored(m: Fields, j: Json, name: string)
    requires j.Obj?
    ensures Merge(m, WithType(j, name)) == Merge(m, j)
  {
    assert forall key :: key != K.Type ==> Member(WithType(j, name), key) == Member(j, key);
    hide WithType, Member, AsString, AsBool, AsInt, AsFloat;
  }

  // Task contexts

  /** The context's request and response are messages; their classes fix the type
      `from_json` gives them, but the type can be set to anything else. */
  datatype Context = Context(
    requestId: string, clientSocket: int32, request: Fields, response: Fields, status: int32,
    createTime: int64, assignTime: int64, completeTime: int64, priority: int32, errorMsg: string)

  type int64 = x: int | -0x8000_0000_0000_0000 <= x < 0x8000_0000_0000_0000

  function ContextToJson(t: Context): Json {
    Obj(map[
      K.RequestId := Str(t.requestId), K.ClientSocket := Int(t.clientSocket),
      K.Request := WithType(ToJson(t.request), "request"), K.Response := WithType(ToJson(t.response), "response"),
      K.Status := Int(t.status), K.CreateTime := Int(t.createTime), K.AssignTime := Int(t.assignTime),
      K.CompleteTime := Int(t.completeTime), K.Priority := Int(t.priority), K.ErrorMsg := Str(t.errorMsg)])
  }

  /** `value(key, default)` throws on a value of the wrong type; None stands for
      the exception. Booleans convert to integers. */
  function ValueString(j: Json, key: K): Option<string> {
    match Member(j, key) case None => Some("") case Some(Str(s)) => Some(s) case _ => None
  }

  function ValueInt32(j: Json, key: K, default: int32): Option<int32> {
    match Member(j, key)
    case None => Some(default)
    case Some(v) => if Number(v) then Some(ToInt32(v)) else if v.Bool? then Some(if v.b then 1 else 0) else None
  }

  function ValueInt64(j: Json, key: K): Option<int64> {
    match Member(j, key)
    case None => Some(0)
    case Some(v) => if Number(v) then Some(ToInt64(v)) else if v.Bool? then Some(if v.b then 1 else 0) else None
  }

  function ToInt64(j: Json): int64
    requires Number(j)
  {
    var n := if j.Int? then j.i else if j.r >= 0.0 then j.r.Floor else -((-j.r).Floor);
    (n + 0x8000_0000_0000_0000) % 0x1_0000_0000_0000_0000 - 0x8000_0000_0000_0000
  }

  /** Absent nested messages keep the old ones; every other field absent is reset
      to its default. None if any access throws: the value is not an object, or a
      field has the wrong type. */
  function ContextFromJson(t: Context, j: Json): Option<Context> {
    var rid, sock := ValueString(j, K.RequestId), ValueInt32(j, K.ClientSocket, -1);
    var status, prio := ValueInt32(j, K.Status, 0), ValueInt32(j, K.Priority, 0);
    var ct, at, dt := ValueInt64(j, K.CreateTime), ValueInt64(j, K.AssignTime), ValueInt64(j, K.CompleteTime);
    var err := ValueString(j, K.ErrorMsg);
    if !j.Obj? || rid.None? || sock.None? || status.None? || prio.None? || ct.None? || at.None? || dt.None? || err.None?
    then None
    else
      var rq, rs := Member(j, K.Request), Member(j, K.Response);
      Some(Context(
        rid.value, sock.value,
        if rq.Some? then Merge(t.request, rq.value).(kind := REQUEST) else t.request,
        if rs.Some? then Merge(t.response, rs.value).(kind := RESPONSE) else t.response,
        status.value, ct.value, at.value, dt.value, prio.value, err.value))
  }

  /** A context is refused if and only if the value is not an object or holds a
      known field with a type that does not convert. */
  lemma RefusedIff(t: Context, j: Json)
    ensures ContextFromJson(t, j).None? <==>
            || !j.Obj?
            || (exists key :: key in {K.RequestId, K.ErrorMsg} && key in j.fields && !j.fields[key].Str?)
            || (exists key :: key in {K.ClientSocket, K.Status, K.CreateTime, K.AssignTime, K.CompleteTime, K.Priority}
                              && key in j.fields && !Number(j.fields[key]) && !j.fields[key].Bool?)
  {
    hide ToInt32, ToInt64, Merge;
    if j.Obj? {
      assert forall key :: key in j.fields ==> Member(j, key) == Some(j.fields[key]);
    }
  }

  /** Contexts also convert: a boolean to 1 or 0, a fraction by cutting it. */
  lemma ContextNumbers(key: K, b: bool, i: int64, r: real)
    ensures ValueInt32(Obj(map[key := Bool(b)]), key, 7) == Some(if b then 1 else 0)
    ensures ValueInt64(Obj(map[key := Bool(b)]), key) == Some(if b then 1 else 0)
    ensures ToInt64(Int(i)) == i
    ensures 0.0 <= r < 9223372036854775808.0 ==> ToInt64(Float(r)) as real <= r < ToInt64(Float(r)) as real + 1.0
    ensures -9223372036854775809.0 < r <= 0.0 ==> ToInt64(Float(r)) as real - 1.0 < r <= ToInt64(Float(r)) as real
  {
  }

  /** Absent fields of a context that is read get their defaults; absent messages
      stay what they were. */
  lemma Defaults(t: Context, j: Json)
    requires ContextFromJson(t, j).Some?
    ensures var c := ContextFromJson(t, j).value;
            && j.Obj?
            && (K.RequestId !in j.fields ==> c.requestId == "") && (K.ErrorMsg !in j.fields ==> c.errorMsg == "")
            && (K.ClientSocket !in j.fields ==> c.clientSocket == -1) && (K.Status !in j.fields ==> c.status == 0)
            && (K.CreateTime !in j.fields ==> c.createTime == 0) && (K.AssignTime !in j.fields ==> c.assignTime == 0)
            && (K.CompleteTime !in j.fields ==> c.completeTime == 0) && (K.Priority !in j.fields ==> c.priority == 0)
            && (K.Request !in j.fields ==> c.request == t.request) && (K.Response !in j.fields ==> c.response == t.response)
  {
    hide ToInt32, ToInt64, Merge;
  }

  lemma ContextMembers(t: Context)
    ensures var j := ContextToJson(t);
            && j.Obj?
            && Member(j, K.RequestId) == Some(Str(t.requestId)) && Member(j, K.ClientSocket) == Some(Int(t.clientSocket))
            && Member(j, K.Request) == Some(WithType(ToJson(t.request), "request"))
            && Member(j, K.Response) == Some(WithType(ToJson(t.response), "response"))
            && Member(j, K.Status) == Some(Int(t.status)) && Member(j, K.Priority) == Some(Int(t.priority))
            && Member(j, K.CreateTime) == Some(Int(t.createTime)) && Member(j, K.AssignTime) == Some(Int(t.assignTime))
            && Member(j, K.CompleteTime) == Some(Int(t.completeTime)) && Member(j, K.ErrorMsg) == Some(Str(t.errorMsg))
  {
    hide ToJson;
  }

  lemma LongRoundTrip(n: int64)
    ensures ToInt64(Int(n)) == n
  {
  }

  lemma ContextValues(t: Context)
    ensures var j := ContextToJson(t);
            && ValueString(j, K.RequestId) == Some(t.requestId) && ValueString(j, K.ErrorMsg) == Some(t.errorMsg)
            && ValueInt32(j, K.ClientSocket, -1) == Some(t.clientSocket) && ValueInt32(j, K.Status, 0) == Some(t.status)
            && ValueInt32(j, K.Priority, 0) == Some(t.priority) && ValueInt64(j, K.CreateTime) == Some(t.createTime)
            && ValueInt64(j, K.AssignTime) == Some(t.assignTime) && ValueInt64(j, K.CompleteTime) == Some(t.completeTime)
  {
    ContextMembers(t);
    IntRoundTrip(t.clientSocket);
    IntRoundTrip(t.status);
    IntRoundTrip(t.priority);
    LongRoundTrip(t.createTime);
    LongRoundTrip(t.assignTime);
    LongRoundTrip(t.completeTime);
    hide ToJson, WithType, ContextToJson, Member, ToInt32, ToInt64;
  }

  /** A context written and read back onto any other context is restored exactly
      when its request and response carry their own types. */
  lemma ContextRoundTripIff(t: Context, into: Context)
    ensures ContextFromJson(into, ContextToJson(t)) == Some(t) <==> t.request.kind == REQUEST && t.response.kind == RESPONSE
  {
    var j := ContextToJson(t);
    ContextMembers(t);
    ContextValues(t);
    MessageRoundTrip(t.request, into.request);
    MessageRoundTrip(t.response, into.response);
    TypeIsIgnored(into.request, ToJson(t.request), "request");
    TypeIsIgnored(into.response, ToJson(t.response), "response");
    hide Merge, ToJson, WithType, ContextToJson, Member, ValueString, ValueInt32, ValueInt64;
    assert ContextFromJson(into, j) == Some(t.(request := t.request.(kind := REQUEST), response := t.response.(kind := RESPONSE)));
  }
}
