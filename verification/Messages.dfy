/** pkg/framework/interface/requesthandling/types.go: the message a plugin sees, the log of
    what plugins did to its headers, and the per-chunk state of a response. */
module Messages {
  import opened Envoy

  type HeaderMap = map<string, string>

  datatype Json =
    | JNull
    | JBool(b: bool)
    | JNumber(n: real)
    | JString(s: string)
    | JArray(items: seq<Json>)
    | JObject(fields: map<string, Json>)

  type Body = map<string, Json>

  /** The value of an InferenceMessage. With nilBody the body is a nil Go map, as a JSON
      null leaves it: it reads as an empty one, and writing to it panics. */
  datatype Message = Message(
    headers: HeaderMap,
    body: Body,
    nilBody: bool,
    mutatedHeaders: HeaderMap,
    removedHeaders: set<string>,
    bodyMutated: bool)

  const NewMessage := Message(map[], map[], false, map[], {}, false)

  /** The value of an InferenceResponse. */
  datatype Response = Response(msg: Message, currentChunk: bytes, chunkMutated: bool)

  const NewResponse := Response(NewMessage, [], false)

  /** The calls of the message API, which is all a plugin can do to a message. */
  datatype MessageOp =
    | SetHeader(key: string, value: string)
    | RemoveHeader(key: string)
    | SetBody(fields: Body)
    | SetBodyField(key: string, field: Json)
    | RemoveBodyField(key: string)

  datatype ResponseOp = OnMessage(op: MessageOp) | SetChunk(chunk: bytes)

  function ApplyOp(m: Message, op: MessageOp): Message {
    match op
    case SetHeader(k, v) =>
      if k in m.headers && m.headers[k] == v then m
      else m.(headers := m.headers[k := v], mutatedHeaders := m.mutatedHeaders[k := v], removedHeaders := m.removedHeaders - {k})
    case RemoveHeader(k) =>
      if k !in m.headers then m
      else m.(headers := m.headers - {k}, mutatedHeaders := m.mutatedHeaders - {k}, removedHeaders := m.removedHeaders + {k})
    case SetBody(b) => m.(body := b, nilBody := false, bodyMutated := true)
    case SetBodyField(k, v) => if m.nilBody then m else m.(body := m.body[k := v], bodyMutated := true)
    case RemoveBodyField(k) =>
      if k !in m.body then m else m.(body := m.body - {k}, bodyMutated := true)
  }

  /** A field write to a nil map. */
  predicate PanicsAt(m: Message, op: MessageOp) { op.SetBodyField? && m.nilBody }

  /** The calls up to the first that panics. */
  function ApplyOps(m: Message, ops: seq<MessageOp>): Message
    decreases |ops|
  {
    if ops == [] || PanicsAt(m, ops[0]) then m else ApplyOps(ApplyOp(m, ops[0]), ops[1..])
  }

  predicate Panics(m: Message, ops: seq<MessageOp>)
    decreases |ops|
  {
    ops != [] && (PanicsAt(m, ops[0]) || Panics(ApplyOp(m, ops[0]), ops[1..]))
  }

  function ApplyResponseOp(r: Response, op: ResponseOp): Response {
    match op
    case OnMessage(o) => r.(msg := ApplyOp(r.msg, o))
    case SetChunk(c) => r.(currentChunk := c, chunkMutated := true)
  }

  predicate ResponsePanicsAt(r: Response, op: ResponseOp) { op.OnMessage? && PanicsAt(r.msg, op.op) }

  function ApplyResponseOps(r: Response, ops: seq<ResponseOp>): Response
    decreases |ops|
  {
    if ops == [] || ResponsePanicsAt(r, ops[0]) then r else ApplyResponseOps(ApplyResponseOp(r, ops[0]), ops[1..])
  }

  predicate ResponsePanics(r: Response, ops: seq<ResponseOp>)
    decreases |ops|
  {
    ops != [] && (ResponsePanicsAt(r, ops[0]) || ResponsePanics(ApplyResponseOp(r, ops[0]), ops[1..]))
  }

  // ------------------------------------------------------------------------------
  // Calls, one by one

  /** The calls are made in order, each on the message the one before it left, up to the
      first that panics; the last message is what they leave. */
  lemma {:induction false} OpsRunInOrder(m: Message, ops: seq<MessageOp>) returns (states: seq<Message>)
    ensures 0 < |states| <= |ops| + 1 && states[0] == m
    ensures forall i :: 0 <= i < |states| - 1 ==> !PanicsAt(states[i], ops[i]) && states[i + 1] == ApplyOp(states[i], ops[i])
    ensures |states| <= |ops| ==> PanicsAt(states[|states| - 1], ops[|states| - 1])
    ensures ApplyOps(m, ops) == states[|states| - 1] && (Panics(m, ops) <==> |states| <= |ops|)
    decreases |ops|
  {
    hide ApplyOp, PanicsAt;
    states := [m];
    if ops != [] && !PanicsAt(m, ops[0]) {
      var rest := OpsRunInOrder(ApplyOp(m, ops[0]), ops[1..]);
      states := [m] + rest;
      forall i | 0 < i < |states| ensures states[i] == rest[i - 1] && (i < |ops| ==> ops[i] == ops[1..][i - 1]) {
      }
    }
  }

  /** The same for calls on a response. */
  lemma {:induction false} ResponseOpsRunInOrder(r: Response, ops: seq<ResponseOp>) returns (states: seq<Response>)
    ensures 0 < |states| <= |ops| + 1 && states[0] == r
    ensures forall i :: 0 <= i < |states| - 1 ==> !ResponsePanicsAt(states[i], ops[i]) && states[i + 1] == ApplyResponseOp(states[i], ops[i])
    ensures |states| <= |ops| ==> ResponsePanicsAt(states[|states| - 1], ops[|states| - 1])
    ensures ApplyResponseOps(r, ops) == states[|states| - 1] && (ResponsePanics(r, ops) <==> |states| <= |ops|)
    decreases |ops|
  {
    hide ApplyResponseOp, ResponsePanicsAt;
    states := [r];
    if ops != [] && !ResponsePanicsAt(r, ops[0]) {
      var rest := ResponseOpsRunInOrder(ApplyResponseOp(r, ops[0]), ops[1..]);
      states := [r] + rest;
      forall i | 0 < i < |states| ensures states[i] == rest[i - 1] && (i < |ops| ==> ops[i] == ops[1..][i - 1]) {
      }
    }
  }

  // ------------------------------------------------------------------------------
  // When calls panic

  /** Some call writes a field before any call replaces the body. */
  ghost predicate FieldBeforeBody(ops: seq<MessageOp>) {
    exists i :: FirstField(ops, i)
  }

  /** Call i writes a field and no earlier one replaces the body. */
  ghost predicate FirstField(ops: seq<MessageOp>, i: int) {
    0 <= i < |ops| && ops[i].SetBodyField? && forall j :: 0 <= j < i ==> !ops[j].SetBody?
  }

  lemma FirstFieldShift(op: MessageOp, ops: seq<MessageOp>, i: nat)
    ensures FirstField([op] + ops, i + 1) <==> !op.SetBody? && FirstField(ops, i)
  {
    var all := [op] + ops;
    if FirstField(all, i + 1) {
      assert all[0] == op && all[i + 1] == ops[i];
      forall j | 0 <= j < i ensures !ops[j].SetBody? { assert ops[j] == all[j + 1]; }
    }
    if !op.SetBody? && FirstField(ops, i) {
      assert all[i + 1] == ops[i];
      forall j | 0 <= j < i + 1 ensures !all[j].SetBody? {
        if j > 0 { assert all[j] == ops[j - 1]; }
      }
    }
  }

  lemma FieldBeforeBodyHead(op: MessageOp, ops: seq<MessageOp>)
    ensures FieldBeforeBody([op] + ops) <==> op.SetBodyField? || (!op.SetBody? && FieldBeforeBody(ops))
  {
    var all := [op] + ops;
    if i :| FirstField(all, i) {
      if i > 0 { FirstFieldShift(op, ops, i - 1); }
    }
    if op.SetBodyField? {
      assert FirstField(all, 0);
    }
    if i :| FirstField(ops, i) {
      FirstFieldShift(op, ops, i);
    }
  }

  predicate ReplacesBody(ops: seq<MessageOp>) {
    exists i :: 0 <= i < |ops| && ops[i].SetBody?
  }

  /** A sequence of calls panics if and only if it finds a nil body and writes a field of it
      before any call replaces it; else the body is nil afterwards if and only if it was and
      no call replaced it. */
  lemma {:induction false} PanicsIff(m: Message, ops: seq<MessageOp>)
    ensures Panics(m, ops) <==> m.nilBody && FieldBeforeBody(ops)
    ensures !Panics(m, ops) ==> (ApplyOps(m, ops).nilBody <==> m.nilBody && !ReplacesBody(ops))
    decreases |ops|
  {
    if ops != [] {
      assert ops == [ops[0]] + ops[1..];
      FieldBeforeBodyHead(ops[0], ops[1..]);
      PanicsIff(ApplyOp(m, ops[0]), ops[1..]);
      assert ReplacesBody(ops) <==> ops[0].SetBody? || ReplacesBody(ops[1..]) by {
        if i :| 0 <= i < |ops[1..]| && ops[1..][i].SetBody? { assert ops[i + 1].SetBody?; }
        if i :| 0 < i < |ops| && ops[i].SetBody? { assert ops[1..][i - 1].SetBody?; }
      }
      hide FieldBeforeBody, ReplacesBody;
    }
  }

  /** The message calls among the calls on a response. */
  function MessageOps(ops: seq<ResponseOp>): seq<MessageOp> {
    if ops == [] then []
    else (if ops[0].OnMessage? then [ops[0].op] else []) + MessageOps(ops[1..])
  }

  /** On a response it is the calls on its message that panic. */
  lemma {:induction false} ResponsePanicsIff(r: Response, ops: seq<ResponseOp>)
    ensures ResponsePanics(r, ops) <==> Panics(r.msg, MessageOps(ops))
    ensures ApplyResponseOps(r, ops).msg == ApplyOps(r.msg, MessageOps(ops))
    decreases |ops|
  {
    if ops != [] {
      ResponsePanicsIff(ApplyResponseOp(r, ops[0]), ops[1..]);
      if ops[0].OnMessage? {
        assert MessageOps(ops)[1..] == MessageOps(ops[1..]);
      } else {
        assert MessageOps(ops) == MessageOps(ops[1..]);
      }
    }
  }

  // ------------------------------------------------------------------------------
  // The header log

  /** What the receiver of a header mutation ends up with. The emitted lists come from a
      map and a set, so they are modelled as such; their order is arbitrary. */
  function Replay(start: HeaderMap, mutated: HeaderMap, removed: set<string>): HeaderMap {
    (start - removed) + mutated
  }

  /** The log of `m` explains its headers, given the headers it started with. */
  ghost predicate LogExplains(start: HeaderMap, m: Message) {
    && m.mutatedHeaders.Keys !! m.removedHeaders
    && m.headers == Replay(start, m.mutatedHeaders, m.removedHeaders)
  }

  lemma LogStep(start: HeaderMap, m: Message, op: MessageOp)
    requires LogExplains(start, m)
    ensures LogExplains(start, ApplyOp(m, op))
  {
    var m' := ApplyOp(m, op);
    assert m'.headers.Keys == Replay(start, m'.mutatedHeaders, m'.removedHeaders).Keys;
  }

  /** Header log replay: after any sequence of message calls the two emitted lists name
      disjoint keys, and replaying them on the starting headers gives the current ones. */
  lemma {:induction false} HeaderLogReplay(start: HeaderMap, m: Message, ops: seq<MessageOp>)
    requires LogExplains(start, m)
    ensures LogExplains(start, ApplyOps(m, ops))
    decreases |ops|
  {
    if ops != [] && !PanicsAt(m, ops[0]) {
      LogStep(start, m, ops[0]);
      HeaderLogReplay(start, ApplyOp(m, ops[0]), ops[1..]);
    }
  }

  lemma {:induction false} ResponseLogReplay(start: HeaderMap, r: Response, ops: seq<ResponseOp>)
    requires LogExplains(start, r.msg)
    ensures LogExplains(start, ApplyResponseOps(r, ops).msg)
    decreases |ops|
  {
    if ops != [] && !ResponsePanicsAt(r, ops[0]) {
      if ops[0].OnMessage? {
        LogStep(start, r.msg, ops[0].op);
      }
      ResponseLogReplay(start, ApplyResponseOp(r, ops[0]), ops[1..]);
    }
  }

  // ------------------------------------------------------------------------------
  // Chunk state

  /** The chunk a list of calls leaves behind: that of the last SetChunk, if any. */
  function ChunkAfter(chunk: bytes, ops: seq<ResponseOp>): bytes {
    if ops == [] then chunk
    else if ops[|ops| - 1].SetChunk? then ops[|ops| - 1].chunk
    else ChunkAfter(chunk, ops[..|ops| - 1])
  }

  predicate SetsChunk(ops: seq<ResponseOp>) {
    exists i :: 0 <= i < |ops| && ops[i].SetChunk?
  }

  lemma {:induction false} ChunkAfterHead(chunk: bytes, op: ResponseOp, ops: seq<ResponseOp>)
    ensures ChunkAfter(chunk, [op] + ops) == ChunkAfter(if op.SetChunk? then op.chunk else chunk, ops)
    decreases |ops|
  {
    var all := [op] + ops;
    if ops == [] {
      assert all[..0] == [];
    } else {
      assert all[..|all| - 1] == [op] + ops[..|ops| - 1];
      ChunkAfterHead(chunk, op, ops[..|ops| - 1]);
    }
  }

  lemma {:induction false} ChunkStateAfter(r: Response, ops: seq<ResponseOp>)
    requires !ResponsePanics(r, ops)
    ensures var r' := ApplyResponseOps(r, ops);
            && r'.currentChunk == ChunkAfter(r.currentChunk, ops)
            && (r'.chunkMutated <==> r.chunkMutated || SetsChunk(ops))
    decreases |ops|
  {
    if ops != [] {
      ChunkStateAfter(ApplyResponseOp(r, ops[0]), ops[1..]);
      assert ops == [ops[0]] + ops[1..];
      ChunkAfterHead(r.currentChunk, ops[0], ops[1..]);
      if SetsChunk(ops) && !ops[0].SetChunk? {
        var i :| 0 <= i < |ops| && ops[i].SetChunk?;
        assert ops[1..][i - 1].SetChunk?;
      }
    }
  }

  // ------------------------------------------------------------------------------
  // The objects

  class InferenceMessage {
    var headers: HeaderMap
    var body: Body
    var nilBody: bool
    var mutatedHeaders: HeaderMap
    var removedHeaders: set<string>
    var bodyMutated: bool

    constructor ()
      ensures Value() == NewMessage
    {
      headers, body, nilBody, mutatedHeaders, removedHeaders, bodyMutated := map[], map[], false, map[], {}, false;
    }

    function Value(): Message reads this {
      Message(headers, body, nilBody, mutatedHeaders, removedHeaders, bodyMutated)
    }

    method SetHeader(key: string, value: string)
      modifies this
      ensures Value() == ApplyOp(old(Value()), MessageOp.SetHeader(key, value))
      ensures headers == old(headers)[key := value]
      ensures if key in old(headers) && old(headers)[key] == value then Value() == old(Value())
              else && mutatedHeaders == old(mutatedHeaders)[key := value] && removedHeaders == old(removedHeaders) - {key}
                   && body == old(body) && nilBody == old(nilBody) && bodyMutated == old(bodyMutated)
    {
      if key !in headers || headers[key] != value {
        headers := headers[key := value];
        mutatedHeaders := mutatedHeaders[key := value];
        removedHeaders := removedHeaders - {key};
      }
    }

    method RemoveHeader(key: string)
      modifies this
      ensures Value() == ApplyOp(old(Value()), MessageOp.RemoveHeader(key))
      ensures headers == old(headers) - {key}
      ensures if key !in old(headers) then Value() == old(Value())
              else && mutatedHeaders == old(mutatedHeaders) - {key} && removedHeaders == old(removedHeaders) + {key}
                   && body == old(body) && nilBody == old(nilBody) && bodyMutated == old(bodyMutated)
    {
      if key in headers {
        headers := headers - {key};
        mutatedHeaders := mutatedHeaders - {key};
        removedHeaders := removedHeaders + {key};
      }
    }

    method SetBody(fields: Body)
      modifies this
      ensures Value() == ApplyOp(old(Value()), MessageOp.SetBody(fields))
      ensures body == fields && !nilBody && bodyMutated
      ensures headers == old(headers) && mutatedHeaders == old(mutatedHeaders) && removedHeaders == old(removedHeaders)
    {
      body, nilBody, bodyMutated := fields, false, true;
    }

    /** Panics on a nil body. */
    method SetBodyField(key: string, field: Json) returns (panicked: bool)
      modifies this
      ensures panicked <==> old(nilBody)
      ensures Value() == if panicked then old(Value()) else old(Value()).(body := old(body)[key := field], bodyMutated := true)
    {
      if nilBody {
        return true;
      }
      body, bodyMutated := body[key := field], true;
      return false;
    }

    method RemoveBodyField(key: string)
      modifies this
      ensures Value() == ApplyOp(old(Value()), MessageOp.RemoveBodyField(key))
      ensures body == old(body) - {key} && (bodyMutated <==> old(bodyMutated) || key in old(body))
      ensures headers == old(headers) && mutatedHeaders == old(mutatedHeaders) && removedHeaders == old(removedHeaders) && nilBody == old(nilBody)
    {
      if key in body {
        body, bodyMutated := body - {key}, true;
      }
    }

    /** One call of the API, as a plugin makes it. */
    method Perform(op: MessageOp) returns (panicked: bool)
      modifies this
      ensures Value() == ApplyOp(old(Value()), op) && panicked == PanicsAt(old(Value()), op)
    {
      panicked := false;
      match op
      case SetHeader(k, v) => SetHeader(k, v);
      case RemoveHeader(k) => RemoveHeader(k);
      case SetBody(b) => SetBody(b);
      case SetBodyField(k, v) => panicked := SetBodyField(k, v);
      case RemoveBodyField(k) => RemoveBodyField(k);
    }

    method PerformAll(ops: seq<MessageOp>) returns (panicked: bool)
      modifies this
      ensures Value() == ApplyOps(old(Value()), ops) && panicked == Panics(old(Value()), ops)
    {
      for i := 0 to |ops|
        invariant ApplyOps(Value(), ops[i..]) == ApplyOps(old(Value()), ops)
        invariant Panics(Value(), ops[i..]) == Panics(old(Value()), ops)
      {
        assert ops[i..][1..] == ops[i + 1..];
        panicked := Perform(ops[i]);
        if panicked {
          return;
        }
      }
      panicked := false;
    }
  }

  class InferenceResponse {
    const message: InferenceMessage
    var currentChunk: bytes
    var chunkMutated: bool

    constructor ()
      ensures fresh(message) && Value() == NewResponse
    {
      message := new InferenceMessage();
      currentChunk, chunkMutated := [], false;
    }

    function Value(): Response reads this, message {
      Response(message.Value(), currentChunk, chunkMutated)
    }

    method SetChunk(chunk: bytes)
      modifies this
      ensures Value() == ApplyResponseOp(old(Value()), ResponseOp.SetChunk(chunk))
      ensures currentChunk == chunk && chunkMutated && message.Value() == old(message.Value())
    {
      currentChunk, chunkMutated := chunk, true;
    }

    method ResetChunkState(chunk: bytes)
      modifies this
      ensures Value() == old(Value()).(currentChunk := chunk, chunkMutated := false)
    {
      currentChunk, chunkMutated := chunk, false;
    }

    method PerformAll(ops: seq<ResponseOp>) returns (panicked: bool)
      modifies this, message
      ensures Value() == ApplyResponseOps(old(Value()), ops) && panicked == ResponsePanics(old(Value()), ops)
    {
      panicked := false;
      for i := 0 to |ops|
        invariant ApplyResponseOps(Value(), ops[i..]) == ApplyResponseOps(old(Value()), ops)
        invariant ResponsePanics(Value(), ops[i..]) == ResponsePanics(old(Value()), ops)
        invariant !panicked
      {
        assert ops[i..][1..] == ops[i + 1..];
        match ops[i] {
          case OnMessage(op) => panicked := message.Perform(op);
          case SetChunk(c) => SetChunk(c);
        }
        if panicked {
          return;
        }
      }
    }
  }
}
