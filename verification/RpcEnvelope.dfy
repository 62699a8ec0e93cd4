/**
 A remote call: the request is put in an envelope, the grain's dispatcher overwrites the same envelope with the answer,
 and the caller decodes it through the message-id tables.
 */
module RpcEnvelope {
  import opened Common
  import opened MsgId
  import opened Messages

  datatype Codec = Codec(marshal: Message -> Option<Bytes>, unmarshal: (string, Bytes) -> Option<Message>)

  /** What protobuf promises: a message that encodes is decoded again, whatever decodes can be encoded, and a text
      that is not empty takes bytes. Encoding may fail. */
  ghost predicate Lawful(codec: Codec) {
    && (forall m :: codec.marshal(m).Some? ==> codec.unmarshal(m.name, codec.marshal(m).value) == Some(m))
    && (forall n, b :: codec.unmarshal(n, b).Some? ==> codec.marshal(codec.unmarshal(n, b).value).Some?)
    && (forall m :: codec.marshal(m).Some? && m.text != "" ==> codec.marshal(m).value != [])
  }

  type Handler = Bytes -> Outcome

  // ----- the grain's side -----

  /** The envelope; the dispatcher writes the answer into the request. `None` data is a nil slice. */
  class RpcMsg {
    var msgId: int
    var code: int
    var data: Option<Bytes>

    constructor (msgId: int, data: Option<Bytes>)
      ensures this.msgId == msgId && code == 0 && this.data == data
    {
      this.msgId, code, this.data := msgId, 0, data;
    }

    function Value(): Envelope
      reads this
    {
      Envelope(msgId, code, data)
    }
  }

  datatype Envelope = Envelope(msgId: int, code: int, data: Option<Bytes>)

  function OrEmpty(data: Option<Bytes>): Bytes {
    if data.Some? then data.value else []
  }

  /** What the dispatcher makes of an envelope. A message that fails to marshal leaves the request's bytes in place,
      and the handler's code overwrites the serialization error. */
  function Answered(funcs: map<int, Handler>, codec: Codec, e: Envelope): Envelope {
    if e.msgId !in funcs then e.(code := UNKNOWN_MSG_ID)
    else
      var o := funcs[e.msgId](OrEmpty(e.data));
      if o.resp.None? then e.(code := o.code)
      else
        var b := codec.marshal(o.resp.value);
        Envelope(IdFor(o.resp.value.name), o.code, if b.Some? then b else e.data)
  }

  class BaseGrain {
    var msgFunc: map<int, Handler>

    constructor ()
      ensures msgFunc == map[]
    {
      msgFunc := map[];
    }

    /** The first registration of an id wins. */
    method RegisterMsgHandler(msgId: int, handler: Handler)
      modifies this
      ensures msgFunc == if msgId in old(msgFunc) then old(msgFunc) else old(msgFunc)[msgId := handler]
    {
      if msgId !in msgFunc {
        msgFunc := msgFunc[msgId := handler];
      }
    }

    method Receive(codec: Codec, msg: RpcMsg)
      modifies msg
      ensures msg.Value() == Answered(msgFunc, codec, old(msg.Value()))
    {
      if msg.msgId in msgFunc {
        var o := msgFunc[msg.msgId](OrEmpty(msg.data));
        if o.resp.Some? {
          var msgId := IdFor(o.resp.value.name);
          if msgId == 0 {
            msg.code := SERIALIZE_ERROR;
          }
          msg.msgId := msgId;
          var b := codec.marshal(o.resp.value);
          if b.None? {
            msg.code := SERIALIZE_ERROR;
          } else {
            msg.data := b;
          }
        }
        msg.code := o.code;
      } else {
        msg.code := UNKNOWN_MSG_ID;
      }
    }
  }

  // ----- the caller's side -----

  datatype RpcError =
    | MissingArgument | UnknownRequest | MarshalFailed | CallFailed
    | UnknownResponse | SystemError(code: int) | TypeNotFound | UnmarshalFailed

  datatype Result = Ok(message: Message) | Err(error: RpcError)

  /** A call on the same node shares the envelope; between nodes it is copied, and empty data arrives as nil. */
  datatype Transport = Local | Remote | Broken

  function OverWire(t: Transport, data: Option<Bytes>): Option<Bytes> {
    if t.Remote? && data == Some([]) then None else data
  }

  function Decode(codec: Codec, e: Envelope): Result {
    if e.msgId !in NAME_OF then Err(UnknownResponse)
    else if e.code != OK || e.data.None? then Err(SystemError(e.code))
    else if !TypeExists(TypeName(e.msgId)) then Err(TypeNotFound)
    else match codec.unmarshal(TypeName(e.msgId), e.data.value)
      case None => Err(UnmarshalFailed)
      case Some(m) => Ok(m)
  }

  function RpcResult(
      funcs: map<int, Handler>, codec: Codec, t: Transport, identity: string, kind: string, name: string,
      req: Message): Result {
    if identity == "" || kind == "" || name == "" then Err(MissingArgument)
    else if IdFor(req.name) == 0 then Err(UnknownRequest)
    else if codec.marshal(req).None? then Err(MarshalFailed)
    else if t.Broken? then Err(CallFailed)
    else
      var e := Answered(funcs, codec, Envelope(IdFor(req.name), 0, OverWire(t, codec.marshal(req))));
      Decode(codec, e.(data := OverWire(t, e.data)))
  }

  method Rpc(grain: BaseGrain, codec: Codec, t: Transport, identity: string, kind: string, name: string, req: Message)
      returns (r: Result)
    ensures r == RpcResult(grain.msgFunc, codec, t, identity, kind, name, req)
    ensures !Delivered(grain.msgFunc, codec, t, identity, kind, name, req) ==> r.Err?
    ensures r.Ok? ==> OutcomeOf(grain.msgFunc, codec, req).code == OK
  {
    MessageOnlyOnOk(grain.msgFunc, codec, t, identity, kind, name, req);
    if identity == "" || kind == "" || name == "" {
      return Err(MissingArgument);
    }
    var msgId := IdFor(req.name);
    if msgId == 0 {
      return Err(UnknownRequest);
    }
    var data := codec.marshal(req);
    if data.None? {
      return Err(MarshalFailed);
    }
    if t.Broken? {
      return Err(CallFailed);
    }
    var msg := new RpcMsg(msgId, OverWire(t, data));
    grain.Receive(codec, msg);
    msg.data := OverWire(t, msg.data);
    r := Decode(codec, msg.Value());
  }

  // ----- faithfulness -----

  /** The call reaches a handler of the grain. */
  predicate Delivered(
      funcs: map<int, Handler>, codec: Codec, t: Transport, identity: string, kind: string, name: string,
      req: Message) {
    && identity != "" && kind != "" && name != "" && !t.Broken?
    && IdFor(req.name) != 0 && IdFor(req.name) in funcs && codec.marshal(req).Some?
  }

  function OutcomeOf(funcs: map<int, Handler>, codec: Codec, req: Message): Outcome
    requires IdFor(req.name) in funcs && codec.marshal(req).Some?
  {
    funcs[IdFor(req.name)](codec.marshal(req).value)
  }

  lemma HandlerSeesRequest(t: Transport, data: Bytes)
    ensures OrEmpty(OverWire(t, Some(data))) == data
  {
  }

  /** The message encodes, and not to nothing when it has to travel. */
  predicate Encodes(codec: Codec, t: Transport, m: Message) {
    codec.marshal(m).Some? && (t.Remote? ==> codec.marshal(m).value != [])
  }

  /** Faithfulness: every handler error becomes a system error with the handler's code. With an OK the handler had a
      message, whose own code says OK too, and the caller gets exactly that message if and only if it encodes. */
  lemma RpcIsFaithful(
      funcs: map<int, Handler>, codec: Codec, t: Transport, identity: string, kind: string, name: string, req: Message)
    requires Lawful(codec) && Delivered(funcs, codec, t, identity, kind, name, req) &&
        Faithful(OutcomeOf(funcs, codec, req))
    ensures var o, r := OutcomeOf(funcs, codec, req), RpcResult(funcs, codec, t, identity, kind, name, req);
      && (o.code != OK ==> r == Err(SystemError(o.code)))
      && (o.code == OK ==>
            && o.resp.Some? && (o.resp.value.code.Some? ==> o.resp.value.code == Some(OK))
            && (r == Ok(o.resp.value) <==> Encodes(codec, t, o.resp.value)))
  {
    HandlerSeesRequest(t, codec.marshal(req).value);
    KnownName(req.name);
    var o := OutcomeOf(funcs, codec, req);
    if o.resp.Some? {
      KnownName(o.resp.value.name);
    }
  }

  /** A request id without a handler becomes a system error, never a message. */
  lemma UnknownRequestFails(
      funcs: map<int, Handler>, codec: Codec, t: Transport, identity: string, kind: string, name: string, req: Message)
    requires identity != "" && kind != "" && name != "" && !t.Broken? && codec.marshal(req).Some?
    requires IdFor(req.name) != 0 && IdFor(req.name) !in funcs
    ensures RpcResult(funcs, codec, t, identity, kind, name, req) == Err(SystemError(UNKNOWN_MSG_ID))
  {
    KnownName(req.name);
  }

  /** When the response does not encode, the error is masked: with an OK code the caller decodes the bytes
      of its own request as if they were the response; only a request without bytes, sent to another node,
      turns into an error. */
  lemma SerializeErrorIsMasked(
      funcs: map<int, Handler>, codec: Codec, t: Transport, identity: string, kind: string, name: string, req: Message)
    requires Delivered(funcs, codec, t, identity, kind, name, req)
    requires var o := OutcomeOf(funcs, codec, req);
      o.code == OK && o.resp.Some? && IdFor(o.resp.value.name) != 0 && codec.marshal(o.resp.value).None?
    ensures RpcResult(funcs, codec, t, identity, kind, name, req) ==
      if !Encodes(codec, t, req) then Err(SystemError(OK))
      else
        var m := codec.unmarshal(OutcomeOf(funcs, codec, req).resp.value.name, codec.marshal(req).value);
        if m.None? then Err(UnmarshalFailed) else Ok(m.value)
  {
    HandlerSeesRequest(t, codec.marshal(req).value);
    KnownName(OutcomeOf(funcs, codec, req).resp.value.name);
  }

  /** A handler that returns OK without a message sends the request back as the answer, if the request has bytes or
      stays on its node, and an error otherwise. */
  lemma NoResponseEchoesRequest(
      funcs: map<int, Handler>, codec: Codec, t: Transport, identity: string, kind: string, name: string, req: Message)
    requires Lawful(codec) && Delivered(funcs, codec, t, identity, kind, name, req)
    requires OutcomeOf(funcs, codec, req) == Outcome(None, OK)
    ensures var r := RpcResult(funcs, codec, t, identity, kind, name, req);
      if Encodes(codec, t, req) then r == Ok(req) else r == Err(SystemError(OK))
  {
    HandlerSeesRequest(t, codec.marshal(req).value);
    KnownName(req.name);
  }

  // ----- what a message means -----

  /** A call that does not reach a handler ends in an error, and the error says why. */
  lemma NotDeliveredFails(
      funcs: map<int, Handler>, codec: Codec, t: Transport, identity: string, kind: string, name: string, req: Message)
    requires !Delivered(funcs, codec, t, identity, kind, name, req)
    ensures var r := RpcResult(funcs, codec, t, identity, kind, name, req);
      && r.Err?
      && (r.error == MissingArgument <==> identity == "" || kind == "" || name == "")
      && (r.error == CallFailed ==> t.Broken?)
      && (r.error == MarshalFailed ==> codec.marshal(req).None?)
      && (r.error == UnknownRequest ==> IdFor(req.name) == 0)
      && (r.error.SystemError? ==> r.error.code == UNKNOWN_MSG_ID && IdFor(req.name) !in funcs)
      && !r.error.UnknownResponse? && !r.error.TypeNotFound? && !r.error.UnmarshalFailed?
  {
    if IdFor(req.name) != 0 {
      KnownName(req.name);
    }
  }

  /** For every table, codec, transport, address and request: a message comes back only if the call reached a handler
      and the handler returned OK. */
  lemma MessageOnlyOnOk(
      funcs: map<int, Handler>, codec: Codec, t: Transport, identity: string, kind: string, name: string, req: Message)
    ensures RpcResult(funcs, codec, t, identity, kind, name, req).Ok? ==>
      Delivered(funcs, codec, t, identity, kind, name, req) && OutcomeOf(funcs, codec, req).code == OK
  {
    if !Delivered(funcs, codec, t, identity, kind, name, req) {
      NotDeliveredFails(funcs, codec, t, identity, kind, name, req);
    } else {
      HandlerSeesRequest(t, codec.marshal(req).value);
    }
  }

  /** And it is one of three: the handler's own response; when that does not encode, what the request's bytes read as
      in its place; and the request, when the handler had no response. */
  lemma WhatArrives(
      funcs: map<int, Handler>, codec: Codec, t: Transport, identity: string, kind: string, name: string, req: Message)
    requires Lawful(codec) && RpcResult(funcs, codec, t, identity, kind, name, req).Ok?
    ensures Delivered(funcs, codec, t, identity, kind, name, req)
    ensures var o, m := OutcomeOf(funcs, codec, req), RpcResult(funcs, codec, t, identity, kind, name, req).message;
      match o.resp
      case None => m == req
      case Some(own) =>
        if codec.marshal(own).Some? then m == own
        else codec.unmarshal(own.name, codec.marshal(req).value) == Some(m)
  {
    MessageOnlyOnOk(funcs, codec, t, identity, kind, name, req);
    HandlerSeesRequest(t, codec.marshal(req).value);
    KnownName(req.name);
    var o := OutcomeOf(funcs, codec, req);
    if o.resp.Some? {
      if IdFor(o.resp.value.name) == 0 {
        NoType();
        assert false;
      }
      KnownName(o.resp.value.name);
    }
  }

  /** Id 0 stands for no type. */
  lemma NoType()
    ensures 0 in NAME_OF && !TypeExists(TypeName(0))
  {
    NoneRow();
  }
}
