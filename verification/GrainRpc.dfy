/** Remote calls to the two grains: the envelope, the tables and the grains' own handlers put together. */
module GrainRpc {
  import opened Common
  import opened MsgId
  import opened Messages
  import opened RpcEnvelope
  import opened RoomReplies
  import opened UserGrain

  // Each handler decodes into the type its id stands for.

  function DecodedAs(codec: Codec, id: int, b: Bytes): Option<Message> {
    if id in NAME_OF then codec.unmarshal(TypeName(id), b) else None
  }

  /** The handlers of a room in state `v`. */
  function RoomTable(v: RoomValue, env: Env, codec: Codec): map<int, Handler> {
    map id | id in ROOM_IDS :: (b: Bytes) => RoomOutcome(v, env, id, DecodedAs(codec, id, b))
  }

  /** The handlers of a user grain in state `u`. */
  function UserTable(u: User, now: int, codec: Codec): map<int, Handler> {
    map id | id in USER_IDS :: (b: Bytes) => UserReply(u, RequestOf(id, DecodedAs(codec, id, b), now))
  }

  /** The handler sees the request as it was sent. */
  lemma DecodedAsSent(codec: Codec, req: Message)
    requires Lawful(codec) && IdFor(req.name) != 0 && codec.marshal(req).Some?
    ensures DecodedAs(codec, IdFor(req.name), codec.marshal(req).value) == Some(req)
  {
    KnownName(req.name);
  }

  /** Every call that reaches a room: the outcome is the handler's, on the very request that was sent. An error
      becomes a system error with its code; an OK comes with a response of the type that goes with the request, whose
      body says OK, and the caller gets exactly that response if and only if it can be marshalled. */
  lemma RoomRpcIsFaithful(
      v: RoomValue, env: Env, codec: Codec, t: Transport, identity: string, kind: string, name: string, req: Message)
    requires Lawful(codec) && Delivered(RoomTable(v, env, codec), codec, t, identity, kind, name, req)
    ensures IdFor(req.name) in ROOM_IDS
    ensures var o := RoomOutcome(v, env, IdFor(req.name), Some(req));
      var r := RpcResult(RoomTable(v, env, codec), codec, t, identity, kind, name, req);
      && (o.code != OK ==> r == Err(SystemError(o.code)))
      && (o.code == OK ==>
            && o.resp.Some? && o.resp.value.code == Some(OK) && IdFor(o.resp.value.name) == IdFor(req.name) + 1
            && (r == Ok(o.resp.value) <==> codec.marshal(o.resp.value).Some?))
  {
    var id := IdFor(req.name);
    DecodedAsSent(codec, req);
    RoomAnswers(v, env, id, Some(req));
    assert OutcomeOf(RoomTable(v, env, codec), codec, req) == RoomOutcome(v, env, id, Some(req));
    RpcIsFaithful(RoomTable(v, env, codec), codec, t, identity, kind, name, req);
  }

  /** The same for a user grain. Its one answer without a code is the chat message it sends back, which between nodes
      also has to have bytes. */
  lemma UserRpcIsFaithful(
      u: User, now: int, codec: Codec, t: Transport, identity: string, kind: string, name: string, req: Message)
    requires Lawful(codec) && Delivered(UserTable(u, now, codec), codec, t, identity, kind, name, req)
    ensures IdFor(req.name) in USER_IDS
    ensures var id := IdFor(req.name);
      var o := UserReply(u, RequestOf(id, Some(req), now));
      var r := RpcResult(UserTable(u, now, codec), codec, t, identity, kind, name, req);
      && (o.code != OK ==> r == Err(SystemError(o.code)))
      && (o.code == OK ==>
            && o.resp.Some?
            && (r == Ok(o.resp.value) <==> Encodes(codec, t, o.resp.value))
            && (id != 1105 ==> o.resp.value.code == Some(OK) && IdFor(o.resp.value.name) == id + 1)
            && (id != 1105 ==> (r == Ok(o.resp.value) <==> codec.marshal(o.resp.value).Some?)))
  {
    DecodedAsSent(codec, req);
    assert OutcomeOf(UserTable(u, now, codec), codec, req) == UserReply(u, RequestOf(IdFor(req.name), Some(req), now));
    RpcIsFaithful(UserTable(u, now, codec), codec, t, identity, kind, name, req);
  }

  // ----- a response that does not encode -----

  const ASKED := Message("ChatGetUserInfoReq", None, "", Nothing)
  const READ_BACK := Message("ChatGetUserInfoResp", Some(7), "", Nothing)

  /** A codec that encodes two messages, both to the same bytes: a question about user 7, and the response that these
      bytes stand for when they are read as one. */
  const NARROW := Codec(
    m => if m == ASKED || m == READ_BACK then Some([8, 7]) else None,
    (n, b) => if b != [8, 7] then None
              else if n == ASKED.name then Some(ASKED)
              else if n == READ_BACK.name then Some(READ_BACK)
              else None)

  lemma NarrowIsLawful()
    ensures Lawful(NARROW)
  {
    assert ASKED.name[|ASKED.name| - 1] != READ_BACK.name[|READ_BACK.name| - 1];
  }

  lemma Asked()
    ensures IdFor(ASKED.name) == 1201 && IdFor(READ_BACK.name) == 1202
  {
    RowIs(6, "ChatGetUserInfoReq");
    RowIs(7, "ChatGetUserInfoResp");
  }

  /** What the mask costs: whatever the user grain's state, the question is answered without an error by a message
      that the handler never made, and whose own code is not OK. */
  lemma MaskedErrorMisleads(u: User, now: int, t: Transport)
    requires !t.Broken?
    ensures Lawful(NARROW)
    ensures var o := UserReply(u, GetInfo);
      var r := RpcResult(UserTable(u, now, NARROW), NARROW, t, "user-7", "user", "GetInfo", ASKED);
      o.code == OK && o.resp.Some? && r == Ok(READ_BACK) && READ_BACK != o.resp.value && READ_BACK.code != Some(OK)
  {
    NarrowIsLawful();
    Asked();
    var funcs := UserTable(u, now, NARROW);
    DecodedAsSent(NARROW, ASKED);
    assert OutcomeOf(funcs, NARROW, ASKED) == UserReply(u, GetInfo);
    SerializeErrorIsMasked(funcs, NARROW, t, "user-7", "user", "GetInfo", ASKED);
  }
}
