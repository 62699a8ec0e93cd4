/** What a room answers, as a function of the room's value: one outcome for each of the eight handlers, and their
    table. */
module RoomReplies {
  import opened Common
  import opened RoomLog
  import opened MsgId
  import opened Messages
  import opened Pages

  /** A room: what it tells about itself, who is in it, and its history. */
  datatype RoomValue = RoomValue(view: RoomView, members: map<int, UserInfo>, history: seq<ChatMessage>)

  function JoinNoteOf(room: string, username: string, clock: Clock): ChatMessage {
    ChatMessage(clock.stamp, 0, "System", room, JoinNote, username + " 加入了房间", clock.millis)
  }

  function LeaveNoteOf(room: string, username: string, clock: Clock): ChatMessage {
    ChatMessage(clock.stamp, 0, "System", room, LeaveNote, username + " 离开了房间", clock.millis)
  }

  function TextOf(room: string, req: SendReq, clock: Clock): ChatMessage {
    ChatMessage(clock.stamp, req.senderId, req.senderName, room, req.kind, req.content, clock.millis)
  }

  // What a request does to a room. A request that does not decode is `None`.

  function AfterCreation(v: RoomValue, req: Option<CreateReq>, clock: Clock): RoomValue {
    match req
    case None => v
    case Some(q) =>
      var cap := if q.maxMembers > 0 then q.maxMembers else v.view.maxMembers;
      v.(view := v.view.(roomName := q.roomName, creatorName := q.creatorName, creatorId := q.creatorId,
                         maxMembers := cap, createdAt := clock.millis))
  }

  function AfterJoining(v: RoomValue, req: Option<JoinReq>, clock: Clock): RoomValue {
    if req.None? || JudgeJoin(v.members.Keys, v.view.maxMembers, req.value.userId) != Admitted then v
    else
      var q := req.value;
      v.(view := v.view.(currentMembers := ToInt32(|v.members| + 1)),
         members := v.members[q.userId := UserInfo(q.userId, q.username, true, v.view.roomId, clock.millis)],
         history := v.history + [JoinNoteOf(v.view.roomId, q.username, clock)])
  }

  function AfterLeaving(v: RoomValue, req: Option<LeaveReq>, clock: Clock): RoomValue {
    if req.None? || req.value.userId !in v.members then v
    else
      var q := req.value;
      v.(view := v.view.(currentMembers := ToInt32(|v.members| - 1)), members := v.members - {q.userId},
         history := v.history + [LeaveNoteOf(v.view.roomId, q.username, clock)])
  }

  function AfterSending(v: RoomValue, req: Option<SendReq>, clock: Clock): RoomValue {
    if req.None? || req.value.senderId !in v.members then v
    else v.(history := LastOf(v.history + [TextOf(v.view.roomId, req.value, clock)], HISTORY_LIMIT))
  }

  // What it answers.

  function CreateOutcome(v: RoomValue, req: Option<CreateReq>, clock: Clock): (o: Outcome)
    ensures Answers(o, 1302)
  {
    RowIs(9, "ChatCreateRoomResp");
    match req
    case None => GARBLED
    case Some(q) =>
      var cap := if q.maxMembers > 0 then q.maxMembers else v.view.maxMembers;
      Reply("ChatCreateRoomResp", OK, "房间创建成功",
            RoomData(Some(RoomView(v.view.roomId, q.roomName, q.creatorName, q.creatorId, cap, 0, clock.millis)), []))
  }

  /** The room with the newcomer in it, and its latest messages. */
  function WelcomeReply(after: RoomValue): Outcome {
    Reply("ChatJoinRoomResp", OK, "加入房间成功", RoomData(Some(after.view), LastOf(after.history, 20)))
  }

  function JoinOutcome(v: RoomValue, req: Option<JoinReq>, clock: Clock): (o: Outcome)
    ensures Answers(o, 1304)
  {
    RowIs(11, "ChatJoinRoomResp");
    match req
    case None => GARBLED
    case Some(q) =>
      match JudgeJoin(v.members.Keys, v.view.maxMembers, q.userId)
      case RoomFull => Reply("ChatJoinRoomResp", ROOM_FULL, "房间已满", RoomData(None, []))
      case AlreadyIn => Reply("ChatJoinRoomResp", OK, "用户已在房间中", RoomData(Some(v.view), []))
      case Admitted =>
        WelcomeReply(AfterJoining(v, req, clock))
  }

  function LeaveOutcome(v: RoomValue, req: Option<LeaveReq>): (o: Outcome)
    ensures Answers(o, 1306)
  {
    RowIs(13, "ChatLeaveRoomResp");
    match req
    case None => GARBLED
    case Some(q) =>
      Reply("ChatLeaveRoomResp", OK, if q.userId in v.members then "离开房间成功" else "用户不在房间中", Nothing)
  }

  function SendOutcome(v: RoomValue, req: Option<SendReq>, clock: Clock): (o: Outcome)
    ensures Answers(o, 1402)
  {
    RowIs(19, "ChatSendMessageResp");
    match req
    case None => GARBLED
    case Some(q) =>
      if q.senderId !in v.members then Reply("ChatSendMessageResp", OK, "用户不在房间中", ChatText(None))
      else Reply("ChatSendMessageResp", OK, "消息发送成功", ChatText(Some(TextOf(v.view.roomId, q, clock))))
  }

  function InfoOutcome(v: RoomValue, decodes: bool): (o: Outcome)
    ensures Answers(o, 1308)
  {
    RowIs(15, "ChatGetRoomInfoResp");
    if decodes then Reply("ChatGetRoomInfoResp", OK, "成功", RoomData(Some(v.view), [])) else GARBLED
  }

  /** `users` is the order in which the map is gone through. */
  function UsersOutcome(users: seq<UserInfo>, decodes: bool): (o: Outcome)
    ensures Answers(o, 1310)
  {
    RowIs(17, "ChatGetRoomUsersResp");
    if decodes then Reply("ChatGetRoomUsersResp", OK, "成功", UsersData(users)) else GARBLED
  }

  function MessagesOutcome(v: RoomValue, limit: Option<int>): (o: Outcome)
    ensures Answers(o, 1404)
  {
    RowIs(21, "ChatGetMessagesResp");
    match limit
    case None => GARBLED
    case Some(n) =>
      Reply("ChatGetMessagesResp", OK, "成功", HistoryData(LastOf(v.history, if 1 <= n <= 50 then n else 20)))
  }

  /** `rooms` is the registry in the order in which it is gone through. */
  function RoomsOutcome(rooms: seq<RoomView>, req: Option<ListReq>): (o: Outcome)
    ensures Answers(o, 1502)
  {
    RowIs(23, "ChatGetRoomListResp");
    match req
    case None => GARBLED
    case Some(q) =>
      Reply("ChatGetRoomListResp", OK, "成功",
            RoomsData(PageOf(rooms, PageNumber(q.page), PageSize(q.pageSize)), ToInt32(|rooms|)))
  }

  /** What a call depends on beside the room. */
  datatype Env = Env(clock: Clock, users: seq<UserInfo>, rooms: seq<RoomView>)

  /** The ids the room registers. */
  const ROOM_IDS: set<int> := {1301, 1303, 1305, 1307, 1309, 1401, 1403, 1501}

  // The request as decoded into the type of its handler.

  function AsCreate(m: Option<Message>): Option<CreateReq> {
    if m.Some? && m.value.content.OfCreate? then Some(m.value.content.create) else None
  }

  function AsJoin(m: Option<Message>): Option<JoinReq> {
    if m.Some? && m.value.content.OfJoin? then Some(m.value.content.join) else None
  }

  function AsLeave(m: Option<Message>): Option<LeaveReq> {
    if m.Some? && m.value.content.OfLeave? then Some(m.value.content.leave) else None
  }

  function AsSend(m: Option<Message>): Option<SendReq> {
    if m.Some? && m.value.content.OfSend? then Some(m.value.content.send) else None
  }

  function AsLimit(m: Option<Message>): Option<int> {
    if m.Some? && m.value.content.OfLimit? then Some(m.value.content.limit) else None
  }

  function AsPage(m: Option<Message>): Option<ListReq> {
    if m.Some? && m.value.content.OfPage? then Some(m.value.content.list) else None
  }

  /** What the handler of an id answers. */
  function RoomOutcome(v: RoomValue, env: Env, id: int, m: Option<Message>): Outcome {
    match id
    case 1301 => CreateOutcome(v, AsCreate(m), env.clock)
    case 1303 => JoinOutcome(v, AsJoin(m), env.clock)
    case 1305 => LeaveOutcome(v, AsLeave(m))
    case 1307 => InfoOutcome(v, m.Some?)
    case 1309 => UsersOutcome(env.users, m.Some?)
    case 1401 => SendOutcome(v, AsSend(m), env.clock)
    case 1403 => MessagesOutcome(v, AsLimit(m))
    case _ => RoomsOutcome(env.rooms, AsPage(m))
  }

  /** What it makes of the room. */
  function RoomAfter(v: RoomValue, env: Env, id: int, m: Option<Message>): RoomValue {
    match id
    case 1301 => AfterCreation(v, AsCreate(m), env.clock)
    case 1303 => AfterJoining(v, AsJoin(m), env.clock)
    case 1305 => AfterLeaving(v, AsLeave(m), env.clock)
    case 1401 => AfterSending(v, AsSend(m), env.clock)
    case _ => v
  }

  /** Every answer of a room is faithful, and of the type that goes with the request. */
  lemma RoomAnswers(v: RoomValue, env: Env, id: int, m: Option<Message>)
    requires id in ROOM_IDS
    ensures Answers(RoomOutcome(v, env, id, m), id + 1) && Faithful(RoomOutcome(v, env, id, m))
  {
  }

  /** What a room answers fits what becomes of it: who was let in is a member, who has left is not, what was accepted
      is the newest of the history, and a creation is answered with the room it made, empty; nothing else changes the
      room. */
  lemma AnswerFitsRoom(v: RoomValue, env: Env, id: int, m: Message)
    requires id in ROOM_IDS
    ensures var o, n := RoomOutcome(v, env, id, Some(m)), RoomAfter(v, env, id, Some(m));
      && (id == 1301 && m.content.OfCreate? ==>
            && o.code == OK && o.resp.value.text == "房间创建成功"
            && o.resp.value.content == RoomData(Some(n.view.(currentMembers := 0)), [])
            && n.members == v.members)
      && (id == 1303 && m.content.OfJoin? ==>
            if o.code != OK then n == v && o.code == ROOM_FULL && o.resp.value.text == "房间已满"
            else
              && m.content.join.userId in n.members
              && o.resp.value.content ==
                (if n == v then RoomData(Some(v.view), []) else RoomData(Some(n.view), LastOf(n.history, 20)))
              && o.resp.value.text == (if m.content.join.userId in v.members then "用户已在房间中" else "加入房间成功"))
      && (id == 1305 && m.content.OfLeave? ==>
            && o.resp.value.text == (if m.content.leave.userId in v.members then "离开房间成功" else "用户不在房间中")
            && m.content.leave.userId !in n.members && forall u | u != m.content.leave.userId ::
              u in n.members <==> u in v.members)
      && (id == 1401 && m.content.OfSend? ==>
            match o.resp.value.content.message
            case None => n == v && o.resp.value.text == "用户不在房间中"
            case Some(said) =>
              n.history != [] && n.history[|n.history| - 1] == said && o.resp.value.text == "消息发送成功")
      && (id == 1307 ==> o.resp.value.content == RoomData(Some(v.view), []))
      && (id == 1309 ==> o.resp.value.content == UsersData(env.users))
      && (id == 1403 && m.content.OfLimit? ==>
            var limit := m.content.limit;
            o.resp.value.content == HistoryData(LastOf(v.history, if limit <= 0 || limit > 50 then 20 else limit)))
      && (id in {1307, 1309} || (id == 1403 && m.content.OfLimit?) ==> o.resp.value.text == "成功")
      && (id !in {1301, 1303, 1305, 1401} ==> n == v)
  {
  }

  // ----- the room list, told from the answers -----

  /** The rooms in the answer to a request for one page. */
  function Listed(rooms: seq<RoomView>, page: int, size: int): seq<RoomView> {
    var o := RoomsOutcome(rooms, Some(ListReq(page, size)));
    if o.resp.Some? && o.resp.value.content.RoomsData? then o.resp.value.content.rooms else []
  }

  /** The answers to pages 1 up to `n`, one after the other. */
  function ListedUpTo(rooms: seq<RoomView>, size: int, n: nat): seq<RoomView> {
    if n == 0 then [] else ListedUpTo(rooms, size, n - 1) + Listed(rooms, n, size)
  }

  lemma {:induction false} ListedArePages(rooms: seq<RoomView>, size: int, n: nat)
    requires 1 <= size <= 100
    ensures ListedUpTo(rooms, size, n) == FirstPages(rooms, size, n)
  {
    if n > 0 {
      ListedArePages(rooms, size, n - 1);
    }
  }

  /** For each legal size the answers to pages 1 up to the ceiling are all rooms in order, and later pages are
      answered with none. Other sizes are answered as 50, pages below 1 as page 1, and every answer carries the number
      of all rooms. */
  lemma AnswersTile(rooms: seq<RoomView>, size: int, page: int)
    ensures 1 <= size <= 100 ==>
      && ListedUpTo(rooms, size, PageCount(|rooms|, size)) == rooms
      && (page > PageCount(|rooms|, size) ==> Listed(rooms, page, size) == [])
    ensures size <= 0 || size > 100 ==> Listed(rooms, page, size) == Listed(rooms, page, 50)
    ensures page <= 0 ==> Listed(rooms, page, size) == Listed(rooms, 1, size)
    ensures var o := RoomsOutcome(rooms, Some(ListReq(page, size)));
      o.code == OK && o.resp.Some? && o.resp.value.content.RoomsData? && o.resp.value.content.total == ToInt32(|rooms|)
  {
    if 1 <= size <= 100 {
      ListedArePages(rooms, size, PageCount(|rooms|, size));
      PagesTile(rooms, size, PageCount(|rooms|, size) + 1);
      if page > PageCount(|rooms|, size) {
        PagesTile(rooms, size, page);
      }
    }
  }
}
