/** The chat room grain and the node-wide room registry, updated in place. */
module ChatRoom {
  import opened Common
  import opened RoomLog
  import opened GoSlice
  import opened Messages
  import opened Pages
  import opened RoomReplies

  // The responses. `Sent` is what is encoded: the objects and slices are read at that moment.

  datatype CreateResp = CreateResp(code: int, message: string, room: RoomInfo) {
    ghost function Sent(): Message
      reads room
    {
      Message("ChatCreateRoomResp", Some(code), message, RoomData(Some(room.View()), []))
    }
  }

  datatype JoinResp = JoinResp(code: int, message: string, room: Option<RoomView>, recent: Option<Slice>) {
    ghost function Sent(): Message
      requires recent.Some? ==> recent.value.Ok()
      reads if recent.Some? then {recent.value.base} else {}
    {
      Message("ChatJoinRoomResp", Some(code), message,
              RoomData(room, if recent.Some? then recent.value.Elements() else []))
    }
  }

  datatype LeaveResp = LeaveResp(code: int, message: string) {
    function Sent(): Message {
      Message("ChatLeaveRoomResp", Some(code), message, Nothing)
    }
  }

  datatype SendResp = SendResp(code: int, message: string, data: Option<ChatMessage>) {
    function Sent(): Message {
      Message("ChatSendMessageResp", Some(code), message, ChatText(data))
    }
  }

  datatype MessagesResp = MessagesResp(code: int, message: string, messages: Slice) {
    ghost function Sent(): Message
      requires messages.Ok()
      reads messages.base
    {
      Message("ChatGetMessagesResp", Some(code), message, HistoryData(messages.Elements()))
    }
  }

  datatype UsersResp = UsersResp(code: int, message: string, users: seq<UserInfo>) {
    function Sent(): Message {
      Message("ChatGetRoomUsersResp", Some(code), message, UsersData(users))
    }
  }

  datatype InfoResp = InfoResp(code: int, message: string, room: RoomView) {
    function Sent(): Message {
      Message("ChatGetRoomInfoResp", Some(code), message, RoomData(Some(room), []))
    }
  }

  datatype ListResp = ListResp(code: int, message: string, rooms: seq<RoomInfo>, total: int) {
    ghost function Sent(): Message
      reads rooms
    {
      Message("ChatGetRoomListResp", Some(code), message, RoomsData(Views(rooms), total))
    }
  }

  lemma ViewsOfPart(rooms: seq<RoomInfo>, i: nat, j: nat)
    requires i <= j <= |rooms|
    ensures Views(rooms[i..j]) == Views(rooms)[i..j]
  {
  }

  lemma ViewsOfPage(rooms: seq<RoomInfo>, page: int, size: int)
    requires page >= 1 && size >= 1
    ensures Views(PageOf(rooms, page, size)) == PageOf(Views(rooms), page, size)
  {
    var start := (page - 1) * size;
    if start < |rooms| {
      ViewsOfPart(rooms, start, if start + size > |rooms| then |rooms| else start + size);
    }
  }

  /** What the entries say at this moment. */
  ghost function Views(rooms: seq<RoomInfo>): seq<RoomView>
    reads rooms
  {
    seq(|rooms|, i requires 0 <= i < |rooms| reads rooms => rooms[i].View())
  }

  /** A registry entry. The registry, the creation response and every listing share the object. */
  class RoomInfo {
    const roomId: string
    const fixed: RoomView
    var currentMembers: int

    constructor (view: RoomView)
      ensures roomId == view.roomId && fixed == view && currentMembers == view.currentMembers
    {
      roomId, fixed, currentMembers := view.roomId, view, view.currentMembers;
    }

    function View(): RoomView
      reads this
    {
      fixed.(currentMembers := currentMembers)
    }
  }

  class RoomRegistry {
    var rooms: map<string, RoomInfo>

    ghost predicate Valid()
      reads this
    {
      forall k | k in rooms :: rooms[k].roomId == k
    }

    /** What the registry says about each room's member count. */
    ghost function Counts(): map<string, int>
      reads this, rooms.Values
    {
      map k | k in rooms :: rooms[k].currentMembers
    }

    constructor ()
      ensures Valid() && rooms == map[]
    {
      rooms := map[];
    }

    method RegisterRoom(room: RoomInfo)
      requires Valid()
      modifies this
      ensures Valid() && rooms == old(rooms)[room.roomId := room]
    {
      rooms := rooms[room.roomId := room];
    }

    method UpdateRoomMembers(roomId: string, currentMembers: int)
      requires Valid()
      modifies if roomId in rooms then {rooms[roomId]} else {}
      ensures Valid()
      ensures Counts() == if roomId in rooms then old(Counts())[roomId := currentMembers] else old(Counts())
      ensures roomId in rooms ==> rooms[roomId].currentMembers == currentMembers
    {
      if roomId in rooms {
        var room := rooms[roomId];
        room.currentMembers := currentMembers;
      }
    }

    /** Every registered entry once, in an order left open. */
    method GetAllRooms() returns (all: seq<RoomInfo>)
      requires Valid()
      ensures forall i | 0 <= i < |all| :: all[i].roomId in rooms && rooms[all[i].roomId] == all[i]
      ensures forall i, j | 0 <= i < j < |all| :: all[i] != all[j]
      ensures forall k | k in rooms :: rooms[k] in all
      ensures |all| == |rooms|
    {
      all := [];
      var todo := rooms.Keys;
      while todo != {}
        invariant todo <= rooms.Keys && |all| + |todo| == |rooms.Keys|
        invariant forall i | 0 <= i < |all| ::
            all[i].roomId in rooms && all[i].roomId !in todo && rooms[all[i].roomId] == all[i]
        invariant forall i, j | 0 <= i < j < |all| :: all[i] != all[j]
        invariant forall k | k in rooms && k !in todo :: rooms[k] in all
      {
        var k := Pick(todo);
        todo := todo - {k};
        all := all + [rooms[k]];
      }
    }
  }

  /** A history slice the room has handed out, with what it held at that moment. */
  datatype Handed = Handed(slice: Slice, was: seq<ChatMessage>)

  class ChatGrain {
    const identity: string
    const registry: RoomRegistry
    var roomName: string
    var creatorId: int
    var creatorName: string
    var maxMembers: int
    var createdAt: int
    var members: map<int, UserInfo>
    var messages: Slice
    ghost var log: Log
    ghost var handed: seq<Handed>

    /** The room state is the replay of its log. */
    ghost predicate StateOk()
      reads this`log, this`members, this`maxMembers, this`messages, messages.base
    {
      && Legal(log)
      && members.Keys == Members(log) && (forall u | u in members :: members[u].userId == u)
      && maxMembers == Cap(log)
      && messages.Ok() && messages.Elements() == History(log)
    }

    ghost predicate Intact(h: Handed)
      reads this`messages, h.slice.base
    {
      && h.slice.Ok() && h.slice.Elements() == h.was
      && (h.slice.base == messages.base ==> h.slice.off + h.slice.len <= messages.off + messages.len)
    }

    /** Every slice handed out still holds what it held, and none reaches past the end of the room's own slice. */
    ghost predicate HandedOk()
      reads this`messages, this`handed, set h | h in handed :: h.slice.base
    {
      forall i | 0 <= i < |handed| :: Intact(handed[i])
    }

    /** The registry knows the room exactly when it has been created, with the count the log says it was told. */
    ghost predicate RegistryOk()
      reads this`log, registry, registry.rooms.Values
    {
      && registry.Valid()
      && (identity in registry.rooms <==> RegCount(log).Some?)
      && (identity in registry.rooms ==> registry.rooms[identity].currentMembers == RegCount(log).value)
    }

    ghost predicate Valid()
      reads this, messages.base, set h | h in handed :: h.slice.base
      reads registry, registry.rooms.Values
    {
      StateOk() && HandedOk() && RegistryOk()
    }

    /** The registry as far as other rooms are concerned. */
    ghost function OtherCounts(): map<string, int>
      reads registry, registry.rooms.Values
    {
      registry.Counts() - {identity}
    }

    function View(): RoomView
      reads this
    {
      RoomView(identity, roomName, creatorName, creatorId, maxMembers, ToInt32(|members|), createdAt)
    }

    /** The room as a value. */
    ghost function Value(): RoomValue
      requires messages.Ok()
      reads this, messages.base
    {
      RoomValue(View(), members, messages.Elements())
    }

    constructor (identity: string, registry: RoomRegistry)
      requires registry.Valid() && identity !in registry.rooms
      ensures Valid() && log == [] && handed == []
      ensures this.identity == identity && this.registry == registry && fresh(messages.base)
    {
      this.identity, this.registry := identity, registry;
      roomName, creatorId, creatorName, createdAt := "", 0, "", 0;
      members, maxMembers := map[], DEFAULT_CAPACITY;
      var base := new ChatMessage[100];
      messages := Slice(base, 0, 0);
      log, handed := [], [];
    }

    /** `g.messages = append(g.messages, m)`: the slices handed out before are not disturbed. */
    method Push(m: ChatMessage, growth: nat)
      requires messages.Ok() && HandedOk()
      modifies this`messages, messages.base
      ensures messages.Ok() && HandedOk()
      ensures messages.Elements() == old(messages.Elements()) + [m]
      ensures messages.base == old(messages.base) || fresh(messages.base)
    {
      messages := Append(messages, m, growth);
      forall i | 0 <= i < |handed| ensures Intact(handed[i]) {
        var h := handed[i].slice;
        assert old(Intact(handed[i]));
        assert h.base != messages.base || h.off + h.len < messages.off + messages.len;
        assert h.Elements() == old(h.Elements());
      }
    }

    method GetRecentMessages(limit: nat) returns (r: Slice)
      requires Valid()
      modifies this`handed
      ensures Valid() && r.Ok() && r.Elements() == LastOf(History(log), limit) == LastOf(messages.Elements(), limit)
      ensures handed == old(handed) + [Handed(r, LastOf(History(log), limit))]
    {
      r := messages;
      if messages.len > limit {
        r := messages.Drop(messages.len - limit);
      }
      assert r.Elements() == LastOf(messages.Elements(), limit);
      var h := Handed(r, LastOf(History(log), limit));
      handed := handed + [h];
      assert Intact(h);
      forall i | 0 <= i < |handed| ensures Intact(handed[i]) {
        if i < |old(handed)| {
          assert handed[i] == old(handed)[i] && old(Intact(handed[i]));
        }
      }
    }

    // The state change of a successful join, leave, message and creation. Each logs exactly one event.

    method Admit(userId: int, username: string, clock: Clock, growth: nat)
      requires StateOk() && HandedOk() && JudgeJoin(members.Keys, maxMembers, userId) == Admitted
      modifies this`members, this`messages, this`log, messages.base
      ensures messages.base == old(messages.base) || fresh(messages.base)
      ensures StateOk() && HandedOk() && RegCount(log) == RegCount(old(log)) &&
          log == old(log) + [Joined(userId, JoinNoteOf(identity, username, clock))]
      ensures Value() == AfterJoining(old(Value()), Some(JoinReq(userId, username)), clock)
      ensures members == old(members)[userId := UserInfo(userId, username, true, identity, clock.millis)]
    {
      ghost var v := Value();
      var systemMsg := JoinNoteOf(identity, username, clock);
      CapacityBounds(log);
      AfterJoin(log, userId, systemMsg);
      members := members[userId := UserInfo(userId, username, true, identity, clock.millis)];
      Push(systemMsg, growth);
      log := log + [Joined(userId, systemMsg)];
      assert |members| == |v.members| + 1 && messages.Elements() == v.history + [systemMsg];
      assert View() == v.view.(currentMembers := ToInt32(|v.members| + 1));
    }

    method Forget(userId: int, username: string, clock: Clock, growth: nat)
      requires StateOk() && HandedOk() && userId in members
      modifies this`members, this`messages, this`log, messages.base
      ensures messages.base == old(messages.base) || fresh(messages.base)
      ensures StateOk() && HandedOk()
      ensures log == old(log) + [Left(userId, LeaveNoteOf(identity, username, clock))]
      ensures members == old(members) - {userId} && ToInt32(|members|) == |members| == |Members(log)|
      ensures RegCount(log) == if RegCount(old(log)).Some? then Some(|members|) else None
      ensures Value() == AfterLeaving(old(Value()), Some(LeaveReq(userId, username)), clock)
    {
      ghost var v := Value();
      var systemMsg := LeaveNoteOf(identity, username, clock);
      AfterLeave(log, userId, systemMsg);
      members := members - {userId};
      Push(systemMsg, growth);
      log := log + [Left(userId, systemMsg)];
      assert |members| == |members.Keys|;
      assert |members| == |v.members| - 1 && messages.Elements() == v.history + [systemMsg];
      assert View() == v.view.(currentMembers := ToInt32(|v.members| - 1));
    }

    /** The registry hears how many members are left. */
    method TellRegistry()
      requires StateOk() && HandedOk() && registry.Valid() && ToInt32(|members|) == |members|
      requires RegCount(log) == if identity in registry.rooms then Some(|members|) else None
      modifies if identity in registry.rooms then {registry.rooms[identity]} else {}
      ensures Valid()
      ensures registry.Counts() == if identity in registry.rooms then old(registry.Counts())[identity := |members|]
          else old(registry.Counts())
    {
      registry.UpdateRoomMembers(identity, ToInt32(|members|));
    }

    method Dismiss(userId: int, username: string, clock: Clock, growth: nat)
      requires Valid() && userId in members
      modifies this`members, this`messages, this`log, messages.base
      modifies if identity in registry.rooms then {registry.rooms[identity]} else {}
      ensures messages.base == old(messages.base) || fresh(messages.base)
      ensures Valid() && log == old(log) + [Left(userId, LeaveNoteOf(identity, username, clock))]
      ensures members == old(members) - {userId}
      ensures registry.Counts() == if identity in registry.rooms then old(registry.Counts())[identity := |members|]
          else old(registry.Counts())
      ensures Value() == AfterLeaving(old(Value()), Some(LeaveReq(userId, username)), clock)
    {
      Forget(userId, username, clock, growth);
      assert registry.Counts() == old(registry.Counts());
      TellRegistry();
    }

    /** `if len(messages) > 100 { messages = messages[len(messages)-100:] }` */
    method Trim()
      requires messages.Ok() && HandedOk()
      modifies this`messages
      ensures messages.Ok() && HandedOk() && messages.base == old(messages.base)
      ensures messages.Elements() == LastOf(old(messages.Elements()), HISTORY_LIMIT)
    {
      if messages.len > 100 {
        messages := messages.Drop(messages.len - 100);
      }
      forall i | 0 <= i < |handed| ensures Intact(handed[i]) {
        assert old(Intact(handed[i]));
      }
    }

    method Post(chatMsg: ChatMessage, growth: nat)
      requires StateOk() && HandedOk() && chatMsg.senderId in members
      modifies this`messages, this`log, messages.base
      ensures messages.base == old(messages.base) || fresh(messages.base)
      ensures StateOk() && HandedOk() && RegCount(log) == RegCount(old(log)) && log == old(log) + [Sent(chatMsg)]
      ensures messages.Elements() == LastOf(old(messages.Elements()) + [chatMsg], HISTORY_LIMIT)
    {
      AfterSend(log, chatMsg);
      Push(chatMsg, growth);
      Trim();
      log := log + [Sent(chatMsg)];
    }

    method Configure(req: CreateReq, clock: Clock)
      requires StateOk() && HandedOk() && IsInt32(req.maxMembers)
      modifies this`roomName, this`creatorId, this`creatorName, this`maxMembers, this`createdAt, this`log
      ensures StateOk() && HandedOk() && log == old(log) + [Created(req.maxMembers)] && RegCount(log) == Some(0)
      ensures View() == RoomView(identity, req.roomName, req.creatorName, req.creatorId, maxMembers,
          ToInt32(|members|), clock.millis)
    {
      AfterCreate(log, req.maxMembers);
      roomName, creatorId, creatorName := req.roomName, req.creatorId, req.creatorName;
      if req.maxMembers > 0 {
        maxMembers := req.maxMembers;
      }
      createdAt := clock.millis;
      log := log + [Created(req.maxMembers)];
    }

    method Create(req: CreateReq, clock: Clock) returns (room: RoomInfo)
      requires Valid() && IsInt32(req.maxMembers)
      modifies this`roomName, this`creatorId, this`creatorName, this`maxMembers, this`createdAt, this`log, registry
      ensures Valid() && log == old(log) + [Created(req.maxMembers)]
      ensures View() == RoomView(identity, req.roomName, req.creatorName, req.creatorId, maxMembers,
          ToInt32(|members|), clock.millis)
      ensures fresh(room) && room.fixed == View().(currentMembers := 0) && room.currentMembers == 0
      ensures registry.rooms == old(registry.rooms)[identity := room]
    {
      Configure(req, clock);
      room := new RoomInfo(View().(currentMembers := 0));
      registry.RegisterRoom(room);
    }

    // The request handlers. `None` is a request that does not decode.

    /** What somebody who has just come in is told. */
    method Greet() returns (resp: JoinResp)
      requires Valid()
      modifies this`handed
      ensures Valid() && resp.code == OK && resp.message == "加入房间成功" && resp.room == Some(View())
      ensures resp.recent.Some? && resp.recent.value.Ok() && resp.recent.value.Elements() == LastOf(History(log), 20)
      ensures handed == old(handed) + [Handed(resp.recent.value, resp.recent.value.Elements())]
      ensures Outcome(Some(resp.Sent()), OK) == WelcomeReply(Value())
    {
      var recent := GetRecentMessages(20);
      resp := JoinResp(OK, "加入房间成功", Some(View()), Some(recent));
    }

    /** The rest of a join that is let in. */
    method Welcome(q: JoinReq, clock: Clock, growth: nat) returns (resp: JoinResp)
      requires Valid() && JudgeJoin(members.Keys, maxMembers, q.userId) == Admitted
      modifies this`members, this`messages, this`log, this`handed, messages.base
      ensures messages.base == old(messages.base) || fresh(messages.base)
      ensures Valid() && log == old(log) + [Joined(q.userId, JoinNoteOf(identity, q.username, clock))]
      ensures members == old(members)[q.userId := UserInfo(q.userId, q.username, true, identity, clock.millis)]
      ensures resp.code == OK && resp.message == "加入房间成功" && resp.room == Some(View())
      ensures resp.recent.Some? && resp.recent.value.Ok() && resp.recent.value.Elements() == LastOf(History(log), 20)
      ensures handed == old(handed) + [Handed(resp.recent.value, resp.recent.value.Elements())]
      ensures Outcome(Some(resp.Sent()), OK) == WelcomeReply(Value())
      ensures Value() == AfterJoining(old(Value()), Some(q), clock)
    {
      Admit(q.userId, q.username, clock, growth);
      assert RegistryOk();
      resp := Greet();
    }

    /** A successful join logs one event; a refused one changes nothing. */
    method ChatJoinRoomReq(req: Option<JoinReq>, clock: Clock, growth: nat) returns (resp: Option<JoinResp>, code: int)
      requires Valid()
      modifies this`members, this`messages, this`log, this`handed, messages.base
      ensures messages.base == old(messages.base) || fresh(messages.base)
      ensures Valid() && old(handed) <= handed
      ensures resp.Some? ==> resp.value.code == code
      ensures req.None? ==> resp == None && code == DESERIALIZE_ERROR
      ensures req.None? || JudgeJoin(old(members.Keys), maxMembers, req.value.userId) != Admitted ==>
        log == old(log) && members == old(members) && messages == old(messages) && handed == old(handed)
      ensures req.Some? ==>
        var u := req.value.userId;
        match JudgeJoin(old(members.Keys), maxMembers, u)
        case RoomFull => code == ROOM_FULL && resp == Some(JoinResp(ROOM_FULL, "房间已满", None, None))
        case AlreadyIn => code == OK && resp == Some(JoinResp(OK, "用户已在房间中", Some(View()), None))
        case Admitted =>
          && code == OK
          && log == old(log) + [Joined(u, JoinNoteOf(identity, req.value.username, clock))]
          && members == old(members)[u := UserInfo(u, req.value.username, true, identity, clock.millis)]
          && resp.Some? && resp.value.room == Some(View()) && resp.value.recent.Some?
          && resp.value.recent.value.Ok() && resp.value.recent.value.Elements() == LastOf(History(log), 20)
          && handed == old(handed) + [Handed(resp.value.recent.value, resp.value.recent.value.Elements())]
      ensures req.Some? && JudgeJoin(old(members.Keys), maxMembers, req.value.userId) == Admitted ==>
        && log != [] && Last(log).Joined? && resp.Some? && resp.value.message == "加入房间成功"
        && Last(log).msg == ChatMessage(msgId := clock.stamp, senderId := 0, senderName := "System", roomId := identity,
             kind := JoinNote, content := req.value.username + " 加入了房间", timestamp := clock.millis)
      ensures resp.Some? && resp.value.recent.Some? ==> resp.value.recent.value.Ok()
      ensures Outcome(if resp.Some? then Some(resp.value.Sent()) else None, code) ==
          JoinOutcome(old(Value()), req, clock)
      ensures Value() == AfterJoining(old(Value()), req, clock)
    {
      if req.None? {
        return None, DESERIALIZE_ERROR;
      }
      var userId, username := req.value.userId, req.value.username;
      if ToInt32(|members|) >= maxMembers {
        return Some(JoinResp(ROOM_FULL, "房间已满", None, None)), ROOM_FULL;
      }
      if userId in members {
        return Some(JoinResp(OK, "用户已在房间中", Some(View()), None)), OK;
      }
      var welcome := Welcome(req.value, clock, growth);
      return Some(welcome), OK;
    }

    /** Leaving is always answered OK; it logs one event, and tells the registry, when the user was in the room. */
    method ChatLeaveRoomReq(req: Option<LeaveReq>, clock: Clock, growth: nat)
        returns (resp: Option<LeaveResp>, code: int)
      requires Valid()
      modifies this`members, this`messages, this`log, messages.base
      modifies if identity in registry.rooms then {registry.rooms[identity]} else {}
      ensures messages.base == old(messages.base) || fresh(messages.base)
      ensures Valid() && OtherCounts() == old(OtherCounts())
      ensures resp.Some? ==> resp.value.code == code
      ensures req.None? ==> resp == None && code == DESERIALIZE_ERROR
      ensures req.Some? ==> code == OK && resp.Some?
      ensures if req.Some? && req.value.userId in old(members)
        then log == old(log) + [Left(req.value.userId, LeaveNoteOf(identity, req.value.username, clock))]
          && members == old(members) - {req.value.userId}
          && (identity in registry.rooms ==> registry.Counts()[identity] == |members|)
        else log == old(log) && members == old(members) && registry.Counts() == old(registry.Counts())
      ensures Outcome(if resp.Some? then Some(resp.value.Sent()) else None, code) == LeaveOutcome(old(Value()), req)
      ensures req.Some? && req.value.userId in old(members) ==>
        && log != [] && Last(log).Left? && resp.Some? && resp.value.message == "离开房间成功"
        && Last(log).msg == ChatMessage(msgId := clock.stamp, senderId := 0, senderName := "System", roomId := identity,
             kind := LeaveNote, content := req.value.username + " 离开了房间", timestamp := clock.millis)
      ensures req.Some? && req.value.userId !in old(members) ==> resp.Some? && resp.value.message == "用户不在房间中"
      ensures Value() == AfterLeaving(old(Value()), req, clock)
    {
      if req.None? {
        return None, DESERIALIZE_ERROR;
      }
      var userId, username := req.value.userId, req.value.username;
      if userId !in members {
        return Some(LeaveResp(OK, "用户不在房间中")), OK;
      }
      Dismiss(userId, username, clock, growth);
      return Some(LeaveResp(OK, "离开房间成功")), OK;
    }

    /** A message from somebody outside the room is refused with an OK code and no data. */
    method ChatSendMessageReq(req: Option<SendReq>, clock: Clock, growth: nat)
        returns (resp: Option<SendResp>, code: int)
      requires Valid()
      modifies this`messages, this`log, messages.base
      ensures messages.base == old(messages.base) || fresh(messages.base)
      ensures Valid()
      ensures resp.Some? ==> resp.value.code == code
      ensures req.None? ==> resp == None && code == DESERIALIZE_ERROR
      ensures req.Some? ==> code == OK && resp.Some?
      ensures if req.Some? && req.value.senderId in members
        then log == old(log) + [Sent(TextOf(identity, req.value, clock))] &&
            resp.value.data == Some(TextOf(identity, req.value, clock))
        else log == old(log) && (resp.Some? ==> resp.value.data == None)
      ensures Outcome(if resp.Some? then Some(resp.value.Sent()) else None, code) ==
          SendOutcome(old(Value()), req, clock)
      ensures req.Some? && req.value.senderId in members ==>
        && resp.Some? && resp.value.message == "消息发送成功"
        && resp.value.data == Some(ChatMessage(msgId := clock.stamp, senderId := req.value.senderId,
             senderName := req.value.senderName, roomId := identity, kind := req.value.kind,
             content := req.value.content, timestamp := clock.millis))
      ensures req.Some? && req.value.senderId !in members ==> resp.Some? && resp.value.message == "用户不在房间中"
      ensures Value() == AfterSending(old(Value()), req, clock)
    {
      if req.None? {
        return None, DESERIALIZE_ERROR;
      }
      if req.value.senderId !in members {
        return Some(SendResp(OK, "用户不在房间中", None)), OK;
      }
      var chatMsg := TextOf(identity, req.value, clock);
      Post(chatMsg, growth);
      return Some(SendResp(OK, "消息发送成功", Some(chatMsg))), OK;
    }

    /** The response carries the very object the registry keeps. */
    method ChatCreateRoomReq(req: Option<CreateReq>, clock: Clock) returns (resp: Option<CreateResp>, code: int)
      requires Valid() && (req.Some? ==> IsInt32(req.value.maxMembers))
      modifies this`roomName, this`creatorId, this`creatorName, this`maxMembers, this`createdAt, this`log, registry
      ensures Valid()
      ensures resp.Some? ==> resp.value.code == code
      ensures req.None? ==> resp == None && code == DESERIALIZE_ERROR
      ensures req.None? ==> log == old(log) && registry.rooms == old(registry.rooms)
      ensures registry.rooms == old(registry.rooms) || (identity in registry.rooms && fresh(registry.rooms[identity]))
      ensures req.Some? ==>
        && code == OK && resp.Some?
        && log == old(log) + [Created(req.value.maxMembers)]
        && registry.rooms == old(registry.rooms)[identity := resp.value.room]
        && resp.value.room.fixed == View().(currentMembers := 0)
        && roomName == req.value.roomName && creatorId == req.value.creatorId && creatorName == req.value.creatorName
      ensures Outcome(if resp.Some? then Some(resp.value.Sent()) else None, code) ==
          CreateOutcome(old(Value()), req, clock)
      ensures req.Some? ==>
        && createdAt == clock.millis && resp.value.room.currentMembers == 0
        && maxMembers == if req.value.maxMembers > 0 then req.value.maxMembers else old(maxMembers)
      ensures Value() == AfterCreation(old(Value()), req, clock)
    {
      if req.None? {
        return None, DESERIALIZE_ERROR;
      }
      var room := Create(req.value, clock);
      return Some(CreateResp(OK, "房间创建成功", room)), OK;
    }

    /** Limits outside 1 to 50 mean 20. The slice handed out shares the room's backing array. */
    method ChatGetMessagesReq(limit: Option<int>) returns (resp: Option<MessagesResp>, code: int)
      requires Valid()
      modifies this`handed
      ensures Valid() && old(handed) <= handed
      ensures resp.Some? ==> resp.value.code == code
      ensures limit.None? ==> resp == None && code == DESERIALIZE_ERROR
      ensures limit.Some? ==>
        && code == OK && resp.Some? && resp.value.messages.Ok()
        && resp.value.messages.Elements() == LastOf(History(log), if 1 <= limit.value <= 50 then limit.value else 20)
        && handed == old(handed) + [Handed(resp.value.messages, resp.value.messages.Elements())]
      ensures resp.Some? ==> resp.value.messages.Ok()
      ensures Outcome(if resp.Some? then Some(resp.value.Sent()) else None, code) ==
          MessagesOutcome(old(Value()), limit)
    {
      if limit.None? {
        return None, DESERIALIZE_ERROR;
      }
      var n := limit.value;
      if n <= 0 || n > 50 {
        n := 20;
      }
      var messages := GetRecentMessages(n);
      return Some(MessagesResp(OK, "成功", messages)), OK;
    }

    /** Every member once, in an order left open. */
    method ChatGetRoomUsersReq(decodes: bool) returns (resp: Option<UsersResp>, code: int)
      requires Valid()
      ensures resp.Some? ==> resp.value.code == code
      ensures if decodes then code == OK && resp.Some? else resp == None && code == DESERIALIZE_ERROR
      ensures decodes ==> var users := resp.value.users;
        && |users| == |members|
        && (forall i | 0 <= i < |users| :: users[i].userId in members && members[users[i].userId] == users[i])
        && (forall i, j | 0 <= i < j < |users| :: users[i].userId != users[j].userId)
      ensures Outcome(if resp.Some? then Some(resp.value.Sent()) else None, code) ==
              UsersOutcome(if resp.Some? then resp.value.users else [], decodes)
    {
      if !decodes {
        return None, DESERIALIZE_ERROR;
      }
      var users: seq<UserInfo> := [];
      var todo := members.Keys;
      while todo != {}
        invariant todo <= members.Keys && |users| + |todo| == |members.Keys|
        invariant forall i | 0 <= i < |users| ::
            users[i].userId in members && users[i].userId !in todo && members[users[i].userId] == users[i]
        invariant forall i, j | 0 <= i < j < |users| :: users[i].userId != users[j].userId
      {
        var u := Pick(todo);
        todo := todo - {u};
        users := users + [members[u]];
      }
      return Some(UsersResp(OK, "成功", users)), OK;
    }

    method ChatGetRoomInfoReq(decodes: bool) returns (resp: Option<InfoResp>, code: int)
      requires Valid()
      ensures if decodes then code == OK && resp.Some? && resp.value.code == OK
          else resp == None && code == DESERIALIZE_ERROR
      ensures decodes ==> resp.value.room == View()
      ensures decodes ==> resp.value.room.currentMembers == |Members(log)| == Joins(log) - Leaves(log)
      ensures Outcome(if resp.Some? then Some(resp.value.Sent()) else None, code) == InfoOutcome(Value(), decodes)
    {
      if !decodes {
        return None, DESERIALIZE_ERROR;
      }
      CapacityBounds(log);
      MembersAreJoinsMinusLeaves(log);
      return Some(InfoResp(OK, "成功", View())), OK;
    }

    /** One page of some enumeration of the registry, and the number of rooms. */
    method ChatGetRoomListReq(req: Option<ListReq>)
        returns (resp: Option<ListResp>, code: int, ghost all: seq<RoomInfo>)
      requires registry.Valid()
      requires req.Some? ==> IsInt32(req.value.page) && IsInt32(req.value.pageSize)
      ensures resp.Some? ==> resp.value.code == code
      ensures req.None? ==> resp == None && code == DESERIALIZE_ERROR
      ensures req.Some? ==>
        && (forall i | 0 <= i < |all| :: all[i].roomId in registry.rooms && registry.rooms[all[i].roomId] == all[i])
        && (forall i, j | 0 <= i < j < |all| :: all[i] != all[j])
        && |all| == |registry.rooms|
        && code == OK
        && resp == Some(ListResp(OK, "成功", PageOf(all, PageNumber(req.value.page), PageSize(req.value.pageSize)),
            ToInt32(|registry.rooms|)))
        && (|registry.rooms| <= MAX_INT32 ==> resp.value.total == |all|)
      ensures Outcome(if resp.Some? then Some(resp.value.Sent()) else None, code) == RoomsOutcome(Views(all), req)
    {
      all := [];
      if req.None? {
        return None, DESERIALIZE_ERROR, all;
      }
      var rooms := registry.GetAllRooms();
      all := rooms;
      var total := ToInt32(|rooms|);
      var page, pageSize := req.value.page, req.value.pageSize;
      if page <= 0 {
        page := 1;
      }
      if pageSize <= 0 || pageSize > 100 {
        pageSize := 50;
      }
      rooms := Cut(rooms, page, pageSize);
      ViewsOfPage(all, page, pageSize);
      resp, code := Some(ListResp(OK, "成功", rooms, total)), OK;
    }
  }

  datatype RoomCall =
    | JoinCall(join: Option<JoinReq>, clock: Clock, growth: nat)
    | LeaveCall(leave: Option<LeaveReq>, clock: Clock, growth: nat)
    | SendCall(send: Option<SendReq>, clock: Clock, growth: nat)
    | CreateCall(create: Option<CreateReq>, clock: Clock)
    | MessagesCall(limit: Option<int>)

  predicate Decodable(call: RoomCall) {
    call.CreateCall? && call.create.Some? ==> IsInt32(call.create.value.maxMembers)
  }

  // ----- what a sequence of requests logs -----

  /** What one request adds to the log of the room. */
  function LogAfter(room: string, log: Log, call: RoomCall): Log {
    match call
    case JoinCall(Some(q), clock, _) =>
      if JudgeJoin(Members(log), Cap(log), q.userId) == Admitted
      then log + [Joined(q.userId, JoinNoteOf(room, q.username, clock))]
      else log
    case LeaveCall(Some(q), clock, _) =>
      if q.userId in Members(log) then log + [Left(q.userId, LeaveNoteOf(room, q.username, clock))] else log
    case SendCall(Some(q), clock, _) =>
      if q.senderId in Members(log) then log + [Sent(TextOf(room, q, clock))] else log
    case CreateCall(Some(q), _) => log + [Created(q.maxMembers)]
    case _ => log
  }

  function LogAfterAll(room: string, log: Log, calls: seq<RoomCall>): Log {
    if calls == [] then log
    else LogAfter(room, LogAfterAll(room, log, calls[..|calls| - 1]), calls[|calls| - 1])
  }

  /** The message that a request stands for, field by field: a note of an admitted join or of a member's leave, or
      what a member says. */
  function LineOf(room: string, log: Log, call: RoomCall): seq<ChatMessage> {
    match call
    case JoinCall(Some(q), clock, _) =>
      if q.userId !in Members(log) && ToInt32(|Members(log)|) < Cap(log)
      then [ChatMessage(kind := JoinNote, content := q.username + " 加入了房间", senderId := 0, senderName := "System",
                        roomId := room, msgId := clock.stamp, timestamp := clock.millis)]
      else []
    case LeaveCall(Some(q), clock, _) =>
      if q.userId in Members(log)
      then [ChatMessage(kind := LeaveNote, content := q.username + " 离开了房间", senderId := 0, senderName := "System",
                        roomId := room, msgId := clock.stamp, timestamp := clock.millis)]
      else []
    case SendCall(Some(q), clock, _) =>
      if q.senderId in Members(log)
      then [ChatMessage(kind := q.kind, content := q.content, senderId := q.senderId, senderName := q.senderName,
                        roomId := room, msgId := clock.stamp, timestamp := clock.millis)]
      else []
    case _ => []
  }

  function LinesOf(room: string, log: Log, calls: seq<RoomCall>): seq<ChatMessage> {
    if calls == [] then []
    else
      var front := calls[..|calls| - 1];
      LinesOf(room, log, front) + LineOf(room, LogAfterAll(room, log, front), calls[|calls| - 1])
  }

  lemma OneLine(room: string, log: Log, call: RoomCall)
    ensures Appended(LogAfter(room, log, call)) == Appended(log) + LineOf(room, log, call)
  {
    var after := LogAfter(room, log, call);
    if after != log {
      assert Front(after) == log;
    }
  }

  /** Over any sequence of requests: what the room has appended is, in order and field by field, what the requests
      said that were made by members, and the notes of those that came and went. */
  lemma {:induction false} LinesAreRequests(room: string, log: Log, calls: seq<RoomCall>)
    ensures Appended(LogAfterAll(room, log, calls)) == Appended(log) + LinesOf(room, log, calls)
  {
    if calls != [] {
      var front := calls[..|calls| - 1];
      LinesAreRequests(room, log, front);
      OneLine(room, LogAfterAll(room, log, front), calls[|calls| - 1]);
    }
  }

  /** Requests that do not touch the registry. */
  method ServeTalk(g: ChatGrain, call: RoomCall)
    requires g.Valid() && (call.JoinCall? || call.SendCall? || call.MessagesCall?)
    modifies g, g.messages.base
    ensures g.Valid() && old(g.handed) <= g.handed && g.log == LogAfter(g.identity, old(g.log), call)
    ensures g.messages.base == old(g.messages.base) || fresh(g.messages.base)
  {
    match call {
      case JoinCall(req, clock, growth) => var r, c := g.ChatJoinRoomReq(req, clock, growth);
      case SendCall(req, clock, growth) => var r, c := g.ChatSendMessageReq(req, clock, growth);
      case MessagesCall(limit) => var r, c := g.ChatGetMessagesReq(limit);
    }
  }

  /** Requests that do. */
  method ServeLeave(g: ChatGrain, call: RoomCall)
    requires g.Valid() && call.LeaveCall?
    modifies g, g.messages.base
    modifies if g.identity in g.registry.rooms then {g.registry.rooms[g.identity]} else {}
    ensures g.Valid() && old(g.handed) <= g.handed && g.log == LogAfter(g.identity, old(g.log), call)
    ensures g.messages.base == old(g.messages.base) || fresh(g.messages.base)
  {
    var r, c := g.ChatLeaveRoomReq(call.leave, call.clock, call.growth);
  }

  method ServeOne(g: ChatGrain, call: RoomCall)
    requires g.Valid() && Decodable(call)
    modifies g, g.messages.base, g.registry
    modifies if g.identity in g.registry.rooms then {g.registry.rooms[g.identity]} else {}
    ensures g.Valid() && old(g.handed) <= g.handed && g.log == LogAfter(g.identity, old(g.log), call)
    ensures g.messages.base == old(g.messages.base) || fresh(g.messages.base)
    ensures g.registry.rooms == old(g.registry.rooms) ||
        (g.identity in g.registry.rooms && fresh(g.registry.rooms[g.identity]))
  {
    match call {
      case LeaveCall(_, _, _) => ServeLeave(g, call);
      case CreateCall(req, clock) => var r, c := g.ChatCreateRoomReq(req, clock);
      case _ => ServeTalk(g, call);
    }
  }

  lemma PrefixTrans<T>(a: seq<T>, b: seq<T>, c: seq<T>)
    requires a <= b <= c
    ensures a <= c
  {
  }

  /** Any sequence of requests: a history slice handed out at any time keeps its contents through every later append,
      reallocation and trim, and the room stays the replay of its log. */
  method Serve(g: ChatGrain, calls: seq<RoomCall>)
    requires g.Valid() && forall i | 0 <= i < |calls| :: Decodable(calls[i])
    modifies g, g.messages.base, g.registry
    modifies if g.identity in g.registry.rooms then {g.registry.rooms[g.identity]} else {}
    ensures g.Valid() && old(g.handed) <= g.handed
    ensures g.log == LogAfterAll(g.identity, old(g.log), calls)
    ensures Appended(g.log) == old(Appended(g.log)) + LinesOf(g.identity, old(g.log), calls)
    ensures forall i | 0 <= i < |old(g.handed)| ::
      var s := old(g.handed)[i].slice; s.Ok() && s.Elements() == old(s.Elements())
  {
    ghost var log, handed := g.log, g.handed;
    var i := 0;
    while i < |calls|
      invariant 0 <= i <= |calls| && g.Valid()
      invariant g.messages.base == old(g.messages.base) || fresh(g.messages.base)
      invariant g.registry.rooms == old(g.registry.rooms) ||
          (g.identity in g.registry.rooms && fresh(g.registry.rooms[g.identity]))
      invariant g.log == LogAfterAll(g.identity, log, calls[..i]) && handed <= g.handed
    {
      ghost var handed1 := g.handed;
      ServeOne(g, calls[i]);
      PrefixTrans(handed, handed1, g.handed);
      assert calls[..i + 1][..i] == calls[..i];
      i := i + 1;
    }
    assert calls[..i] == calls;
    LinesAreRequests(g.identity, log, calls);
    forall j | 0 <= j < |handed| ensures var s := handed[j].slice; s.Ok() && s.Elements() == old(s.Elements()) {
      assert g.handed[j] == handed[j] && g.Intact(g.handed[j]);
      assert old(g.Intact(g.handed[j]));
    }
  }
}
