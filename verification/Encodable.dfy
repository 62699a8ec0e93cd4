/**
 Why no answer of the two grains fails to encode: what they store and send back is made of fields of requests that have
 been decoded, of constant texts, and of names the grains are addressed by.
 */
module Encodable {
  import opened Common
  import opened RoomLog
  import opened MsgId
  import opened Pages
  import opened Messages
  import opened RpcEnvelope
  import opened RoomReplies
  import opened UserGrain
  import opened GrainRpc

  /** Which strings a field may hold: for protobuf, the valid UTF-8 ones. */
  type Clean = string -> bool

  predicate CleanChat(clean: Clean, m: ChatMessage) {
    clean(m.msgId) && clean(m.senderName) && clean(m.roomId) && clean(m.content)
  }

  predicate CleanUser(clean: Clean, u: UserInfo) {
    clean(u.username) && clean(u.currentRoomId)
  }

  predicate CleanView(clean: Clean, v: RoomView) {
    clean(v.roomId) && clean(v.roomName) && clean(v.creatorName)
  }

  predicate CleanContent(clean: Clean, c: Content) {
    match c
    case Nothing => true
    case OfLogin(q) => clean(q.username) && clean(q.sessionId)
    case OfJoin(q) => clean(q.username)
    case OfLeave(q) => clean(q.username)
    case OfSend(q) => clean(q.senderName) && clean(q.content)
    case OfCreate(q) => clean(q.roomName) && clean(q.creatorName)
    case OfLimit(_) => true
    case OfPage(_) => true
    case ChatText(m) => m.Some? ==> CleanChat(clean, m.value)
    case UserData(u) => CleanUser(clean, u)
    case RoomData(r, recent) => (r.Some? ==> CleanView(clean, r.value)) && CleanHistory(clean, recent)
    case HistoryData(ms) => CleanHistory(clean, ms)
    case UsersData(us) => forall i | 0 <= i < |us| :: CleanUser(clean, us[i])
    case RoomsData(rs, _) => forall i | 0 <= i < |rs| :: CleanView(clean, rs[i])
  }

  predicate CleanHistory(clean: Clean, ms: seq<ChatMessage>) {
    forall i | 0 <= i < |ms| :: CleanChat(clean, ms[i])
  }

  predicate CleanMessage(clean: Clean, m: Message) {
    clean(m.text) && CleanContent(clean, m.content)
  }

  /** The texts in the program. */
  predicate CleanTexts(clean: Clean) {
    && clean("") && clean("System") && clean(" 加入了房间") && clean(" 离开了房间") && clean("成功")
    && clean("房间创建成功") && clean("房间已满") && clean("用户已在房间中") && clean("加入房间成功")
    && clean("离开房间成功") && clean("用户不在房间中") && clean("消息发送成功") && clean("登录成功") && clean("登出成功")
  }

  /** A message encodes if and only if its fields may hold what they hold, which is so for the program's own texts and
      for what is put together from strings for which it is so. */
  ghost predicate FieldWise(codec: Codec, clean: Clean) {
    && (forall m :: codec.marshal(m).Some? <==> CleanMessage(clean, m))
    && (forall a, b | clean(a) && clean(b) :: clean(a + b))
    && CleanTexts(clean)
  }

  // ----- the two grains' state -----

  predicate CleanRoom(clean: Clean, v: RoomValue) {
    && CleanView(clean, v.view) && CleanHistory(clean, v.history)
    && (forall u | u in v.members :: CleanUser(clean, v.members[u]))
  }

  predicate CleanEnv(clean: Clean, env: Env) {
    && clean(env.clock.stamp)
    && (forall i | 0 <= i < |env.users| :: CleanUser(clean, env.users[i]))
    && (forall i | 0 <= i < |env.rooms| :: CleanView(clean, env.rooms[i]))
  }

  predicate CleanGrain(clean: Clean, u: User) {
    CleanUser(clean, u.info) && clean(u.sessionId)
  }

  /** Whatever a clean room is asked, it stays clean. */
  lemma RoomStaysClean(codec: Codec, clean: Clean, v: RoomValue, env: Env, id: int, m: Message)
    requires FieldWise(codec, clean) && CleanRoom(clean, v) && CleanEnv(clean, env) && CleanMessage(clean, m)
    ensures CleanRoom(clean, RoomAfter(v, env, id, Some(m)))
  {
  }

  predicate CleanOutcome(clean: Clean, o: Outcome) {
    o.resp.Some? ==> CleanMessage(clean, o.resp.value)
  }

  // And what it answers is clean.

  lemma JoinAnswerIsClean(codec: Codec, clean: Clean, v: RoomValue, q: Option<JoinReq>, clock: Clock)
    requires FieldWise(codec, clean) && CleanRoom(clean, v) && clean(clock.stamp)
    requires q.Some? ==> clean(q.value.username)
    ensures CleanOutcome(clean, JoinOutcome(v, q, clock))
  {
    assert CleanRoom(clean, AfterJoining(v, q, clock));
  }

  lemma CreateAnswerIsClean(codec: Codec, clean: Clean, v: RoomValue, q: Option<CreateReq>, clock: Clock)
    requires FieldWise(codec, clean) && CleanRoom(clean, v)
    requires q.Some? ==> clean(q.value.roomName) && clean(q.value.creatorName)
    ensures CleanOutcome(clean, CreateOutcome(v, q, clock))
  {
  }

  lemma LeaveAnswerIsClean(codec: Codec, clean: Clean, v: RoomValue, q: Option<LeaveReq>)
    requires FieldWise(codec, clean)
    ensures CleanOutcome(clean, LeaveOutcome(v, q))
  {
  }

  lemma SendAnswerIsClean(codec: Codec, clean: Clean, v: RoomValue, q: Option<SendReq>, clock: Clock)
    requires FieldWise(codec, clean) && CleanRoom(clean, v) && clean(clock.stamp)
    requires q.Some? ==> clean(q.value.senderName) && clean(q.value.content)
    ensures CleanOutcome(clean, SendOutcome(v, q, clock))
  {
  }

  lemma HistoryAnswerIsClean(clean: Clean, v: RoomValue, limit: Option<int>)
    requires CleanTexts(clean) && CleanRoom(clean, v)
    ensures CleanOutcome(clean, MessagesOutcome(v, limit)) && CleanOutcome(clean, InfoOutcome(v, true))
  {
  }

  lemma PageIsClean(clean: Clean, rooms: seq<RoomView>, page: int, size: int)
    requires page >= 1 && size >= 1 && forall i | 0 <= i < |rooms| :: CleanView(clean, rooms[i])
    ensures forall i | 0 <= i < |PageOf(rooms, page, size)| :: CleanView(clean, PageOf(rooms, page, size)[i])
  {
  }

  lemma UsersAnswerIsClean(clean: Clean, env: Env)
    requires CleanTexts(clean) && CleanEnv(clean, env)
    ensures CleanOutcome(clean, UsersOutcome(env.users, true))
  {
  }

  lemma RoomsAnswerIsClean(clean: Clean, env: Env, req: Option<ListReq>)
    requires CleanTexts(clean) && CleanEnv(clean, env)
    ensures CleanOutcome(clean, RoomsOutcome(env.rooms, req))
  {
    if req.Some? {
      PageIsClean(clean, env.rooms, PageNumber(req.value.page), PageSize(req.value.pageSize));
    }
  }

  lemma RoomAnswerIsClean(codec: Codec, clean: Clean, v: RoomValue, env: Env, id: int, m: Message)
    requires FieldWise(codec, clean) && CleanRoom(clean, v) && CleanEnv(clean, env) && CleanMessage(clean, m)
    requires id in ROOM_IDS
    ensures CleanOutcome(clean, RoomOutcome(v, env, id, Some(m)))
  {
    if id == 1303 {
      JoinAnswerIsClean(codec, clean, v, AsJoin(Some(m)), env.clock);
    } else if id == 1301 {
      CreateAnswerIsClean(codec, clean, v, AsCreate(Some(m)), env.clock);
    } else if id == 1305 {
      LeaveAnswerIsClean(codec, clean, v, AsLeave(Some(m)));
    } else if id == 1401 {
      SendAnswerIsClean(codec, clean, v, AsSend(Some(m)), env.clock);
    } else if id == 1309 {
      UsersAnswerIsClean(clean, env);
    } else if id == 1501 {
      RoomsAnswerIsClean(clean, env, AsPage(Some(m)));
    } else {
      HistoryAnswerIsClean(clean, v, AsLimit(Some(m)));
    }
  }

  lemma UserStaysClean(codec: Codec, clean: Clean, u: User, id: int, m: Message, now: int)
    requires FieldWise(codec, clean) && CleanGrain(clean, u) && CleanMessage(clean, m)
    ensures CleanGrain(clean, UserGrain.After(u, RequestOf(id, Some(m), now)))
    ensures var o := UserReply(u, RequestOf(id, Some(m), now)); o.resp.Some? ==> codec.marshal(o.resp.value).Some?
  {
  }

  // ----- runs -----

  /** All rooms, what the registry lists of them, and all users, each under the name it is addressed by. */
  datatype World = World(rooms: map<string, RoomValue>, listed: map<string, RoomView>, users: map<string, User>)

  datatype Call =
    | ToRoom(room: string, req: Message, env: Env)
    | ToUser(user: string, req: Message, now: int)

  const EMPTY := World(map[], map[], map[])

  function RoomIn(w: World, room: string): RoomValue {
    if room in w.rooms then w.rooms[room]
    else RoomValue(RoomView(room, "", "", 0, DEFAULT_CAPACITY, 0, 0), map[], [])
  }

  function UserIn(w: World, user: string): User {
    if user in w.users then w.users[user] else NOBODY
  }

  /** A creation registers the room with nobody in it; a leave of a member brings the number up to date. */
  function ListedAfter(w: World, room: string, env: Env, id: int, m: Message): map<string, RoomView> {
    var v, n := RoomIn(w, room), RoomAfter(RoomIn(w, room), env, id, Some(m));
    if id == 1301 && AsCreate(Some(m)).Some? then w.listed[room := n.view.(currentMembers := 0)]
    else if id == 1305 && room in w.listed && n != v
      then w.listed[room := w.listed[room].(currentMembers := n.view.currentMembers)]
    else w.listed
  }

  function After(w: World, c: Call): World {
    match c
    case ToRoom(room, m, env) =>
      w.(rooms := w.rooms[room := RoomAfter(RoomIn(w, room), env, IdFor(m.name), Some(m))],
         listed := ListedAfter(w, room, env, IdFor(m.name), m))
    case ToUser(user, m, now) =>
      w.(users := w.users[user := UserGrain.After(UserIn(w, user), RequestOf(IdFor(m.name), Some(m), now))])
  }

  function AfterAll(w: World, calls: seq<Call>): World {
    if calls == [] then w else After(AfterAll(w, calls[..|calls| - 1]), calls[|calls| - 1])
  }

  /** What a call brings with it: a request that has been encoded, a clean address and message id, and, in some order,
      the room's members and the registry's entries. */
  ghost predicate Sound(codec: Codec, clean: Clean, w: World, c: Call) {
    && codec.marshal(c.req).Some?
    && match c
       case ToRoom(room, m, env) =>
         && IdFor(m.name) in ROOM_IDS && clean(room) && clean(env.clock.stamp)
         && (forall i | 0 <= i < |env.users| ::
               var u := env.users[i].userId; u in RoomIn(w, room).members && RoomIn(w, room).members[u] == env.users[i])
         && (forall i | 0 <= i < |env.rooms| ::
               var r := env.rooms[i].roomId; r in w.listed && w.listed[r] == env.rooms[i])
       case ToUser(_, m, _) => IdFor(m.name) in USER_IDS
  }

  ghost predicate SoundRun(codec: Codec, clean: Clean, w: World, calls: seq<Call>) {
    calls != [] ==>
      && SoundRun(codec, clean, w, calls[..|calls| - 1])
      && Sound(codec, clean, AfterAll(w, calls[..|calls| - 1]), calls[|calls| - 1])
  }

  ghost predicate CleanWorld(clean: Clean, w: World) {
    && (forall r | r in w.rooms :: CleanRoom(clean, w.rooms[r]))
    && (forall r | r in w.listed :: CleanView(clean, w.listed[r]))
    && (forall u | u in w.users :: CleanGrain(clean, w.users[u]))
  }

  lemma CallIsClean(codec: Codec, clean: Clean, w: World, c: Call)
    requires FieldWise(codec, clean) && CleanWorld(clean, w) && Sound(codec, clean, w, c) && c.ToRoom?
    ensures CleanRoom(clean, RoomIn(w, c.room)) && CleanEnv(clean, c.env) && CleanMessage(clean, c.req)
  {
    assert CleanRoom(clean, RoomIn(w, c.room));
    assert forall r | r in w.listed :: CleanView(clean, w.listed[r]);
  }

  lemma RoomCallStaysClean(codec: Codec, clean: Clean, w: World, c: Call)
    requires FieldWise(codec, clean) && CleanWorld(clean, w) && Sound(codec, clean, w, c) && c.ToRoom?
    ensures CleanWorld(clean, After(w, c))
  {
    CallIsClean(codec, clean, w, c);
    RoomStaysClean(codec, clean, RoomIn(w, c.room), c.env, IdFor(c.req.name), c.req);
  }

  lemma CallStaysClean(codec: Codec, clean: Clean, w: World, c: Call)
    requires FieldWise(codec, clean) && CleanWorld(clean, w) && Sound(codec, clean, w, c)
    ensures CleanWorld(clean, After(w, c))
  {
    match c
    case ToRoom(room, m, env) => RoomCallStaysClean(codec, clean, w, c);
    case ToUser(user, m, now) => UserStaysClean(codec, clean, UserIn(w, user), IdFor(m.name), m, now);
  }

  lemma {:induction false} RunStaysClean(codec: Codec, clean: Clean, calls: seq<Call>)
    requires FieldWise(codec, clean) && SoundRun(codec, clean, EMPTY, calls)
    ensures CleanWorld(clean, AfterAll(EMPTY, calls))
  {
    if calls != [] {
      RunStaysClean(codec, clean, calls[..|calls| - 1]);
      CallStaysClean(codec, clean, AfterAll(EMPTY, calls[..|calls| - 1]), calls[|calls| - 1]);
    }
  }

  /** The call creates the room. */
  predicate Creates(c: Call, room: string) {
    c.ToRoom? && c.room == room && IdFor(c.req.name) == 1301 && c.req.content.OfCreate?
  }

  /** It takes a member out of the room. */
  predicate TakesOut(w: World, c: Call, room: string) {
    c.ToRoom? && c.room == room && IdFor(c.req.name) == 1305 && c.req.content.OfLeave?
    && c.req.content.leave.userId in RoomIn(w, room).members
  }

  /** The number the registry has of the room: none before its creation, 0 at it, and from then on that of the members
      left at the last leave. */
  function CountBy(calls: seq<Call>, room: string): Option<int> {
    if calls == [] then None
    else
      var front, c := calls[..|calls| - 1], calls[|calls| - 1];
      if Creates(c, room) then Some(0)
      else if TakesOut(AfterAll(EMPTY, front), c, room) && CountBy(front, room).Some?
      then Some(ToInt32(|RoomIn(AfterAll(EMPTY, front), room).members| - 1))
      else CountBy(front, room)
  }

  predicate HasCount(w: World, room: string, count: Option<int>) {
    if count.None? then room !in w.listed else room in w.listed && w.listed[room].currentMembers == count.value
  }

  lemma CountStep(w: World, c: Call, room: string, count: Option<int>)
    requires HasCount(w, room, count)
    ensures HasCount(After(w, c), room,
      if Creates(c, room) then Some(0)
      else if TakesOut(w, c, room) && count.Some? then Some(ToInt32(|RoomIn(w, room).members| - 1))
      else count)
  {
    if TakesOut(w, c, room) {
      var v := RoomIn(w, room);
      var n := RoomAfter(v, c.env, 1305, Some(c.req));
      assert |n.history| == |v.history| + 1;
    }
  }

  /** Over every run: that is what the registry lists. */
  lemma {:induction false} CountHistory(calls: seq<Call>, room: string)
    ensures HasCount(AfterAll(EMPTY, calls), room, CountBy(calls, room))
  {
    if calls != [] {
      var front := calls[..|calls| - 1];
      CountHistory(front, room);
      CountStep(AfterAll(EMPTY, front), calls[|calls| - 1], room, CountBy(front, room));
    }
  }

  /** After any run, a call to a room that gets through is answered, whatever it is: with the handler's response when
      the handler returns OK, and with its error otherwise. No response fails to encode. */
  lemma RoomsAlwaysAnswer(
      codec: Codec, clean: Clean, calls: seq<Call>, c: Call, t: Transport, kind: string, name: string)
    requires Lawful(codec) && FieldWise(codec, clean) && SoundRun(codec, clean, EMPTY, calls)
    requires c.ToRoom? && Sound(codec, clean, AfterAll(EMPTY, calls), c)
    requires c.room != "" && kind != "" && name != "" && !t.Broken?
    ensures var v := RoomIn(AfterAll(EMPTY, calls), c.room);
      var o := RoomOutcome(v, c.env, IdFor(c.req.name), Some(c.req));
      RpcResult(RoomTable(v, c.env, codec), codec, t, c.room, kind, name, c.req) ==
        if o.code == OK && o.resp.Some? then Ok(o.resp.value) else Err(SystemError(o.code))
  {
    var w := AfterAll(EMPTY, calls);
    var v := RoomIn(w, c.room);
    RunStaysClean(codec, clean, calls);
    CallIsClean(codec, clean, w, c);
    RoomAnswerIsClean(codec, clean, v, c.env, IdFor(c.req.name), c.req);
    RoomRpcIsFaithful(v, c.env, codec, t, c.room, kind, name, c.req);
  }

  /** The same for a user grain, but for the chat message it sends back, which between nodes has to have bytes. */
  lemma UsersAlwaysAnswer(
      codec: Codec, clean: Clean, calls: seq<Call>, c: Call, t: Transport, kind: string, name: string)
    requires Lawful(codec) && FieldWise(codec, clean) && SoundRun(codec, clean, EMPTY, calls)
    requires c.ToUser? && Sound(codec, clean, AfterAll(EMPTY, calls), c)
    requires c.user != "" && kind != "" && name != "" && !t.Broken?
    ensures var u := UserIn(AfterAll(EMPTY, calls), c.user);
      var o := UserReply(u, RequestOf(IdFor(c.req.name), Some(c.req), c.now));
      var r := RpcResult(UserTable(u, c.now, codec), codec, t, c.user, kind, name, c.req);
      && (o.code != OK ==> r == Err(SystemError(o.code)))
      && (o.code == OK ==> o.resp.Some?)
      && (o.code == OK && (IdFor(c.req.name) != 1105 || !t.Remote?) ==> r == Ok(o.resp.value))
  {
    var u := UserIn(AfterAll(EMPTY, calls), c.user);
    RunStaysClean(codec, clean, calls);
    UserStaysClean(codec, clean, u, IdFor(c.req.name), c.req, c.now);
    UserRpcIsFaithful(u, c.now, codec, t, c.user, kind, name, c.req);
  }
}
