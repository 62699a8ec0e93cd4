/** The user grain: its own state, and what it answers. */
module UserGrain {
  import opened Common
  import opened RoomLog
  import opened MsgId
  import opened Messages

  /** A decoded request, or one that does not decode. */
  datatype Request =
    | Garbled
    | Login(req: LoginReq, now: int)
    | Logout
    | Deliver(message: Option<ChatMessage>)
    | GetInfo

  /** What the grain remembers. */
  datatype User = User(info: UserInfo, sessionId: string)

  const NOBODY := User(UserInfo(0, "", false, "", 0), "")

  function After(u: User, r: Request): User {
    match r
    case Login(q, now) => User(UserInfo(q.userId, q.username, true, u.info.currentRoomId, now), q.sessionId)
    case Logout => u.(info := u.info.(isOnline := false), sessionId := "")
    case _ => u
  }

  function LoginReply(info: UserInfo): (o: Outcome)
    ensures Answers(o, 1102) && o.code == OK
  {
    RowIs(2, "ChatLoginResp");
    Reply("ChatLoginResp", OK, "登录成功", UserData(info))
  }

  function LogoutReply(): (o: Outcome)
    ensures Answers(o, 1104) && o.code == OK
  {
    RowIs(4, "ChatLogoutResp");
    Reply("ChatLogoutResp", OK, "登出成功", Nothing)
  }

  function InfoReply(info: UserInfo): (o: Outcome)
    ensures Answers(o, 1202) && o.code == OK
  {
    RowIs(7, "ChatGetUserInfoResp");
    Reply("ChatGetUserInfoResp", OK, "成功", UserData(info))
  }

  /** A message for an online user is sent back as it came. */
  function DeliverReply(online: bool, message: Option<ChatMessage>): (o: Outcome)
    ensures Faithful(o) && (o.code == OK <==> online)
  {
    RowIs(5, "ChatUserMessage");
    if online then Outcome(Some(Message("ChatUserMessage", None, "", ChatText(message))), OK)
    else Outcome(None, USER_NOT_LOGGED_IN)
  }

  function UserReply(u: User, r: Request): (o: Outcome)
    ensures Faithful(o)
    ensures o.code == OK <==> r.Login? || r.Logout? || r.GetInfo? || (r.Deliver? && u.info.isOnline)
    ensures r.Login? ==> Answers(o, 1102)
    ensures r.Logout? ==> Answers(o, 1104)
    ensures r.GetInfo? ==> Answers(o, 1202)
  {
    match r
    case Garbled => GARBLED
    case Login(_, _) => LoginReply(After(u, r).info)
    case Logout => LogoutReply()
    case GetInfo => InfoReply(u.info)
    case Deliver(m) => DeliverReply(u.info.isOnline, m)
  }

  /** The ids the grain registers. */
  const USER_IDS: set<int> := {1101, 1103, 1105, 1201}

  /** A request as decoded into the type of its handler. */
  function RequestOf(id: int, m: Option<Message>, now: int): Request {
    if m.None? then Garbled
    else match id
      case 1101 => if m.value.content.OfLogin? then Login(m.value.content.login, now) else Garbled
      case 1103 => Logout
      case 1105 => if m.value.content.ChatText? then Deliver(m.value.content.message) else Garbled
      case _ => GetInfo
  }

  class Grain {
    var userId: int
    var username: string
    var sessionId: string
    var isOnline: bool
    var currentRoom: string
    var loginTime: int

    constructor ()
      ensures State() == NOBODY
    {
      userId, username, sessionId, isOnline, currentRoom, loginTime := 0, "", "", false, "", 0;
    }

    function State(): User
      reads this
    {
      User(UserInfo(userId, username, isOnline, currentRoom, loginTime), sessionId)
    }

    /** `Logout` would leave the current room first, but no request ever puts the user in one. */
    method Handle(r: Request) returns (o: Outcome)
      requires currentRoom == ""
      modifies this
      ensures State() == After(old(State()), r) && currentRoom == ""
      ensures o == UserReply(old(State()), r) && Faithful(o)
      ensures o.code == if r.Garbled? then DESERIALIZE_ERROR else if r.Deliver? && !isOnline then USER_NOT_LOGGED_IN
          else OK
      ensures o.resp.Some? <==> o.code == OK
      ensures r.Login? || r.GetInfo? ==> o.resp.value.content == UserData(State().info)
      ensures r.Login? ==> o.resp.value.text == "登录成功"
      ensures r.Logout? ==> o.resp.value.text == "登出成功" && o.resp.value.content == Nothing
      ensures r.GetInfo? ==> o.resp.value.text == "成功"
      ensures r.Deliver? && isOnline ==>
        o.resp == Some(Message(name := "ChatUserMessage", code := None, text := "", content := ChatText(r.message)))
    {
      match r {
        case Garbled =>
          return GARBLED;
        case Login(q, now) =>
          userId, username, sessionId := q.userId, q.username, q.sessionId;
          isOnline, loginTime := true, now;
          return Reply("ChatLoginResp", OK, "登录成功", UserData(State().info));
        case Logout =>
          isOnline, sessionId := false, "";
          return Reply("ChatLogoutResp", OK, "登出成功", Nothing);
        case Deliver(m) =>
          if !isOnline {
            return Outcome(None, USER_NOT_LOGGED_IN);
          }
          return Outcome(Some(Message("ChatUserMessage", None, "", ChatText(m))), OK);
        case GetInfo =>
          return Reply("ChatGetUserInfoResp", OK, "成功", UserData(State().info));
      }
    }
  }

  function AfterAll(u: User, rs: seq<Request>): User {
    if rs == [] then u else After(AfterAll(u, rs[..|rs| - 1]), rs[|rs| - 1])
  }

  /** The last login that no logout has followed, and its time. */
  function ActiveLogin(rs: seq<Request>): Option<(LoginReq, int)> {
    if rs == [] then None
    else match rs[|rs| - 1]
      case Login(q, now) => Some((q, now))
      case Logout => None
      case _ => ActiveLogin(rs[..|rs| - 1])
  }

  /** The last login, logged out or not. */
  function LastLogin(rs: seq<Request>): Option<(LoginReq, int)> {
    if rs == [] then None
    else if rs[|rs| - 1].Login? then Some((rs[|rs| - 1].req, rs[|rs| - 1].now))
    else LastLogin(rs[..|rs| - 1])
  }

  /** Over any sequence of requests: the user is online exactly while a login is active, with that login's session;
      name, number and time are those of the last login, active or not; and the current room stays empty, so a logout
      never has a room to leave. */
  lemma {:induction false} OnlineWhileLoggedIn(rs: seq<Request>)
    ensures var u := AfterAll(NOBODY, rs);
      && u.info.currentRoomId == ""
      && (u.info.isOnline <==> ActiveLogin(rs).Some?)
      && u.sessionId == (if ActiveLogin(rs).Some? then ActiveLogin(rs).value.0.sessionId else "")
      && match LastLogin(rs)
         case None => u.info == NOBODY.info
         case Some(login) =>
           u.info.userId == login.0.userId && u.info.username == login.0.username && u.info.loginTime == login.1
    ensures ActiveLogin(rs).Some? ==> ActiveLogin(rs) == LastLogin(rs)
  {
    if rs != [] {
      OnlineWhileLoggedIn(rs[..|rs| - 1]);
    }
  }
}
