/** The messages of the protocol as values, and what a handler gives back. */
module Messages {
  import opened Common
  import opened RoomLog
  import opened MsgId

  const OK := 0
  const UNKNOWN_MSG_ID := 1000
  const USER_NOT_LOGGED_IN := 1001
  const ROOM_FULL := 1004
  const SERIALIZE_ERROR := 1009
  const DESERIALIZE_ERROR := 1010

  datatype UserInfo = UserInfo(userId: int, username: string, isOnline: bool, currentRoomId: string, loginTime: int)

  datatype RoomView = RoomView(
    roomId: string, roomName: string, creatorName: string, creatorId: int, maxMembers: int, currentMembers: int,
        createdAt: int)

  datatype LoginReq = LoginReq(userId: int, username: string, sessionId: string)
  datatype JoinReq = JoinReq(userId: int, username: string)
  datatype LeaveReq = LeaveReq(userId: int, username: string)
  datatype SendReq = SendReq(senderId: int, senderName: string, content: string, kind: MsgType)
  datatype CreateReq = CreateReq(roomName: string, creatorId: int, creatorName: string, maxMembers: int)
  datatype ListReq = ListReq(page: int, pageSize: int)

  /** The fields of a message beside a response's code and text; requests whose fields no handler reads have none. */
  datatype Content =
    | Nothing
    | OfLogin(login: LoginReq)
    | OfJoin(join: JoinReq)
    | OfLeave(leave: LeaveReq)
    | OfSend(send: SendReq)
    | OfCreate(create: CreateReq)
    | OfLimit(limit: int)
    | OfPage(list: ListReq)
    | ChatText(message: Option<ChatMessage>)
    | UserData(user: UserInfo)
    | RoomData(room: Option<RoomView>, recent: seq<ChatMessage>)
    | HistoryData(messages: seq<ChatMessage>)
    | UsersData(users: seq<UserInfo>)
    | RoomsData(rooms: seq<RoomView>, total: int)

  /** A protobuf message: its type's name, the code and the text of a response, and the rest. */
  datatype Message = Message(name: string, code: Option<int>, text: string, content: Content)

  /** What a handler returns: perhaps a message, and a code. */
  datatype Outcome = Outcome(resp: Option<Message>, code: int)

  /** A handler's answer to one request: an error without a message, or a message whose own code, if its type has one,
      is the returned one. */
  predicate Faithful(o: Outcome) {
    match o.resp
    case None => o.code != OK
    case Some(m) => IdFor(m.name) != 0 && (m.code.Some? ==> m.code == Some(o.code))
  }

  /** A request that does not decode, or a message of the response type with this id, which carries the code and a
      text. */
  predicate Answers(o: Outcome, id: int) {
    match o.resp
    case None => o.code == DESERIALIZE_ERROR
    case Some(m) => IdFor(m.name) == id && m.code == Some(o.code) && m.text != ""
  }

  const GARBLED := Outcome(None, DESERIALIZE_ERROR)

  function Reply(name: string, code: int, text: string, content: Content): Outcome {
    Outcome(Some(Message(name, Some(code), text, content)), code)
  }

  /** The clock readings of one call: the formatted message id and the time in milliseconds. */
  datatype Clock = Clock(stamp: string, millis: int)
}
