/**
 A chat room as the replay of its event log: who is in it, how many fit, what the history holds, and what the room
 registry was told. Every fact is about every legal log, so about every run of the room.
 */
module RoomLog {
  import opened Common

  const DEFAULT_CAPACITY := 50
  const HISTORY_LIMIT := 100
  const MAX_INT32 := 0x7FFF_FFFF

  /** The conversion `int32(n)`. */
  function ToInt32(n: int): int {
    (n + 0x8000_0000) % 0x1_0000_0000 - 0x8000_0000
  }

  predicate IsInt32(n: int) {
    -0x8000_0000 <= n <= MAX_INT32
  }

  datatype MsgType = Unknown | Text | System | JoinNote | LeaveNote

  datatype ChatMessage = ChatMessage(
    msgId: string, senderId: int, senderName: string, roomId: string, kind: MsgType, content: string, timestamp: int)

  /** A successful join or leave, an accepted message, or a (repeated) creation asking for a capacity. */
  datatype Event =
    | Joined(user: int, msg: ChatMessage)
    | Left(user: int, msg: ChatMessage)
    | Sent(msg: ChatMessage)
    | Created(capacity: int)

  type Log = seq<Event>

  function Front(log: Log): Log
    requires log != []
  {
    log[..|log| - 1]
  }

  function Last(log: Log): Event
    requires log != []
  {
    log[|log| - 1]
  }

  // ----- replay -----

  function Members(log: Log): set<int> {
    if log == [] then {}
    else match Last(log)
      case Joined(u, _) => Members(Front(log)) + {u}
      case Left(u, _) => Members(Front(log)) - {u}
      case _ => Members(Front(log))
  }

  function Cap(log: Log): int {
    if log == [] then DEFAULT_CAPACITY
    else if Last(log).Created? && Last(log).capacity > 0 then Last(log).capacity
    else Cap(Front(log))
  }

  /** The number the registry holds for the room; none before the first creation. */
  function RegCount(log: Log): Option<nat> {
    if log == [] then None
    else match Last(log)
      case Created(_) => Some(0)
      case Left(_, _) => if RegCount(Front(log)).Some? then Some(|Members(log)|) else None
      case _ => RegCount(Front(log))
  }

  /** All messages ever appended. */
  function Appended(log: Log): seq<ChatMessage> {
    if log == [] then []
    else if Last(log).Created? then Appended(Front(log))
    else Appended(Front(log)) + [Last(log).msg]
  }

  /** How many of them the history holds: only an accepted message trims. */
  function Kept(log: Log): nat {
    if log == [] then 0
    else match Last(log)
      case Created(_) => Kept(Front(log))
      case Sent(_) => if Kept(Front(log)) + 1 > HISTORY_LIMIT then HISTORY_LIMIT else Kept(Front(log)) + 1
      case _ => Kept(Front(log)) + 1
  }

  function LastOf<T>(s: seq<T>, n: nat): seq<T> {
    if n >= |s| then s else s[|s| - n..]
  }

  function History(log: Log): seq<ChatMessage> {
    LastOf(Appended(log), Kept(log))
  }

  /** The events a room can log. */
  predicate Legal(log: Log) {
    log == [] || (Legal(Front(log)) &&
      match Last(log)
      case Joined(u, _) => u !in Members(Front(log)) && |Members(Front(log))| < Cap(Front(log))
      case Left(u, _) => u in Members(Front(log))
      case Sent(m) => m.senderId in Members(Front(log))
      case Created(c) => IsInt32(c))
  }

  datatype JoinVerdict = RoomFull | AlreadyIn | Admitted

  /** The two tests of a join, in the order they are made: a full room refuses even its own members. */
  function JudgeJoin(members: set<int>, capacity: int, u: int): JoinVerdict {
    if ToInt32(|members|) >= capacity then RoomFull
    else if u in members then AlreadyIn
    else Admitted
  }

  // ----- membership -----

  function EventsOf(log: Log, u: int): seq<Event> {
    if log == [] then []
    else if (Last(log).Joined? || Last(log).Left?) && Last(log).user == u then EventsOf(Front(log), u) + [Last(log)]
    else EventsOf(Front(log), u)
  }

  function Joins(log: Log): nat {
    if log == [] then 0 else Joins(Front(log)) + if Last(log).Joined? then 1 else 0
  }

  function Leaves(log: Log): nat {
    if log == [] then 0 else Leaves(Front(log)) + if Last(log).Left? then 1 else 0
  }

  /** Each user's events alternate, beginning with a join; the user is a member when the last one is a join. */
  lemma {:induction false} EventsAlternate(log: Log, u: int)
    requires Legal(log)
    ensures forall i | 0 <= i < |EventsOf(log, u)| :: var e := EventsOf(log, u)[i];
              (if i % 2 == 0 then e.Joined? else e.Left?) && e.user == u
    ensures u in Members(log) <==> |EventsOf(log, u)| % 2 == 1
  {
    if log != [] {
      EventsAlternate(Front(log), u);
    }
  }

  lemma {:induction false} MembersAreJoinsMinusLeaves(log: Log)
    requires Legal(log)
    ensures |Members(log)| == Joins(log) - Leaves(log)
  {
    if log != [] {
      MembersAreJoinsMinusLeaves(Front(log));
    }
  }

  // ----- capacity -----

  /** The largest capacity ever in force. */
  function Peak(log: Log): int {
    if log == [] then DEFAULT_CAPACITY
    else if Cap(log) > Peak(Front(log)) then Cap(log) else Peak(Front(log))
  }

  /** The capacity stays positive, the member count never exceeds the largest capacity ever in force, and converting it
      to a 32-bit integer never truncates. */
  lemma {:induction false} CapacityBounds(log: Log)
    requires Legal(log)
    ensures 0 < Cap(log) <= Peak(log) <= MAX_INT32
    ensures |Members(log)| <= Peak(log)
    ensures ToInt32(|Members(log)|) == |Members(log)|
  {
    if log != [] {
      CapacityBounds(Front(log));
    }
  }

  /** What a join tells a user who is in the room already: that it is full, unless there is room for one more. */
  lemma MemberJoinsAgain(log: Log, u: int)
    requires Legal(log) && u in Members(log)
    ensures JudgeJoin(Members(log), Cap(log), u) == AlreadyIn <==> |Members(log)| < Cap(log)
    ensures JudgeJoin(Members(log), Cap(log), u) == RoomFull <==> |Members(log)| >= Cap(log)
  {
    CapacityBounds(log);
  }

  /** And somebody else is let in if and only if there is. */
  lemma OutsiderJoins(log: Log, u: int)
    requires Legal(log) && u !in Members(log)
    ensures JudgeJoin(Members(log), Cap(log), u) == Admitted <==> |Members(log)| < Cap(log)
    ensures JudgeJoin(Members(log), Cap(log), u) == RoomFull <==> |Members(log)| >= Cap(log)
  {
    CapacityBounds(log);
  }

  /** No creation ever asked for a positive capacity below the member count of that moment. */
  predicate NeverShrunkBelow(log: Log) {
    log != [] ==>
      && NeverShrunkBelow(Front(log))
      && (Last(log).Created? && Last(log).capacity > 0 ==> |Members(Front(log))| <= Last(log).capacity)
  }

  /** The member count was within the capacity at every moment so far. */
  predicate AlwaysWithinCapacity(log: Log) {
    |Members(log)| <= Cap(log) && (log != [] ==> AlwaysWithinCapacity(Front(log)))
  }

  /** Exactly when a room is never overfull. */
  lemma {:induction false} WithinCapacityExactly(log: Log)
    requires Legal(log)
    ensures AlwaysWithinCapacity(log) <==> NeverShrunkBelow(log)
  {
    if log != [] {
      WithinCapacityExactly(Front(log));
    }
  }

  // ----- the registry's number -----

  function Gap(log: Log): int
    requires RegCount(log).Some?
  {
    |Members(log)| - RegCount(log).value
  }

  /** The joins since the last leave or creation. */
  function JoinsSinceUpdate(log: Log): nat {
    if log == [] || Last(log).Left? || Last(log).Created? then 0
    else JoinsSinceUpdate(Front(log)) + if Last(log).Joined? then 1 else 0
  }

  /** The members at the last creation that no leave has followed. */
  function Forgotten(log: Log): nat {
    if log == [] then 0
    else match Last(log)
      case Created(_) => |Members(log)|
      case Left(_, _) => 0
      case _ => Forgotten(Front(log))
  }

  /** The drift is exact: never negative, zero right after a leave, one more per join, everybody at a creation. */
  lemma {:induction false} RegistryDrift(log: Log)
    requires Legal(log) && RegCount(log).Some?
    ensures Gap(log) == JoinsSinceUpdate(log) + Forgotten(log) >= 0
    ensures Last(log).Left? ==> Gap(log) == 0
    ensures Last(log).Created? ==> Gap(log) == |Members(log)|
  {
    if !Last(log).Created? && !Last(log).Left? {
      RegistryDrift(Front(log));
    }
  }

  // ----- history -----

  /** Joins and leaves since the last accepted message. */
  function ChurnSinceSend(log: Log): nat {
    if log == [] || Last(log).Sent? then 0
    else ChurnSinceSend(Front(log)) + if Last(log).Created? then 0 else 1
  }

  lemma {:induction false} KeptBounds(log: Log)
    ensures Kept(log) <= |Appended(log)|
    ensures Kept(log) <= HISTORY_LIMIT + ChurnSinceSend(log)
    ensures Kept(log) >= if |Appended(log)| < HISTORY_LIMIT then |Appended(log)| else HISTORY_LIMIT
  {
    if log != [] {
      KeptBounds(Front(log));
    }
  }

  /** The history is a suffix of everything appended. It always holds the last hundred messages, at most a hundred right
      after an accepted message, and at most a hundred plus the joins and leaves since then at any time. */
  lemma HistoryIsBoundedSuffix(log: Log)
    ensures Kept(log) <= |Appended(log)| && History(log) == Appended(log)[|Appended(log)| - Kept(log)..]
    ensures |History(log)| <= HISTORY_LIMIT + ChurnSinceSend(log)
    ensures log != [] && Last(log).Sent? ==> |History(log)| <= HISTORY_LIMIT
    ensures |History(log)| >= if |Appended(log)| < HISTORY_LIMIT then |Appended(log)| else HISTORY_LIMIT
  {
    KeptBounds(log);
  }

  lemma HistoryStep(log: Log, e: Event)
    ensures Front(log + [e]) == log && Last(log + [e]) == e
    ensures History(log + [e]) ==
      match e
      case Created(_) => History(log)
      case Sent(m) => LastOf(History(log) + [m], HISTORY_LIMIT)
      case _ => History(log) + [e.msg]
  {
    KeptBounds(log);
    assert Front(log + [e]) == log;
    if !e.Created? {
      var all, k := Appended(log), Kept(log);
      assert Appended(log + [e]) == all + [e.msg];
      assert History(log) + [e.msg] == (all + [e.msg])[|all| - k..];
    }
  }

  // What one more event does to the replayed state, in the steps the room takes: append, then trim after a message.

  lemma AfterJoin(log: Log, u: int, m: ChatMessage)
    requires Legal(log) && u !in Members(log) && |Members(log)| < Cap(log)
    ensures var l := log + [Joined(u, m)];
      && Legal(l) && Members(l) == Members(log) + {u} && Cap(l) == Cap(log) && RegCount(l) == RegCount(log)
      && History(l) == History(log) + [m]
  {
    HistoryStep(log, Joined(u, m));
  }

  lemma AfterLeave(log: Log, u: int, m: ChatMessage)
    requires Legal(log) && u in Members(log)
    ensures var l := log + [Left(u, m)];
      && Legal(l) && Members(l) == Members(log) - {u} && Cap(l) == Cap(log)
      && RegCount(l) == (if RegCount(log).Some? then Some(|Members(l)|) else None)
      && History(l) == History(log) + [m]
      && ToInt32(|Members(l)|) == |Members(l)|
  {
    HistoryStep(log, Left(u, m));
    CapacityBounds(log + [Left(u, m)]);
  }

  lemma AfterSend(log: Log, m: ChatMessage)
    requires Legal(log) && m.senderId in Members(log)
    ensures var l := log + [Sent(m)];
      && Legal(l) && Members(l) == Members(log) && Cap(l) == Cap(log) && RegCount(l) == RegCount(log)
      && History(l) == LastOf(History(log) + [m], HISTORY_LIMIT)
  {
    HistoryStep(log, Sent(m));
  }

  lemma AfterCreate(log: Log, c: int)
    requires Legal(log) && IsInt32(c)
    ensures var l := log + [Created(c)];
      && Legal(l) && Members(l) == Members(log) && Cap(l) == (if c > 0 then c else Cap(log)) && RegCount(l) == Some(0)
      && History(l) == History(log)
  {
    HistoryStep(log, Created(c));
  }

  // ----- rooms that go wrong -----

  /** A room for one tells its one member that it is full. */
  lemma FullRoomRefusesItsMember(u: int, m: ChatMessage)
    ensures var log := [Created(1), Joined(u, m)];
      Legal(log) && u in Members(log) && JudgeJoin(Members(log), Cap(log), u) == RoomFull
  {
    AfterCreate([], 1);
    assert [] + [Created(1)] == [Created(1)];
    AfterJoin([Created(1)], u, m);
    assert [Created(1)] + [Joined(u, m)] == [Created(1), Joined(u, m)];
    MemberJoinsAgain([Created(1), Joined(u, m)], u);
  }

  /** Creating a room again with two people in it, for one: the room is overfull, and the registry says that it is
      empty. */
  lemma SecondCreationGoesWrong(u: int, v: int, m: ChatMessage)
    requires u != v
    ensures var log := [Joined(u, m), Joined(v, m), Created(1)];
      Legal(log) && |Members(log)| == 2 && Cap(log) == 1 && !AlwaysWithinCapacity(log) && RegCount(log) == Some(0)
  {
    AfterJoin([], u, m);
    assert [] + [Joined(u, m)] == [Joined(u, m)];
    AfterJoin([Joined(u, m)], v, m);
    assert [Joined(u, m)] + [Joined(v, m)] == [Joined(u, m), Joined(v, m)];
    AfterCreate([Joined(u, m), Joined(v, m)], 1);
    assert [Joined(u, m), Joined(v, m)] + [Created(1)] == [Joined(u, m), Joined(v, m), Created(1)];
    assert |{u, v}| == 2;
  }
}
