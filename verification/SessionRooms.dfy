/** The rooms of the session system are the chat rooms, as far as seats go: who is in, and how many may be. */
module SessionRooms {
  import opened Common
  import opened RoomLog
  import opened Messages
  import opened RoomReplies
  import opened Session

  function SeatsOf(v: RoomValue): Room {
    Room(v.members.Keys, v.view.maxMembers)
  }

  /** A served join: the room changes as the handler changes it, no other room does, and the client is let in exactly
      when the answer is OK. */
  lemma JoinIsServed(s: State, r: string, v: RoomValue, q: JoinReq, clock: Clock)
    requires RoomOf(s, r) == SeatsOf(v)
    ensures var n := AfterServedJoin(s, r, q.userId);
      RoomOf(n, r) == SeatsOf(AfterJoining(v, Some(q), clock)) && forall x | x != r :: RoomOf(n, x) == RoomOf(s, x)
    ensures JudgeJoin(MembersOf(s, r), RoomOf(s, r).capacity, q.userId) != RoomFull <==>
        JoinOutcome(v, Some(q), clock).code == OK
  {
    if JudgeJoin(v.members.Keys, v.view.maxMembers, q.userId) == Admitted {
      assert AfterJoining(v, Some(q), clock).members.Keys == v.members.Keys + {q.userId};
    }
  }

  /** A served leave, which is always answered with OK. */
  lemma LeaveIsServed(s: State, r: string, v: RoomValue, q: LeaveReq, clock: Clock)
    requires RoomOf(s, r) == SeatsOf(v)
    ensures var n := AfterServedLeave(s, r, q.userId);
      RoomOf(n, r) == SeatsOf(AfterLeaving(v, Some(q), clock)) && forall x | x != r :: RoomOf(n, x) == RoomOf(s, x)
    ensures LeaveOutcome(v, Some(q)).code == OK
  {
    assert AfterLeaving(v, Some(q), clock).members.Keys == v.members.Keys - {q.userId};
  }

  /** A served creation. */
  lemma CreationIsServed(s: State, r: string, v: RoomValue, q: CreateReq, clock: Clock)
    requires RoomOf(s, r) == SeatsOf(v) && Enabled(s, CreateRoom(r, q.maxMembers))
    ensures var n := Next(s, CreateRoom(r, q.maxMembers));
      RoomOf(n, r) == SeatsOf(AfterCreation(v, Some(q), clock)) && forall x | x != r :: RoomOf(n, x) == RoomOf(s, x)
  {
  }

  /** The other requests leave the seats alone. */
  lemma OthersKeepSeats(v: RoomValue, env: Env, id: int, m: Option<Message>)
    requires id != 1301 && id != 1303 && id != 1305
    ensures SeatsOf(RoomAfter(v, env, id, m)) == SeatsOf(v)
  {
  }
}
