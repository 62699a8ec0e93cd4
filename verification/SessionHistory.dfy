/**
 What the session system holds after a run, told from the steps of the run: who is live, as which user, in which room it
 believes itself, who is stored among the clients, who sits in which room, and which requests are still on their way.
 */
module SessionHistory {
  import opened Common
  import opened RoomLog
  import opened Session

  lemma {:induction false} AppendStep(s: State, steps: seq<Step>, st: Step)
    ensures CanRun(s, steps + [st]) <==> CanRun(s, steps) && Enabled(Exec(s, steps), st)
    ensures CanRun(s, steps + [st]) ==> Exec(s, steps + [st]) == Next(Exec(s, steps), st)
    decreases |steps|
  {
    var more := steps + [st];
    if steps == [] {
      assert more[1..] == [];
      assert Enabled(s, st) ==> CanRun(Next(s, st), []) && Exec(Next(s, st), []) == Next(s, st);
    } else {
      assert more[1..] == steps[1..] + [st];
      if Enabled(s, steps[0]) {
        AppendStep(Next(s, steps[0]), steps[1..], st);
      }
    }
  }

  function Front(steps: seq<Step>): seq<Step>
    requires steps != []
  {
    steps[..|steps| - 1]
  }

  function Last(steps: seq<Step>): Step
    requires steps != []
  {
    steps[|steps| - 1]
  }

  lemma FrontRuns(steps: seq<Step>)
    requires steps != [] && CanRun(EMPTY, steps)
    ensures CanRun(EMPTY, Front(steps)) && Enabled(Exec(EMPTY, Front(steps)), Last(steps))
    ensures Exec(EMPTY, steps) == Next(Exec(EMPTY, Front(steps)), Last(steps))
  {
    assert steps == Front(steps) + [Last(steps)];
    AppendStep(EMPTY, Front(steps), Last(steps));
  }

  // ----- connections -----

  predicate LiveBy(steps: seq<Step>, c: nat) {
    steps != [] &&
    if Last(steps) == Connect(c) then true
    else if Last(steps) == Disconnect(c) then false
    else LiveBy(Front(steps), c)
  }

  /** The user last checked for the connection. */
  function CheckedBy(steps: seq<Step>, c: nat): int {
    if steps == [] then 0
    else if Last(steps).LoginCheck? && Last(steps).c == c then Last(steps).user
    else CheckedBy(Front(steps), c)
  }

  /** The user of its last login. */
  function UserBy(steps: seq<Step>, c: nat): int {
    if steps == [] then 0
    else if Last(steps) == LoginFields(c) then CheckedBy(Front(steps), c)
    else UserBy(Front(steps), c)
  }

  /** The room it last asked to join. */
  function AskedBy(steps: seq<Step>, c: nat): string {
    if steps == [] then ""
    else if Last(steps).SendJoin? && Last(steps).c == c then Last(steps).room
    else AskedBy(Front(steps), c)
  }

  /** The room of the last join that was answered with OK and that no answered leave has followed. */
  function RoomBy(steps: seq<Step>, c: nat): string
    requires CanRun(EMPTY, steps)
  {
    if steps == [] then ""
    else
      FrontRuns(steps);
      var s := Exec(EMPTY, Front(steps));
      if Last(steps) == JoinAnswer(c) && s.conns[c].pc.admitted then AskedBy(Front(steps), c)
      else if Last(steps) == LeaveAnswer(c) then ""
      else RoomBy(Front(steps), c)
  }

  /** What a connection is after the run. */
  ghost predicate ConnIs(conn: Conn, live: bool, checked: int, user: int, asked: string, room: string) {
    && conn.live == live && conn.userID == user && conn.currentRoom == room
    && (conn.pc.Checked? || conn.pc.Named? ==> conn.pc.user == checked)
    && (conn.pc.Joining? || conn.pc.JoinReplied? ==> conn.pc.room == asked)
    && (conn.pc.Leaving? || conn.pc.LeaveReplied? ==> conn.pc.room == room)
  }

  /** Over every run: a connection is live, has the user and believes itself in the room that its own steps say. */
  lemma {:induction false} ConnHistory(steps: seq<Step>, c: nat)
    requires CanRun(EMPTY, steps)
    ensures c in Exec(EMPTY, steps).conns <==> Connect(c) in steps
    ensures c in Exec(EMPTY, steps).conns ==>
      ConnIs(Exec(EMPTY, steps).conns[c], LiveBy(steps, c), CheckedBy(steps, c), UserBy(steps, c), AskedBy(steps, c),
             RoomBy(steps, c))
    ensures c !in Exec(EMPTY, steps).conns ==>
      !LiveBy(steps, c) && UserBy(steps, c) == 0 && RoomBy(steps, c) == ""
  {
    if steps != [] {
      FrontRuns(steps);
      ConnHistory(Front(steps), c);
      assert steps == Front(steps) + [Last(steps)];
      var s, st := Exec(EMPTY, Front(steps)), Last(steps);
      ConnStep(s, st, c);
    }
  }

  /** What one step does to one connection. */
  lemma ConnStep(s: State, st: Step, c: nat)
    requires Enabled(s, st)
    ensures c in Next(s, st).conns <==> c in s.conns || st == Connect(c)
    ensures c in s.conns && !Concerns(st, c) ==> Next(s, st).conns[c] == s.conns[c]
  {
  }

  predicate Concerns(st: Step, c: nat) {
    !st.ServeStray? && !st.DropStray? && !st.CreateRoom? && st.c == c
  }

  // ----- the clients -----

  /** Who is stored under the user: the connection of the user's last stored login, unless a connection that was then
      the user's has since gone or logged out. */
  function ListedBy(steps: seq<Step>, u: int): Option<nat> {
    if steps == [] then None
    else
      var front, last := Front(steps), Last(steps);
      if last.LoginStore? && CheckedBy(front, last.c) == u then Some(last.c)
      else if (last.Disconnect? || last.Logout?) && UserBy(front, last.c) == u != 0 then None
      else ListedBy(front, u)
  }

  lemma ClientsStep(s: State, st: Step, u: int)
    requires Enabled(s, st)
    ensures var n := Next(s, st);
      if st.LoginStore? && s.conns[st.c].pc.user == u then u in n.clients && n.clients[u] == st.c
      else if (st.Disconnect? || st.Logout?) && s.conns[st.c].userID == u != 0 then u !in n.clients
      else (u in n.clients <==> u in s.clients) && (u in s.clients ==> n.clients[u] == s.clients[u])
  {
  }

  /** Over every run: a user is stored if and only if that says so, and for that connection. */
  lemma {:induction false} ClientsHistory(steps: seq<Step>, u: int)
    requires CanRun(EMPTY, steps)
    ensures u in Exec(EMPTY, steps).clients <==> ListedBy(steps, u).Some?
    ensures u in Exec(EMPTY, steps).clients ==> Exec(EMPTY, steps).clients[u] == ListedBy(steps, u).value
  {
    if steps != [] {
      FrontRuns(steps);
      ClientsHistory(Front(steps), u);
      ClientsStep(Exec(EMPTY, Front(steps)), Last(steps), u);
      if Last(steps).LoginStore? || Last(steps).Disconnect? || Last(steps).Logout? {
        ConnHistory(Front(steps), Last(steps).c);
      }
    }
  }

  /** After a connection of the user has gone or logged out, every live connection that is ready can log in as that
      user. */
  lemma LeavingFrees(steps: seq<Step>, u: int, d: nat)
    requires steps != [] && CanRun(EMPTY, steps) && u != 0
    requires (Last(steps).Disconnect? || Last(steps).Logout?) && UserBy(Front(steps), Last(steps).c) == u
    ensures var s := Exec(EMPTY, steps); Enabled(s, LoginCheck(d, u)) <==> Live(s, d) && s.conns[d].pc.Ready?
  {
    ClientsHistory(steps, u);
  }

  // ----- the rooms -----

  function CapacityBy(steps: seq<Step>, r: string): int {
    if steps == [] then DEFAULT_CAPACITY
    else if Last(steps).CreateRoom? && Last(steps).room == r && Last(steps).capacity > 0 then Last(steps).capacity
    else CapacityBy(Front(steps), r)
  }

  /** The join, if the step serves one: of a waiting connection, or of one that gave up. */
  function JoinServedBy(front: seq<Step>, last: Step): Option<(string, int)> {
    match last
    case ServeJoin(c) => Some((AskedBy(front, c), UserBy(front, c)))
    case ServeStray(StrayJoin(r, u)) => Some((r, u))
    case _ => None
  }

  function LeaveServedBy(front: seq<Step>, last: Step): Option<(string, int)>
    requires CanRun(EMPTY, front)
  {
    match last
    case ServeLeave(c) => Some((RoomBy(front, c), UserBy(front, c)))
    case ServeStray(StrayLeave(r, u)) => Some((r, u))
    case _ => None
  }

  /** The user sits in the room: a join of the two has been served and let in, and no leave since. */
  ghost predicate SitsBy(steps: seq<Step>, r: string, u: int)
    requires CanRun(EMPTY, steps)
  {
    if steps == [] then false
    else
      FrontRuns(steps);
      var front, last := Front(steps), Last(steps);
      if LeaveServedBy(front, last) == Some((r, u)) then false
      else if JoinServedBy(front, last) == Some((r, u)) &&
              JudgeJoin(MembersOf(Exec(EMPTY, front), r), CapacityBy(front, r), u) == Admitted then true
      else SitsBy(front, r, u)
  }

  // The same served requests, from the state before the step.

  function JoinServed(s: State, st: Step): Option<(string, int)>
    requires Enabled(s, st)
  {
    match st
    case ServeJoin(c) => Some((s.conns[c].pc.room, s.conns[c].userID))
    case ServeStray(StrayJoin(r, u)) => Some((r, u))
    case _ => None
  }

  function LeaveServed(s: State, st: Step): Option<(string, int)>
    requires Enabled(s, st)
  {
    match st
    case ServeLeave(c) => Some((s.conns[c].pc.room, s.conns[c].userID))
    case ServeStray(StrayLeave(r, u)) => Some((r, u))
    case _ => None
  }

  lemma JoinSeats(s: State, x: string, v: int, r: string, u: int)
    ensures u in MembersOf(AfterServedJoin(s, x, v), r) <==>
      u in MembersOf(s, r) || (x == r && v == u && JudgeJoin(MembersOf(s, r), RoomOf(s, r).capacity, u) == Admitted)
  {
  }

  lemma LeaveSeats(s: State, x: string, v: int, r: string, u: int)
    ensures u in MembersOf(AfterServedLeave(s, x, v), r) <==> u in MembersOf(s, r) && !(x == r && v == u)
  {
  }

  lemma OthersKeepSeats(s: State, st: Step, r: string)
    requires Enabled(s, st) && JoinServed(s, st).None? && LeaveServed(s, st).None?
    ensures MembersOf(Next(s, st), r) == MembersOf(s, r)
  {
  }

  lemma ServingSeats(s: State, st: Step, r: string)
    requires Enabled(s, st)
    ensures var j := JoinServed(s, st);
      j.Some? ==> MembersOf(Next(s, st), r) == MembersOf(AfterServedJoin(s, j.value.0, j.value.1), r)
    ensures var l := LeaveServed(s, st);
      l.Some? ==> MembersOf(Next(s, st), r) == MembersOf(AfterServedLeave(s, l.value.0, l.value.1), r)
    ensures JoinServed(s, st).None? || LeaveServed(s, st).None?
  {
  }

  lemma SeatStep(s: State, st: Step, r: string, u: int)
    requires Enabled(s, st)
    ensures u in MembersOf(Next(s, st), r) <==>
      if LeaveServed(s, st) == Some((r, u)) then false
      else if JoinServed(s, st) == Some((r, u)) &&
          JudgeJoin(MembersOf(s, r), RoomOf(s, r).capacity, u) == Admitted then true
      else u in MembersOf(s, r)
  {
    var j, l := JoinServed(s, st), LeaveServed(s, st);
    ServingSeats(s, st, r);
    if j.Some? {
      JoinSeats(s, j.value.0, j.value.1, r, u);
    } else if l.Some? {
      LeaveSeats(s, l.value.0, l.value.1, r, u);
    } else {
      OthersKeepSeats(s, st, r);
    }
  }

  lemma CapacityStep(s: State, st: Step, r: string)
    requires Enabled(s, st)
    ensures RoomOf(Next(s, st), r).capacity ==
      if st.CreateRoom? && st.room == r && st.capacity > 0 then st.capacity else RoomOf(s, r).capacity
  {
  }

  lemma {:induction false} CapacityHistory(steps: seq<Step>, r: string)
    requires CanRun(EMPTY, steps)
    ensures RoomOf(Exec(EMPTY, steps), r).capacity == CapacityBy(steps, r)
  {
    if steps != [] {
      FrontRuns(steps);
      CapacityHistory(Front(steps), r);
      CapacityStep(Exec(EMPTY, Front(steps)), Last(steps), r);
    }
  }

  lemma ServedAlike(steps: seq<Step>)
    requires steps != [] && CanRun(EMPTY, steps)
    ensures CanRun(EMPTY, Front(steps)) && Enabled(Exec(EMPTY, Front(steps)), Last(steps))
    ensures JoinServed(Exec(EMPTY, Front(steps)), Last(steps)) == JoinServedBy(Front(steps), Last(steps))
    ensures LeaveServed(Exec(EMPTY, Front(steps)), Last(steps)) == LeaveServedBy(Front(steps), Last(steps))
  {
    FrontRuns(steps);
    if Last(steps).ServeJoin? || Last(steps).ServeLeave? {
      ConnHistory(Front(steps), Last(steps).c);
    }
  }

  /** Over every run: a user is a member of a room if and only if that says so. */
  lemma {:induction false} SeatHistory(steps: seq<Step>, r: string, u: int)
    requires CanRun(EMPTY, steps)
    ensures u in MembersOf(Exec(EMPTY, steps), r) <==> SitsBy(steps, r, u)
  {
    if steps != [] {
      FrontRuns(steps);
      ServedAlike(steps);
      SeatHistory(Front(steps), r, u);
      CapacityHistory(Front(steps), r);
      SeatStep(Exec(EMPTY, Front(steps)), Last(steps), r, u);
    }
  }

  // ----- requests that nobody waits for -----

  /** The request that the step leaves behind, when its caller gives up before it is served. */
  function LeftBehind(s: State, st: Step): Option<Stray>
    requires Enabled(s, st)
  {
    match st
    case JoinTimeout(c) =>
      if s.conns[c].pc.Joining? then Some(StrayJoin(s.conns[c].pc.room, s.conns[c].userID)) else None
    case LeaveTimeout(c) =>
      if s.conns[c].pc.Leaving? then Some(StrayLeave(s.conns[c].pc.room, s.conns[c].userID)) else None
    case _ => None
  }

  /** How often the request has been left behind, less how often it has been served or lost. */
  function PendingBy(steps: seq<Step>, x: Stray): int
    requires CanRun(EMPTY, steps)
  {
    if steps == [] then 0
    else
      FrontRuns(steps);
      var s, last := Exec(EMPTY, Front(steps)), Last(steps);
      PendingBy(Front(steps), x) + (if LeftBehind(s, last) == Some(x) then 1 else 0)
        - (if last == ServeStray(x) || last == DropStray(x) then 1 else 0)
  }

  lemma StrayStep(s: State, st: Step, x: Stray)
    requires Enabled(s, st)
    ensures Next(s, st).strays[x] == s.strays[x] + (if LeftBehind(s, st) == Some(x) then 1 else 0)
        - (if st == ServeStray(x) || st == DropStray(x) then 1 else 0)
  {
  }

  /** Over every run: that many of them are on their way. */
  lemma {:induction false} StrayHistory(steps: seq<Step>, x: Stray)
    requires CanRun(EMPTY, steps)
    ensures Exec(EMPTY, steps).strays[x] == PendingBy(steps, x)
  {
    if steps != [] {
      FrontRuns(steps);
      StrayHistory(Front(steps), x);
      StrayStep(Exec(EMPTY, Front(steps)), Last(steps), x);
    }
  }
}
