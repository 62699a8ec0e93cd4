/**
 Connections, rooms held by other actors, and the requests between them. A connection handles one request at a time; a
 request whose caller gave up may still be served later.
 */
module Session {
  import opened RoomLog

  /** What a connection's handler is waiting for. A login checks the clients, sets the connection's own fields, and
      stores it among the clients. */
  datatype Pc =
    | Ready
    | Checked(user: int) | Named(user: int)
    | Joining(room: string) | JoinReplied(room: string, admitted: bool)
    | Leaving(room: string) | LeaveReplied(room: string)

  datatype Conn = Conn(live: bool, userID: int, currentRoom: string, pc: Pc)

  datatype Room = Room(members: set<int>, capacity: int)

  /** A request nobody waits for any more. */
  datatype Stray = StrayJoin(room: string, user: int) | StrayLeave(room: string, user: int)

  datatype State = State(conns: map<nat, Conn>, clients: map<int, nat>, rooms: map<string, Room>,
      strays: multiset<Stray>)

  datatype Step =
    | Connect(c: nat) | Disconnect(c: nat) | Logout(c: nat)
    | LoginCheck(c: nat, user: int) | LoginFields(c: nat) | LoginStore(c: nat)
    | SendJoin(c: nat, room: string) | ServeJoin(c: nat) | JoinAnswer(c: nat) | JoinTimeout(c: nat)
    | SendLeave(c: nat) | ServeLeave(c: nat) | LeaveAnswer(c: nat) | LeaveTimeout(c: nat)
    | ServeStray(stray: Stray) | DropStray(stray: Stray)
    | CreateRoom(room: string, capacity: int)

  function RoomOf(s: State, r: string): Room {
    if r in s.rooms then s.rooms[r] else Room({}, DEFAULT_CAPACITY)
  }

  function MembersOf(s: State, r: string): set<int> {
    RoomOf(s, r).members
  }

  function WithMembers(s: State, r: string, members: set<int>): State {
    s.(rooms := s.rooms[r := RoomOf(s, r).(members := members)])
  }

  /** The room's own handlers, as far as membership goes. */
  function AfterServedJoin(s: State, r: string, u: int): State {
    if JudgeJoin(MembersOf(s, r), RoomOf(s, r).capacity, u) == Admitted
    then WithMembers(s, r, MembersOf(s, r) + {u})
    else s
  }

  function AfterServedLeave(s: State, r: string, u: int): State {
    WithMembers(s, r, MembersOf(s, r) - {u})
  }

  predicate Live(s: State, c: nat) {
    c in s.conns && s.conns[c].live
  }

  predicate Enabled(s: State, st: Step) {
    match st
    case Connect(c) => c !in s.conns
    case Disconnect(c) => Live(s, c) && s.conns[c].pc.Ready?
    case Logout(c) => Live(s, c) && s.conns[c].pc.Ready? && s.conns[c].userID != 0
    case LoginCheck(c, u) => Live(s, c) && s.conns[c].pc.Ready? && u !in s.clients
    case LoginFields(c) => Live(s, c) && s.conns[c].pc.Checked?
    case LoginStore(c) => Live(s, c) && s.conns[c].pc.Named?
    case SendJoin(c, r) => Live(s, c) && s.conns[c].pc.Ready? && s.conns[c].userID != 0 && r != ""
    case ServeJoin(c) => Live(s, c) && s.conns[c].pc.Joining?
    case JoinAnswer(c) => Live(s, c) && s.conns[c].pc.JoinReplied?
    case JoinTimeout(c) => Live(s, c) && (s.conns[c].pc.Joining? || s.conns[c].pc.JoinReplied?)
    case SendLeave(c) => Live(s, c) && s.conns[c].pc.Ready? && s.conns[c].userID != 0 && s.conns[c].currentRoom != ""
    case ServeLeave(c) => Live(s, c) && s.conns[c].pc.Leaving?
    case LeaveAnswer(c) => Live(s, c) && s.conns[c].pc.LeaveReplied?
    case LeaveTimeout(c) => Live(s, c) && (s.conns[c].pc.Leaving? || s.conns[c].pc.LeaveReplied?)
    case ServeStray(x) => x in s.strays
    case DropStray(x) => x in s.strays
    case CreateRoom(r, _) => r != ""
  }

  function Put(s: State, c: nat, conn: Conn): State {
    s.(conns := s.conns[c := conn])
  }

  function Next(s: State, st: Step): State
    requires Enabled(s, st)
  {
    match st
    case Connect(c) => Put(s, c, Conn(true, 0, "", Ready))
    case Disconnect(c) =>
      var conn := s.conns[c];
      Put(s, c, conn.(live := false)).(clients := if conn.userID == 0 then s.clients else s.clients - {conn.userID})
    case Logout(c) => s.(clients := s.clients - {s.conns[c].userID})
    case LoginCheck(c, u) => Put(s, c, s.conns[c].(pc := Checked(u)))
    case LoginFields(c) => Put(s, c, s.conns[c].(userID := s.conns[c].pc.user, pc := Named(s.conns[c].pc.user)))
    case LoginStore(c) => Put(s, c, s.conns[c].(pc := Ready)).(clients := s.clients[s.conns[c].pc.user := c])
    case SendJoin(c, r) => Put(s, c, s.conns[c].(pc := Joining(r)))
    case ServeJoin(c) =>
      var r, u := s.conns[c].pc.room, s.conns[c].userID;
      var verdict := JudgeJoin(MembersOf(s, r), RoomOf(s, r).capacity, u);
      Put(AfterServedJoin(s, r, u), c, s.conns[c].(pc := JoinReplied(r, verdict != RoomFull)))
    case JoinAnswer(c) =>
      var conn := s.conns[c];
      Put(s, c, conn.(pc := Ready, currentRoom := if conn.pc.admitted then conn.pc.room else conn.currentRoom))
    case JoinTimeout(c) =>
      var conn := s.conns[c];
      Put(s, c, conn.(pc := Ready)).(strays :=
        if conn.pc.Joining? then s.strays + multiset{StrayJoin(conn.pc.room, conn.userID)} else s.strays)
    case SendLeave(c) => Put(s, c, s.conns[c].(pc := Leaving(s.conns[c].currentRoom)))
    case ServeLeave(c) =>
      Put(AfterServedLeave(s, s.conns[c].pc.room, s.conns[c].userID), c,
          s.conns[c].(pc := LeaveReplied(s.conns[c].pc.room)))
    case LeaveAnswer(c) => Put(s, c, s.conns[c].(pc := Ready, currentRoom := ""))
    case LeaveTimeout(c) =>
      var conn := s.conns[c];
      Put(s, c, conn.(pc := Ready)).(strays :=
        if conn.pc.Leaving? then s.strays + multiset{StrayLeave(conn.pc.room, conn.userID)} else s.strays)
    case ServeStray(x) =>
      (if x.StrayJoin? then AfterServedJoin(s, x.room, x.user) else AfterServedLeave(s, x.room, x.user))
        .(strays := s.strays - multiset{x})
    case DropStray(x) => s.(strays := s.strays - multiset{x})
    case CreateRoom(r, cap) => if cap > 0 then s.(rooms := s.rooms[r := RoomOf(s, r).(capacity := cap)]) else s
  }

  const EMPTY := State(map[], map[], map[], multiset{})

  /** No user id is held by two live connections. */
  ghost predicate OnePerUser(s: State) {
    forall c, d |
        c in s.conns && d in s.conns && c != d && s.conns[c].live && s.conns[d].live && s.conns[c].userID != 0 ::
      s.conns[c].userID != s.conns[d].userID
  }

  /** A connection logs in once, and every leave response arrives. */
  predicate Orderly(s: State, st: Step)
    requires Enabled(s, st)
  {
    && !st.LeaveTimeout?
    && (st.LoginFields? ==> s.conns[st.c].userID == 0)
  }

  /** What the client believes about its room is true, except between the room serving its leave and the answer. */
  ghost predicate ConnOk(s: State, conn: Conn) {
    && (conn.userID == 0 ==> conn.currentRoom == "" && (conn.pc.Ready? || conn.pc.Checked? || conn.pc.Named?))
    && (conn.pc.Leaving? || conn.pc.LeaveReplied? ==> conn.pc.room == conn.currentRoom != "")
    && (conn.pc.JoinReplied? && conn.pc.admitted ==> conn.userID in MembersOf(s, conn.pc.room))
    && (conn.currentRoom != "" && !conn.pc.LeaveReplied? ==> conn.userID in MembersOf(s, conn.currentRoom))
  }

  ghost predicate Inv(s: State) {
    && (forall c | c in s.conns && s.conns[c].live :: ConnOk(s, s.conns[c]))
    && (forall r, u :: StrayLeave(r, u) !in s.strays)
  }

  /** Serving a leave concerns one user; nobody else's membership changes. */
  lemma LeaveServed(s: State, c: nat)
    requires Inv(s) && OnePerUser(s) && Enabled(s, ServeLeave(c))
    ensures Inv(Next(s, ServeLeave(c)))
  {
    var n := Next(s, ServeLeave(c));
    assert ConnOk(s, s.conns[c]);
    forall d | d in n.conns && n.conns[d].live ensures ConnOk(n, n.conns[d]) {
      assert ConnOk(s, s.conns[d]);
      if d != c {
        assert s.conns[d].userID != s.conns[c].userID;
        assert forall r :: s.conns[d].userID in MembersOf(s, r) ==> s.conns[d].userID in MembersOf(n, r);
      }
    }
  }

  lemma RoomsOnlyGrow(s: State, n: State)
    requires Inv(s) && (forall r :: MembersOf(s, r) <= MembersOf(n, r))
    requires forall c | c in n.conns && n.conns[c].live :: c in s.conns && s.conns[c] == n.conns[c]
    requires n.strays <= s.strays
    ensures Inv(n)
  {
    forall c | c in n.conns && n.conns[c].live ensures ConnOk(n, n.conns[c]) {
      assert ConnOk(s, s.conns[c]);
    }
  }

  lemma JoinServed(s: State, c: nat)
    requires Inv(s) && Enabled(s, ServeJoin(c))
    ensures Inv(Next(s, ServeJoin(c)))
  {
    var r, u := s.conns[c].pc.room, s.conns[c].userID;
    var m := AfterServedJoin(s, r, u);
    var n := Next(s, ServeJoin(c));
    RoomsOnlyGrow(s, m);
    assert ConnOk(s, s.conns[c]);
    forall d | d in n.conns && n.conns[d].live ensures ConnOk(n, n.conns[d]) {
      assert ConnOk(m, m.conns[d]);
      assert forall q :: MembersOf(n, q) == MembersOf(m, q);
    }
  }

  lemma ClientStep(s: State, st: Step)
    requires Inv(s) && Enabled(s, st) && Orderly(s, st)
    requires !st.ServeJoin? && !st.ServeLeave? && !st.ServeStray? && !st.DropStray? && !st.CreateRoom?
    ensures Inv(Next(s, st))
  {
    var n := Next(s, st);
    assert forall q :: MembersOf(n, q) == MembersOf(s, q);
    if !st.Connect? {
      assert ConnOk(s, s.conns[st.c]);
    }
    forall d | d in n.conns && n.conns[d].live ensures ConnOk(n, n.conns[d]) {
      if d != st.c {
        assert ConnOk(s, s.conns[d]);
      }
    }
  }

  /** Only joins are still on their way. */
  lemma StrayServed(s: State, x: Stray)
    requires Inv(s) && Enabled(s, ServeStray(x))
    ensures Inv(Next(s, ServeStray(x)))
  {
    RoomsOnlyGrow(s, Next(s, ServeStray(x)));
  }

  lemma StrayDropped(s: State, x: Stray)
    requires Inv(s) && Enabled(s, DropStray(x))
    ensures Inv(Next(s, DropStray(x)))
  {
    RoomsOnlyGrow(s, Next(s, DropStray(x)));
  }

  lemma RoomCreated(s: State, r: string, cap: int)
    requires Inv(s) && Enabled(s, CreateRoom(r, cap))
    ensures Inv(Next(s, CreateRoom(r, cap)))
  {
    RoomsOnlyGrow(s, Next(s, CreateRoom(r, cap)));
  }

  lemma InvStep(s: State, st: Step)
    requires Inv(s) && OnePerUser(s) && Enabled(s, st) && Orderly(s, st)
    ensures Inv(Next(s, st))
  {
    match st
    case ServeJoin(c) => JoinServed(s, c);
    case ServeLeave(c) => LeaveServed(s, c);
    case ServeStray(x) => StrayServed(s, x);
    case DropStray(x) => StrayDropped(s, x);
    case CreateRoom(r, cap) => RoomCreated(s, r, cap);
    case _ => ClientStep(s, st);
  }

  predicate CanRun(s: State, steps: seq<Step>)
    decreases |steps|
  {
    steps != [] ==> Enabled(s, steps[0]) && CanRun(Next(s, steps[0]), steps[1..])
  }

  function Exec(s: State, steps: seq<Step>): State
    requires CanRun(s, steps)
    decreases |steps|
  {
    if steps == [] then s else Exec(Next(s, steps[0]), steps[1..])
  }

  ghost predicate OrderlyRun(s: State, steps: seq<Step>)
    decreases |steps|
  {
    OnePerUser(s) && (steps != [] ==>
      Enabled(s, steps[0]) && Orderly(s, steps[0]) && OrderlyRun(Next(s, steps[0]), steps[1..]))
  }

  lemma {:induction false} InvRun(s: State, steps: seq<Step>)
    requires Inv(s) && OrderlyRun(s, steps)
    ensures CanRun(s, steps) && Inv(Exec(s, steps))
    decreases |steps|
  {
    if steps != [] {
      InvStep(s, steps[0]);
      InvRun(Next(s, steps[0]), steps[1..]);
    }
  }

  /** Session and room agree: in every orderly run a live client's room, when it names one and no leave answer is on its
      way, has the client's user among its members. Join responses may be lost, late or served for nobody. */
  lemma SessionAgreesWithRoom(steps: seq<Step>, c: nat)
    requires OrderlyRun(EMPTY, steps)
    ensures CanRun(EMPTY, steps)
    ensures var s := Exec(EMPTY, steps);
      Live(s, c) && s.conns[c].currentRoom != "" && !s.conns[c].pc.LeaveReplied? ==>
        s.conns[c].userID != 0 && s.conns[c].userID in MembersOf(s, s.conns[c].currentRoom)
  {
    InvRun(EMPTY, steps);
    var s := Exec(EMPTY, steps);
    if Live(s, c) {
      assert ConnOk(s, s.conns[c]);
    }
  }

  // ----- the window in which a leave has been served but not answered -----

  /** An orderly run in which every join is waited for. */
  ghost predicate PromptRun(s: State, steps: seq<Step>)
    decreases |steps|
  {
    OnePerUser(s) && (steps != [] ==>
      && Enabled(s, steps[0]) && Orderly(s, steps[0]) && !steps[0].JoinTimeout?
      && PromptRun(Next(s, steps[0]), steps[1..]))
  }

  /** A leave that has been served has taken the user out, and nothing is on its way that could undo it. */
  ghost predicate LeftOk(s: State) {
    && s.strays == multiset{}
    && (forall c | c in s.conns && s.conns[c].live && s.conns[c].pc.LeaveReplied? ::
          s.conns[c].userID != 0 && s.conns[c].userID !in MembersOf(s, s.conns[c].pc.room))
  }

  lemma LeftStep(s: State, st: Step)
    requires Inv(s) && OnePerUser(s) && LeftOk(s) && Enabled(s, st) && Orderly(s, st) && !st.JoinTimeout?
    ensures LeftOk(Next(s, st))
  {
    var n := Next(s, st);
    if st.ServeJoin? {
      JoinsElsewhere(s, st.c);
    } else if st.ServeLeave? {
      assert ConnOk(s, s.conns[st.c]);
    } else {
      assert forall q :: MembersOf(n, q) == MembersOf(s, q);
    }
  }

  lemma JoinsElsewhere(s: State, c: nat)
    requires Inv(s) && OnePerUser(s) && LeftOk(s) && Enabled(s, ServeJoin(c))
    ensures LeftOk(Next(s, ServeJoin(c)))
  {
    var n := Next(s, ServeJoin(c));
    assert ConnOk(s, s.conns[c]);
    assert forall q, u | u in MembersOf(n, q) :: u in MembersOf(s, q) || u == s.conns[c].userID;
  }

  lemma {:induction false} LeftRun(s: State, steps: seq<Step>)
    requires Inv(s) && LeftOk(s) && PromptRun(s, steps)
    ensures CanRun(s, steps) && Inv(Exec(s, steps)) && LeftOk(Exec(s, steps))
    decreases |steps|
  {
    if steps != [] {
      InvStep(s, steps[0]);
      LeftStep(s, steps[0]);
      LeftRun(Next(s, steps[0]), steps[1..]);
    }
  }

  /** At any moment, exactly who is wrong about its room: in every run that waits for its joins, a live client with a
      room is a member of it if and only if no served leave of its own is still unanswered. */
  lemma WrongExactlyInTheWindow(steps: seq<Step>, c: nat)
    requires PromptRun(EMPTY, steps)
    ensures CanRun(EMPTY, steps)
    ensures var s := Exec(EMPTY, steps);
      Live(s, c) && s.conns[c].currentRoom != "" ==>
        (s.conns[c].userID in MembersOf(s, s.conns[c].currentRoom) <==> !s.conns[c].pc.LeaveReplied?)
  {
    LeftRun(EMPTY, steps);
    var s := Exec(EMPTY, steps);
    if Live(s, c) {
      assert ConnOk(s, s.conns[c]);
    }
  }
}
