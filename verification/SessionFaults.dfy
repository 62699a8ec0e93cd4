/**
 Exactly which steps put a session and its room at odds, or a user on two connections; and runs in which it happens.
 */
module SessionFaults {
  import opened RoomLog
  import opened Session

  /** What a live client says about its room is true, unless it is about to hear that it has left. */
  ghost predicate AgreesAt(s: State, c: nat) {
    Live(s, c) && s.conns[c].currentRoom != "" && !s.conns[c].pc.LeaveReplied? ==>
      s.conns[c].userID in MembersOf(s, s.conns[c].currentRoom)
  }

  ghost predicate Agrees(s: State) {
    forall c :: AgreesAt(s, c)
  }

  /** Connection `c` counts on user `u` being in room `r`. */
  ghost predicate CountsOn(s: State, c: nat, r: string, u: int) {
    Live(s, c) && !s.conns[c].pc.LeaveReplied? && s.conns[c].userID == u && s.conns[c].currentRoom == r != ""
  }

  /** The steps that break the agreement: a leave served for a user that another connection counts on; an abandoned
      leave served for a user that some connection counts on; giving up on a leave that has been served; a login over
      a session that is in a room the new user is not in; and a join answer that comes after the user has been taken
      out again. */
  ghost predicate Breaks(s: State, st: Step)
    requires Enabled(s, st)
  {
    match st
    case ServeLeave(d) => exists c :: c != d && CountsOn(s, c, s.conns[d].pc.room, s.conns[d].userID)
    case ServeStray(x) => x.StrayLeave? && exists c :: CountsOn(s, c, x.room, x.user)
    case LeaveTimeout(c) =>
      s.conns[c].pc.LeaveReplied? && s.conns[c].currentRoom != "" &&
          s.conns[c].userID !in MembersOf(s, s.conns[c].currentRoom)
    case LoginFields(c) => s.conns[c].currentRoom != "" && s.conns[c].pc.user !in MembersOf(s, s.conns[c].currentRoom)
    case JoinAnswer(c) =>
      s.conns[c].pc.admitted && s.conns[c].pc.room != "" && s.conns[c].userID !in MembersOf(s, s.conns[c].pc.room)
    case _ => false
  }

  /** A leave served while its caller waits. */
  lemma LeaveBreaksExactly(s: State, d: nat)
    requires Agrees(s) && Enabled(s, ServeLeave(d))
    ensures Agrees(Next(s, ServeLeave(d))) <==> !Breaks(s, ServeLeave(d))
  {
    var n := Next(s, ServeLeave(d));
    forall c ensures AgreesAt(n, c) <==> !(c != d && CountsOn(s, c, s.conns[d].pc.room, s.conns[d].userID)) {
      assert AgreesAt(s, c);
    }
  }

  /** An abandoned leave served late. */
  lemma StrayBreaksExactly(s: State, x: Stray)
    requires Agrees(s) && Enabled(s, ServeStray(x)) && x.StrayLeave?
    ensures Agrees(Next(s, ServeStray(x))) <==> !Breaks(s, ServeStray(x))
  {
    var n := Next(s, ServeStray(x));
    forall c ensures AgreesAt(n, c) <==> !CountsOn(s, c, x.room, x.user) {
      assert AgreesAt(s, c);
    }
  }

  lemma RoomStepKeeps(s: State, st: Step)
    requires Agrees(s) && Enabled(s, st)
    requires st.DropStray? || st.CreateRoom? || (st.ServeStray? && st.stray.StrayJoin?)
    ensures Agrees(Next(s, st))
  {
    var n := Next(s, st);
    assert n.conns == s.conns;
    forall r, u | u in MembersOf(s, r) ensures u in MembersOf(n, r) {
    }
    GrowingKeeps(s, n);
  }

  lemma GrowingKeeps(s: State, n: State)
    requires Agrees(s) && n.conns == s.conns && forall r, u | u in MembersOf(s, r) :: u in MembersOf(n, r)
    ensures Agrees(n)
  {
    forall c ensures AgreesAt(n, c) {
      assert AgreesAt(s, c);
    }
  }

  lemma JoinKeeps(s: State, c: nat)
    requires Agrees(s) && Enabled(s, ServeJoin(c))
    ensures Agrees(Next(s, ServeJoin(c)))
  {
    var n := Next(s, ServeJoin(c));
    assert forall r :: MembersOf(s, r) <= MembersOf(n, r);
    forall d ensures AgreesAt(n, d) {
      assert AgreesAt(s, d);
    }
  }

  /** A step of one connection leaves the rooms and the other connections alone. */
  lemma OwnStepExactly(s: State, st: Step)
    requires Agrees(s) && Enabled(s, st)
    requires !st.ServeJoin? && !st.ServeLeave? && !st.ServeStray? && !st.DropStray? && !st.CreateRoom?
    ensures Agrees(Next(s, st)) <==> !Breaks(s, st)
  {
    var n := Next(s, st);
    assert forall r :: MembersOf(n, r) == MembersOf(s, r);
    forall c | c != st.c ensures AgreesAt(n, c) {
      assert AgreesAt(s, c);
    }
    assert AgreesAt(s, st.c);
    OwnConnExactly(s, st);
  }

  lemma OwnConnExactly(s: State, st: Step)
    requires !st.ServeJoin? && !st.ServeLeave? && !st.ServeStray? && !st.DropStray? && !st.CreateRoom?
    requires AgreesAt(s, st.c) && Enabled(s, st)
    requires forall r :: MembersOf(Next(s, st), r) == MembersOf(s, r)
    ensures AgreesAt(Next(s, st), st.c) <==> !Breaks(s, st)
  {
  }

  /** Step by step, exactly what breaks the agreement. */
  lemma StepBreaksExactly(s: State, st: Step)
    requires Agrees(s) && Enabled(s, st)
    ensures Agrees(Next(s, st)) <==> !Breaks(s, st)
  {
    if st.ServeLeave? {
      LeaveBreaksExactly(s, st.c);
    } else if st.ServeStray? && st.stray.StrayLeave? {
      StrayBreaksExactly(s, st.stray);
    } else if st.ServeJoin? {
      JoinKeeps(s, st.c);
    } else if st.ServeStray? || st.DropStray? || st.CreateRoom? {
      RoomStepKeeps(s, st);
    } else {
      OwnStepExactly(s, st);
    }
  }

  ghost predicate AgreesThroughout(s: State, steps: seq<Step>)
    requires CanRun(s, steps)
    decreases |steps|
  {
    Agrees(s) && (steps != [] ==> AgreesThroughout(Next(s, steps[0]), steps[1..]))
  }

  ghost predicate NeverBreaks(s: State, steps: seq<Step>)
    requires CanRun(s, steps)
    decreases |steps|
  {
    steps != [] ==> !Breaks(s, steps[0]) && NeverBreaks(Next(s, steps[0]), steps[1..])
  }

  lemma {:induction false} AgreesExactlyFrom(s: State, steps: seq<Step>)
    requires Agrees(s) && CanRun(s, steps)
    ensures AgreesThroughout(s, steps) <==> NeverBreaks(s, steps)
    decreases |steps|
  {
    if steps != [] {
      StepBreaksExactly(s, steps[0]);
      if Agrees(Next(s, steps[0])) {
        AgreesExactlyFrom(Next(s, steps[0]), steps[1..]);
      }
    }
  }

  /** Over every run: sessions and rooms agree all the way if and only if none of the breaking steps is taken. */
  lemma AgreesExactly(steps: seq<Step>)
    requires CanRun(EMPTY, steps)
    ensures AgreesThroughout(EMPTY, steps) <==> NeverBreaks(EMPTY, steps)
  {
    AgreesExactlyFrom(EMPTY, steps);
  }

  // ----- one connection per user -----

  /** A login that goes through although another live connection has the user. */
  ghost predicate Doubles(s: State, st: Step)
    requires Enabled(s, st)
  {
    st.LoginFields? && s.conns[st.c].pc.user != 0 &&
    exists d :: d != st.c && Live(s, d) && s.conns[d].userID == s.conns[st.c].pc.user
  }

  /** Step by step, exactly what gives a user a second connection. */
  lemma StepDoublesExactly(s: State, st: Step)
    requires OnePerUser(s) && Enabled(s, st)
    ensures OnePerUser(Next(s, st)) <==> !Doubles(s, st)
  {
    if st.LoginFields? {
      LoginDoublesExactly(s, st.c);
    } else {
      UsersStay(s, st);
    }
  }

  lemma UsersStay(s: State, st: Step)
    requires Enabled(s, st) && !st.LoginFields?
    ensures var n := Next(s, st);
      forall d | Live(n, d) :: n.conns[d].userID == 0 || (Live(s, d) && n.conns[d].userID == s.conns[d].userID)
  {
    if st.ServeStray? || st.DropStray? || st.CreateRoom? || st.Logout? {
      assert Next(s, st).conns == s.conns;
    } else {
      OneConnChanges(s, st);
    }
  }

  lemma OneConnChanges(s: State, st: Step)
    requires Enabled(s, st) && !st.LoginFields?
    requires !st.ServeStray? && !st.DropStray? && !st.CreateRoom? && !st.Logout?
    ensures var n := Next(s, st);
      && st.c in n.conns && n.conns == s.conns[st.c := n.conns[st.c]]
      && if st.Connect? then n.conns[st.c].userID == 0
          else Live(s, st.c) && n.conns[st.c].userID == s.conns[st.c].userID
  {
  }

  /** In particular: a login is the only one of its user if and only if no other live connection holds the user when the
      fields are set, whatever the clients said when they were checked. */
  lemma LoginDoublesExactly(s: State, c: nat)
    requires OnePerUser(s) && Enabled(s, LoginFields(c))
    ensures OnePerUser(Next(s, LoginFields(c))) <==>
      s.conns[c].pc.user == 0 || forall d | d != c && Live(s, d) :: s.conns[d].userID != s.conns[c].pc.user
  {
    var n := Next(s, LoginFields(c));
    assert forall d | d != c && Live(s, d) :: Live(n, d) && n.conns[d] == s.conns[d];
    assert Live(n, c) && n.conns[c].userID == s.conns[c].pc.user;
  }

  ghost predicate OnePerUserThroughout(s: State, steps: seq<Step>)
    requires CanRun(s, steps)
    decreases |steps|
  {
    OnePerUser(s) && (steps != [] ==> OnePerUserThroughout(Next(s, steps[0]), steps[1..]))
  }

  ghost predicate NeverDoubles(s: State, steps: seq<Step>)
    requires CanRun(s, steps)
    decreases |steps|
  {
    steps != [] ==> !Doubles(s, steps[0]) && NeverDoubles(Next(s, steps[0]), steps[1..])
  }

  /** Over every run: no user is ever on two live connections if and only if no login sets the fields to a user that
      another live connection holds. */
  lemma {:induction false} OnePerUserExactly(s: State, steps: seq<Step>)
    requires OnePerUser(s) && CanRun(s, steps)
    ensures OnePerUserThroughout(s, steps) <==> NeverDoubles(s, steps)
    decreases |steps|
  {
    if steps != [] {
      StepDoublesExactly(s, steps[0]);
      if OnePerUser(Next(s, steps[0])) {
        OnePerUserExactly(Next(s, steps[0]), steps[1..]);
      }
    }
  }

  // ----- runs that go wrong -----

  ghost predicate Reached(t: State) {
    exists steps :: CanRun(EMPTY, steps) && Exec(EMPTY, steps) == t
  }

  lemma {:induction false} Append(s: State, steps: seq<Step>, st: Step)
    requires CanRun(s, steps) && Enabled(Exec(s, steps), st)
    ensures CanRun(s, steps + [st]) && Exec(s, steps + [st]) == Next(Exec(s, steps), st)
    decreases |steps|
  {
    var more := steps + [st];
    if steps == [] {
      assert more[1..] == [];
      assert CanRun(Next(s, st), []);
    } else {
      assert more[1..] == steps[1..] + [st];
      Append(Next(s, steps[0]), steps[1..], st);
    }
  }

  lemma Go(s: State, st: Step, n: State)
    requires Reached(s) && Enabled(s, st) && n == Next(s, st)
    ensures Reached(n)
  {
    var steps :| CanRun(EMPTY, steps) && Exec(EMPTY, steps) == s;
    Append(EMPTY, steps, st);
    assert CanRun(EMPTY, steps + [st]) && Exec(EMPTY, steps + [st]) == n;
  }

  lemma AtTheStart()
    ensures Reached(EMPTY)
  {
    assert CanRun(EMPTY, []) && Exec(EMPTY, []) == EMPTY;
  }

  /** Connection 1 alone. */
  function One(
      u: int, room: string, pc: Pc, clients: map<int, nat>, rooms: map<string, Room>, strays: multiset<Stray>): State {
    State(map[1 := Conn(true, u, room, pc)], clients, rooms, strays)
  }

  function Holding(r: string, members: set<int>): map<string, Room> {
    map[r := Room(members, DEFAULT_CAPACITY)]
  }

  /** User `u` logged in on connection 1 and in room `r`. */
  function InRoom(u: int, r: string): State {
    One(u, r, Ready, map[u := 1], Holding(r, {u}), multiset{})
  }

  lemma LoggingIn(u: int)
    requires u != 0
    ensures Reached(One(u, "", Ready, map[u := 1], map[], multiset{}))
  {
    AtTheStart();
    Go(EMPTY, Connect(1), One(0, "", Ready, map[], map[], multiset{}));
    Go(One(0, "", Ready, map[], map[], multiset{}), LoginCheck(1, u), One(0, "", Checked(u), map[], map[], multiset{}));
    Go(One(0, "", Checked(u), map[], map[], multiset{}), LoginFields(1),
        One(u, "", Named(u), map[], map[], multiset{}));
    Go(One(u, "", Named(u), map[], map[], multiset{}), LoginStore(1),
        One(u, "", Ready, map[u := 1], map[], multiset{}));
  }

  lemma Asking(u: int, r: string)
    requires u != 0 && r != ""
    ensures Reached(One(u, "", Joining(r), map[u := 1], map[], multiset{}))
  {
    LoggingIn(u);
    Go(One(u, "", Ready, map[u := 1], map[], multiset{}), SendJoin(1, r),
        One(u, "", Joining(r), map[u := 1], map[], multiset{}));
  }

  lemma GettingIn(u: int, r: string)
    requires u != 0 && r != ""
    ensures Reached(InRoom(u, r))
  {
    var cs := map[u := 1];
    Asking(u, r);
    Go(One(u, "", Joining(r), cs, map[], multiset{}), ServeJoin(1),
        One(u, "", JoinReplied(r, true), cs, Holding(r, {u}), multiset{}));
    Go(One(u, "", JoinReplied(r, true), cs, Holding(r, {u}), multiset{}), JoinAnswer(1), InRoom(u, r));
  }

  lemma GoingOut(u: int, r: string)
    requires u != 0 && r != ""
    ensures Reached(One(u, r, Leaving(r), map[u := 1], Holding(r, {u}), multiset{}))
  {
    GettingIn(u, r);
    Go(InRoom(u, r), SendLeave(1), One(u, r, Leaving(r), map[u := 1], Holding(r, {u}), multiset{}));
  }

  lemma GivingUp(u: int, r: string)
    requires u != 0 && r != ""
    ensures Reached(One(u, r, Ready, map[u := 1], Holding(r, {u}), multiset{StrayLeave(r, u)}))
  {
    GoingOut(u, r);
    Go(One(u, r, Leaving(r), map[u := 1], Holding(r, {u}), multiset{}), LeaveTimeout(1),
       One(u, r, Ready, map[u := 1], Holding(r, {u}), multiset{StrayLeave(r, u)}));
  }

  /** A leave whose caller gave up, served later, leaves the caller naming a room that its user is no longer in. */
  lemma LostLeaveBreaksIt(u: int, r: string)
    requires u != 0 && r != ""
    ensures exists s: State ::
      && Reached(s) && OnePerUser(s) && Live(s, 1) && s.conns[1] == Conn(true, u, r, Ready)
      && u !in MembersOf(s, r)
  {
    var cs, x := map[u := 1], StrayLeave(r, u);
    GivingUp(u, r);
    assert {u} - {u} == {};
    Go(One(u, r, Ready, cs, Holding(r, {u}), multiset{x}), ServeStray(x),
        One(u, r, Ready, cs, Holding(r, {}), multiset{}));
  }

  /** A second login on the same connection does it at once. */
  lemma SecondLoginBreaksIt(u: int, v: int, r: string)
    requires u != 0 && v != 0 && u != v && r != ""
    ensures exists s: State ::
      && Reached(s) && OnePerUser(s) && Live(s, 1) && s.conns[1].userID == v && s.conns[1].currentRoom == r
      && v !in MembersOf(s, r)
  {
    GettingIn(u, r);
    Go(InRoom(u, r), LoginCheck(1, v), One(u, r, Checked(v), map[u := 1], Holding(r, {u}), multiset{}));
    Go(One(u, r, Checked(v), map[u := 1], Holding(r, {u}), multiset{}), LoginFields(1),
        One(v, r, Named(v), map[u := 1], Holding(r, {u}), multiset{}));
  }

  /** While the answer to a served leave is on its way, even an orderly client still names the room. */
  lemma WindowIsReachable(u: int, r: string)
    requires u != 0 && r != ""
    ensures exists s: State ::
      && Reached(s) && Live(s, 1) && s.conns[1] == Conn(true, u, r, LeaveReplied(r))
      && u !in MembersOf(s, r)
  {
    var cs := map[u := 1];
    GoingOut(u, r);
    assert {u} - {u} == {};
    Go(One(u, r, Leaving(r), cs, Holding(r, {u}), multiset{}), ServeLeave(1),
        One(u, r, LeaveReplied(r), cs, Holding(r, {}), multiset{}));
  }

  /** Connections 1 and 2. */
  function Two(
      u: int, a: string, pa: Pc, v: int, b: string, pb: Pc, clients: map<int, nat>, rooms: map<string, Room>): State {
    State(map[1 := Conn(true, u, a, pa), 2 := Conn(true, v, b, pb)], clients, rooms, multiset{})
  }

  lemma BothChecked(u: int)
    requires u != 0
    ensures Reached(Two(0, "", Checked(u), 0, "", Checked(u), map[], map[]))
  {
    AtTheStart();
    Go(EMPTY, Connect(1), One(0, "", Ready, map[], map[], multiset{}));
    Go(One(0, "", Ready, map[], map[], multiset{}), Connect(2), Two(0, "", Ready, 0, "", Ready, map[], map[]));
    Go(Two(0, "", Ready, 0, "", Ready, map[], map[]), LoginCheck(1, u),
        Two(0, "", Checked(u), 0, "", Ready, map[], map[]));
    Go(Two(0, "", Checked(u), 0, "", Ready, map[], map[]), LoginCheck(2, u),
        Two(0, "", Checked(u), 0, "", Checked(u), map[], map[]));
  }

  lemma BothIn(u: int)
    requires u != 0
    ensures Reached(Two(u, "", Ready, u, "", Ready, map[u := 2], map[]))
  {
    BothChecked(u);
    Go(Two(0, "", Checked(u), 0, "", Checked(u), map[], map[]), LoginFields(1),
        Two(u, "", Named(u), 0, "", Checked(u), map[], map[]));
    Go(Two(u, "", Named(u), 0, "", Checked(u), map[], map[]), LoginFields(2),
        Two(u, "", Named(u), u, "", Named(u), map[], map[]));
    Go(Two(u, "", Named(u), u, "", Named(u), map[], map[]), LoginStore(1),
        Two(u, "", Ready, u, "", Named(u), map[u := 1], map[]));
    assert map[u := 1][u := 2] == map[u := 2];
    Go(Two(u, "", Ready, u, "", Named(u), map[u := 1], map[]), LoginStore(2),
        Two(u, "", Ready, u, "", Ready, map[u := 2], map[]));
  }

  /** For every user: two live connections can be logged in as that user, both having passed the check before either
      stored itself. */
  lemma DoubleLogin(u: int)
    requires u != 0
    ensures exists s: State, c, d ::
      Reached(s) && c != d && Live(s, c) && Live(s, d) && s.conns[c].userID == s.conns[d].userID == u
  {
    BothIn(u);
    var s := Two(u, "", Ready, u, "", Ready, map[u := 2], map[]);
    assert Live(s, 1) && Live(s, 2) && s.conns[1].userID == s.conns[2].userID == u;
  }

  lemma FirstAsks(u: int, r: string)
    requires u != 0 && r != ""
    ensures Reached(Two(u, "", Joining(r), u, "", Ready, map[u := 2], map[]))
  {
    BothIn(u);
    Go(Two(u, "", Ready, u, "", Ready, map[u := 2], map[]), SendJoin(1, r),
        Two(u, "", Joining(r), u, "", Ready, map[u := 2], map[]));
  }

  lemma FirstServed(u: int, r: string)
    requires u != 0 && r != ""
    ensures Reached(Two(u, "", JoinReplied(r, true), u, "", Ready, map[u := 2], Holding(r, {u})))
  {
    FirstAsks(u, r);
    Go(Two(u, "", Joining(r), u, "", Ready, map[u := 2], map[]), ServeJoin(1),
       Two(u, "", JoinReplied(r, true), u, "", Ready, map[u := 2], Holding(r, {u})));
  }

  lemma FirstJoins(u: int, r: string)
    requires u != 0 && r != ""
    ensures Reached(Two(u, r, Ready, u, "", Ready, map[u := 2], Holding(r, {u})))
  {
    FirstServed(u, r);
    Go(Two(u, "", JoinReplied(r, true), u, "", Ready, map[u := 2], Holding(r, {u})), JoinAnswer(1),
       Two(u, r, Ready, u, "", Ready, map[u := 2], Holding(r, {u})));
  }

  lemma BothInRoom(u: int, r: string)
    requires u != 0 && r != ""
    ensures Reached(Two(u, r, Ready, u, r, Ready, map[u := 2], Holding(r, {u})))
  {
    FirstJoins(u, r);
    SecondJoins(u, r);
  }

  lemma SecondJoins(u: int, r: string)
    requires r != "" && u != 0 && Reached(Two(u, r, Ready, u, "", Ready, map[u := 2], Holding(r, {u})))
    ensures Reached(Two(u, r, Ready, u, r, Ready, map[u := 2], Holding(r, {u})))
  {
    var cs, rs := map[u := 2], Holding(r, {u});
    Go(Two(u, r, Ready, u, "", Ready, cs, rs), SendJoin(2, r), Two(u, r, Ready, u, "", Joining(r), cs, rs));
    Go(Two(u, r, Ready, u, "", Joining(r), cs, rs), ServeJoin(2),
        Two(u, r, Ready, u, "", JoinReplied(r, true), cs, rs));
    Go(Two(u, r, Ready, u, "", JoinReplied(r, true), cs, rs), JoinAnswer(2), Two(u, r, Ready, u, r, Ready, cs, rs));
  }

  lemma OneGoesOut(u: int, r: string)
    requires u != 0 && r != ""
    ensures Reached(Two(u, r, Ready, u, r, Leaving(r), map[u := 2], Holding(r, {u})))
  {
    BothInRoom(u, r);
    Go(Two(u, r, Ready, u, r, Ready, map[u := 2], Holding(r, {u})), SendLeave(2),
        Two(u, r, Ready, u, r, Leaving(r), map[u := 2], Holding(r, {u})));
  }

  /** With two connections of one user, both in the room, serving the leave of one makes the other's room wrong. */
  lemma SecondConnectionBreaksIt(u: int, r: string)
    requires u != 0 && r != ""
    ensures exists s: State ::
      && Reached(s) && Live(s, 1) && s.conns[1] == Conn(true, u, r, Ready) && u !in MembersOf(s, r)
      && Live(s, 2) && s.conns[2].pc == LeaveReplied(r)
  {
    var cs, rs := map[u := 2], Holding(r, {u});
    OneGoesOut(u, r);
    assert {u} - {u} == {};
    Go(Two(u, r, Ready, u, r, Leaving(r), cs, rs), ServeLeave(2),
        Two(u, r, Ready, u, r, LeaveReplied(r), cs, Holding(r, {})));
  }
}
