/** Which users are taken for online for ever, and runs that log out, go and come back. */
module StuckUsers {
  import opened Session
  import opened SessionHistory

  /** The user the connection will have when its handler is done with what it is at. */
  function WillBe(conn: Conn): int {
    if conn.pc.Checked? then conn.pc.user else conn.userID
  }

  /** The user is stored, and no live connection is the user's or about to be. */
  ghost predicate Stuck(s: State, u: int) {
    u in s.clients && forall c | Live(s, c) :: WillBe(s.conns[c]) != u
  }

  lemma StuckStep(s: State, st: Step, u: int)
    requires Enabled(s, st) && u != 0 && Stuck(s, u)
    ensures Stuck(Next(s, st), u)
  {
    var n := Next(s, st);
    ClientsStep(s, st, u);
    forall c | Live(n, c) ensures WillBe(n.conns[c]) != u {
      ConnStep(s, st, c);
      if Live(s, c) && Concerns(st, c) {
        OwnStep(s, st, c);
      }
    }
  }

  /** A step of a live connection changes who it will be only by a check, which a stored user does not pass. */
  lemma OwnStep(s: State, st: Step, c: nat)
    requires Enabled(s, st) && Live(s, c) && Concerns(st, c)
    ensures c in Next(s, st).conns
    ensures WillBe(Next(s, st).conns[c]) == if st.LoginCheck? then st.user else WillBe(s.conns[c])
    ensures st.LoginCheck? ==> st.user !in s.clients
  {
  }

  lemma {:induction false} StuckStays(s: State, steps: seq<Step>, u: int)
    requires u != 0 && Stuck(s, u) && CanRun(s, steps)
    ensures Stuck(Exec(s, steps), u)
    decreases |steps|
  {
    if steps != [] {
      StuckStep(s, steps[0], u);
      StuckStays(Next(s, steps[0]), steps[1..], u);
    }
  }

  /** The run frees the user. */
  ghost predicate Frees(s: State, steps: seq<Step>, u: int) {
    CanRun(s, steps) && u !in Exec(s, steps).clients
  }

  lemma Before(s: State, st: Step, rest: seq<Step>, u: int)
    requires Enabled(s, st) && Frees(Next(s, st), rest, u)
    ensures Frees(s, [st] + rest, u)
  {
    assert ([st] + rest)[1..] == rest;
  }

  lemma ReadyFrees(s: State, c: nat, u: int) returns (steps: seq<Step>)
    requires u != 0 && Live(s, c) && s.conns[c].pc.Ready? && s.conns[c].userID == u
    ensures Frees(s, steps, u)
  {
    steps := [Logout(c)] + [];
    assert Frees(Next(s, Logout(c)), [], u);
    Before(s, Logout(c), [], u);
  }

  /** One step, if any, and the connection is ready as the user; two, if it has only been checked. */
  lemma HolderFrees(s: State, c: nat, u: int) returns (steps: seq<Step>)
    requires u != 0 && Live(s, c) && WillBe(s.conns[c]) == u
    ensures Frees(s, steps, u)
  {
    var pc := s.conns[c].pc;
    if pc.Ready? {
      steps := ReadyFrees(s, c, u);
    } else {
      var st := match pc
        case Checked(_) => LoginFields(c)
        case Named(_) => LoginStore(c)
        case Joining(_) => JoinTimeout(c)
        case JoinReplied(_, _) => JoinTimeout(c)
        case _ => LeaveTimeout(c);
      assert Enabled(s, st);
      var n := Next(s, st);
      assert Live(n, c) && n.conns[c].userID == u && (n.conns[c].pc.Ready? || n.conns[c].pc.Named?);
      var rest := DoneFrees(n, c, u);
      Before(s, st, rest, u);
      steps := [st] + rest;
    }
  }

  lemma DoneFrees(s: State, c: nat, u: int) returns (steps: seq<Step>)
    requires u != 0 && Live(s, c) && s.conns[c].userID == u && (s.conns[c].pc.Ready? || s.conns[c].pc.Named?)
    ensures Frees(s, steps, u)
  {
    if s.conns[c].pc.Ready? {
      steps := ReadyFrees(s, c, u);
    } else {
      var n := Next(s, LoginStore(c));
      var rest := ReadyFrees(n, c, u);
      Before(s, LoginStore(c), rest, u);
      steps := [LoginStore(c)] + rest;
    }
  }

  /** Exactly which stored users can never log in again, whatever happens: those whom no live connection holds or is
      about to hold. */
  lemma StuckExactly(s: State, u: int)
    requires u != 0 && u in s.clients
    ensures Stuck(s, u) <==> !exists steps :: Frees(s, steps, u)
  {
    if Stuck(s, u) {
      forall steps | CanRun(s, steps) ensures !Frees(s, steps, u) {
        StuckStays(s, steps, u);
      }
    } else {
      var c :| Live(s, c) && WillBe(s.conns[c]) == u;
      var steps := HolderFrees(s, c, u);
      assert Frees(s, steps, u);
    }
  }

  /** User 0, which an unregistered connection also carries, is never dropped. */
  lemma {:induction false} ZeroStays(s: State, steps: seq<Step>)
    requires 0 in s.clients && CanRun(s, steps)
    ensures 0 in Exec(s, steps).clients
    decreases |steps|
  {
    if steps != [] {
      ClientsStep(s, steps[0], 0);
      ZeroStays(Next(s, steps[0]), steps[1..]);
    }
  }

  // ----- runs -----

  ghost predicate Took(steps: seq<Step>, t: State) {
    CanRun(EMPTY, steps) && Exec(EMPTY, steps) == t
  }

  lemma Take(steps: seq<Step>, s: State, st: Step, n: State)
    requires Took(steps, s) && Enabled(s, st) && n == Next(s, st)
    ensures Took(steps + [st], n)
  {
    AppendStep(EMPTY, steps, st);
  }

  /** Connection 1 alone. */
  function Only(u: int, pc: Pc, live: bool, clients: map<int, nat>): State {
    State(map[1 := Conn(live, u, "", pc)], clients, map[], multiset{})
  }

  function LoginRun(u: int): seq<Step> {
    [] + [Connect(1)] + [LoginCheck(1, u)] + [LoginFields(1)] + [LoginStore(1)]
  }

  lemma LoginTakes(u: int)
    ensures Took(LoginRun(u), Only(u, Ready, true, map[u := 1]))
  {
    assert Took([], EMPTY);
    Take([], EMPTY, Connect(1), Only(0, Ready, true, map[]));
    var one: seq<Step> := [] + [Connect(1)];
    Take(one, Only(0, Ready, true, map[]), LoginCheck(1, u), Only(0, Checked(u), true, map[]));
    Take(one + [LoginCheck(1, u)], Only(0, Checked(u), true, map[]), LoginFields(1), Only(u, Named(u), true, map[]));
    Take(one + [LoginCheck(1, u)] + [LoginFields(1)], Only(u, Named(u), true, map[]), LoginStore(1),
         Only(u, Ready, true, map[u := 1]));
  }

  function WithSecond(first: Conn, second: Conn, clients: map<int, nat>): State {
    State(map[1 := first, 2 := second], clients, map[], multiset{})
  }

  /** A second connection logs in as the user, from where the first one's login has been taken back. */
  lemma ComesBack(steps: seq<Step>, first: Conn, u: int)
    requires Took(steps, State(map[1 := first], map[], map[], multiset{}))
    ensures Took(steps + [Connect(2)] + [LoginCheck(2, u)] + [LoginFields(2)],
                 WithSecond(first, Conn(true, u, "", Named(u)), map[]))
  {
    var s := State(map[1 := first], map[], map[], multiset{});
    Take(steps, s, Connect(2), WithSecond(first, Conn(true, 0, "", Ready), map[]));
    Take(steps + [Connect(2)], WithSecond(first, Conn(true, 0, "", Ready), map[]), LoginCheck(2, u),
         WithSecond(first, Conn(true, 0, "", Checked(u)), map[]));
    Take(steps + [Connect(2)] + [LoginCheck(2, u)], WithSecond(first, Conn(true, 0, "", Checked(u)), map[]),
        LoginFields(2),
         WithSecond(first, Conn(true, u, "", Named(u)), map[]));
  }

  /** Log in, go away, and log in again over a new connection. */
  lemma UserComesBack(u: int)
    requires u != 0
    ensures var steps := LoginRun(u) + [Disconnect(1)] + [Connect(2)] + [LoginCheck(2, u)] + [LoginFields(2)];
      CanRun(EMPTY, steps) && Live(Exec(EMPTY, steps), 2) && Exec(EMPTY, steps).conns[2].userID == u
  {
    LoginTakes(u);
    assert map[u := 1] - {u} == map[];
    Take(LoginRun(u), Only(u, Ready, true, map[u := 1]), Disconnect(1), Only(u, Ready, false, map[]));
    ComesBack(LoginRun(u) + [Disconnect(1)], Conn(false, u, "", Ready), u);
  }

  /** Without any race: log in, log out, and log in over a second connection. A logout takes the client off the list,
      but the connection keeps its user, so that both are live as the same one. */
  lemma LogoutThenLogin(u: int)
    requires u != 0
    ensures var steps := LoginRun(u) + [Logout(1)] + [Connect(2)] + [LoginCheck(2, u)] + [LoginFields(2)];
      && CanRun(EMPTY, steps)
      && var s := Exec(EMPTY, steps); Live(s, 1) && Live(s, 2) && s.conns[1].userID == s.conns[2].userID == u
  {
    LoginTakes(u);
    assert map[u := 1] - {u} == map[];
    Take(LoginRun(u), Only(u, Ready, true, map[u := 1]), Logout(1), Only(u, Ready, true, map[]));
    ComesBack(LoginRun(u) + [Logout(1)], Conn(true, u, "", Ready), u);
  }

  /** A second login on the same connection leaves the first user stuck. */
  lemma SecondLoginSticks(u: int, v: int)
    requires u != 0 && v != 0 && u != v
    ensures var steps := LoginRun(u) + [LoginCheck(1, v)] + [LoginFields(1)] + [LoginStore(1)];
      CanRun(EMPTY, steps) && Stuck(Exec(EMPTY, steps), u)
  {
    LoginTakes(u);
    var cs := map[u := 1];
    Take(LoginRun(u), Only(u, Ready, true, cs), LoginCheck(1, v), Only(u, Checked(v), true, cs));
    Take(LoginRun(u) + [LoginCheck(1, v)], Only(u, Checked(v), true, cs), LoginFields(1), Only(v, Named(v), true, cs));
    Take(LoginRun(u) + [LoginCheck(1, v)] + [LoginFields(1)], Only(v, Named(v), true, cs), LoginStore(1),
         Only(v, Ready, true, cs[v := 1]));
  }

  /** A join whose caller gave up is still served: the room has a member that believes itself in no room. */
  lemma UnknowingMember(u: int, r: string)
    requires u != 0 && r != ""
    ensures var steps := LoginRun(u) + [SendJoin(1, r)] + [JoinTimeout(1)] + [ServeStray(StrayJoin(r, u))];
      && CanRun(EMPTY, steps)
      && var s := Exec(EMPTY, steps);
         Live(s, 1) && s.conns[1] == Conn(true, u, "", Ready) && u in MembersOf(s, r)
  {
    LoginTakes(u);
    var cs, x := map[u := 1], StrayJoin(r, u);
    var asked := State(map[1 := Conn(true, u, "", Joining(r))], cs, map[], multiset{});
    var gone := State(map[1 := Conn(true, u, "", Ready)], cs, map[], multiset{x});
    Take(LoginRun(u), Only(u, Ready, true, cs), SendJoin(1, r), asked);
    Take(LoginRun(u) + [SendJoin(1, r)], asked, JoinTimeout(1), gone);
    Take(LoginRun(u) + [SendJoin(1, r)] + [JoinTimeout(1)], gone, ServeStray(x), Next(gone, ServeStray(x)));
  }
}
