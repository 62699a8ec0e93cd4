/**
 A reachable state in which the cache is wrong for good although no watcher was ever removed with a listing in flight:
 removing an idle watcher that is behind can be enough when prefixes overlap.
 */
module LostKey {
  import opened Common
  import opened Remote
  import opened CacheSync
  import opened Lifecycle
  import opened WatchProtocol
  import opened Convergence

  const C := "c"
  const CK := "ck"

  ghost function First(): Snapshot { Snapshot(map[CK := Item([], 2)], p => 2) }

  ghost function Second(): Snapshot { Snapshot(map[], p => 3) }

  /** No watcher is removed while it has a query or a listing in flight. */
  ghost predicate IdleRemoval(s: Sys, st: Step)
    requires Typed(s)
  {
    !st.Stop? && (st.Remove? && st.p in s.life.reg ==> !InFlight(s.pcs[s.life.reg[st.p]]))
  }

  ghost predicate IdleRemovals(s: Sys, steps: seq<Step>)
    requires Basic(s) && CanRun(s, steps)
    decreases |steps|
  {
    steps != [] ==> IdleRemoval(s, steps[0]) && (BasicStep(s, steps[0]); IdleRemovals(Next(s, steps[0]), steps[1..]))
  }

  /** Reached from a new store by a run that removes idle watchers only. */
  ghost predicate Reached(t: Sys) {
    Basic(Start()) && exists steps ::
      CanRun(Start(), steps) && IdleRemovals(Start(), steps) && Exec(Start(), steps) == t
  }

  ghost function Start(): Sys { Init(C, First()) }

  lemma {:induction false} Append(s: Sys, steps: seq<Step>, st: Step)
    requires Basic(s) && CanRun(s, steps) && IdleRemovals(s, steps)
    requires Enabled(Exec(s, steps), st) && IdleRemoval(Exec(s, steps), st)
    ensures CanRun(s, steps + [st]) && IdleRemovals(s, steps + [st])
    ensures Exec(s, steps + [st]) == Next(Exec(s, steps), st)
    decreases |steps|
  {
    var more := steps + [st];
    if steps == [] {
      BasicStep(s, st);
      assert more[1..] == [];
    } else {
      BasicStep(s, steps[0]);
      assert more[1..] == steps[1..] + [st];
      Append(Next(s, steps[0]), steps[1..], st);
    }
  }

  lemma Go(s: Sys, st: Step, n: Sys)
    requires Reached(s) && Typed(s) && Enabled(s, st) && IdleRemoval(s, st) && n == Next(s, st)
    ensures Reached(n)
  {
    var steps :| CanRun(Start(), steps) && IdleRemovals(Start(), steps) && Exec(Start(), steps) == s;
    Append(Start(), steps, st);
    assert CanRun(Start(), steps + [st]) && IdleRemovals(Start(), steps + [st]) && Exec(Start(), steps + [st]) == n;
  }

  /** Two watchers on "c" and "ck", running, with the given store, cache, indexes and positions. */
  ghost function Both(h: seq<Snapshot>, cache: map<string, Item>, a: nat, b: nat, pa: Pc, pb: Pc): Sys {
    Sys(h, cache, Life([W(C, a, 0, 1), W(CK, b, 0, 1)], map[C := 0, CK := 1], true, true), [pa, pb], Free)
  }

  /** The watcher on "c" alone; the other one has been removed while idle. */
  ghost function Alone(h: seq<Snapshot>, cache: map<string, Item>, a: nat, b: nat, pa: Pc): Sys {
    Sys(h, cache, Life([W(C, a, 0, 1), W(CK, b, 1, 1)], map[C := 0], true, true), [pa, Idle], Free)
  }

  ghost function H1(): seq<Snapshot> { [First()] }

  ghost function H2(): seq<Snapshot> { [First(), Second()] }

  ghost function Stale(): map<string, Item> { map[CK := Item([], 2)] }

  ghost function OneRunning(lock: Lock, pc: Pc, loops: nat): Sys {
    Sys(H1(), map[], Life([W(C, 0, 0, loops)], map[C := 0], true, true), [pc], lock)
  }

  lemma StoreIsLawful()
    ensures WellFormed(First()) && Contract(H1()) && Contract(H2())
  {
    assert forall p :: SameUnder(p, First().kv, First().kv) && SameUnder(p, Second().kv, Second().kv);
    assert Ordered(First(), First()) && Ordered(First(), Second()) && Ordered(Second(), Second());
  }

  lemma Names()
    ensures C != CK && HasPrefix(C, CK) && HasPrefix(CK, CK)
  {
    assert |C| != |CK| && CK[..1] == C;
  }

  /** The store starts; the initial listing of "c" fails, so its loop begins with index 0. */
  lemma Starting()
    ensures Reached(OneRunning(Free, Idle, 1))
  {
    StoreIsLawful();
    InitBasic(C, First());
    assert CanRun(Start(), []) && IdleRemovals(Start(), []) && Exec(Start(), []) == Start();
    assert Start().life.reg.Keys == {C};
    Go(Start(), StartBegin, OneRunning(Loading({C}, None), Parked, 0));
    assert {C} - {C} == {};
    Go(OneRunning(Loading({C}, None), Parked, 0), LoadFail(C), OneRunning(Loading({}, None), Parked, 0));
    LoopStarts();
    Go(OneRunning(Loading({}, None), Parked, 0), StartEnd, OneRunning(Free, Idle, 1));
  }

  lemma LoopStarts()
    ensures var s := OneRunning(Loading({}, None), Parked, 0);
      Typed(s) && Enabled(s, StartEnd) && Next(s, StartEnd) == OneRunning(Free, Idle, 1)
  {
    var n := Next(OneRunning(Loading({}, None), Parked, 0), StartEnd);
    assert n.life.ws == [W(C, 0, 0, 1)] && n.pcs == [Idle];
  }

  /** A watcher on "ck" is added. */
  lemma Adding()
    requires Reached(OneRunning(Free, Idle, 1))
    ensures Reached(Both(H1(), map[], 0, 0, Idle, Idle))
  {
    Names();
    Go(OneRunning(Free, Idle, 1), Add(CK), Both(H1(), map[], 0, 0, Idle, Idle));
  }

  /** It lists the key. */
  lemma ListingFirst()
    requires Reached(Both(H1(), map[], 0, 0, Idle, Idle))
    ensures Reached(Both(H1(), map[], 0, 0, Idle, Fetched(0)))
  {
    Names();
    Go(Both(H1(), map[], 0, 0, Idle, Idle), Query(1), Both(H1(), map[], 0, 0, Idle, Querying));
    Go(Both(H1(), map[], 0, 0, Idle, Querying), Answer(1), Both(H1(), map[], 0, 0, Idle, Fetched(0)));
  }

  /** The key is deleted; only then "c" lists. */
  lemma ListingSecond()
    requires Reached(Both(H1(), map[], 0, 0, Idle, Fetched(0)))
    ensures Reached(Both(H2(), map[], 0, 0, Fetched(1), Fetched(0)))
  {
    Names();
    StoreIsLawful();
    assert H1() + [Second()] == H2();
    Go(Both(H1(), map[], 0, 0, Idle, Fetched(0)), RemoteChange(Second()), Both(H2(), map[], 0, 0, Idle, Fetched(0)));
    Go(Both(H2(), map[], 0, 0, Idle, Fetched(0)), Query(0), Both(H2(), map[], 0, 0, Querying, Fetched(0)));
    Go(Both(H2(), map[], 0, 0, Querying, Fetched(0)), Answer(0), Both(H2(), map[], 0, 0, Fetched(1), Fetched(0)));
  }

  /** "c" syncs the new snapshot, in which the key is gone. */
  lemma SyncingFirst()
    requires Reached(Both(H2(), map[], 0, 0, Fetched(1), Fetched(0)))
    ensures Reached(Both(H2(), map[], 3, 0, Idle, Fetched(0)))
  {
    Names();
    Go(Both(H2(), map[], 0, 0, Fetched(1), Fetched(0)), Store(0), Both(H2(), map[], 3, 0, Stored(1), Fetched(0)));
    assert Merge(map[], C, Second().kv) == map[];
    Go(Both(H2(), map[], 3, 0, Stored(1), Fetched(0)), ApplyList(0), Both(H2(), map[], 3, 0, Idle, Fetched(0)));
  }

  lemma LateMerge()
    ensures Merge(map[], CK, First().kv) == Stale()
  {
    Names();
  }

  /** Then "ck" takes the index of its older listing. */
  lemma StoringSecond()
    requires Reached(Both(H2(), map[], 3, 0, Idle, Fetched(0)))
    ensures Reached(Both(H2(), map[], 3, 2, Idle, Stored(0)))
  {
    Names();
    Go(Both(H2(), map[], 3, 0, Idle, Fetched(0)), Store(1), Both(H2(), map[], 3, 2, Idle, Stored(0)));
  }

  /** And its merge puts the deleted key back. */
  lemma SyncingSecond()
    requires Reached(Both(H2(), map[], 3, 2, Idle, Stored(0)))
    ensures Reached(Both(H2(), Stale(), 3, 2, Idle, Idle))
  {
    LateMerge();
    Go(Both(H2(), map[], 3, 2, Idle, Stored(0)), ApplyList(1), Both(H2(), Stale(), 3, 2, Idle, Idle));
  }

  lemma RemovalStep()
    ensures var s := Both(H2(), Stale(), 3, 2, Idle, Idle);
      Typed(s) && Enabled(s, Remove(CK)) && IdleRemoval(s, Remove(CK)) &&
          Next(s, Remove(CK)) == Alone(H2(), Stale(), 3, 2, Idle)
  {
    Names();
    assert map[C := 0, CK := 1] - {CK} == map[C := 0];
  }

  lemma LostForGood()
    ensures var s := Alone(H2(), Stale(), 3, 2, Idle);
      && Typed(s) && Quiet(s) && (forall p | p in s.life.reg :: !Behind(s, s.life.reg[p]))
      && Watched(s, CK) && !Pending(s, CK)
  {
    Names();
    var s := Alone(H2(), Stale(), 3, 2, Idle);
    assert C in s.life.reg && HasPrefix(C, CK);
  }

  /** The caught-up watcher on "c" covers "ck", the remote store has no such key, and the cache still has it; by
      `ConvergesExactly` no further round will ever change that. */
  lemma IdleRemovalCanLoseAKey()
    ensures exists s: Sys ::
      && Reached(s) && Typed(s) && Quiet(s) && (forall p | p in s.life.reg :: !Behind(s, s.life.reg[p]))
      && Watched(s, CK) && !Pending(s, CK)
  {
    Starting(); Adding(); ListingFirst(); ListingSecond();
    SyncingFirst(); StoringSecond(); SyncingSecond(); RemovalStep();
    Go(Both(H2(), Stale(), 3, 2, Idle, Idle), Remove(CK), Alone(H2(), Stale(), 3, 2, Idle));
    LostForGood();
  }
}
