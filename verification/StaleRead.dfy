/** A run in which a client that reads a value first and its index later has its update accepted on a stale value. */
module StaleRead {
  import opened Common
  import opened Remote
  import opened CacheSync
  import opened Lifecycle
  import opened WatchProtocol
  import opened LostKey
  import KvSteps

  /** The key with a new value. */
  ghost function Changed(): Snapshot { Snapshot(map[CK := Item([7], 3)], p => 3) }

  ghost function H3(): seq<Snapshot> { [First(), Changed()] }

  ghost function Old(): map<string, Item> { map[CK := Item([], 2)] }

  ghost function New(): map<string, Item> { map[CK := Item([7], 3)] }

  /** One watcher, on "c". */
  ghost function Solo(h: seq<Snapshot>, cache: map<string, Item>, index: nat, pc: Pc): Sys {
    Sys(h, cache, Life([W(C, index, 0, 1)], map[C := 0], true, true), [pc], Free)
  }

  lemma Lawful()
    ensures Contract(H1()) && Contract(H3())
  {
    assert forall p :: SameUnder(p, First().kv, First().kv) && SameUnder(p, Changed().kv, Changed().kv);
    assert Ordered(First(), First()) && Ordered(First(), Changed()) && Ordered(Changed(), Changed());
  }

  lemma Merges()
    ensures Merge(map[], C, First().kv) == Old() && Merge(Old(), C, Changed().kv) == New()
  {
    Names();
  }

  lemma ListingIsHeld()
    ensures Reached(Solo(H1(), map[], 0, Fetched(0)))
  {
    Starting();
    Go(Solo(H1(), map[], 0, Idle), Query(0), Solo(H1(), map[], 0, Querying));
    Go(Solo(H1(), map[], 0, Querying), Answer(0), Solo(H1(), map[], 0, Fetched(0)));
  }

  /** The watcher has synced the old value. */
  lemma OldIsCached()
    ensures Reached(Solo(H1(), Old(), 2, Idle))
  {
    ListingIsHeld();
    Merges();
    Go(Solo(H1(), map[], 0, Fetched(0)), Store(0), Solo(H1(), map[], 2, Stored(0)));
    Go(Solo(H1(), map[], 2, Stored(0)), ApplyList(0), Solo(H1(), Old(), 2, Idle));
  }

  lemma ReachedIsBasic(s: Sys)
    requires Reached(s)
    ensures Basic(s)
  {
  }

  /** The step from one state to the next. */
  ghost predicate Steps(s: Sys, st: Step, n: Sys, k: string) {
    Typed(s) && Enabled(s, st) && n == Next(s, st) && k in s.cache
  }

  /** The run leads from `s` to `e` and keeps the key cached all the way. */
  ghost predicate KeepsBy(s: Sys, steps: seq<Step>, e: Sys, k: string) {
    Basic(s) && CanRun(s, steps) && StaysCached(s, steps, k) && Exec(s, steps) == e
  }

  lemma StaysAhead(s: Sys, steps: seq<Step>, k: string)
    requires Basic(s) && steps != [] && CanRun(s, steps)
    ensures Enabled(s, steps[0]) && Basic(Next(s, steps[0])) && CanRun(Next(s, steps[0]), steps[1..])
    ensures Exec(s, steps) == Exec(Next(s, steps[0]), steps[1..])
    ensures StaysCached(s, steps, k) <==> k in s.cache && StaysCached(Next(s, steps[0]), steps[1..], k)
  {
    BasicStep(s, steps[0]);
  }

  lemma TailOf(steps: seq<Step>, st: Step)
    ensures (steps + [st])[1..] == if steps == [] then [] else steps[1..] + [st]
  {
  }

  lemma {:induction false} AppendStays(s: Sys, steps: seq<Step>, st: Step, k: string)
    requires Basic(s) && CanRun(s, steps) && StaysCached(s, steps, k)
    requires CanRun(s, steps + [st]) && k in Exec(s, steps + [st]).cache
    ensures StaysCached(s, steps + [st], k)
    decreases |steps|
  {
    TailOf(steps, st);
    StaysAhead(s, steps + [st], k);
    if steps != [] {
      StaysAhead(s, steps, k);
      AppendStays(Next(s, steps[0]), steps[1..], st, k);
    }
  }

  lemma OnwardBy(s: Sys, steps: seq<Step>, t: Sys, st: Step, n: Sys, k: string)
    requires KeepsBy(s, steps, t, k) && Steps(t, st, n, k) && k in n.cache
    ensures KeepsBy(s, steps + [st], n, k)
  {
    KvSteps.Append(s, steps, st);
    AppendStays(s, steps, st, k);
  }

  lemma NoStep(s: Sys, k: string)
    requires Basic(s) && k in s.cache
    ensures KeepsBy(s, [], s, k)
  {
  }

  lemma TheSteps()
    ensures Steps(Solo(H1(), Old(), 2, Idle), RemoteChange(Changed()), Solo(H3(), Old(), 2, Idle), CK)
    ensures Steps(Solo(H3(), Old(), 2, Idle), Query(0), Solo(H3(), Old(), 2, Querying), CK)
    ensures Steps(Solo(H3(), Old(), 2, Querying), Answer(0), Solo(H3(), Old(), 2, Fetched(1)), CK)
  {
    Lawful();
    assert H1() + [Changed()] == H3();
  }

  lemma TheSync()
    ensures Steps(Solo(H3(), Old(), 2, Fetched(1)), Store(0), Solo(H3(), Old(), 3, Stored(1)), CK)
    ensures Steps(Solo(H3(), Old(), 3, Stored(1)), ApplyList(0), Solo(H3(), New(), 3, Idle), CK)
  {
    Merges();
  }

  lemma AllBasic()
    ensures Basic(Solo(H1(), Old(), 2, Idle)) && Basic(Solo(H3(), Old(), 2, Idle)) &&
        Basic(Solo(H3(), Old(), 2, Querying))
    ensures Basic(Solo(H3(), Old(), 2, Fetched(1))) && Basic(Solo(H3(), Old(), 3, Stored(1))) &&
        Basic(Solo(H3(), New(), 3, Idle))
  {
    OldIsCached();
    ReachedIsBasic(Solo(H1(), Old(), 2, Idle));
    TheSteps();
    TheSync();
    BasicStep(Solo(H1(), Old(), 2, Idle), RemoteChange(Changed()));
    BasicStep(Solo(H3(), Old(), 2, Idle), Query(0));
    BasicStep(Solo(H3(), Old(), 2, Querying), Answer(0));
    BasicStep(Solo(H3(), Old(), 2, Fetched(1)), Store(0));
    BasicStep(Solo(H3(), Old(), 3, Stored(1)), ApplyList(0));
  }

  // The store changes, and the watcher syncs.

  ghost function Half(): seq<Step> { [] + [RemoteChange(Changed())] + [Query(0)] + [Answer(0)] }

  ghost function Whole(): seq<Step> { Half() + [Store(0)] + [ApplyList(0)] }

  lemma HalfKeeps()
    ensures KeepsBy(Solo(H1(), Old(), 2, Idle), Half(), Solo(H3(), Old(), 2, Fetched(1)), CK)
  {
    AllBasic();
    TheSteps();
    var s := Solo(H1(), Old(), 2, Idle);
    NoStep(s, CK);
    OnwardBy(s, [], s, RemoteChange(Changed()), Solo(H3(), Old(), 2, Idle), CK);
    var one: seq<Step> := [] + [RemoteChange(Changed())];
    OnwardBy(s, one, Solo(H3(), Old(), 2, Idle), Query(0), Solo(H3(), Old(), 2, Querying), CK);
    OnwardBy(s, one + [Query(0)], Solo(H3(), Old(), 2, Querying), Answer(0), Solo(H3(), Old(), 2, Fetched(1)), CK);
  }

  lemma WholeKeeps()
    ensures KeepsBy(Solo(H1(), Old(), 2, Idle), Whole(), Solo(H3(), New(), 3, Idle), CK)
  {
    HalfKeeps();
    TheSync();
    var s := Solo(H1(), Old(), 2, Idle);
    OnwardBy(s, Half(), Solo(H3(), Old(), 2, Fetched(1)), Store(0), Solo(H3(), Old(), 3, Stored(1)), CK);
    OnwardBy(s, Half() + [Store(0)], Solo(H3(), Old(), 3, Stored(1)), ApplyList(0), Solo(H3(), New(), 3, Idle), CK);
  }

  /** The value is read in a reachable state `s`, the index of the same entry in a later state `e`; the store still
      has that index, so it accepts the write, but it holds another value than the one that was read. */
  lemma StaleValueIsAccepted()
    ensures exists s: Sys, steps, e: Sys ::
      && Reached(s) && KeepsBy(s, steps, e, CK) && Typed(e) && CK in s.cache && CK in e.cache
      && At(Content(e), CK) == Some(e.cache[CK]) && e.cache[CK].value != s.cache[CK].value
  {
    OldIsCached();
    WholeKeeps();
    AllBasic();
    var s, e := Solo(H1(), Old(), 2, Idle), Solo(H3(), New(), 3, Idle);
    assert At(Content(e), CK) == Some(e.cache[CK]) && e.cache[CK].value != s.cache[CK].value;
  }
}
