/**
 The watchers, the shared cache and the remote store as one step system. A listing is taken at one moment and merged
 at a later one; the index is stored first and the cache synced in a second step; removed watchers may still finish a
 round.
 */
module WatchProtocol {
  import opened Common
  import opened Remote
  import opened CacheSync
  import opened Lifecycle

  /** Where a watcher is. `Fetched(t)` and `Stored(t)` hold a listing of the snapshot number `t`. */
  datatype Pc = Parked | Idle | Querying | Fetched(t: nat) | Stored(t: nat) | Done

  /** The registration mutex. `Start` keeps it while it loads the prefixes one after the other. */
  datatype Lock = Free | Loading(todo: set<string>, current: Option<string>)

  datatype Sys = Sys(hist: seq<Snapshot>, cache: map<string, Item>, life: Life, pcs: seq<Pc>, lock: Lock)

  datatype Step =
    | RemoteChange(next: Snapshot)
    | Add(p: string) | Remove(p: string) | Stop
    | StartBegin | LoadList(p: string) | LoadFail(p: string) | StartEnd
    | Query(i: nat) | Fail(i: nat) | Answer(i: nat) | Skip(i: nat) | Store(i: nat) | ApplyList(i: nat) | Exit(i: nat)

  ghost function Content(s: Sys): map<string, Item>
    requires |s.hist| > 0
  {
    s.hist[|s.hist| - 1].kv
  }

  ghost function IndexAt(s: Sys, t: nat, p: string): nat
    requires t < |s.hist|
  {
    s.hist[t].lastIndex(p)
  }

  ghost function IndexNow(s: Sys, p: string): nat
    requires |s.hist| > 0
  {
    s.hist[|s.hist| - 1].lastIndex(p)
  }

  /** Watcher `i` is the one `Start` is loading. */
  predicate Loader(s: Sys, i: nat) {
    s.lock.Loading? && s.lock.current.Some? && s.lock.current.value in s.life.reg &&
        s.life.reg[s.lock.current.value] == i
  }

  ghost predicate Typed(s: Sys) {
    |s.hist| > 0 && |s.pcs| == |s.life.ws| && RegOk(s.life)
    && forall i | 0 <= i < |s.pcs| && (s.pcs[i].Fetched? || s.pcs[i].Stored?) :: s.pcs[i].t < |s.hist|
  }

  ghost predicate Enabled(s: Sys, st: Step)
    requires Typed(s)
  {
    match st
    case RemoteChange(next) => Contract(s.hist + [next])
    case Add(_) => s.lock.Free?
    case Remove(_) => s.lock.Free?
    case Stop => s.lock.Free?
    case StartBegin => s.lock.Free? && !s.life.running
    case LoadList(p) => s.lock.Loading? && s.lock.current.None? && p in s.lock.todo && p in s.life.reg
    case LoadFail(p) => s.lock.Loading? && s.lock.current.None? && p in s.lock.todo
    case StartEnd => s.lock == Loading({}, None)
    case Query(i) => i < |s.pcs| && s.pcs[i].Idle? && s.life.ws[i].closes == 0
    case Fail(i) => i < |s.pcs| && s.pcs[i].Querying?
    case Answer(i) => i < |s.pcs| && s.pcs[i].Querying?
    case Skip(i) => i < |s.pcs| && s.pcs[i].Fetched? && !Loader(s, i)
                    && IndexAt(s, s.pcs[i].t, s.life.ws[i].prefix) <= s.life.ws[i].lastIndex
    case Store(i) => i < |s.pcs| && s.pcs[i].Fetched?
                     && (Loader(s, i) || IndexAt(s, s.pcs[i].t, s.life.ws[i].prefix) > s.life.ws[i].lastIndex)
    case ApplyList(i) => i < |s.pcs| && s.pcs[i].Stored?
    case Exit(i) => i < |s.pcs| && s.pcs[i].Idle? && s.life.ws[i].closes > 0
  }

  ghost function Next(s: Sys, st: Step): Sys
    requires Typed(s) && Enabled(s, st)
  {
    match st
    case RemoteChange(next) => s.(hist := s.hist + [next])
    case Add(p) =>
      if p in s.life.reg then s
      else s.(life := AddW(s.life, p), pcs := s.pcs + [if s.life.running then Idle else Parked])
    case Remove(p) => s.(life := RemoveW(s.life, p))
    case Stop => s.(life := StopW(s.life))
    case StartBegin => s.(life := BeginW(s.life), lock := Loading(s.life.reg.Keys, None))
    case LoadList(p) =>
      s.(lock := Loading(s.lock.todo - {p}, Some(p)), pcs := s.pcs[s.life.reg[p] := Fetched(|s.hist| - 1)])
    case LoadFail(p) => s.(lock := Loading(s.lock.todo - {p}, None))
    case StartEnd =>
      s.(life := LaunchW(s.life), lock := Free,
         pcs := seq(|s.pcs|, i requires 0 <= i < |s.pcs| => if Registered(s.life, i) then Idle else s.pcs[i]))
    case Query(i) => s.(pcs := s.pcs[i := Querying])
    case Fail(i) => s.(pcs := s.pcs[i := Idle])
    case Answer(i) => s.(pcs := s.pcs[i := Fetched(|s.hist| - 1)])
    case Skip(i) => s.(pcs := s.pcs[i := Idle])
    case Store(i) =>
      s.(life := SetIndex(s.life, i, IndexAt(s, s.pcs[i].t, s.life.ws[i].prefix)),
          pcs := s.pcs[i := Stored(s.pcs[i].t)])
    case ApplyList(i) =>
      s.(cache := Merge(s.cache, s.life.ws[i].prefix, s.hist[s.pcs[i].t].kv),
         pcs := s.pcs[i := if Loader(s, i) then Parked else Idle],
         lock := if Loader(s, i) then Loading(s.lock.todo, None) else s.lock)
    case Exit(i) => s.(pcs := s.pcs[i := Done])
  }

  ghost function Init(cachePrefix: string, first: Snapshot): Sys {
    Sys([first], map[], NewLife(cachePrefix), [Parked], Free)
  }

  // ----- what every run keeps -----

  ghost predicate LockOk(s: Sys) {
    s.lock.Loading? ==>
      && s.life.running && s.lock.todo <= s.life.reg.Keys
      && (s.lock.current.Some? ==> s.lock.current.value in s.life.reg && s.lock.current.value !in s.lock.todo)
  }

  ghost predicate WatcherOk(s: Sys, i: nat)
    requires Typed(s) && i < |s.pcs|
  {
    var w, pc := s.life.ws[i], s.pcs[i];
    && w.lastIndex <= IndexNow(s, w.prefix)
    && (pc.Stored? ==> w.lastIndex == IndexAt(s, pc.t, w.prefix))
    && (Loader(s, i) ==> (pc.Fetched? && w.lastIndex == 0) || pc.Stored?)
    && (Registered(s.life, i) && s.lock.Loading? && !Loader(s, i) ==>
        pc.Parked? && (w.prefix in s.lock.todo ==> w.lastIndex == 0))
    && (Registered(s.life, i) && s.lock.Free? && s.life.running ==> !pc.Parked? && !pc.Done?)
    && (Registered(s.life, i) && s.lock.Free? && !s.life.running ==> pc.Parked? && w.lastIndex == 0)
  }

  ghost predicate CachePast(s: Sys)
    requires Typed(s)
  {
    forall k | k in s.cache :: OccursBy(s.hist, |s.hist| - 1, k, s.cache[k])
  }

  ghost predicate Basic(s: Sys) {
    && Typed(s) && Contract(s.hist) && LockOk(s) && CachePast(s)
    && LifeOk(s.life, s.life.running && s.lock.Free?)
    && (forall i | 0 <= i < |s.pcs| :: WatcherOk(s, i))
  }

  lemma InitBasic(cachePrefix: string, first: Snapshot)
    requires WellFormed(first)
    ensures Basic(Init(cachePrefix, first))
  {
  }

  /** The steps of the registration calls; the others are remote changes and steps of single watchers. */
  predicate Administrative(st: Step) {
    st.Add? || st.Remove? || st.Stop? || st.StartBegin? || st.LoadList? || st.LoadFail? || st.StartEnd?
  }

  lemma CallStep(s: Sys, st: Step)
    requires Basic(s) && Enabled(s, st) && (st.Add? || st.Remove? || st.Stop?)
    ensures var n := Next(s, st); Typed(n) && LockOk(n) && LifeOk(n.life, n.life.running && n.lock.Free?)
  {
    match st
    case Add(p) => PerformKeeps(s.life, AddCall(p));
    case Remove(p) => PerformKeeps(s.life, RemoveCall(p));
    case Stop => PerformKeeps(s.life, StopCall);
  }

  lemma StartOrStoreStep(s: Sys, st: Step)
    requires Basic(s) && Enabled(s, st) && (st.StartBegin? || st.StartEnd? || st.Store?)
    ensures var n := Next(s, st); Typed(n) && LockOk(n) && LifeOk(n.life, n.life.running && n.lock.Free?)
  {
    assert forall j: nat :: Registered(s.life, j) == Registered(Next(s, st).life, j);
  }

  lemma LifeStep(s: Sys, st: Step)
    requires Basic(s) && Enabled(s, st)
    ensures var n := Next(s, st); Typed(n) && LockOk(n) && LifeOk(n.life, n.life.running && n.lock.Free?)
  {
    if st.Add? || st.Remove? || st.Stop? {
      CallStep(s, st);
    } else if st.StartBegin? || st.StartEnd? || st.Store? {
      StartOrStoreStep(s, st);
    } else {
      assert Next(s, st).life == s.life;
    }
  }

  lemma ChangeKeepsPast(s: Sys, next: Snapshot)
    requires Basic(s) && Enabled(s, RemoteChange(next)) && Typed(Next(s, RemoteChange(next)))
    ensures CachePast(Next(s, RemoteChange(next)))
  {
    var n := Next(s, RemoteChange(next));
    forall k | k in n.cache ensures OccursBy(n.hist, |n.hist| - 1, k, n.cache[k]) {
      OccursLater(s.hist, n.hist, |s.hist| - 1, |n.hist| - 1, k, s.cache[k]);
    }
  }

  lemma ApplyKeepsPast(s: Sys, i: nat)
    requires Basic(s) && Enabled(s, ApplyList(i)) && Typed(Next(s, ApplyList(i)))
    ensures CachePast(Next(s, ApplyList(i)))
  {
    var n := Next(s, ApplyList(i));
    forall k | k in n.cache ensures OccursBy(n.hist, |n.hist| - 1, k, n.cache[k]) {
      assert Some(n.cache[k]) == At(s.cache, k) || Some(n.cache[k]) == At(s.hist[s.pcs[i].t].kv, k);
    }
  }

  lemma CacheStep(s: Sys, st: Step)
    requires Basic(s) && Enabled(s, st) && Typed(Next(s, st))
    ensures CachePast(Next(s, st))
  {
    if st.RemoteChange? {
      ChangeKeepsPast(s, st.next);
    } else if st.ApplyList? {
      ApplyKeepsPast(s, st.i);
    } else {
      assert Next(s, st).cache == s.cache && Next(s, st).hist == s.hist;
    }
  }

  lemma AdministrativeStep(s: Sys, st: Step, j: nat)
    requires Basic(s) && Enabled(s, st) && Administrative(st) && Typed(Next(s, st)) && j < |Next(s, st).pcs|
    ensures WatcherOk(Next(s, st), j)
  {
    if j < |s.pcs| {
      assert WatcherOk(s, j);
    }
  }

  lemma ChangeKeeps(s: Sys, next: Snapshot, j: nat)
    requires Basic(s) && Enabled(s, RemoteChange(next)) && Typed(Next(s, RemoteChange(next))) && j < |s.pcs|
    ensures WatcherOk(Next(s, RemoteChange(next)), j)
  {
    var n := Next(s, RemoteChange(next));
    assert WatcherOk(s, j);
    assert Loader(n, j) == Loader(s, j);
    assert Ordered(n.hist[|s.hist| - 1], n.hist[|s.hist|]);
  }

  lemma StoreKeeps(s: Sys, i: nat, j: nat)
    requires Basic(s) && Enabled(s, Store(i)) && Typed(Next(s, Store(i))) && j < |s.pcs|
    ensures WatcherOk(Next(s, Store(i)), j)
  {
    var n := Next(s, Store(i));
    assert WatcherOk(s, j);
    assert Loader(n, j) == Loader(s, j) && Registered(n.life, j) == Registered(s.life, j);
    assert Ordered(s.hist[s.pcs[i].t], s.hist[|s.hist| - 1]);
  }

  lemma LoopStepKeeps(s: Sys, st: Step, j: nat)
    requires Basic(s) && Enabled(s, st) && !Administrative(st) && !st.ApplyList? && !st.RemoteChange? && !st.Store?
    requires Typed(Next(s, st)) && j < |s.pcs|
    ensures WatcherOk(Next(s, st), j)
  {
    var n := Next(s, st);
    assert WatcherOk(s, j);
    assert n.life == s.life && n.hist == s.hist && n.lock == s.lock && (j != st.i ==> n.pcs[j] == s.pcs[j]);
  }

  lemma ApplyStepKeeps(s: Sys, i: nat, j: nat)
    requires Basic(s) && Enabled(s, ApplyList(i)) && Typed(Next(s, ApplyList(i))) && j < |s.pcs|
    ensures WatcherOk(Next(s, ApplyList(i)), j)
  {
    var n := Next(s, ApplyList(i));
    assert WatcherOk(s, j);
    assert n.life == s.life && n.hist == s.hist && (j != i ==> n.pcs[j] == s.pcs[j]);
  }

  lemma BasicStep(s: Sys, st: Step)
    requires Basic(s) && Enabled(s, st)
    ensures Basic(Next(s, st))
  {
    LifeStep(s, st);
    CacheStep(s, st);
    forall j | 0 <= j < |Next(s, st).pcs| ensures WatcherOk(Next(s, st), j) {
      if Administrative(st) {
        AdministrativeStep(s, st, j);
      } else if st.ApplyList? {
        ApplyStepKeeps(s, st.i, j);
      } else if st.RemoteChange? {
        ChangeKeeps(s, st.next, j);
      } else if st.Store? {
        StoreKeeps(s, st.i, j);
      } else {
        LoopStepKeeps(s, st, j);
      }
    }
  }

  // ----- runs -----

  ghost predicate CanRun(s: Sys, steps: seq<Step>)
    requires Basic(s)
    decreases |steps|
  {
    steps == [] || (Enabled(s, steps[0]) && (BasicStep(s, steps[0]); CanRun(Next(s, steps[0]), steps[1..])))
  }

  /** The state after a run. */
  ghost function Exec(s: Sys, steps: seq<Step>): (r: Sys)
    requires Basic(s) && CanRun(s, steps)
    ensures Basic(r)
    decreases |steps|
  {
    if steps == [] then s else BasicStep(s, steps[0]); Exec(Next(s, steps[0]), steps[1..])
  }

  ghost predicate Reachable(s: Sys) {
    exists cachePrefix, first, steps :: ReachedBy(s, cachePrefix, first, steps)
  }

  ghost predicate ReachedBy(s: Sys, cachePrefix: string, first: Snapshot, steps: seq<Step>) {
    && WellFormed(first)
    && (InitBasic(cachePrefix, first); CanRun(Init(cachePrefix, first), steps) &&
        s == Exec(Init(cachePrefix, first), steps))
  }

  /** Nothing is invented: whatever the interleaving, overlaps and late syncs of removed watchers included, every cached
      key, value and index occurred together in some past state of the remote store. */
  lemma NothingInvented(s: Sys, k: string)
    requires Reachable(s) && k in s.cache
    ensures exists t: nat :: t < |s.hist| && At(s.hist[t].kv, k) == Some(s.cache[k])
  {
    assert Basic(s);
    assert OccursBy(s.hist, |s.hist| - 1, k, s.cache[k]);
  }

  lemma OnlyMergesTouchTheCache(s: Sys, st: Step)
    requires Typed(s) && Enabled(s, st)
    ensures Next(s, st).cache ==
      if st.ApplyList? then Merge(s.cache, s.life.ws[st.i].prefix, s.hist[s.pcs[st.i].t].kv) else s.cache
  {
  }

  lemma StepForward(s: Sys, st: Step, k: string)
    requires Basic(s) && Enabled(s, st) && k in s.cache && k in Next(s, st).cache
    ensures s.cache[k] == Next(s, st).cache[k] || s.cache[k].modifyIndex < Next(s, st).cache[k].modifyIndex
  {
    OnlyMergesTouchTheCache(s, st);
    if st.ApplyList? {
      MergeForward(s.cache, s.life.ws[st.i].prefix, s.hist[s.pcs[st.i].t].kv, k);
    }
  }

  /** Key `k` is cached all through the run. */
  ghost predicate StaysCached(s: Sys, steps: seq<Step>, k: string)
    requires Basic(s) && CanRun(s, steps)
    decreases |steps|
  {
    k in s.cache && (steps != [] ==> (BasicStep(s, steps[0]); StaysCached(Next(s, steps[0]), steps[1..], k)))
  }

  /** Nothing is rolled back: while a key stays cached its index never decreases, and an unchanged index means an
      unchanged value. */
  lemma {:induction false} NothingRolledBack(s: Sys, steps: seq<Step>, k: string)
    requires Basic(s) && CanRun(s, steps) && StaysCached(s, steps, k)
    ensures k in Exec(s, steps).cache
    ensures s.cache[k].modifyIndex <= Exec(s, steps).cache[k].modifyIndex
    ensures s.cache[k].modifyIndex == Exec(s, steps).cache[k].modifyIndex ==> s.cache[k] == Exec(s, steps).cache[k]
    decreases |steps|
  {
    if steps != [] {
      BasicStep(s, steps[0]);
      StepForward(s, steps[0], k);
      NothingRolledBack(Next(s, steps[0]), steps[1..], k);
    }
  }

  /** A stored index never goes back, for registered and removed watchers alike. */
  lemma {:induction false} IndexesNeverGoBack(s: Sys, steps: seq<Step>, i: nat)
    requires Basic(s) && CanRun(s, steps) && i < |s.life.ws|
    ensures i < |Exec(s, steps).life.ws|
    ensures s.life.ws[i].lastIndex <= Exec(s, steps).life.ws[i].lastIndex
    decreases |steps|
  {
    if steps != [] {
      BasicStep(s, steps[0]);
      assert WatcherOk(s, i);
      IndexesNeverGoBack(Next(s, steps[0]), steps[1..], i);
    }
  }
}
