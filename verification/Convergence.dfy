/**
 When the cache ends up equal to the remote store. With overlapping prefixes two watchers may undo each other's work, so
 the argument is about each key: either it agrees already, or some registered watcher covering it has still to catch up.
 */
module Convergence {
  import opened Common
  import opened Remote
  import opened CacheSync
  import opened Lifecycle
  import opened WatchProtocol

  /** Watcher `i` has not yet synced the newest index of its prefix. */
  ghost predicate Behind(s: Sys, i: nat)
    requires Typed(s) && i < |s.pcs|
  {
    s.pcs[i].Stored? || s.life.ws[i].lastIndex < IndexNow(s, s.life.ws[i].prefix)
  }

  predicate InFlight(pc: Pc) {
    pc.Querying? || pc.Fetched? || pc.Stored?
  }

  /** No removed watcher that can still sync overlaps a registered prefix. */
  ghost predicate Quiet(s: Sys)
    requires Typed(s)
  {
    forall i, p | 0 <= i < |s.pcs| && !Registered(s.life, i) && InFlight(s.pcs[i]) && p in s.life.reg ::
      !Overlap(s.life.ws[i].prefix, p)
  }

  ghost predicate Watched(s: Sys, k: string) {
    exists p :: p in s.life.reg && HasPrefix(p, k)
  }

  ghost predicate Agree(s: Sys, k: string)
    requires Typed(s)
  {
    At(s.cache, k) == At(Content(s), k)
  }

  ghost predicate CoveredBehind(s: Sys, p: string, k: string)
    requires Typed(s)
  {
    p in s.life.reg && HasPrefix(p, k) && Behind(s, s.life.reg[p])
  }

  /** The cache is right about `k`, or a registered watcher covering it will sync again. */
  ghost predicate Pending(s: Sys, k: string)
    requires Typed(s)
  {
    Agree(s, k) || exists p :: CoveredBehind(s, p, k)
  }

  /** A watcher may be removed when it is caught up, or when no other registered prefix overlaps its own. */
  ghost predicate SafeRemoval(s: Sys, st: Step)
    requires Typed(s)
  {
    st.Remove? && st.p in s.life.reg ==>
      || !Behind(s, s.life.reg[st.p])
      || forall q | q in s.life.reg && q != st.p :: !Overlap(st.p, q)
  }

  // ----- one step -----

  /** A step of a watch loop; the remote store and the registrations stay as they are. */
  predicate OfALoop(st: Step) {
    st.Query? || st.Fail? || st.Answer? || st.Skip? || st.Store? || st.ApplyList? || st.Exit?
  }

  /** What a loop step leaves alone: the store, the registrations, the other watchers, and all keys that it does not
      sync. */
  lemma LoopFrame(s: Sys, st: Step)
    requires Basic(s) && Enabled(s, st) && OfALoop(st)
    ensures var n := Next(s, st);
      && n.hist == s.hist && n.life.reg == s.life.reg && |n.pcs| == |s.pcs| == |n.life.ws|
      && (forall j | 0 <= j < |s.pcs| && j != st.i :: n.pcs[j] == s.pcs[j] && n.life.ws[j] == s.life.ws[j])
      && (forall k :: (st.ApplyList? ==> !HasPrefix(s.life.ws[st.i].prefix, k)) ==> At(n.cache, k) == At(s.cache, k))
  {
  }

  lemma RemoteChangeStep(s: Sys, next: Snapshot, k: string)
    requires Basic(s) && Enabled(s, RemoteChange(next)) && Watched(s, k) && Pending(s, k)
    ensures Typed(Next(s, RemoteChange(next))) && Pending(Next(s, RemoteChange(next)), k)
  {
    var n := Next(s, RemoteChange(next));
    BasicStep(s, RemoteChange(next));
    assert Ordered(n.hist[|s.hist| - 1], n.hist[|s.hist|]);
    if p :| CoveredBehind(s, p, k) {
      assert CoveredBehind(n, p, k);
    } else if !Agree(n, k) {
      var p :| p in s.life.reg && HasPrefix(p, k);
      assert IndexNow(s, p) != IndexNow(n, p);
      assert WatcherOk(s, s.life.reg[p]);
      assert CoveredBehind(n, p, k);
    }
  }

  lemma AddStep(s: Sys, p: string, k: string)
    requires Basic(s) && Enabled(s, Add(p)) && (Watched(s, k) ==> Pending(s, k)) && Watched(Next(s, Add(p)), k)
    ensures Typed(Next(s, Add(p))) && Pending(Next(s, Add(p)), k)
  {
    var n := Next(s, Add(p));
    BasicStep(s, Add(p));
    if Watched(s, k) {
      if q :| CoveredBehind(s, q, k) {
        assert CoveredBehind(n, q, k);
      }
    } else {
      assert CoveredBehind(n, p, k);
    }
  }

  /** What a removal does to a key that stays watched: it is lost if and only if it was wrong and the removed watcher
      was the only one behind that covered it. */
  lemma RemovalLosesExactly(s: Sys, p: string, k: string)
    requires Basic(s) && Enabled(s, Remove(p)) && Watched(Next(s, Remove(p)), k)
    ensures Typed(Next(s, Remove(p)))
    ensures Pending(Next(s, Remove(p)), k) <==> Agree(s, k) || exists q :: q != p && CoveredBehind(s, q, k)
  {
    var n := Next(s, Remove(p));
    BasicStep(s, Remove(p));
    forall q ensures CoveredBehind(n, q, k) <==> q != p && CoveredBehind(s, q, k) {
    }
  }

  lemma RemoveStep(s: Sys, p: string, k: string)
    requires Basic(s) && Enabled(s, Remove(p)) && SafeRemoval(s, Remove(p))
    requires Watched(s, k) ==> Pending(s, k)
    requires Watched(Next(s, Remove(p)), k)
    ensures Typed(Next(s, Remove(p))) && Pending(Next(s, Remove(p)), k)
  {
    RemovalLosesExactly(s, p, k);
    var r :| r in Next(s, Remove(p)).life.reg && HasPrefix(r, k);
    assert r in s.life.reg;
    if CoveredBehind(s, p, k) && r != p {
      SharedKeyMeansOverlap(p, r, k);
    }
  }

  /** Merging a snapshot whose index for the prefix is still the newest makes every key of the prefix right. */
  lemma NewestMergeIsRight(h: seq<Snapshot>, t: nat, c: map<string, Item>, p: string, k: string)
    requires Contract(h) && t < |h| && HasPrefix(p, k) && h[t].lastIndex(p) == h[|h| - 1].lastIndex(p)
    requires k in c ==> OccursBy(h, |h| - 1, k, c[k])
    ensures At(Merge(c, p, h[t].kv), k) == At(h[|h| - 1].kv, k)
  {
    assert Ordered(h[t], h[|h| - 1]);
    MergeAt(c, p, h[t].kv, k);
    if k in c {
      NeverAhead(h, |h| - 1, k, c[k]);
    }
  }

  /** A sync makes its whole prefix right, unless its watcher remains behind. */
  lemma SyncedKey(s: Sys, i: nat, k: string)
    requires Basic(s) && Enabled(s, ApplyList(i)) && HasPrefix(s.life.ws[i].prefix, k)
    ensures var n := Next(s, ApplyList(i));
      s.life.ws[i].lastIndex == IndexNow(s, s.life.ws[i].prefix) ==> At(n.cache, k) == At(Content(s), k)
  {
    assert WatcherOk(s, i);
    if s.life.ws[i].lastIndex == IndexNow(s, s.life.ws[i].prefix) {
      NewestMergeIsRight(s.hist, s.pcs[i].t, s.cache, s.life.ws[i].prefix, k);
    }
  }

  /** In a quiet state only registered watchers can sync a watched key. */
  lemma SyncerIsRegistered(s: Sys, i: nat, k: string)
    requires Typed(s) && Quiet(s) && i < |s.pcs| && InFlight(s.pcs[i])
    requires Watched(s, k) && HasPrefix(s.life.ws[i].prefix, k)
    ensures Registered(s.life, i)
  {
    var r :| r in s.life.reg && HasPrefix(r, k);
    SharedKeyMeansOverlap(s.life.ws[i].prefix, r, k);
  }

  lemma ApplyStep(s: Sys, i: nat, k: string)
    requires Basic(s) && Quiet(s) && Enabled(s, ApplyList(i)) && Watched(s, k) && Pending(s, k)
    ensures Typed(Next(s, ApplyList(i))) && Pending(Next(s, ApplyList(i)), k)
  {
    var n := Next(s, ApplyList(i));
    BasicStep(s, ApplyList(i));
    var p := s.life.ws[i].prefix;
    if HasPrefix(p, k) {
      SyncerIsRegistered(s, i, k);
      if s.life.ws[i].lastIndex == IndexNow(s, p) {
        SyncedKey(s, i, k);
      } else {
        assert WatcherOk(s, i);
        assert CoveredBehind(n, p, k);
      }
    } else {
      ApplyElsewhere(s, i, k);
    }
  }

  lemma ApplyElsewhere(s: Sys, i: nat, k: string)
    requires Basic(s) && Enabled(s, ApplyList(i)) && Pending(s, k) && !HasPrefix(s.life.ws[i].prefix, k)
    ensures Typed(Next(s, ApplyList(i))) && Pending(Next(s, ApplyList(i)), k)
  {
    var n := Next(s, ApplyList(i));
    BasicStep(s, ApplyList(i));
    LoopFrame(s, ApplyList(i));
    if !Agree(n, k) {
      var q :| CoveredBehind(s, q, k);
      assert n.pcs[s.life.reg[q]] == s.pcs[s.life.reg[q]];
      assert CoveredBehind(n, q, k);
    }
  }

  /** The remaining steps neither touch the cache nor let a watcher catch up. */
  lemma OtherStep(s: Sys, st: Step, k: string)
    requires Basic(s) && Enabled(s, st) && Pending(s, k)
    requires !st.RemoteChange? && !st.Add? && !st.Remove? && !st.Stop? && !st.ApplyList?
    ensures Typed(Next(s, st)) && Pending(Next(s, st), k)
  {
    OtherFrame(s, st);
    if !Agree(s, k) {
      var p :| CoveredBehind(s, p, k);
      OtherKeepsBehind(s, st, p);
      assert CoveredBehind(Next(s, st), p, k);
    }
  }

  lemma OtherFrame(s: Sys, st: Step)
    requires Basic(s) && Enabled(s, st)
    requires !st.RemoteChange? && !st.Add? && !st.Remove? && !st.Stop? && !st.ApplyList?
    ensures var n := Next(s, st); Typed(n) && n.cache == s.cache && n.hist == s.hist
  {
    BasicStep(s, st);
  }

  lemma OtherKeepsBehind(s: Sys, st: Step, p: string)
    requires Basic(s) && Enabled(s, st)
    requires !st.RemoteChange? && !st.Add? && !st.Remove? && !st.Stop? && !st.ApplyList?
    requires p in s.life.reg && Behind(s, s.life.reg[p])
    ensures var n := Next(s, st);
      Typed(n) && p in n.life.reg && n.life.reg[p] == s.life.reg[p] && Behind(n, n.life.reg[p])
  {
    if OfALoop(st) {
      LoopKeepsBehind(s, st, s.life.reg[p]);
    } else {
      StartKeepsBehind(s, st, p);
    }
  }

  lemma LoopKeepsBehind(s: Sys, st: Step, i: nat)
    requires Basic(s) && Enabled(s, st) && OfALoop(st) && !st.ApplyList? && i < |s.pcs| && Behind(s, i)
    ensures var n := Next(s, st);
      Typed(n) && n.life.reg == s.life.reg && i < |n.pcs| && n.life.ws[i].prefix == s.life.ws[i].prefix && Behind(n, i)
  {
    BasicStep(s, st);
    LoopFrame(s, st);
    assert WatcherOk(s, i);
  }

  lemma StartKeepsBehind(s: Sys, st: Step, p: string)
    requires Basic(s) && Enabled(s, st) && (st.StartBegin? || st.LoadList? || st.LoadFail? || st.StartEnd?)
    requires p in s.life.reg && Behind(s, s.life.reg[p])
    ensures var n := Next(s, st); Typed(n) && n.life.reg == s.life.reg && Behind(n, s.life.reg[p])
  {
    BasicStep(s, st);
    assert WatcherOk(s, s.life.reg[p]);
  }

  lemma PendingStep(s: Sys, st: Step, k: string)
    requires Basic(s) && Quiet(s) && Enabled(s, st) && SafeRemoval(s, st)
    requires Watched(s, k) ==> Pending(s, k)
    requires Watched(Next(s, st), k)
    ensures Typed(Next(s, st)) && Pending(Next(s, st), k)
  {
    match st
    case Add(p) => AddStep(s, p, k);
    case Remove(p) => RemoveStep(s, p, k);
    case RemoteChange(next) => RemoteChangeStep(s, next, k);
    case ApplyList(i) => ApplyStep(s, i, k);
    case Stop => BasicStep(s, st); OtherwiseUnwatched(s, k);
    case _ => assert Watched(s, k); OtherStep(s, st, k);
  }

  lemma OtherwiseUnwatched(s: Sys, k: string)
    requires Basic(s) && Enabled(s, Stop) && Watched(Next(s, Stop), k)
    ensures !s.life.running && Next(s, Stop) == s
  {
  }

  // ----- runs -----

  /** A run in which removals are safe and no removed watcher interferes. */
  ghost predicate CleanRun(s: Sys, steps: seq<Step>)
    requires Basic(s)
    decreases |steps|
  {
    Quiet(s) && (steps != [] ==>
      && Enabled(s, steps[0]) && SafeRemoval(s, steps[0])
      && (BasicStep(s, steps[0]); CleanRun(Next(s, steps[0]), steps[1..])))
  }

  lemma {:induction false} CleanRunIsRun(s: Sys, steps: seq<Step>)
    requires Basic(s) && CleanRun(s, steps)
    ensures CanRun(s, steps)
    decreases |steps|
  {
    if steps != [] {
      BasicStep(s, steps[0]);
      CleanRunIsRun(Next(s, steps[0]), steps[1..]);
    }
  }

  lemma {:induction false} PendingRun(s: Sys, steps: seq<Step>, k: string)
    requires Basic(s) && CleanRun(s, steps) && CanRun(s, steps)
    requires Watched(s, k) ==> Pending(s, k)
    ensures Watched(Exec(s, steps), k) ==> Pending(Exec(s, steps), k)
    decreases |steps|
  {
    if steps != [] {
      BasicStep(s, steps[0]);
      if Watched(Next(s, steps[0]), k) {
        PendingStep(s, steps[0], k);
      }
      PendingRun(Next(s, steps[0]), steps[1..], k);
    }
  }

  lemma {:induction false} CleanRunEndsQuiet(s: Sys, steps: seq<Step>)
    requires Basic(s) && CleanRun(s, steps) && CanRun(s, steps)
    ensures Quiet(Exec(s, steps))
    decreases |steps|
  {
    if steps != [] {
      BasicStep(s, steps[0]);
      CleanRunEndsQuiet(Next(s, steps[0]), steps[1..]);
    }
  }

  /** The state after a clean run from the start. */
  ghost function EndOf(cachePrefix: string, first: Snapshot, steps: seq<Step>): (s: Sys)
    requires WellFormed(first) && (InitBasic(cachePrefix, first); CleanRun(Init(cachePrefix, first), steps))
    ensures Basic(s)
  {
    InitBasic(cachePrefix, first);
    CleanRunIsRun(Init(cachePrefix, first), steps);
    Exec(Init(cachePrefix, first), steps)
  }

  /** After any clean run from the start, every watched key is right or will be synced again. */
  lemma PendingFromStart(cachePrefix: string, first: Snapshot, steps: seq<Step>, k: string)
    requires WellFormed(first) && (InitBasic(cachePrefix, first); CleanRun(Init(cachePrefix, first), steps))
    ensures var s := EndOf(cachePrefix, first, steps); Quiet(s) && (Watched(s, k) ==> Pending(s, k))
  {
    var s0 := Init(cachePrefix, first);
    CleanRunIsRun(s0, steps);
    CleanRunEndsQuiet(s0, steps);
    if Watched(s0, k) {
      assert CoveredBehind(s0, cachePrefix, k);
    }
    PendingRun(s0, steps, k);
  }

  /** Convergence with overlapping prefixes: after any clean run, once every registered watcher has synced or skipped a
      listing at the newest index, the cache equals the remote store under every watched prefix. */
  lemma Converges(cachePrefix: string, first: Snapshot, steps: seq<Step>, p: string)
    requires WellFormed(first) && (InitBasic(cachePrefix, first); CleanRun(Init(cachePrefix, first), steps))
    ensures var s := EndOf(cachePrefix, first, steps);
      p in s.life.reg && (forall q | q in s.life.reg :: !Behind(s, s.life.reg[q])) ==>
        SameUnder(p, s.cache, Content(s))
  {
    var s := EndOf(cachePrefix, first, steps);
    if p in s.life.reg && (forall q | q in s.life.reg :: !Behind(s, s.life.reg[q])) {
      forall k | HasPrefix(p, k) ensures At(s.cache, k) == At(Content(s), k) {
        assert Watched(s, k);
        PendingFromStart(cachePrefix, first, steps, k);
      }
    }
  }

  /** A round on a listing of the newest snapshot always ends caught up: skipping on an unchanged index
      loses nothing. */
  lemma RoundCatchesUp(s: Sys, i: nat)
    requires Basic(s) && i < |s.pcs| && s.pcs[i] == Fetched(|s.hist| - 1)
    ensures Enabled(s, Skip(i)) || Enabled(s, Store(i))
    ensures Enabled(s, Skip(i)) ==> Basic(Next(s, Skip(i))) && !Behind(Next(s, Skip(i)), i)
    ensures Enabled(s, Store(i)) ==>
      var n := Next(s, Store(i));
      Basic(n) && Enabled(n, ApplyList(i)) && Basic(Next(n, ApplyList(i))) && !Behind(Next(n, ApplyList(i)), i)
  {
    assert WatcherOk(s, i);
    if Enabled(s, Skip(i)) {
      BasicStep(s, Skip(i));
    }
    if Enabled(s, Store(i)) {
      BasicStep(s, Store(i));
      BasicStep(Next(s, Store(i)), ApplyList(i));
    }
  }

  // ----- exactly when a key converges -----

  ghost predicate LoopsOnly(s: Sys, steps: seq<Step>)
    requires Basic(s)
    decreases |steps|
  {
    steps != [] ==>
      && OfALoop(steps[0]) && Enabled(s, steps[0])
      && (BasicStep(s, steps[0]); LoopsOnly(Next(s, steps[0]), steps[1..]))
  }

  lemma QuietStays(s: Sys, st: Step)
    requires Basic(s) && Quiet(s) && Enabled(s, st) && OfALoop(st)
    ensures Typed(Next(s, st)) && Quiet(Next(s, st)) && Next(s, st).life.reg == s.life.reg && Next(s, st).hist == s.hist
  {
    BasicStep(s, st);
    var n := Next(s, st);
    forall i, p | 0 <= i < |n.pcs| && !Registered(n.life, i) && InFlight(n.pcs[i]) && p in n.life.reg
      ensures !Overlap(n.life.ws[i].prefix, p)
    {
      assert !Registered(s.life, i);
      assert n.life.ws[i].prefix == s.life.ws[i].prefix;
    }
  }

  /** Nobody syncs a watched key that has been given up. */
  lemma LostIsNotSynced(s: Sys, i: nat, k: string)
    requires Basic(s) && Quiet(s) && Enabled(s, ApplyList(i)) && Watched(s, k) && !Pending(s, k)
    ensures !HasPrefix(s.life.ws[i].prefix, k)
  {
    if HasPrefix(s.life.ws[i].prefix, k) {
      SyncerIsRegistered(s, i, k);
      assert CoveredBehind(s, s.life.ws[i].prefix, k);
      assert false;
    }
  }

  lemma KeyStays(s: Sys, st: Step, k: string)
    requires Basic(s) && Enabled(s, st) && OfALoop(st)
    requires st.ApplyList? ==> !HasPrefix(s.life.ws[st.i].prefix, k)
    ensures Typed(Next(s, st)) && At(Next(s, st).cache, k) == At(s.cache, k) && Content(Next(s, st)) == Content(s)
  {
    BasicStep(s, st);
    LoopFrame(s, st);
  }

  lemma LostStaysWrong(s: Sys, st: Step, k: string)
    requires Basic(s) && Quiet(s) && Enabled(s, st) && OfALoop(st) && Watched(s, k) && !Pending(s, k)
    ensures Typed(Next(s, st)) && !Agree(Next(s, st), k)
  {
    if st.ApplyList? {
      LostIsNotSynced(s, st.i, k);
    }
    KeyStays(s, st, k);
  }

  lemma LostStaysIdle(s: Sys, st: Step, p: string, k: string)
    requires Basic(s) && Enabled(s, st) && OfALoop(st) && !CoveredBehind(s, p, k)
    ensures Typed(Next(s, st)) && !CoveredBehind(Next(s, st), p, k)
  {
    BasicStep(s, st);
    LoopFrame(s, st);
    if p in s.life.reg && HasPrefix(p, k) {
      CaughtUpStays(s, st, s.life.reg[p]);
    }
  }

  /** A key that nobody will sync again stays wrong. */
  lemma LostStays(s: Sys, st: Step, k: string)
    requires Basic(s) && Quiet(s) && Enabled(s, st) && OfALoop(st) && Watched(s, k) && !Pending(s, k)
    ensures Typed(Next(s, st)) && !Pending(Next(s, st), k)
  {
    LostStaysWrong(s, st, k);
    forall p ensures !CoveredBehind(Next(s, st), p, k) {
      LostStaysIdle(s, st, p, k);
    }
  }

  lemma {:induction false} LoopsKeepPending(s: Sys, steps: seq<Step>, k: string)
    requires Basic(s) && Quiet(s) && LoopsOnly(s, steps) && Watched(s, k)
    ensures CanRun(s, steps)
    ensures Exec(s, steps).life.reg == s.life.reg
    ensures Pending(Exec(s, steps), k) <==> Pending(s, k)
    decreases |steps|
  {
    if steps != [] {
      var n := Next(s, steps[0]);
      BasicStep(s, steps[0]);
      QuietStays(s, steps[0]);
      assert Watched(n, k);
      if Pending(s, k) {
        PendingStep(s, steps[0], k);
      } else {
        LostStays(s, steps[0], k);
      }
      LoopsKeepPending(n, steps[1..], k);
    }
  }

  /** The exact condition, key by key: with the remote store and the registrations at rest, when the watchers covering
      a watched key have all caught up the cache is right about the key if and only if, to begin with, it was right
      already or one of those watchers was behind. */
  lemma ConvergesExactly(s: Sys, steps: seq<Step>, k: string)
    requires Basic(s) && Quiet(s) && LoopsOnly(s, steps) && Watched(s, k)
    ensures CanRun(s, steps)
    ensures (forall p :: !CoveredBehind(Exec(s, steps), p, k)) ==> (Agree(Exec(s, steps), k) <==> Pending(s, k))
  {
    LoopsKeepPending(s, steps, k);
  }

  // ----- one more round for everybody -----

  /** The watcher has the newest index already, or holds a listing that will give it. */
  ghost predicate UpToDate(s: Sys, i: nat)
    requires Typed(s) && i < |s.pcs|
  {
    var w := s.life.ws[i];
    w.lastIndex == IndexNow(s, w.prefix) ||
        (s.pcs[i].Fetched? && IndexAt(s, s.pcs[i].t, w.prefix) == IndexNow(s, w.prefix))
  }

  lemma UpToDateStays(s: Sys, st: Step, i: nat)
    requires Basic(s) && Enabled(s, st) && OfALoop(st) && i < |s.pcs|
    requires UpToDate(s, i) || st == Answer(i)
    ensures var n := Next(s, st); Typed(n) && i < |n.pcs| && UpToDate(n, i)
    ensures st == Skip(i) || st == ApplyList(i) ==> !Behind(Next(s, st), i)
  {
    BasicStep(s, st);
    LoopFrame(s, st);
    assert WatcherOk(s, i);
    assert Next(s, st).life.ws[i].prefix == s.life.ws[i].prefix;
    if st == Store(i) {
      assert Ordered(s.hist[s.pcs[i].t], s.hist[|s.hist| - 1]);
    }
  }

  /** While nothing changes remotely, a watcher that has caught up stays so, whatever the others do. */
  lemma CaughtUpStays(s: Sys, st: Step, i: nat)
    requires Basic(s) && Enabled(s, st) && OfALoop(st) && i < |s.pcs| && !Behind(s, i)
    ensures var n := Next(s, st); Typed(n) && i < |n.pcs| && !Behind(n, i)
  {
    BasicStep(s, st);
    LoopFrame(s, st);
    assert WatcherOk(s, i) && WellFormed(s.hist[|s.hist| - 1]);
    if s.pcs[i].Fetched? {
      assert Ordered(s.hist[s.pcs[i].t], s.hist[|s.hist| - 1]);
    }
  }

  lemma {:induction false} CaughtUpRun(s: Sys, steps: seq<Step>, i: nat)
    requires Basic(s) && LoopsOnly(s, steps) && i < |s.pcs| && !Behind(s, i)
    ensures CanRun(s, steps) && i < |Exec(s, steps).pcs| && !Behind(Exec(s, steps), i)
    decreases |steps|
  {
    if steps != [] {
      BasicStep(s, steps[0]);
      CaughtUpStays(s, steps[0], i);
      CaughtUpRun(Next(s, steps[0]), steps[1..], i);
    }
  }

  predicate Finishes(st: Step, i: nat) {
    st == Skip(i) || st == ApplyList(i)
  }

  lemma {:induction false} FinishRun(s: Sys, steps: seq<Step>, i: nat, b: nat)
    requires Basic(s) && LoopsOnly(s, steps) && i < |s.pcs| && UpToDate(s, i) && b < |steps| && Finishes(steps[b], i)
    ensures CanRun(s, steps) && i < |Exec(s, steps).pcs| && !Behind(Exec(s, steps), i)
    decreases |steps|
  {
    BasicStep(s, steps[0]);
    UpToDateStays(s, steps[0], i);
    if b == 0 {
      CaughtUpRun(Next(s, steps[0]), steps[1..], i);
    } else {
      assert steps[1..][b - 1] == steps[b];
      FinishRun(Next(s, steps[0]), steps[1..], i, b - 1);
    }
  }

  /** Somewhere in the run the watcher gets a listing, and later finishes a round. */
  predicate FinishesRound(steps: seq<Step>, i: nat) {
    exists a, b :: 0 <= a < b < |steps| && steps[a] == Answer(i) && Finishes(steps[b], i)
  }

  /** A watcher that gets a listing after the last remote change and finishes that round is caught up at the end. */
  lemma {:induction false} RoundRun(s: Sys, steps: seq<Step>, i: nat, a: nat, b: nat)
    requires Basic(s) && LoopsOnly(s, steps) && i < |s.pcs|
    requires a < b < |steps| && steps[a] == Answer(i) && Finishes(steps[b], i)
    ensures CanRun(s, steps) && i < |Exec(s, steps).pcs| && !Behind(Exec(s, steps), i)
    decreases |steps|
  {
    var n := Next(s, steps[0]);
    BasicStep(s, steps[0]);
    LoopFrame(s, steps[0]);
    if a == 0 {
      UpToDateStays(s, steps[0], i);
      FinishRun(n, steps[1..], i, b - 1);
    } else {
      RoundRun(n, steps[1..], i, a - 1, b - 1);
    }
  }

  /** Once the remote store stops changing: when every registered watcher has got one more listing and finished a
      round with it, in whatever interleaving, the cache equals the remote store under every watched prefix. */
  lemma OneMoreRoundConverges(cachePrefix: string, first: Snapshot, steps: seq<Step>, rest: seq<Step>, p: string)
    requires WellFormed(first) && (InitBasic(cachePrefix, first); CleanRun(Init(cachePrefix, first), steps))
    requires var s := EndOf(cachePrefix, first, steps); LoopsOnly(s, rest) && p in s.life.reg && AllFinish(s, rest)
    ensures var s := EndOf(cachePrefix, first, steps); CanRun(s, rest) && SameUnder(p, Exec(s, rest).cache, Content(s))
  {
    AllPendingFromStart(cachePrefix, first, steps, p);
    RoundsConverge(EndOf(cachePrefix, first, steps), rest, p);
  }

  ghost predicate AllFinish(s: Sys, rest: seq<Step>) {
    forall q | q in s.life.reg :: FinishesRound(rest, s.life.reg[q])
  }

  lemma AllPendingFromStart(cachePrefix: string, first: Snapshot, steps: seq<Step>, p: string)
    requires WellFormed(first) && (InitBasic(cachePrefix, first); CleanRun(Init(cachePrefix, first), steps))
    requires p in EndOf(cachePrefix, first, steps).life.reg
    ensures var s := EndOf(cachePrefix, first, steps);
      Quiet(s) && forall k | HasPrefix(p, k) :: Watched(s, k) && Pending(s, k)
  {
    var s := EndOf(cachePrefix, first, steps);
    PendingFromStart(cachePrefix, first, steps, p);
    forall k | HasPrefix(p, k) ensures Watched(s, k) && Pending(s, k) {
      PendingFromStart(cachePrefix, first, steps, k);
    }
  }

  lemma RoundsConverge(s: Sys, rest: seq<Step>, p: string)
    requires Basic(s) && Quiet(s) && LoopsOnly(s, rest) && AllFinish(s, rest)
    requires forall k | HasPrefix(p, k) :: Watched(s, k) && Pending(s, k)
    ensures CanRun(s, rest) && SameUnder(p, Exec(s, rest).cache, Content(s))
  {
    LoopsCanRun(s, rest);
    var e := Exec(s, rest);
    assert Content(e) == Content(s);
    forall k | HasPrefix(p, k) ensures At(e.cache, k) == At(Content(s), k) {
      RoundsSettle(s, rest, k);
      assert Agree(e, k);
    }
  }

  /** The same from any quiet state, for one key that is right or will be synced again. */
  lemma RoundsSettle(s: Sys, rest: seq<Step>, k: string)
    requires Basic(s) && Quiet(s) && LoopsOnly(s, rest) && Watched(s, k) && Pending(s, k)
    requires AllFinish(s, rest)
    ensures CanRun(s, rest) && Agree(Exec(s, rest), k)
  {
    LoopsCanRun(s, rest);
    forall p ensures !CoveredBehind(Exec(s, rest), p, k) {
      if p in s.life.reg {
        var i := s.life.reg[p];
        var a, b :| 0 <= a < b < |rest| && rest[a] == Answer(i) && Finishes(rest[b], i);
        RoundRun(s, rest, i, a, b);
      }
    }
    ConvergesExactly(s, rest, k);
  }

  lemma {:induction false} LoopsCanRun(s: Sys, steps: seq<Step>)
    requires Basic(s) && LoopsOnly(s, steps)
    ensures CanRun(s, steps) && Exec(s, steps).life.reg == s.life.reg && Exec(s, steps).hist == s.hist
    decreases |steps|
  {
    if steps != [] {
      BasicStep(s, steps[0]);
      LoopFrame(s, steps[0]);
      LoopsCanRun(Next(s, steps[0]), steps[1..]);
    }
  }
}
