/** With watched prefixes that do not overlap, the cache under a prefix is exactly one snapshot of the remote store. */
module Agreement {
  import opened Common
  import opened Remote
  import opened CacheSync
  import opened WatchProtocol
  import opened Convergence

  ghost predicate Disjoint(s: Sys) {
    forall p, q | p in s.life.reg && q in s.life.reg && p != q :: !Overlap(p, q)
  }

  /** The cache under `p` is the snapshot at the watcher's index. */
  ghost predicate InSync(s: Sys, p: string)
    requires Typed(s) && p in s.life.reg
  {
    exists t: nat ::
      t < |s.hist| && IndexAt(s, t, p) == s.life.ws[s.life.reg[p]].lastIndex && SameUnder(p, s.cache, s.hist[t].kv)
  }

  /** A listing in hand is not older than anything cached under its prefix. */
  ghost predicate NotStale(s: Sys, p: string, t: nat)
    requires Typed(s)
  {
    forall k | k in s.cache && HasPrefix(p, k) :: OccursBy(s.hist, t, k, s.cache[k])
  }

  ghost predicate PrefixOk(s: Sys, p: string)
    requires Typed(s) && p in s.life.reg
  {
    var i := s.life.reg[p];
    && (s.life.ws[i].lastIndex > 0 && !s.pcs[i].Stored? ==> InSync(s, p))
    && (s.pcs[i].Fetched? || s.pcs[i].Stored? ==> NotStale(s, p, s.pcs[i].t))
  }

  /** A watcher whose own part of the state and whose part of the cache stay as they are keeps its invariant. */
  lemma Undisturbed(s: Sys, n: Sys, p: string)
    requires Typed(s) && Typed(n) && s.hist <= n.hist && p in s.life.reg && p in n.life.reg && PrefixOk(s, p)
    requires var i := s.life.reg[p];
      n.life.reg[p] == i && n.pcs[i] == s.pcs[i] && n.life.ws[i].lastIndex == s.life.ws[i].lastIndex
    requires SameUnder(p, s.cache, n.cache)
    ensures PrefixOk(n, p)
  {
    var i := s.life.reg[p];
    if n.pcs[i].Fetched? || n.pcs[i].Stored? {
      var t := n.pcs[i].t;
      forall k | k in n.cache && HasPrefix(p, k) ensures OccursBy(n.hist, t, k, n.cache[k]) {
        assert At(s.cache, k) == At(n.cache, k);
        OccursLater(s.hist, n.hist, t, t, k, s.cache[k]);
      }
    }
    if n.life.ws[i].lastIndex > 0 && !n.pcs[i].Stored? {
      var t: nat :| t < |s.hist| && IndexAt(s, t, p) == s.life.ws[i].lastIndex && SameUnder(p, s.cache, s.hist[t].kv);
      assert IndexAt(n, t, p) == n.life.ws[i].lastIndex && SameUnder(p, n.cache, n.hist[t].kv);
    }
  }

  /** The step of the watcher itself. */
  lemma OwnStep(s: Sys, st: Step, p: string)
    requires Basic(s) && Enabled(s, st) && OfALoop(st) && p in s.life.reg && s.life.reg[p] == st.i && PrefixOk(s, p)
    ensures Typed(Next(s, st)) && p in Next(s, st).life.reg && PrefixOk(Next(s, st), p)
  {
    var n := Next(s, st);
    BasicStep(s, st);
    assert WatcherOk(s, st.i);
    if st.ApplyList? {
      var t := s.pcs[st.i].t;
      MergeReplacesPrefix(s.hist, t, s.cache, p);
      assert IndexAt(n, t, p) == n.life.ws[st.i].lastIndex && SameUnder(p, n.cache, n.hist[t].kv);
    } else if st.Store? {
      assert NotStale(s, p, s.pcs[st.i].t);
    } else {
      assert n.cache == s.cache && n.hist == s.hist && n.life == s.life;
    }
  }

  /** The step of another watcher leaves the cache under `p` alone. */
  lemma ElsewhereStep(s: Sys, st: Step, p: string)
    requires Basic(s) && Quiet(s) && Disjoint(s) && Enabled(s, st) && OfALoop(st)
    requires p in s.life.reg && s.life.reg[p] != st.i && PrefixOk(s, p)
    ensures Typed(Next(s, st)) && p in Next(s, st).life.reg && PrefixOk(Next(s, st), p)
  {
    var n := Next(s, st);
    BasicStep(s, st);
    LoopFrame(s, st);
    forall k | HasPrefix(p, k) ensures At(s.cache, k) == At(n.cache, k) {
      if st.ApplyList? && HasPrefix(s.life.ws[st.i].prefix, k) {
        SyncerIsRegistered(s, st.i, k);
        SharedKeyMeansOverlap(p, s.life.ws[st.i].prefix, k);
        assert false;
      }
    }
    Undisturbed(s, n, p);
  }

  // The steps of the registration calls.

  /** A watcher that is new has neither an index nor a listing. */
  lemma AddKeeps(s: Sys, q: string, p: string)
    requires Basic(s) && Enabled(s, Add(q)) && Typed(Next(s, Add(q))) && p in Next(s, Add(q)).life.reg
    requires p in s.life.reg ==> PrefixOk(s, p)
    ensures PrefixOk(Next(s, Add(q)), p)
  {
    if p in s.life.reg {
      Undisturbed(s, Next(s, Add(q)), p);
    }
  }

  /** Removals, and the load: all but the watcher that gets a listing stay as they are, and that one has no
      index yet. */
  lemma CallKeeps(s: Sys, st: Step, p: string)
    requires Basic(s) && Enabled(s, st) && Administrative(st) && !st.Add? && !st.StartEnd?
    requires Typed(Next(s, st)) && p in Next(s, st).life.reg
    requires p in s.life.reg ==> PrefixOk(s, p)
    ensures PrefixOk(Next(s, st), p)
  {
    var n := Next(s, st);
    assert p in s.life.reg;
    var i := s.life.reg[p];
    assert WatcherOk(s, i);
    if n.pcs[i] == s.pcs[i] {
      Undisturbed(s, n, p);
    }
  }

  /** The end of the load sets the loops going. */
  lemma StartEndKeeps(s: Sys, p: string)
    requires Basic(s) && Enabled(s, StartEnd) && Typed(Next(s, StartEnd)) && p in Next(s, StartEnd).life.reg
    requires p in s.life.reg ==> PrefixOk(s, p)
    ensures PrefixOk(Next(s, StartEnd), p)
  {
    var n := Next(s, StartEnd);
    var i := s.life.reg[p];
    assert WatcherOk(s, i);
    assert n.life.ws[i].lastIndex == s.life.ws[i].lastIndex;
    if s.life.ws[i].lastIndex > 0 {
      var t: nat :|
        t < |s.hist| && IndexAt(s, t, p) == s.life.ws[i].lastIndex && SameUnder(p, s.cache, s.hist[t].kv);
      assert IndexAt(n, t, p) == n.life.ws[i].lastIndex && SameUnder(p, n.cache, n.hist[t].kv);
    }
  }

  lemma AdministrativeKeeps(s: Sys, st: Step, p: string)
    requires Basic(s) && Enabled(s, st) && Administrative(st) && p in Next(s, st).life.reg && Typed(Next(s, st))
    requires p in s.life.reg ==> PrefixOk(s, p)
    ensures PrefixOk(Next(s, st), p)
  {
    if st.Add? {
      AddKeeps(s, st.p, p);
    } else if st.StartEnd? {
      StartEndKeeps(s, p);
    } else {
      CallKeeps(s, st, p);
    }
  }

  lemma PrefixStep(s: Sys, st: Step, p: string)
    requires Basic(s) && Quiet(s) && Disjoint(s) && Enabled(s, st)
    requires p in s.life.reg ==> PrefixOk(s, p)
    requires Typed(Next(s, st)) && p in Next(s, st).life.reg
    ensures PrefixOk(Next(s, st), p)
  {
    if st.RemoteChange? {
      Undisturbed(s, Next(s, st), p);
    } else if Administrative(st) {
      AdministrativeKeeps(s, st, p);
    } else if s.life.reg[p] == st.i {
      OwnStep(s, st, p);
    } else {
      ElsewhereStep(s, st, p);
    }
  }

  /** A run in which the registered prefixes never overlap and no removed watcher interferes. */
  ghost predicate TidyRun(s: Sys, steps: seq<Step>)
    requires Basic(s)
    decreases |steps|
  {
    Quiet(s) && Disjoint(s) && (steps != [] ==>
      Enabled(s, steps[0]) && (BasicStep(s, steps[0]); TidyRun(Next(s, steps[0]), steps[1..])))
  }

  lemma {:induction false} TidyRunKeeps(s: Sys, steps: seq<Step>, p: string)
    requires Basic(s) && TidyRun(s, steps)
    requires p in s.life.reg ==> PrefixOk(s, p)
    ensures CanRun(s, steps) && (p in Exec(s, steps).life.reg ==> PrefixOk(Exec(s, steps), p))
    decreases |steps|
  {
    if steps != [] {
      BasicStep(s, steps[0]);
      if p in Next(s, steps[0]).life.reg {
        PrefixStep(s, steps[0], p);
      }
      TidyRunKeeps(Next(s, steps[0]), steps[1..], p);
    }
  }

  /** Snapshot agreement: outside the window between storing the index and syncing, the cache under a synced prefix is
      the content of every snapshot that has the watcher's index, and there is one. */
  lemma SnapshotAgreement(cachePrefix: string, first: Snapshot, steps: seq<Step>, p: string)
    requires WellFormed(first) && (InitBasic(cachePrefix, first); TidyRun(Init(cachePrefix, first), steps))
    ensures CanRun(Init(cachePrefix, first), steps)
    ensures var s := Exec(Init(cachePrefix, first), steps);
      p in s.life.reg && s.life.ws[s.life.reg[p]].lastIndex > 0 && !s.pcs[s.life.reg[p]].Stored? ==>
        && InSync(s, p)
        && (forall t: nat | t < |s.hist| && IndexAt(s, t, p) == s.life.ws[s.life.reg[p]].lastIndex ::
              SameUnder(p, s.cache, s.hist[t].kv))
  {
    var s0 := Init(cachePrefix, first);
    InitBasic(cachePrefix, first);
    TidyRunKeeps(s0, steps, p);
    var s := Exec(s0, steps);
    if p in s.life.reg && s.life.ws[s.life.reg[p]].lastIndex > 0 && !s.pcs[s.life.reg[p]].Stored? {
      var u: nat :| u < |s.hist| && IndexAt(s, u, p) == s.life.ws[s.life.reg[p]].lastIndex &&
          SameUnder(p, s.cache, s.hist[u].kv);
      forall t: nat | t < |s.hist| && IndexAt(s, t, p) == IndexAt(s, u, p) ensures SameUnder(p, s.cache, s.hist[t].kv) {
        assert Ordered(s.hist[if t <= u then t else u], s.hist[if t <= u then u else t]);
      }
    }
  }

  /** A cached listing of any prefix extending a synced one equals, as a multiset, the remote listing at that index. */
  lemma CachedListingIsRemoteListing(cachePrefix: string, first: Snapshot, steps: seq<Step>,
                                     p: string, q: string, t: nat, cached: seq<Pair>, remote: seq<Pair>)
    requires WellFormed(first) && (InitBasic(cachePrefix, first); TidyRun(Init(cachePrefix, first), steps))
    requires CanRun(Init(cachePrefix, first), steps) && HasPrefix(p, q)
    requires var s := Exec(Init(cachePrefix, first), steps);
      && p in s.life.reg && s.life.ws[s.life.reg[p]].lastIndex > 0 && !s.pcs[s.life.reg[p]].Stored?
      && t < |s.hist| && IndexAt(s, t, p) == s.life.ws[s.life.reg[p]].lastIndex
      && IsListing(s.cache, q, cached) && IsListing(s.hist[t].kv, q, remote)
    ensures multiset(cached) == multiset(remote)
  {
    InitBasic(cachePrefix, first);
    var s := Exec(Init(cachePrefix, first), steps);
    SnapshotAgreement(cachePrefix, first, steps, p);
    assert SameUnder(p, s.cache, s.hist[t].kv);
    forall k | HasPrefix(q, k) ensures At(s.cache, k) == At(s.hist[t].kv, k) {
      LongerPrefixSelectsFewer(p, q, k);
    }
    ListingsAgree(s.cache, s.hist[t].kv, q, cached, remote);
  }
}
