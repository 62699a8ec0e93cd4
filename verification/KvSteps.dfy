/** The methods of the cache, by their contracts, as runs of the watcher protocol. */
module KvSteps {
  import opened Common
  import opened Remote
  import opened CacheSync
  import opened Lifecycle
  import opened WatchProtocol
  import opened KvStore

  /** Some run leads from `s` to `t`. */
  ghost predicate Leads(s: Sys, t: Sys) {
    Basic(s) && exists steps :: CanRun(s, steps) && Exec(s, steps) == t
  }

  lemma Nowhere(s: Sys)
    requires Basic(s)
    ensures Leads(s, s)
  {
    assert CanRun(s, []) && Exec(s, []) == s;
  }

  lemma {:induction false} Append(s: Sys, steps: seq<Step>, st: Step)
    requires Basic(s) && CanRun(s, steps) && Enabled(Exec(s, steps), st)
    ensures CanRun(s, steps + [st]) && Exec(s, steps + [st]) == Next(Exec(s, steps), st)
    decreases |steps|
  {
    var more := steps + [st];
    if steps == [] {
      BasicStep(s, st);
      assert more[1..] == [];
    } else {
      BasicStep(s, steps[0]);
      assert more[1..] == steps[1..] + [st];
      Append(Next(s, steps[0]), steps[1..], st);
    }
  }

  lemma Go(s: Sys, t: Sys, st: Step)
    requires Leads(s, t) && Typed(t) && Enabled(t, st)
    ensures Leads(s, Next(t, st)) && Basic(t) && Basic(Next(t, st))
  {
    var steps :| CanRun(s, steps) && Exec(s, steps) == t;
    Append(s, steps, st);
    assert CanRun(s, steps + [st]) && Exec(s, steps + [st]) == Next(t, st);
    BasicStep(t, st);
  }

  // ----- one round -----

  /** What `WatchOnce` does with a listing of snapshot `t` is the step that skips it, or the two that store the index
      and merge: the same life and the same cache. */
  lemma WatchOnceIsARound(s: Sys, w: nat, t: nat, pairs: seq<Pair>)
    requires Basic(s) && w < |s.pcs| && s.pcs[w] == Fetched(t) && !Loader(s, w)
    requires IsListing(s.hist[t].kv, s.life.ws[w].prefix, pairs)
    ensures var p, index := s.life.ws[w].prefix, IndexAt(s, t, s.life.ws[w].prefix);
      if index > s.life.ws[w].lastIndex
      then exists n: Sys :: Leads(s, n) && n.life == SetIndex(s.life, w, index) && n.cache == Sync(s.cache, p, pairs)
      else Enabled(s, Skip(w)) && Next(s, Skip(w)).life == s.life && Next(s, Skip(w)).cache == s.cache
  {
    var p := s.life.ws[w].prefix;
    if IndexAt(s, t, p) > s.life.ws[w].lastIndex {
      Nowhere(s);
      Go(s, s, Store(w));
      var m := Next(s, Store(w));
      Go(s, m, ApplyList(w));
      SyncIsMerge(s.cache, p, pairs, s.hist[t].kv);
      var n := Next(m, ApplyList(w));
      assert n.life == SetIndex(s.life, w, IndexAt(s, t, p)) && n.cache == Sync(s.cache, p, pairs);
    }
  }

  // ----- the start -----

  /** The store's history when the `n`-th prefix is listed: before each listing it may change. */
  function HistoryBy(h: seq<Snapshot>, changes: seq<seq<Snapshot>>, n: nat): seq<Snapshot>
    requires n <= |changes|
  {
    if n == 0 then h else HistoryBy(h, changes, n - 1) + changes[n - 1]
  }

  /** The answer is a listing of the newest snapshot of `h`, or none. */
  ghost predicate Replies(h: seq<Snapshot>, p: string, answer: Answer) {
    |h| > 0 && (answer.Listed? ==>
        IsListing(h[|h| - 1].kv, p, answer.pairs) && answer.lastIndex == h[|h| - 1].lastIndex(p))
  }

  /** Each prefix in `order`, once and registered, is answered from the store as it is when its turn comes. */
  ghost predicate Load(s: Sys, order: seq<string>, changes: seq<seq<Snapshot>>, answers: map<string, Answer>) {
    && |changes| == |order| && Contract(HistoryBy(s.hist, changes, |order|))
    && Elements(order) <= s.life.reg.Keys && (forall i, j | 0 <= i < j < |order| :: order[i] != order[j])
    && (forall i | 0 <= i < |order| ::
          order[i] in answers && Replies(HistoryBy(s.hist, changes, i + 1), order[i], answers[order[i]]))
  }

  /** `n` prefixes are loaded, and nothing has changed but the store, the registered watchers' indexes and the cache. */
  ghost predicate Loaded(
      s: Sys, order: seq<string>, changes: seq<seq<Snapshot>>, answers: map<string, Answer>, n: nat, m: Sys)
    requires |changes| == |order| && n <= |order|
  {
    && m.life == LoadW(s.life, LoadedAmong(answers, Elements(order[..n])))
    && m.cache == LoadCache(s.cache, order[..n], answers)
    && m.hist == HistoryBy(s.hist, changes, n) && m.pcs == s.pcs
    && m.lock == WatchProtocol.Loading(s.life.reg.Keys - Elements(order[..n]), None)
  }

  function Elements(order: seq<string>): set<string> {
    set p | p in order
  }

  /** One prefix: a failed listing is one step, a listing three. */
  lemma LoadOneSteps(s: Sys, n: Sys, p: string, answer: Answer)
    requires Leads(s, n) && Basic(n) && n.lock.Loading? && n.lock.current.None? && p in n.lock.todo
    requires answer.Listed? ==> IsListing(Content(n), p, answer.pairs) && answer.lastIndex == IndexNow(n, p)
    ensures exists m: Sys :: Leads(s, m) && OneLoaded(n, p, answer, m)
  {
    if answer.Failed? {
      Go(s, n, LoadFail(p));
      assert OneLoaded(n, p, answer, Next(n, LoadFail(p)));
    } else {
      ListedSteps(s, n, p, answer);
    }
  }

  // The states along the three steps of a listed prefix.

  lemma AfterList(n: Sys, p: string)
    requires Basic(n) && n.lock.Loading? && n.lock.current.None? && p in n.lock.todo
    ensures p in n.life.reg && Enabled(n, LoadList(p))
    ensures var i, a := n.life.reg[p], Next(n, LoadList(p));
      Typed(a) && i < |n.pcs| &&
      a == n.(lock := WatchProtocol.Loading(n.lock.todo - {p}, Some(p)), pcs := n.pcs[i := Fetched(|n.hist| - 1)])
  {
    assert WatcherOk(n, n.life.reg[p]);
  }

  lemma AfterStore(n: Sys, p: string, a: Sys)
    requires Basic(n) && n.lock.Loading? && n.lock.current.None? && p in n.lock.todo && Enabled(n, LoadList(p))
    requires a == Next(n, LoadList(p)) && Typed(a)
    ensures var i := n.life.reg[p];
      && i < |n.pcs| && Enabled(a, Store(i))
      && var b := Next(a, Store(i));
         Typed(b) && b == a.(life := SetIndex(n.life, i, IndexNow(n, p)), pcs := n.pcs[i := Stored(|n.hist| - 1)])
  {
    AfterList(n, p);
    var i := n.life.reg[p];
    assert a.pcs[i := Stored(|n.hist| - 1)] == n.pcs[i := Stored(|n.hist| - 1)];
  }

  lemma AfterApply(n: Sys, p: string, b: Sys)
    requires Basic(n) && n.lock.Loading? && n.lock.current.None? && p in n.lock.todo && p in n.life.reg
    requires var i := n.life.reg[p];
      b == Sys(n.hist, n.cache, SetIndex(n.life, i, IndexNow(n, p)), n.pcs[i := Stored(|n.hist| - 1)],
               WatchProtocol.Loading(n.lock.todo - {p}, Some(p)))
    requires Typed(b)
    ensures var i := n.life.reg[p];
      && Enabled(b, ApplyList(i))
      && var c := Next(b, ApplyList(i));
         && c.life == b.life && c.cache == Merge(n.cache, p, Content(n))
         && c.hist == n.hist && c.pcs == n.pcs && c.lock == WatchProtocol.Loading(n.lock.todo - {p}, None)
  {
    var i := n.life.reg[p];
    assert WatcherOk(n, i);
    assert Loader(b, i);
    assert b.pcs[i := Parked] == n.pcs;
  }

  lemma ListedSteps(s: Sys, n: Sys, p: string, answer: Answer)
    requires Leads(s, n) && Basic(n) && n.lock.Loading? && n.lock.current.None? && p in n.lock.todo
    requires answer.Listed? && IsListing(Content(n), p, answer.pairs) && answer.lastIndex == IndexNow(n, p)
    ensures exists m: Sys :: Leads(s, m) && OneLoaded(n, p, answer, m)
  {
    AfterList(n, p);
    var i, a := n.life.reg[p], Next(n, LoadList(p));
    AfterStore(n, p, a);
    var b := Next(a, Store(i));
    AfterApply(n, p, b);
    Go(s, n, LoadList(p));
    Go(s, a, Store(i));
    Go(s, b, ApplyList(i));
    SyncIsMerge(n.cache, p, answer.pairs, Content(n));
    assert OneLoaded(n, p, answer, Next(b, ApplyList(i)));
  }

  ghost predicate OneLoaded(n: Sys, p: string, answer: Answer, m: Sys)
    requires RegOk(n.life)
  {
    && p in n.life.reg
    && m.life == (if answer.Listed? then SetIndex(n.life, n.life.reg[p], answer.lastIndex) else n.life)
    && m.cache == KvStore.Loaded(n.cache, p, answer)
    && m.hist == n.hist && m.pcs == n.pcs && n.lock.Loading? && m.lock == WatchProtocol.Loading(n.lock.todo - {p}, None)
  }

  // ----- the store changes -----

  lemma ContractPrefix(a: seq<Snapshot>, b: seq<Snapshot>)
    requires |a| > 0 && Contract(a + b)
    ensures Contract(a)
  {
    assert forall i | 0 <= i < |a| :: (a + b)[i] == a[i];
  }

  lemma {:induction false} ContractBy(h: seq<Snapshot>, changes: seq<seq<Snapshot>>, n: nat, m: nat)
    requires n <= m <= |changes| && |h| > 0 && Contract(HistoryBy(h, changes, m))
    ensures |HistoryBy(h, changes, n)| > 0 && Contract(HistoryBy(h, changes, n))
    decreases m
  {
    HistoryNotEmpty(h, changes, n);
    if n < m {
      HistoryNotEmpty(h, changes, m - 1);
      ContractPrefix(HistoryBy(h, changes, m - 1), changes[m - 1]);
      ContractBy(h, changes, n, m - 1);
    }
  }

  lemma {:induction false} HistoryNotEmpty(h: seq<Snapshot>, changes: seq<seq<Snapshot>>, n: nat)
    requires n <= |changes| && |h| > 0
    ensures |HistoryBy(h, changes, n)| > 0
  {
    if n > 0 {
      HistoryNotEmpty(h, changes, n - 1);
    }
  }

  lemma {:induction false} ChangesRun(s: Sys, n: Sys, more: seq<Snapshot>)
    requires Leads(s, n) && Basic(n) && Contract(n.hist + more)
    ensures Leads(s, n.(hist := n.hist + more)) && Basic(n.(hist := n.hist + more))
  {
    if more == [] {
      assert n.hist + more == n.hist;
    } else {
      var front, last := more[..|more| - 1], more[|more| - 1];
      assert n.hist + more == (n.hist + front) + [last];
      ContractPrefix(n.hist + front, [last]);
      ChangesRun(s, n, front);
      var m := n.(hist := n.hist + front);
      Go(s, m, RemoteChange(last));
      assert Next(m, RemoteChange(last)) == n.(hist := n.hist + more);
    }
  }

  // ----- the load -----

  lemma NothingLoaded(s: Sys, order: seq<string>, changes: seq<seq<Snapshot>>, answers: map<string, Answer>)
    requires |changes| == |order| && s.lock == WatchProtocol.Loading(s.life.reg.Keys, None)
    ensures Loaded(s, order, changes, answers, 0, s)
  {
    AllLoaded(s.life, answers);
    assert order[..0] == [] && Elements([]) == {} && s.life.reg.Keys - {} == s.life.reg.Keys;
  }

  lemma NextPrefix(s: Sys, order: seq<string>, changes: seq<seq<Snapshot>>, answers: map<string, Answer>, n: nat)
    requires Load(s, order, changes, answers) && n < |order|
    ensures Elements(order[..n + 1]) == Elements(order[..n]) + {order[n]} && order[n] !in Elements(order[..n])
    ensures order[n] in s.life.reg && order[..n + 1][..n] == order[..n]
    ensures s.life.reg.Keys - Elements(order[..n]) - {order[n]} == s.life.reg.Keys - Elements(order[..n + 1])
  {
    assert order[n] in Elements(order);
    assert order[..n + 1] == order[..n] + [order[n]];
  }

  /** One more prefix, loaded from `b`, where the store has changed since `a`. */
  lemma LoadedOneMore(
    s: Sys, order: seq<string>, changes: seq<seq<Snapshot>>, answers: map<string, Answer>, n: nat,
    a: Sys, b: Sys, m: Sys)
    requires Basic(s) && Load(s, order, changes, answers) && n < |order|
    requires RegOk(b.life) && Loaded(s, order, changes, answers, n, a) && b == a.(hist := a.hist + changes[n])
    requires OneLoaded(b, order[n], answers[order[n]], m)
    ensures Loaded(s, order, changes, answers, n + 1, m)
  {
    NextPrefix(s, order, changes, answers, n);
    OneMoreLoaded(s.life, answers, Elements(order[..n]), order[n]);
  }

  lemma LoadMore(s: Sys, order: seq<string>, changes: seq<seq<Snapshot>>, answers: map<string, Answer>, n: nat, a: Sys)
    requires Basic(s) && Load(s, order, changes, answers) && n < |order|
    requires Leads(s, a) && Basic(a) && Loaded(s, order, changes, answers, n, a)
    ensures exists m: Sys :: Leads(s, m) && Loaded(s, order, changes, answers, n + 1, m)
  {
    ContractBy(s.hist, changes, n + 1, |order|);
    ChangesRun(s, a, changes[n]);
    var b := a.(hist := a.hist + changes[n]);
    NextPrefix(s, order, changes, answers, n);
    LoadOneSteps(s, b, order[n], answers[order[n]]);
    var m :| Leads(s, m) && OneLoaded(b, order[n], answers[order[n]], m);
    LoadedOneMore(s, order, changes, answers, n, a, b, m);
  }

  lemma LeadsIsBasic(s: Sys, n: Sys)
    requires Leads(s, n)
    ensures Basic(n)
  {
  }

  lemma {:induction false} LoadRuns(
      s: Sys, order: seq<string>, changes: seq<seq<Snapshot>>, answers: map<string, Answer>, n: nat)
    requires Basic(s) && s.lock == WatchProtocol.Loading(s.life.reg.Keys, None) && Load(s, order, changes, answers) &&
        n <= |order|
    ensures exists m: Sys :: Leads(s, m) && Loaded(s, order, changes, answers, n, m)
  {
    if n == 0 {
      Nowhere(s);
      NothingLoaded(s, order, changes, answers);
    } else {
      LoadRuns(s, order, changes, answers, n - 1);
      var a :| Leads(s, a) && Loaded(s, order, changes, answers, n - 1, a);
      LeadsIsBasic(s, a);
      LoadMore(s, order, changes, answers, n - 1, a);
    }
  }

  /** Started: the life and the cache are what the contract of `Start` says, and every registered watcher is off. */
  ghost predicate Started(s: Sys, order: seq<string>, answers: map<string, Answer>, n: Sys) {
    && n.life == StartW(s.life, LoadedIndexes(answers)) && n.cache == LoadCache(s.cache, order, answers) && n.lock.Free?
    && |n.pcs| == |s.pcs| && forall i | 0 <= i < |n.pcs| && Registered(n.life, i) :: n.pcs[i] == Idle
  }

  lemma EndOfStart(s: Sys, order: seq<string>, changes: seq<seq<Snapshot>>, answers: map<string, Answer>, n: Sys)
    requires Basic(s) && s.lock.Free? && !s.life.running && Basic(n) && Elements(order) == s.life.reg.Keys
    requires |changes| == |order| && Loaded(Next(s, StartBegin), order, changes, answers, |order|, n)
    ensures Enabled(n, StartEnd) && Started(s, order, answers, Next(n, StartEnd))
  {
    var b := Next(s, StartBegin);
    AllLoaded(b.life, answers);
    assert order[..|order|] == order;
    assert b.life.reg.Keys - Elements(order) == {};
    var e := Next(n, StartEnd);
    assert e.life == StartW(s.life, LoadedIndexes(answers));
    assert forall i: nat :: Registered(e.life, i) == Registered(n.life, i);
  }

  /** What `Start` does is a run from its first step to its last, the store changing as it likes before each listing. */
  lemma StartIsARun(s: Sys, order: seq<string>, changes: seq<seq<Snapshot>>, answers: map<string, Answer>)
    requires Basic(s) && s.lock.Free? && !s.life.running
    requires Enumerates(order, s.life.reg.Keys) && Load(s, order, changes, answers)
    ensures exists n: Sys ::
      Leads(s, n) && Started(s, order, answers, n) && n.hist == HistoryBy(s.hist, changes, |order|)
  {
    BasicStep(s, StartBegin);
    var b := Next(s, StartBegin);
    assert Elements(order) == s.life.reg.Keys;
    LoadRuns(b, order, changes, answers, |order|);
    var n :| Leads(b, n) && Loaded(b, order, changes, answers, |order|, n);
    LeadsIsBasic(b, n);
    Chain(s, StartBegin, b, n);
    EndOfStart(s, order, changes, answers, n);
    Go(s, n, StartEnd);
  }

  /** One step and then a run. */
  lemma Chain(s: Sys, st: Step, b: Sys, n: Sys)
    requires Basic(s) && Enabled(s, st) && b == Next(s, st) && Leads(b, n)
    ensures Leads(s, n)
  {
    BasicStep(s, st);
    var steps :| CanRun(b, steps) && Exec(b, steps) == n;
    var all := [st] + steps;
    assert all[1..] == steps;
    assert CanRun(s, all) && Exec(s, all) == n;
  }
}
