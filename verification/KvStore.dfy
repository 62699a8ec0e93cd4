/**
 The cache and its watchers as the program keeps them: maps of mutable objects, updated in place. Every method is
 specified by the value-level functions of `CacheSync` and `Lifecycle`.
 */
module KvStore {
  import opened Common
  import opened Remote
  import opened CacheSync
  import opened Lifecycle

  /** A cached entry. `GetEntry` hands out the object itself, so later syncs are visible through it. */
  class KVEntry {
    const key: string
    var value: Bytes
    var modifyIndex: nat
    const createdAt: int
    var updatedAt: int

    constructor (pair: Pair, now: int)
      ensures key == pair.key && Whole() == Record(pair.item, now, now)
    {
      key, value, modifyIndex := pair.key, pair.item.value, pair.item.modifyIndex;
      createdAt, updatedAt := now, now;
    }

    function Held(): Item
      reads this
    {
      Item(value, modifyIndex)
    }

    function Whole(): Record
      reads this
    {
      Record(Held(), createdAt, updatedAt)
    }
  }

  /** What a listing request returned. */
  datatype Answer = Failed | Listed(pairs: seq<Pair>, lastIndex: nat)

  function Loaded(c: map<string, Item>, p: string, answer: Answer): map<string, Item> {
    if answer.Listed? then Sync(c, p, answer.pairs) else c
  }

  /** The cache after the initial load has gone through the prefixes in the given order. */
  function LoadCache(c: map<string, Item>, order: seq<string>, answers: map<string, Answer>): map<string, Item> {
    if order == [] then c
    else
      var before, p := LoadCache(c, order[..|order| - 1], answers), order[|order| - 1];
      if p in answers then Loaded(before, p, answers[p]) else before
  }

  function LoadedIndexes(answers: map<string, Answer>): map<string, nat> {
    map p | p in answers && answers[p].Listed? :: answers[p].lastIndex
  }

  function LoadedAmong(answers: map<string, Answer>, ps: set<string>): map<string, nat> {
    map p | p in answers && answers[p].Listed? && p in ps :: answers[p].lastIndex
  }

  lemma OneMoreLoaded(l: Life, answers: map<string, Answer>, ps: set<string>, p: string)
    requires RegOk(l) && p in l.reg && p !in ps && p in answers
    ensures LoadW(l, LoadedAmong(answers, ps + {p})) ==
            var before := LoadW(l, LoadedAmong(answers, ps));
            if answers[p].Listed? then SetIndex(before, l.reg[p], answers[p].lastIndex) else before
  {
    var some, more := LoadedAmong(answers, ps), LoadedAmong(answers, ps + {p});
    if answers[p].Listed? {
      assert more == some[p := answers[p].lastIndex];
      LoadStep(l, some, p, answers[p].lastIndex);
    } else {
      assert more == some;
    }
  }

  lemma AllLoaded(l: Life, answers: map<string, Answer>)
    ensures LoadW(l, LoadedAmong(answers, l.reg.Keys)) == LoadW(l, LoadedIndexes(answers))
    ensures LoadW(l, LoadedAmong(answers, {})) == l
  {
    assert LoadW(l, LoadedAmong(answers, l.reg.Keys)).ws == LoadW(l, LoadedIndexes(answers)).ws;
    assert LoadW(l, LoadedAmong(answers, {})).ws == l.ws;
  }

  /** `order` goes through the set, each element once. */
  ghost predicate Enumerates(order: seq<string>, ps: set<string>) {
    && (forall p :: p in order <==> p in ps)
    && (forall i, j | 0 <= i < j < |order| :: order[i] != order[j])
  }

  lemma OneMoreListed(order: seq<string>, ps: set<string>, p: string)
    requires Enumerates(order, ps) && p !in ps
    ensures Enumerates(order + [p], ps + {p})
  {
  }

  /** A watcher is a pointer shared by the registry and its goroutine; here it is its number in `made`. */
  class KVStore {
    var cache: map<string, KVEntry>
    var watchers: map<string, nat>
    var made: seq<W>
    var isRunning: bool
    var stopChOpen: bool

    ghost predicate CacheOk()
      reads this`cache, cache.Values
    {
      forall k | k in cache :: cache[k].key == k
    }

    /** The lifecycle state as a value. */
    function TheLife(): Life
      reads this
    {
      Life(made, watchers, isRunning, stopChOpen)
    }

    ghost predicate Valid()
      reads this, cache.Values
    {
      CacheOk() && RegOk(TheLife())
    }

    /** The cache as a value. */
    ghost function View(): map<string, Item>
      reads this`cache, cache.Values
    {
      Items(Records())
    }

    ghost function Records(): map<string, Record>
      reads this`cache, cache.Values
    {
      map k | k in cache :: cache[k].Whole()
    }

    constructor (cachePrefix: string)
      ensures Valid() && cache == map[] && TheLife() == NewLife(cachePrefix)
    {
      cache, made, watchers := map[], [W(cachePrefix, 0, 0, 0)], map[cachePrefix := 0];
      isRunning, stopChOpen := false, true;
    }

    method GetEntry(key: string) returns (r: Option<KVEntry>)
      requires Valid()
      ensures r.None? <==> key !in View()
      ensures r.Some? ==> r.value == cache[key] && r.value.key == key && r.value.Held() == View()[key]
    {
      r := if key in cache then Some(cache[key]) else None;
    }

    method Get(key: string) returns (r: Option<Bytes>)
      requires Valid()
      ensures r == if key in View() then Some(View()[key].value) else None
    {
      r := if key in cache then Some(cache[key].value) else None;
    }

    /** Every matching entry object exactly once. */
    method ListFromCache(prefix: string) returns (entries: seq<KVEntry>)
      requires Valid()
      ensures forall i | 0 <= i < |entries| :: entries[i].key in cache && cache[entries[i].key] == entries[i]
      ensures IsListing(View(), prefix,
          seq(|entries|, i requires 0 <= i < |entries| reads entries => Pair(entries[i].key, entries[i].Held())))
    {
      entries := [];
      var todo := cache.Keys;
      while todo != {}
        invariant todo <= cache.Keys
        invariant forall i | 0 <= i < |entries| ::
            var k := entries[i].key; k in cache && k !in todo && cache[k] == entries[i] && HasPrefix(prefix, k)
        invariant forall i, j | 0 <= i < j < |entries| :: entries[i].key != entries[j].key
        invariant forall k | k in cache && k !in todo && HasPrefix(prefix, k) :: cache[k] in entries
      {
        var key := Pick(todo);
        todo := todo - {key};
        if |prefix| == 0 || (|key| >= |prefix| && key[..|prefix|] == prefix) {
          entries := entries + [cache[key]];
        }
      }
      ghost var pairs := seq(|entries|,
          i requires 0 <= i < |entries| reads entries => Pair(entries[i].key, entries[i].Held()));
      forall k | k in View() && HasPrefix(prefix, k) ensures k in KeysOf(pairs) {
        var i :| 0 <= i < |entries| && entries[i] == cache[k];
        assert pairs[i].key == k;
      }
    }

    /** The insert-or-update step for one listed pair; an existing entry is updated in place. */
    method PutPair(pair: Pair, now: int)
      requires CacheOk()
      modifies this`cache, cache.Values
      ensures CacheOk() && Records() == PutRecord(old(Records()), pair, now)
      ensures pair.key !in old(cache) ==>
        && pair.key in cache && cache[pair.key].Held() == pair.item
        && cache[pair.key].createdAt == cache[pair.key].updatedAt == now
      ensures old(cache.Keys) <= cache.Keys
      ensures forall k | k in cache :: if k in old(cache) then cache[k] == old(cache[k]) else fresh(cache[k])
    {
      if pair.key !in cache {
        var e := new KVEntry(pair, now);
        cache := cache[pair.key := e];
      } else if pair.item.modifyIndex > cache[pair.key].modifyIndex {
        var existing := cache[pair.key];
        existing.value := pair.item.value;
        existing.modifyIndex := pair.item.modifyIndex;
        existing.updatedAt := now;
      }
    }

    /** The loop over the listing. */
    method PutPairs(pairs: seq<Pair>, now: int) returns (newKeys: set<string>)
      requires CacheOk()
      modifies this`cache, cache.Values
      ensures CacheOk() && Records() == PutRecords(old(Records()), pairs, now)
      ensures newKeys == KeysOf(pairs)
      ensures old(cache.Keys) <= cache.Keys
      ensures forall k | k in cache :: if k in old(cache) then cache[k] == old(cache[k]) else fresh(cache[k])
    {
      newKeys := {};
      var i := 0;
      while i < |pairs|
        invariant 0 <= i <= |pairs| && CacheOk()
        invariant Records() == PutRecords(old(Records()), pairs[..i], now)
        invariant newKeys == KeysOf(pairs[..i])
        invariant old(cache.Keys) <= cache.Keys
        invariant forall k | k in cache :: if k in old(cache) then cache[k] == old(cache[k]) else fresh(cache[k])
      {
        PutPair(pairs[i], now);
        newKeys := newKeys + {pairs[i].key};
        KeysGrow(pairs, i);
        RecordsGrow(old(Records()), pairs, i, now);
        i := i + 1;
      }
      assert pairs[..i] == pairs;
    }

    /** The delete loop. No entry object is touched. */
    method DropMissing(prefix: string, newKeys: set<string>)
      requires CacheOk()
      modifies this`cache
      ensures CacheOk() && cache == Prune(old(cache), prefix, newKeys)
    {
      ghost var before := cache;
      var todo := cache.Keys;
      while todo != {}
        invariant todo <= before.Keys
        invariant cache == map k | k in before && (k in todo || (HasPrefix(prefix, k) ==> k in newKeys)) :: before[k]
      {
        var key := Pick(todo);
        todo := todo - {key};
        if |key| >= |prefix| && key[..|prefix|] == prefix {
          if key !in newKeys {
            cache := cache - {key};
          }
        }
      }
    }

    /** The merge, in place. An entry that stays is the same object, a new entry is a new object, and a dropped entry is
        left as it was for whoever still holds it. */
    method SyncCache(prefix: string, pairs: seq<Pair>, now: int)
      requires CacheOk()
      modifies this`cache, cache.Values
      ensures CacheOk() && Records() == SyncRecords(old(Records()), prefix, pairs, now)
      ensures View() == Sync(old(View()), prefix, pairs)
      ensures forall k | k in cache :: if k in old(cache) then cache[k] == old(cache[k]) else fresh(cache[k])
      ensures forall k | k in old(cache) && k !in cache :: old(cache[k]).Whole() == old(Records())[k]
      ensures forall k | k in cache && k !in old(cache) ::
        cache[k].createdAt == now && cache[k].updatedAt == now && Pair(k, cache[k].Held()) in pairs
    {
      ghost var before := Records();
      var newKeys := PutPairs(pairs, now);
      ghost var merged := Records();
      assert View() == UpsertAll(old(View()), pairs) by {
        ItemsFollow(before, pairs, now);
      }
      DropMissing(prefix, newKeys);
      forall k | k in old(cache) && k !in cache ensures merged[k] == before[k] {
        RecordsForward(before, pairs, now, k);
      }
      forall k | k in cache && k !in old(cache)
        ensures cache[k].createdAt == now && cache[k].updatedAt == now && Pair(k, cache[k].Held()) in pairs
      {
        NewRecords(before, pairs, now, k);
        assert merged[k] == cache[k].Whole();
      }
    }

    /** One round of watcher `w` on the given answer. True when the cache was synced. */
    method WatchOnce(w: nat, answer: Answer, now: int) returns (synced: bool)
      requires Valid() && w < |made|
      modifies this`cache, this`made, cache.Values
      ensures Valid()
      ensures synced <==> answer.Listed? && answer.lastIndex > old(made[w].lastIndex)
      ensures TheLife() == if synced then SetIndex(old(TheLife()), w, answer.lastIndex) else old(TheLife())
      ensures View() == if synced then Sync(old(View()), made[w].prefix, answer.pairs) else old(View())
    {
      synced := false;
      if answer.Failed? {
        return;
      }
      if answer.lastIndex <= made[w].lastIndex {
        return;
      }
      synced := true;
      made := made[w := made[w].(lastIndex := answer.lastIndex)];
      SyncCache(made[w].prefix, answer.pairs, now);
    }

    method AddWatcher(prefix: string)
      requires Valid()
      modifies this`watchers, this`made
      ensures Valid() && View() == old(View())
      ensures TheLife() == AddW(old(TheLife()), prefix)
      ensures prefix in old(watchers) ==> watchers == old(watchers) && made == old(made)
      ensures prefix !in old(watchers) ==>
        && watchers == old(watchers)[prefix := |old(made)|]
        && made == old(made) + [W(prefix, 0, 0, if isRunning then 1 else 0)]
    {
      if prefix in watchers {
        return;
      }
      watchers := watchers[prefix := |made|];
      made := made + [W(prefix, 0, 0, if isRunning then 1 else 0)];
    }

    method RemoveWatcher(prefix: string)
      requires Valid()
      modifies this`watchers, this`made
      ensures Valid() && View() == old(View())
      ensures TheLife() == RemoveW(old(TheLife()), prefix)
      ensures watchers == old(watchers) - {prefix}
      ensures prefix in old(watchers) ==> made[old(watchers)[prefix]].closes == old(made[watchers[prefix]].closes) + 1
    {
      if prefix !in watchers {
        return;
      }
      var w := watchers[prefix];
      made := made[w := made[w].(closes := made[w].closes + 1)];
      watchers := watchers - {prefix};
    }

    /** `answers` is what the store replied for each registered prefix. The load takes every prefix once, in an order
        left open, and the prefixes may overlap. */
    method Start(answers: map<string, Answer>, now: int) returns (ghost order: seq<string>)
      requires Valid() && watchers.Keys <= answers.Keys
      modifies this`cache, this`made, this`isRunning, this`stopChOpen, cache.Values
      ensures Valid()
      ensures TheLife() == StartW(old(TheLife()), LoadedIndexes(answers))
      ensures Enumerates(order, if old(isRunning) then {} else watchers.Keys)
      ensures View() == LoadCache(old(View()), order, answers)
    {
      if isRunning {
        return [];
      }
      Begin();
      AllLoaded(TheLife(), answers);
      order := LoadAll(answers, now);
      LaunchAll();
    }

    /** The flag is raised, and a new stop channel replaces the old one. */
    method Begin()
      requires Valid()
      modifies this`isRunning, this`stopChOpen
      ensures Valid() && View() == old(View()) && TheLife() == BeginW(old(TheLife()))
    {
      isRunning, stopChOpen := true, true;
    }

    /** One prefix of the initial load: take the index and merge the listing, unless the listing failed. */
    method LoadOne(w: nat, answer: Answer, now: int)
      requires Valid() && w < |made|
      modifies this`cache, this`made, cache.Values
      ensures Valid() && forall e | e in cache.Values :: e in old(cache.Values) || fresh(e)
      ensures TheLife() == if answer.Listed? then SetIndex(old(TheLife()), w, answer.lastIndex) else old(TheLife())
      ensures View() == Loaded(old(View()), made[w].prefix, answer)
    {
      if answer.Listed? {
        made := made[w := made[w].(lastIndex := answer.lastIndex)];
        SyncCache(made[w].prefix, answer.pairs, now);
      }
    }

    method LoadAll(answers: map<string, Answer>, now: int) returns (ghost order: seq<string>)
      requires Valid() && watchers.Keys <= answers.Keys
      modifies this`cache, this`made, cache.Values
      ensures Valid() && TheLife() == LoadW(old(TheLife()), LoadedAmong(answers, watchers.Keys))
      ensures Enumerates(order, watchers.Keys)
      ensures View() == LoadCache(old(View()), order, answers)
    {
      order := [];
      var done: set<string> := {};
      ghost var c, l := View(), TheLife();
      assert TheLife() == LoadW(l, LoadedAmong(answers, {})) by { AllLoaded(l, answers); }
      while watchers.Keys - done != {}
        invariant done <= watchers.Keys && Valid()
        invariant Enumerates(order, done)
        invariant View() == LoadCache(c, order, answers)
        invariant forall e | e in cache.Values :: e in old(cache.Values) || fresh(e)
        invariant TheLife() == LoadW(l, LoadedAmong(answers, done))
        decreases watchers.Keys - done
      {
        var prefix :| prefix in watchers.Keys - done;
        OneMoreLoaded(l, answers, done, prefix);
        OneMoreListed(order, done, prefix);
        LoadOne(watchers[prefix], answers[prefix], now);
        assert (order + [prefix])[..|order|] == order;
        done, order := done + {prefix}, order + [prefix];
      }
      assert done == watchers.Keys by { assert watchers.Keys == (watchers.Keys - done) + done; }
    }

    /** `go watcher.start()` */
    method LaunchOne(w: nat)
      requires Valid() && w < |made|
      modifies this`made
      ensures Valid() && View() == old(View()) && TheLife() == Launch(old(TheLife()), w)
    {
      made := made[w := made[w].(loops := made[w].loops + 1)];
    }

    method LaunchAll()
      requires Valid()
      modifies this`made
      ensures Valid() && View() == old(View()) && TheLife() == LaunchW(old(TheLife()))
    {
      var done: set<string> := {};
      ghost var l := TheLife();
      assert l == LaunchSome(l, done) by { NothingDone(l); }
      while watchers.Keys - done != {}
        invariant done <= watchers.Keys && Valid() && View() == old(View())
        invariant TheLife() == LaunchSome(l, done)
        decreases watchers.Keys - done
      {
        var prefix :| prefix in watchers.Keys - done;
        LaunchStep(l, done, prefix);
        LaunchOne(watchers[prefix]);
        done := done + {prefix};
      }
      assert done == watchers.Keys by { assert watchers.Keys == (watchers.Keys - done) + done; }
    }

    method CloseAll()
      requires RegOk(TheLife())
      modifies this`made
      ensures RegOk(TheLife()) && TheLife() == CloseSome(old(TheLife()), watchers.Keys)
    {
      var done: set<string> := {};
      ghost var l := TheLife();
      assert l == CloseSome(l, done) by { NothingDone(l); }
      while watchers.Keys - done != {}
        invariant done <= watchers.Keys && RegOk(TheLife())
        invariant TheLife() == CloseSome(l, done)
        decreases watchers.Keys - done
      {
        var prefix :| prefix in watchers.Keys - done;
        CloseStep(l, done, prefix);
        var w := watchers[prefix];
        made := made[w := made[w].(closes := made[w].closes + 1)];
        done := done + {prefix};
      }
      assert done == watchers.Keys by { assert watchers.Keys == (watchers.Keys - done) + done; }
    }

    method Stop()
      requires Valid()
      modifies this`watchers, this`made, this`isRunning, this`stopChOpen
      ensures Valid() && View() == old(View())
      ensures TheLife() == StopW(old(TheLife()))
      ensures !isRunning && (old(isRunning) ==> watchers == map[] && !stopChOpen)
      ensures old(isRunning) ==> forall p | p in old(watchers) ::
        made[old(watchers)[p]].closes == old(made)[old(watchers)[p]].closes + 1
    {
      if !isRunning {
        return;
      }
      CloseAll();
      isRunning, stopChOpen, watchers := false, false, map[];
    }
  }

  lemma KeysGrow(pairs: seq<Pair>, i: nat)
    requires i < |pairs|
    ensures KeysOf(pairs[..i + 1]) == KeysOf(pairs[..i]) + {pairs[i].key}
  {
    assert pairs[..i + 1] == pairs[..i] + [pairs[i]];
    forall k | k in KeysOf(pairs[..i]) + {pairs[i].key} ensures k in KeysOf(pairs[..i + 1]) {
      if k in KeysOf(pairs[..i]) {
        var j :| 0 <= j < i && pairs[..i][j].key == k;
        assert pairs[..i + 1][j].key == k;
      } else {
        assert pairs[..i + 1][i].key == k;
      }
    }
  }

  lemma RecordsGrow(c: map<string, Record>, pairs: seq<Pair>, i: nat, now: int)
    requires i < |pairs|
    ensures PutRecords(c, pairs[..i + 1], now) == PutRecord(PutRecords(c, pairs[..i], now), pairs[i], now)
  {
    assert pairs[..i + 1][..i] == pairs[..i];
  }
}
