/** The cache merge of `syncCache`: what it computes, and when it amounts to replacing the whole prefix. */
module CacheSync {
  import opened Common
  import opened Remote

  datatype Pair = Pair(key: string, item: Item)

  /** One pair: insert when absent, overwrite when strictly newer, otherwise keep. */
  function Upsert(c: map<string, Item>, pr: Pair): map<string, Item> {
    if pr.key !in c || pr.item.modifyIndex > c[pr.key].modifyIndex then c[pr.key := pr.item] else c
  }

  function UpsertAll(c: map<string, Item>, pairs: seq<Pair>): map<string, Item> {
    if pairs == [] then c else Upsert(UpsertAll(c, pairs[..|pairs| - 1]), pairs[|pairs| - 1])
  }

  function KeysOf(pairs: seq<Pair>): set<string> {
    set i | 0 <= i < |pairs| :: pairs[i].key
  }

  /** Drop the keys under the prefix that are not in `keep`. */
  function Prune<T>(c: map<string, T>, prefix: string, keep: set<string>): map<string, T> {
    map k | k in c && (HasPrefix(prefix, k) ==> k in keep) :: c[k]
  }

  function Sync(c: map<string, Item>, prefix: string, pairs: seq<Pair>): map<string, Item> {
    Prune(UpsertAll(c, pairs), prefix, KeysOf(pairs))
  }

  // ----- the same merge on whole cache records, with their times -----

  datatype Record = Record(item: Item, createdAt: int, updatedAt: int)

  function PutRecord(c: map<string, Record>, pr: Pair, now: int): map<string, Record> {
    if pr.key !in c then c[pr.key := Record(pr.item, now, now)]
    else if pr.item.modifyIndex > c[pr.key].item.modifyIndex
      then c[pr.key := c[pr.key].(item := pr.item, updatedAt := now)]
    else c
  }

  function PutRecords(c: map<string, Record>, pairs: seq<Pair>, now: int): map<string, Record> {
    if pairs == [] then c else PutRecord(PutRecords(c, pairs[..|pairs| - 1], now), pairs[|pairs| - 1], now)
  }

  function SyncRecords(c: map<string, Record>, prefix: string, pairs: seq<Pair>, now: int): map<string, Record> {
    Prune(PutRecords(c, pairs, now), prefix, KeysOf(pairs))
  }

  function Items(c: map<string, Record>): map<string, Item> {
    map k | k in c :: c[k].item
  }

  lemma {:induction false} ItemsFollow(c: map<string, Record>, pairs: seq<Pair>, now: int)
    ensures Items(PutRecords(c, pairs, now)) == UpsertAll(Items(c), pairs)
  {
    if pairs != [] {
      ItemsFollow(c, pairs[..|pairs| - 1], now);
    }
  }

  /** A record that is already cached never goes back, keeps its creation time, is stamped when it moves, and does not
      change at all unless it moves to a higher index listed for its own key. */
  lemma {:induction false} RecordsForward(c: map<string, Record>, pairs: seq<Pair>, now: int, k: string)
    requires k in c
    ensures var d := PutRecords(c, pairs, now);
      && k in d
      && d[k].createdAt == c[k].createdAt
      && (d[k] == c[k] || (d[k].item.modifyIndex > c[k].item.modifyIndex && d[k].updatedAt == now &&
          Pair(k, d[k].item) in pairs))
  {
    if pairs != [] {
      RecordsForward(c, pairs[..|pairs| - 1], now, k);
    }
  }

  /** A record that was not cached before and is now was created and updated at that moment, with an item listed for
      it. */
  lemma {:induction false} NewRecords(c: map<string, Record>, pairs: seq<Pair>, now: int, k: string)
    requires k !in c && k in PutRecords(c, pairs, now)
    ensures var r := PutRecords(c, pairs, now)[k];
      r.createdAt == now && r.updatedAt == now && Pair(k, r.item) in pairs
  {
    var front, last := pairs[..|pairs| - 1], pairs[|pairs| - 1];
    if k in PutRecords(c, front, now) {
      NewRecords(c, front, now, k);
    } else {
      assert last == pairs[|pairs| - 1];
    }
  }

  // ----- listings -----

  /** `pairs` lists the entries of `kv` under the prefix, each exactly once, in some order. */
  ghost predicate IsListing(kv: map<string, Item>, prefix: string, pairs: seq<Pair>) {
    && (forall i | 0 <= i < |pairs| :: HasPrefix(prefix, pairs[i].key) && At(kv, pairs[i].key) == Some(pairs[i].item))
    && (forall i, j | 0 <= i < j < |pairs| :: pairs[i].key != pairs[j].key)
    && (forall k | k in kv && HasPrefix(prefix, k) :: k in KeysOf(pairs))
  }

  lemma {:induction false} DistinctCount(pairs: seq<Pair>, x: Pair)
    requires forall i, j | 0 <= i < j < |pairs| :: pairs[i].key != pairs[j].key
    ensures multiset(pairs)[x] == if x in pairs then 1 else 0
  {
    if pairs != [] {
      var front, last := pairs[..|pairs| - 1], pairs[|pairs| - 1];
      assert pairs == front + [last];
      DistinctCount(front, x);
    }
  }

  lemma ListedExactly(kv: map<string, Item>, prefix: string, pairs: seq<Pair>, x: Pair)
    requires IsListing(kv, prefix, pairs)
    ensures x in pairs <==> HasPrefix(prefix, x.key) && At(kv, x.key) == Some(x.item)
  {
    if HasPrefix(prefix, x.key) && At(kv, x.key) == Some(x.item) {
      assert x.key in KeysOf(pairs);
      var i :| 0 <= i < |pairs| && pairs[i].key == x.key;
      assert pairs[i] == x;
    }
  }

  /** Listings of stores that agree under the prefix are equal as multisets. */
  lemma ListingsAgree(a: map<string, Item>, b: map<string, Item>, prefix: string, r: seq<Pair>, s: seq<Pair>)
    requires IsListing(a, prefix, r) && IsListing(b, prefix, s) && SameUnder(prefix, a, b)
    ensures multiset(r) == multiset(s)
  {
    forall x: Pair ensures multiset(r)[x] == multiset(s)[x] {
      DistinctCount(r, x);
      DistinctCount(s, x);
      ListedExactly(a, prefix, r, x);
      ListedExactly(b, prefix, s, x);
    }
  }

  // ----- the merge, key by key -----

  function Fresher(cached: Option<Item>, listed: Option<Item>): Option<Item> {
    if listed.None? then None
    else if cached.None? || listed.value.modifyIndex > cached.value.modifyIndex then listed
    else cached
  }

  /** The merge of a snapshot's prefix into the cache, independent of the order of the listing. */
  function Merge(c: map<string, Item>, prefix: string, kv: map<string, Item>): map<string, Item> {
    map k | k in c.Keys + kv.Keys && (if HasPrefix(prefix, k) then k in kv else k in c) ::
      if HasPrefix(prefix, k) then Fresher(At(c, k), At(kv, k)).value else c[k]
  }

  lemma MergeAt(c: map<string, Item>, prefix: string, kv: map<string, Item>, k: string)
    ensures At(Merge(c, prefix, kv), k) == if HasPrefix(prefix, k) then Fresher(At(c, k), At(kv, k)) else At(c, k)
  {
  }

  /** What stays cached stays as it is or moves to a higher index. */
  lemma MergeForward(c: map<string, Item>, prefix: string, kv: map<string, Item>, k: string)
    requires k in c && k in Merge(c, prefix, kv)
    ensures Merge(c, prefix, kv)[k] == c[k] || c[k].modifyIndex < Merge(c, prefix, kv)[k].modifyIndex
  {
  }

  lemma {:induction false} UpsertAllAt(c: map<string, Item>, pairs: seq<Pair>, k: string)
    requires forall i, j | 0 <= i < j < |pairs| :: pairs[i].key != pairs[j].key
    ensures k !in KeysOf(pairs) ==> At(UpsertAll(c, pairs), k) == At(c, k)
    ensures forall i | 0 <= i < |pairs| && pairs[i].key == k ::
              At(UpsertAll(c, pairs), k) == Fresher(At(c, k), Some(pairs[i].item))
  {
    if pairs != [] {
      var front, last := pairs[..|pairs| - 1], pairs[|pairs| - 1];
      UpsertAllAt(c, front, k);
      assert forall i | 0 <= i < |front| :: front[i] == pairs[i];
      if k !in KeysOf(pairs) {
        assert last.key in KeysOf(pairs);
        assert k !in KeysOf(front);
      }
      forall i | 0 <= i < |pairs| && pairs[i].key == k
        ensures At(UpsertAll(c, pairs), k) == Fresher(At(c, k), Some(pairs[i].item))
      {
        if i == |front| {
          assert k !in KeysOf(front);
        } else {
          assert front[i].key == k;
        }
      }
    }
  }

  /** Whatever order the listing comes in, `Sync` computes the merge of the snapshot. */
  lemma SyncIsMerge(c: map<string, Item>, prefix: string, pairs: seq<Pair>, kv: map<string, Item>)
    requires IsListing(kv, prefix, pairs)
    ensures Sync(c, prefix, pairs) == Merge(c, prefix, kv)
  {
    var s, m := Sync(c, prefix, pairs), Merge(c, prefix, kv);
    forall k ensures At(s, k) == At(m, k) {
      UpsertAllAt(c, pairs, k);
      if k in KeysOf(pairs) {
        var i :| 0 <= i < |pairs| && pairs[i].key == k;
        assert At(kv, k) == Some(pairs[i].item);
      }
    }
    SameEverywhere(s, m);
  }

  lemma SameEverywhere(a: map<string, Item>, b: map<string, Item>)
    requires forall k :: At(a, k) == At(b, k)
    ensures a == b
  {
    forall k ensures k in a <==> k in b {
      assert At(a, k) == At(b, k);
    }
    forall k | k in a ensures a[k] == b[k] {
      assert At(a, k) == At(b, k);
    }
  }

  /** The guard on the modify index plus the delete loop replace the whole prefix, when nothing cached there is
      from after the snapshot. Keys outside the prefix are untouched whatever the cache holds. */
  lemma MergeReplacesPrefix(h: seq<Snapshot>, t: nat, c: map<string, Item>, prefix: string)
    requires Contract(h) && t < |h|
    requires forall k | k in c && HasPrefix(prefix, k) :: OccursBy(h, t, k, c[k])
    ensures SameUnder(prefix, Merge(c, prefix, h[t].kv), h[t].kv)
    ensures forall k | !HasPrefix(prefix, k) :: At(Merge(c, prefix, h[t].kv), k) == At(c, k)
  {
    forall k | HasPrefix(prefix, k) ensures At(Merge(c, prefix, h[t].kv), k) == At(h[t].kv, k) {
      if k in c {
        NeverAhead(h, t, k, c[k]);
      }
    }
  }
}
