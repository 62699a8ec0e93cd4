/**
 The remote key-value store as the watchers see it: a growing history of snapshots, constrained only by
 the contract a blocking prefix query relies on. A log-structured store is shown to meet that contract.
 */
module Remote {
  import opened Common

  /** What the store keeps for one key. */
  datatype Item = Item(value: Bytes, modifyIndex: nat)

  /** One state of the store: its content and the index it reports for a listing of each prefix. */
  datatype Snapshot = Snapshot(kv: map<string, Item>, lastIndex: string -> nat)

  function At(kv: map<string, Item>, k: string): Option<Item> {
    if k in kv then Some(kv[k]) else None
  }

  ghost predicate SameUnder(p: string, a: map<string, Item>, b: map<string, Item>) {
    forall k | HasPrefix(p, k) :: At(a, k) == At(b, k)
  }

  ghost predicate WellFormed(s: Snapshot) {
    && (forall p :: s.lastIndex(p) >= 1)
    && (forall k | k in s.kv :: s.kv[k].modifyIndex >= 1)
  }

  /** The contract between an earlier and a later state. */
  ghost predicate Ordered(a: Snapshot, b: Snapshot) {
    && (forall p :: a.lastIndex(p) <= b.lastIndex(p))
    && (forall p | a.lastIndex(p) == b.lastIndex(p) :: SameUnder(p, a.kv, b.kv))
    && (forall k | k in a.kv && k in b.kv ::
          && a.kv[k].modifyIndex <= b.kv[k].modifyIndex
          && (a.kv[k].modifyIndex == b.kv[k].modifyIndex ==> a.kv[k] == b.kv[k]))
  }

  ghost predicate Contract(h: seq<Snapshot>) {
    && |h| > 0
    && (forall i | 0 <= i < |h| :: WellFormed(h[i]))
    && (forall i, j | 0 <= i <= j < |h| :: Ordered(h[i], h[j]))
  }

  /** Key `k` held exactly `x` in some state up to time `t`. */
  ghost predicate OccursBy(h: seq<Snapshot>, t: nat, k: string, x: Item) {
    exists u: nat :: u <= t && u < |h| && At(h[u].kv, k) == Some(x)
  }

  lemma NeverAhead(h: seq<Snapshot>, t: nat, k: string, x: Item)
    requires Contract(h) && t < |h| && OccursBy(h, t, k, x)
    ensures k in h[t].kv ==> x.modifyIndex <= h[t].kv[k].modifyIndex
    ensures k in h[t].kv && x.modifyIndex == h[t].kv[k].modifyIndex ==> x == h[t].kv[k]
  {
    var u: nat :| u <= t && u < |h| && At(h[u].kv, k) == Some(x);
    assert Ordered(h[u], h[t]);
  }

  lemma OccursLater(h: seq<Snapshot>, g: seq<Snapshot>, t: nat, u: nat, k: string, x: Item)
    requires OccursBy(h, t, k, x) && t <= u && h <= g
    ensures OccursBy(g, u, k, x)
  {
    var w: nat :| w <= t && w < |h| && At(h[w].kv, k) == Some(x);
    assert At(g[w].kv, k) == Some(x);
  }

  // ----- a store that meets the contract -----

  /** A write in the log. `Cas` with index 0 creates the key only when it is absent. */
  datatype Write =
    | Put(key: string, value: Bytes)
    | Delete(key: string)
    | Cas(key: string, value: Bytes, index: nat)

  predicate TakesEffect(kv: map<string, Item>, w: Write) {
    match w
    case Put(_, _) => true
    case Delete(k) => k in kv
    case Cas(k, _, m) => if m == 0 then k !in kv else k in kv && kv[k].modifyIndex == m
  }

  function Apply(kv: map<string, Item>, w: Write, index: nat): map<string, Item> {
    if !TakesEffect(kv, w) then kv
    else if w.Delete? then kv - {w.key}
    else kv[w.key := Item(w.value, index)]
  }

  /** Content after a log; entry number i (from 0) carries index i + 2. */
  function Replay(log: seq<Write>): map<string, Item> {
    if log == [] then map[]
    else Apply(Replay(log[..|log| - 1]), log[|log| - 1], |log| + 1)
  }

  /** The index of the last effective write (or deletion) under a prefix; 1 when there is none. */
  function LastTouch(log: seq<Write>, p: string): nat {
    if log == [] then 1
    else if TakesEffect(Replay(log[..|log| - 1]), log[|log| - 1]) && HasPrefix(p, log[|log| - 1].key) then |log| + 1
    else LastTouch(log[..|log| - 1], p)
  }

  ghost function SnapshotOf(log: seq<Write>): Snapshot {
    Snapshot(Replay(log), p => LastTouch(log, p))
  }

  ghost function HistoryOf(log: seq<Write>): seq<Snapshot> {
    seq(|log| + 1, i requires 0 <= i <= |log| => SnapshotOf(log[..i]))
  }

  lemma {:induction false} IndexesInRange(log: seq<Write>)
    ensures forall p :: 1 <= LastTouch(log, p) <= |log| + 1
    ensures forall k | k in Replay(log) :: 1 <= Replay(log)[k].modifyIndex <= |log| + 1
  {
    if log != [] {
      IndexesInRange(log[..|log| - 1]);
    }
  }

  lemma {:induction false} PrefixesOrdered(log: seq<Write>, n: nat)
    requires n <= |log|
    ensures Ordered(SnapshotOf(log[..n]), SnapshotOf(log))
  {
    if n == |log| {
      assert log[..n] == log;
    } else {
      var prev := log[..|log| - 1];
      assert prev[..n] == log[..n];
      PrefixesOrdered(prev, n);
      IndexesInRange(log[..n]);
      var a, b := SnapshotOf(log[..n]), SnapshotOf(log);
      forall p ensures a.lastIndex(p) <= b.lastIndex(p) &&
          (a.lastIndex(p) == b.lastIndex(p) ==> SameUnder(p, a.kv, b.kv)) {
        assert LastTouch(log[..n], p) <= n + 1;
      }
    }
  }

  /** The log-structured store meets the contract at every moment of every log. */
  lemma LogMeetsContract(log: seq<Write>)
    ensures Contract(HistoryOf(log))
  {
    var h := HistoryOf(log);
    forall i | 0 <= i < |h| ensures WellFormed(h[i]) {
      IndexesInRange(log[..i]);
    }
    forall i, j | 0 <= i <= j < |h| ensures Ordered(h[i], h[j]) {
      assert log[..j][..i] == log[..i];
      PrefixesOrdered(log[..j], i);
    }
  }

  // ----- the content, told from the log -----

  /** Entry `i` of the log, which carries index `i + 2`, put a value under the key. */
  predicate Wrote(log: seq<Write>, i: nat, k: string)
    requires i < |log|
  {
    log[i].key == k && !log[i].Delete? && TakesEffect(Replay(log[..i]), log[i])
  }

  /** Or it deleted the key. */
  predicate Touched(log: seq<Write>, i: nat, k: string)
    requires i < |log|
  {
    log[i].key == k && TakesEffect(Replay(log[..i]), log[i])
  }

  /** Entry `i` is the one that counts for the key: no later one wrote or deleted it. */
  ghost predicate Counts(log: seq<Write>, i: nat, k: string) {
    i < |log| && Wrote(log, i, k) && forall j | i < j < |log| :: !Touched(log, j, k)
  }

  lemma EarlierAlike(log: seq<Write>, w: Write, j: nat, k: string)
    requires j < |log|
    ensures Wrote(log + [w], j, k) == Wrote(log, j, k) && Touched(log + [w], j, k) == Touched(log, j, k)
  {
    assert (log + [w])[..j] == log[..j];
  }

  lemma LatestTouches(log: seq<Write>, w: Write, k: string)
    ensures Touched(log + [w], |log|, k) <==> w.key == k && TakesEffect(Replay(log), w)
  {
    assert (log + [w])[..|log|] == log;
  }

  lemma CountsMore(log: seq<Write>, w: Write, i: nat, k: string)
    requires i < |log|
    ensures Counts(log + [w], i, k) <==> Counts(log, i, k) && !(w.key == k && TakesEffect(Replay(log), w))
  {
    EarlierAlike(log, w, i, k);
    LatestTouches(log, w, k);
    forall j | i < j < |log| ensures Touched(log + [w], j, k) == Touched(log, j, k) {
      EarlierAlike(log, w, j, k);
    }
  }

  /** Over every log: a key holds the value of the one entry that counts for it, at that entry's index, and nothing if
      there is none. */
  lemma {:induction false} ContentIs(log: seq<Write>, k: string, i: nat)
    ensures Counts(log, i, k) <==> i < |log| && k in Replay(log) && Replay(log)[k].modifyIndex == i + 2
    ensures Counts(log, i, k) ==> Replay(log)[k] == Item(log[i].value, i + 2)
    ensures k in Replay(log) ==> 2 <= Replay(log)[k].modifyIndex <= |log| + 1
  {
    if log != [] {
      var front, w := log[..|log| - 1], log[|log| - 1];
      assert log == front + [w];
      ContentIs(front, k, i);
      if i < |front| {
        CountsMore(front, w, i, k);
      } else if i == |front| {
        assert log[..i] == front;
      }
    }
  }

  /** Which puts and deletions take effect: every put, and the deletions of a key that is there. */
  lemma PutOrDeleteTakes(log: seq<Write>, w: Write)
    requires !w.Cas?
    ensures TakesEffect(Replay(log), w) <==> w.Put? || exists i: nat :: Counts(log, i, w.key)
  {
    if w.key in Replay(log) {
      ContentIs(log, w.key, 0);
      ContentIs(log, w.key, Replay(log)[w.key].modifyIndex - 2);
    }
    if i: nat :| Counts(log, i, w.key) {
      ContentIs(log, w.key, i);
    }
  }

  /** Over every log: a compare-and-swap at an index above 1 changes the content if and only if the entry of that
      index wrote the key and no later entry wrote or deleted it; it then leaves its own value at its own index. */
  lemma CasTakesExactly(log: seq<Write>, k: string, v: Bytes, m: nat)
    requires m > 1
    ensures Replay(log + [Cas(k, v, m)]) != Replay(log) <==> Counts(log, m - 2, k)
    ensures Counts(log, m - 2, k) ==> Replay(log + [Cas(k, v, m)]) == Replay(log)[k := Item(v, |log| + 2)]
  {
    var w := Cas(k, v, m);
    assert (log + [w])[..|log|] == log;
    ContentIs(log, k, m - 2);
    if Counts(log, m - 2, k) {
      assert Replay(log + [w])[k].modifyIndex == |log| + 2;
    }
  }

  /** Which compare-and-swaps take effect. */
  lemma CasTakes(log: seq<Write>, k: string, v: Bytes, m: nat)
    requires m >= 1
    ensures TakesEffect(Replay(log), Cas(k, v, m)) <==> m >= 2 && Counts(log, m - 2, k)
    ensures TakesEffect(Replay(log), Cas(k, v, m)) <==> k in Replay(log) && Replay(log)[k].modifyIndex == m
  {
    ContentIs(log, k, if m >= 2 then m - 2 else 0);
  }

  /** At index 0 it creates the key, if and only if it is absent. */
  lemma CasCreatesExactly(log: seq<Write>, k: string, v: Bytes)
    ensures Replay(log + [Cas(k, v, 0)]) != Replay(log) <==> forall i: nat :: !Counts(log, i, k)
  {
    var w := Cas(k, v, 0);
    assert (log + [w])[..|log|] == log;
    if k in Replay(log) {
      ContentIs(log, k, 0);
      ContentIs(log, k, Replay(log)[k].modifyIndex - 2);
    } else {
      forall i: nat ensures !Counts(log, i, k) {
        ContentIs(log, k, i);
      }
      assert k in Replay(log + [w]);
    }
  }
}
