/**
 Clients that read a value and its index from the cache, compute, and write back with compare-and-swap, while watchers
 sync, prefixes overlap and other writers change the store. However stale the cached pair is, a successful write
 replaces exactly the value it was computed from.
 */
module CasClients {
  import opened Common
  import opened Remote
  import opened WatchProtocol

  /** What a client took from the cache: both fields of one entry, read together. */
  datatype Held = Held(key: string, item: Item)

  datatype Clients = Clients(sys: Sys, held: map<nat, Held>)

  /** A write as it takes effect, for the serial account of a run. */
  datatype Effect = Computed(key: string, f: Bytes -> Bytes) | Foreign(content: map<string, Bytes>)

  datatype Move =
    | Internal(st: Step)                                      // any step of the watchers and the registrations
    | Other(next: Snapshot)                                   // another writer
    | Read(c: nat, key: string)                               // a cache read
    | Cas(c: nat, f: Bytes -> Bytes, next: Snapshot)          // SetWithCAS(key, f(value), index)

  function Values(kv: map<string, Item>): map<string, Bytes> {
    map k | k in kv :: kv[k].value
  }

  /** The store accepts the write: the key is there, at the index the client holds. */
  ghost predicate Accepted(m: Clients, c: nat)
    requires Typed(m.sys) && c in m.held
  {
    m.held[c].key in Content(m.sys) && Content(m.sys)[m.held[c].key].modifyIndex == m.held[c].item.modifyIndex
  }

  ghost predicate CanMove(m: Clients, v: Move)
    requires Typed(m.sys)
  {
    match v
    case Internal(st) => !st.RemoteChange? && Enabled(m.sys, st)
    case Other(next) => Enabled(m.sys, RemoteChange(next))
    case Read(c, key) => key in m.sys.cache
    case Cas(c, f, next) =>
      c in m.held && (Accepted(m, c) ==>
        && Enabled(m.sys, RemoteChange(next))
        && Values(next.kv) == Values(Content(m.sys))[m.held[c].key := f(m.held[c].item.value)])
  }

  /** A refused write changes nothing. */
  ghost function Moved(m: Clients, v: Move): Clients
    requires Typed(m.sys) && CanMove(m, v)
  {
    match v
    case Internal(st) => m.(sys := Next(m.sys, st))
    case Other(next) => m.(sys := Next(m.sys, RemoteChange(next)))
    case Read(c, key) => m.(held := m.held[c := Held(key, m.sys.cache[key])])
    case Cas(c, f, next) => if Accepted(m, c) then m.(sys := Next(m.sys, RemoteChange(next))) else m
  }

  /** What the move contributes to the serial account: nothing unless the store changed. */
  ghost function EffectOf(m: Clients, v: Move): seq<Effect>
    requires Typed(m.sys) && CanMove(m, v)
  {
    match v
    case Other(next) => [Foreign(Values(next.kv))]
    case Cas(c, f, next) => if Accepted(m, c) then [Computed(m.held[c].key, f)] else []
    case _ => []
  }

  ghost function Applied(vals: map<string, Bytes>, e: Effect): map<string, Bytes> {
    match e
    case Foreign(content) => content
    case Computed(k, f) => if k in vals then vals[k := f(vals[k])] else vals
  }

  /** The serial account: each computation is applied to whatever the store holds at that moment. */
  ghost function Serial(vals: map<string, Bytes>, effects: seq<Effect>): map<string, Bytes>
    decreases |effects|
  {
    if effects == [] then vals else Serial(Applied(vals, effects[0]), effects[1..])
  }

  ghost predicate Ok(m: Clients) {
    && Basic(m.sys)
    && (forall c | c in m.held :: OccursBy(m.sys.hist, |m.sys.hist| - 1, m.held[c].key, m.held[c].item))
  }

  /** No lost update: when a compare-and-swap with a cached pair succeeds, the store held exactly that value. */
  lemma AcceptedMeansCurrent(m: Clients, c: nat)
    requires Ok(m) && c in m.held && Accepted(m, c)
    ensures Content(m.sys)[m.held[c].key] == m.held[c].item
  {
    NeverAhead(m.sys.hist, |m.sys.hist| - 1, m.held[c].key, m.held[c].item);
  }

  lemma HistoryGrows(s: Sys, st: Step)
    requires Basic(s) && Enabled(s, st)
    ensures s.hist <= Next(s, st).hist
    ensures !st.RemoteChange? ==> Next(s, st).hist == s.hist
  {
  }

  lemma MoveKeeps(m: Clients, v: Move)
    requires Ok(m) && CanMove(m, v)
    ensures Ok(Moved(m, v))
  {
    var n := Moved(m, v);
    if v.Internal? {
      BasicStep(m.sys, v.st);
      HistoryGrows(m.sys, v.st);
    } else if v.Other? || (v.Cas? && Accepted(m, v.c)) {
      BasicStep(m.sys, RemoteChange(v.next));
      forall c | c in n.held ensures OccursBy(n.sys.hist, |n.sys.hist| - 1, n.held[c].key, n.held[c].item) {
        OccursLater(m.sys.hist, n.sys.hist, |m.sys.hist| - 1, |n.sys.hist| - 1, m.held[c].key, m.held[c].item);
      }
    }
  }

  ghost predicate CanMoves(m: Clients, moves: seq<Move>)
    requires Ok(m)
    decreases |moves|
  {
    moves != [] ==> CanMove(m, moves[0]) && (MoveKeeps(m, moves[0]); CanMoves(Moved(m, moves[0]), moves[1..]))
  }

  ghost function After(m: Clients, moves: seq<Move>): (n: Clients)
    requires Ok(m) && CanMoves(m, moves)
    ensures Ok(n)
    decreases |moves|
  {
    if moves == [] then m else MoveKeeps(m, moves[0]); After(Moved(m, moves[0]), moves[1..])
  }

  ghost function Effects(m: Clients, moves: seq<Move>): seq<Effect>
    requires Ok(m) && CanMoves(m, moves)
    decreases |moves|
  {
    if moves == [] then []
    else MoveKeeps(m, moves[0]); EffectOf(m, moves[0]) + Effects(Moved(m, moves[0]), moves[1..])
  }

  lemma SerialOne(vals: map<string, Bytes>, e: Effect)
    ensures Serial(vals, []) == vals && Serial(vals, [e]) == Applied(vals, e)
  {
    assert [e][1..] == [];
  }

  lemma CasMoves(m: Clients, c: nat, f: Bytes -> Bytes, next: Snapshot)
    requires Typed(m.sys) && CanMove(m, Move.Cas(c, f, next)) && Accepted(m, c)
    ensures var v := Move.Cas(c, f, next);
      Typed(Moved(m, v).sys) && Content(Moved(m, v).sys) == next.kv && EffectOf(m, v) == [Computed(m.held[c].key, f)]
    ensures Values(next.kv) == Values(Content(m.sys))[m.held[c].key := f(m.held[c].item.value)]
  {
    assert Moved(m, Move.Cas(c, f, next)).sys.hist == m.sys.hist + [next];
  }

  lemma OneCas(m: Clients, c: nat, f: Bytes -> Bytes, next: Snapshot)
    requires Ok(m) && CanMove(m, Move.Cas(c, f, next)) && Accepted(m, c)
    ensures var v := Move.Cas(c, f, next);
      Typed(Moved(m, v).sys) && Values(Content(Moved(m, v).sys)) == Serial(Values(Content(m.sys)), EffectOf(m, v))
  {
    CasMoves(m, c, f, next);
    AcceptedMeansCurrent(m, c);
    SerialOne(Values(Content(m.sys)), Computed(m.held[c].key, f));
  }

  lemma OneWrite(m: Clients, next: Snapshot)
    requires Ok(m) && CanMove(m, Other(next))
    ensures var v := Other(next);
      Typed(Moved(m, v).sys) && Values(Content(Moved(m, v).sys)) == Serial(Values(Content(m.sys)), EffectOf(m, v))
  {
    SerialOne(Values(Content(m.sys)), Foreign(Values(next.kv)));
    assert Moved(m, Other(next)).sys.hist == m.sys.hist + [next];
  }

  lemma OneMove(m: Clients, v: Move)
    requires Ok(m) && CanMove(m, v)
    ensures Ok(Moved(m, v))
    ensures Values(Content(Moved(m, v).sys)) == Serial(Values(Content(m.sys)), EffectOf(m, v))
  {
    MoveKeeps(m, v);
    if v.Other? {
      OneWrite(m, v.next);
    } else if v.Cas? && Accepted(m, v.c) {
      OneCas(m, v.c, v.f, v.next);
    } else {
      SerialOne(Values(Content(m.sys)), Foreign(map[]));
      if v.Internal? {
        HistoryGrows(m.sys, v.st);
      }
      assert Moved(m, v).sys.hist == m.sys.hist && EffectOf(m, v) == [];
    }
  }

  lemma {:induction false} SerialAppend(vals: map<string, Bytes>, a: seq<Effect>, b: seq<Effect>)
    ensures Serial(vals, a + b) == Serial(Serial(vals, a), b)
    decreases |a|
  {
    if a == [] {
      assert a + b == b;
    } else {
      assert (a + b)[1..] == a[1..] + b;
      SerialAppend(Applied(vals, a[0]), a[1..], b);
    }
  }

  /** Any interleaving of read-compute-CAS clients with watchers and other writers leaves the store as the serial
      application, in order, of the writes that took effect. */
  lemma {:induction false} InterleavingIsSerial(m: Clients, moves: seq<Move>)
    requires Ok(m) && CanMoves(m, moves)
    ensures Values(Content(After(m, moves).sys)) == Serial(Values(Content(m.sys)), Effects(m, moves))
    decreases |moves|
  {
    if moves != [] {
      OneMove(m, moves[0]);
      InterleavingIsSerial(Moved(m, moves[0]), moves[1..]);
      SerialAppend(Values(Content(m.sys)), EffectOf(m, moves[0]), Effects(Moved(m, moves[0]), moves[1..]));
    }
  }

  // ----- reading the two fields of a live entry one after the other -----

  lemma {:induction false} HistoryGrowsOver(s: Sys, steps: seq<Step>)
    requires Basic(s) && CanRun(s, steps)
    ensures s.hist <= Exec(s, steps).hist
    decreases |steps|
  {
    if steps != [] {
      BasicStep(s, steps[0]);
      HistoryGrows(s, steps[0]);
      HistoryGrowsOver(Next(s, steps[0]), steps[1..]);
    }
  }

  /** What was cached once is never ahead of the store later, and is the store's if its index is. */
  lemma CachedIsNotAhead(e: Sys, more: seq<Step>, k: string)
    requires Basic(e) && CanRun(e, more) && k in e.cache && k in Content(Exec(e, more))
    ensures var now := Content(Exec(e, more))[k];
      e.cache[k].modifyIndex <= now.modifyIndex && (e.cache[k].modifyIndex == now.modifyIndex ==> e.cache[k] == now)
  {
    var f := Exec(e, more);
    HistoryGrowsOver(e, more);
    OccursLater(e.hist, f.hist, |e.hist| - 1, |f.hist| - 1, k, e.cache[k]);
    NeverAhead(f.hist, |f.hist| - 1, k, e.cache[k]);
  }

  /** The index first, in `s`, and the value of the same entry later, in `e`: always safe. When the store later
      accepts the index, it holds that value. */
  lemma IndexThenValueIsSafe(s: Sys, steps: seq<Step>, more: seq<Step>, k: string)
    requires Basic(s) && CanRun(s, steps) && StaysCached(s, steps, k) && CanRun(Exec(s, steps), more)
    requires var f := Exec(Exec(s, steps), more); k in Content(f) && Content(f)[k].modifyIndex == s.cache[k].modifyIndex
    ensures k in Exec(s, steps).cache && Content(Exec(Exec(s, steps), more))[k].value == Exec(s, steps).cache[k].value
  {
    NothingRolledBack(s, steps, k);
    CachedIsNotAhead(Exec(s, steps), more, k);
  }

  /** The value first and the index later: safe exactly when no sync has changed the value in between, in particular
      when the index has not moved. Otherwise the store accepts a value computed from a stale one. */
  lemma ValueThenIndexIsSafeExactly(s: Sys, steps: seq<Step>, more: seq<Step>, k: string)
    requires Basic(s) && CanRun(s, steps) && StaysCached(s, steps, k) && CanRun(Exec(s, steps), more)
    requires k in Exec(s, steps).cache
    requires var f := Exec(Exec(s, steps), more);
      k in Content(f) && Content(f)[k].modifyIndex == Exec(s, steps).cache[k].modifyIndex
    ensures Content(Exec(Exec(s, steps), more))[k].value == s.cache[k].value <==>
        Exec(s, steps).cache[k].value == s.cache[k].value
    ensures Exec(s, steps).cache[k].modifyIndex == s.cache[k].modifyIndex ==>
        Exec(s, steps).cache[k].value == s.cache[k].value
  {
    NothingRolledBack(s, steps, k);
    CachedIsNotAhead(Exec(s, steps), more, k);
  }
}
