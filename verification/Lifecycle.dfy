/**
 Registration, stop channels and watch loops, as values. `closes` counts the close calls on a watcher's stop
 channel (a second one would panic) and `loops` counts the watch loops started for it.
 */
module Lifecycle {

  datatype W = W(prefix: string, lastIndex: nat, closes: nat, loops: nat)

  /** `ws` holds every watcher ever made; `reg` says which of them is registered for a prefix. */
  datatype Life = Life(ws: seq<W>, reg: map<string, nat>, running: bool, stopChOpen: bool)

  predicate Registered(l: Life, i: nat) {
    i < |l.ws| && l.ws[i].prefix in l.reg && l.reg[l.ws[i].prefix] == i
  }

  ghost predicate RegOk(l: Life) {
    forall p | p in l.reg :: l.reg[p] < |l.ws| && l.ws[l.reg[p]].prefix == p
  }

  function NewLife(prefix: string): Life {
    Life([W(prefix, 0, 0, 0)], map[prefix := 0], false, true)
  }

  function AddW(l: Life, p: string): Life {
    if p in l.reg then l
    else l.(ws := l.ws + [W(p, 0, 0, if l.running then 1 else 0)], reg := l.reg[p := |l.ws|])
  }

  function Close(l: Life, i: nat): Life
    requires i < |l.ws|
  {
    l.(ws := l.ws[i := l.ws[i].(closes := l.ws[i].closes + 1)])
  }

  function Launch(l: Life, i: nat): Life
    requires i < |l.ws|
  {
    l.(ws := l.ws[i := l.ws[i].(loops := l.ws[i].loops + 1)])
  }

  function RemoveW(l: Life, p: string): Life
    requires RegOk(l)
  {
    if p !in l.reg then l
    else
      var i := l.reg[p];
      Close(l, i).(reg := l.reg - {p})
  }

  function SetIndex(l: Life, i: nat, x: nat): Life
    requires i < |l.ws|
  {
    l.(ws := l.ws[i := l.ws[i].(lastIndex := x)])
  }

  /** Start, first half: the flag is raised and a new stop channel replaces the old one. */
  function BeginW(l: Life): Life {
    l.(running := true, stopChOpen := true)
  }

  /** One loop started for each registered watcher whose prefix is in `ps`. */
  function LaunchSome(l: Life, ps: set<string>): Life {
    l.(ws := seq(|l.ws|, i requires 0 <= i < |l.ws| =>
      if Registered(l, i) && l.ws[i].prefix in ps then l.ws[i].(loops := l.ws[i].loops + 1) else l.ws[i]))
  }

  /** The stop channel of each registered watcher whose prefix is in `ps` closed. */
  function CloseSome(l: Life, ps: set<string>): Life {
    l.(ws := seq(|l.ws|, i requires 0 <= i < |l.ws| =>
      if Registered(l, i) && l.ws[i].prefix in ps then l.ws[i].(closes := l.ws[i].closes + 1) else l.ws[i]))
  }

  /** The initial load: a registered watcher whose listing succeeded takes over its index. */
  function LoadW(l: Life, loaded: map<string, nat>): Life {
    l.(ws := seq(|l.ws|, i requires 0 <= i < |l.ws| =>
      if Registered(l, i) && l.ws[i].prefix in loaded then l.ws[i].(lastIndex := loaded[l.ws[i].prefix]) else l.ws[i]))
  }

  /** Start, second half: one loop is started for every registered watcher. */
  function LaunchW(l: Life): Life {
    LaunchSome(l, l.reg.Keys)
  }

  function StartW(l: Life, loaded: map<string, nat>): Life {
    if l.running then l else LaunchW(LoadW(BeginW(l), loaded))
  }

  function StopW(l: Life): Life {
    if !l.running then l
    else CloseSome(l, l.reg.Keys).(running := false, stopChOpen := false, reg := map[])
  }

  // One more prefix of a partly done sweep over the registered watchers.

  lemma LaunchStep(l: Life, done: set<string>, p: string)
    requires RegOk(l) && p in l.reg && p !in done
    ensures LaunchSome(l, done + {p}) == Launch(LaunchSome(l, done), l.reg[p])
  {
    assert LaunchSome(l, done + {p}).ws == Launch(LaunchSome(l, done), l.reg[p]).ws;
  }

  lemma CloseStep(l: Life, done: set<string>, p: string)
    requires RegOk(l) && p in l.reg && p !in done
    ensures CloseSome(l, done + {p}) == Close(CloseSome(l, done), l.reg[p])
  {
    assert CloseSome(l, done + {p}).ws == Close(CloseSome(l, done), l.reg[p]).ws;
  }

  lemma LoadStep(l: Life, done: map<string, nat>, p: string, x: nat)
    requires RegOk(l) && p in l.reg && p !in done
    ensures LoadW(l, done[p := x]) == SetIndex(LoadW(l, done), l.reg[p], x)
  {
    assert LoadW(l, done[p := x]).ws == SetIndex(LoadW(l, done), l.reg[p], x).ws;
  }

  lemma NothingDone(l: Life)
    ensures LaunchSome(l, {}) == l && CloseSome(l, {}) == l && LoadW(l, map[]) == l
  {
    assert LaunchSome(l, {}).ws == l.ws && CloseSome(l, {}).ws == l.ws && LoadW(l, map[]).ws == l.ws;
  }

  /** `launched`: the store runs and its start has finished. */
  ghost predicate LifeOk(l: Life, launched: bool) {
    && RegOk(l)
    && (launched ==> l.running)
    && (l.running ==> l.stopChOpen)
    && (forall i | 0 <= i < |l.ws| ::
          if Registered(l, i) then l.ws[i].closes == 0 && l.ws[i].loops == (if launched then 1 else 0)
          else l.ws[i].closes == 1 && l.ws[i].loops <= 1)
  }

  datatype Call = AddCall(prefix: string) | RemoveCall(prefix: string) | StartCall(loaded: map<string, nat>) | StopCall

  function Perform(l: Life, c: Call): Life
    requires RegOk(l)
  {
    match c
    case AddCall(p) => AddW(l, p)
    case RemoveCall(p) => RemoveW(l, p)
    case StartCall(loaded) => StartW(l, loaded)
    case StopCall => StopW(l)
  }

  // Every call keeps it.

  lemma AddKeeps(l: Life, p: string)
    requires LifeOk(l, l.running)
    ensures LifeOk(AddW(l, p), l.running)
  {
    var m := AddW(l, p);
    if p !in l.reg {
      forall i | 0 <= i < |m.ws| ensures Registered(m, i) <==> Registered(l, i) || i == |l.ws| {
        if i < |l.ws| {
          assert m.ws[i] == l.ws[i];
        }
      }
    }
  }

  lemma RemoveKeeps(l: Life, p: string)
    requires LifeOk(l, l.running)
    ensures LifeOk(RemoveW(l, p), l.running)
  {
    var m := RemoveW(l, p);
    if p in l.reg {
      forall i | 0 <= i < |m.ws| ensures Registered(m, i) <==> Registered(l, i) && i != l.reg[p] {
        assert m.ws[i].prefix == l.ws[i].prefix;
      }
    }
  }

  lemma StartKeeps(l: Life, loaded: map<string, nat>)
    requires LifeOk(l, l.running)
    ensures LifeOk(StartW(l, loaded), true)
  {
    var b := LoadW(BeginW(l), loaded);
    assert forall i: nat :: Registered(b, i) == Registered(l, i);
    assert forall i: nat :: Registered(LaunchW(b), i) == Registered(b, i);
  }

  lemma StopKeeps(l: Life)
    requires LifeOk(l, l.running)
    ensures LifeOk(StopW(l), false)
  {
    var m := StopW(l);
    if l.running {
      forall i | 0 <= i < |m.ws| ensures !Registered(m, i) && m.ws[i].closes == 1 && m.ws[i].loops <= 1 {
        assert m.ws[i].prefix == l.ws[i].prefix;
      }
    }
  }

  lemma PerformKeeps(l: Life, c: Call)
    requires LifeOk(l, l.running)
    ensures LifeOk(Perform(l, c), Perform(l, c).running)
  {
    match c
    case AddCall(p) => AddKeeps(l, p);
    case RemoveCall(p) => RemoveKeeps(l, p);
    case StartCall(loaded) => StartKeeps(l, loaded);
    case StopCall => StopKeeps(l);
  }

  function PerformAll(l: Life, calls: seq<Call>): (r: Life)
    requires LifeOk(l, l.running)
    ensures LifeOk(r, r.running)
    decreases |calls|
  {
    if calls == [] then l
    else PerformKeeps(l, calls[0]); PerformAll(Perform(l, calls[0]), calls[1..])
  }

  /** Over every sequence of lifecycle calls on a new store: no channel is closed twice, a registered watcher has
      exactly one loop while the store runs and none while it does not, and a watcher whose stop channel is open
      is registered. */
  lemma LifecycleSafe(prefix: string, calls: seq<Call>, i: nat)
    requires i < |PerformAll(NewLife(prefix), calls).ws|
    ensures var l := PerformAll(NewLife(prefix), calls);
      && l.ws[i].closes <= 1
      && (l.ws[i].closes == 0 <==> Registered(l, i))
      && (Registered(l, i) ==> l.ws[i].loops == if l.running then 1 else 0)
      && l.ws[i].loops <= 1
      && (l.running ==> l.stopChOpen)
  {
    var l := PerformAll(NewLife(prefix), calls);
    assert LifeOk(l, l.running);
  }

  /** A stopped store has forgotten its watchers, so starting it again starts no loop at all. */
  lemma RestartWatchesNothing(l: Life, loaded: map<string, nat>)
    requires LifeOk(l, l.running) && l.running
    ensures var m := StartW(StopW(l), loaded);
      m.running && m.reg == map[] &&
          (forall i | 0 <= i < |m.ws| :: m.ws[i].loops == l.ws[i].loops && m.ws[i].closes == 1)
  {
    var s := StopW(l);
    assert forall i: nat :: !Registered(s, i);
    PerformKeeps(l, StopCall);
    var b := LoadW(BeginW(s), loaded);
    assert forall i: nat :: !Registered(b, i);
  }

  /** Exactly when stopping and starting keeps every registration. */
  lemma RestartKeepsExactly(l: Life, loaded: map<string, nat>)
    requires LifeOk(l, l.running)
    ensures StartW(StopW(l), loaded).reg == l.reg <==> !l.running || l.reg == map[]
  {
  }
}
