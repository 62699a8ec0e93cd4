/** The topology change detector: a snapshot diff and a bounded event channel that drops what does not fit. */
module Topology {
  import opened Common

  const CHANNEL_CAPACITY := 10

  datatype Member = Member(name: string, address: string, port: int, alive: bool)

  /** The member list as a map; of duplicate names the last one wins. */
  function ByName(list: seq<Member>): map<string, Member> {
    if list == [] then map[] else ByName(list[..|list| - 1])[list[|list| - 1].name := list[|list| - 1]]
  }

  /** Who is there, and alive or not. */
  function AliveMap(members: map<string, Member>): map<string, bool> {
    map n | n in members :: members[n].alive
  }

  predicate Names(list: seq<Member>, n: string) {
    exists i :: 0 <= i < |list| && list[i].name == n
  }

  /** Against the old members: someone is new, or of another liveness. */
  predicate Differs(old_: map<string, Member>, m: Member) {
    m.name !in old_ || old_[m.name].alive != m.alive
  }

  /** Some listed member differs from the old ones, or some old one is no longer listed. */
  predicate Flags(old_: map<string, Member>, list: seq<Member>) {
    (exists i :: 0 <= i < |list| && Differs(old_, list[i])) || (exists n :: n in old_ && !Names(list, n))
  }

  ghost predicate DistinctNames(list: seq<Member>) {
    forall i, j | 0 <= i < j < |list| :: list[i].name != list[j].name
  }

  /** Two entries of one name disagree on its liveness. */
  ghost predicate Contradicts(list: seq<Member>) {
    exists i, j :: 0 <= i < |list| && 0 <= j < |list| && list[i].name == list[j].name && list[i].alive != list[j].alive
  }

  lemma {:induction false} ByNameHolds(list: seq<Member>)
    ensures forall n :: n in ByName(list) <==> Names(list, n)
    ensures forall n | n in ByName(list) :: ByName(list)[n] in list && ByName(list)[n].name == n
  {
    if list != [] {
      var front, last := list[..|list| - 1], list[|list| - 1];
      ByNameHolds(front);
      forall n ensures n in ByName(list) <==> Names(list, n) {
        if Names(front, n) {
          var i :| 0 <= i < |front| && front[i].name == n;
          assert list[i].name == n;
        }
        if n == last.name {
          assert list[|list| - 1].name == n;
        }
        if Names(list, n) && n != last.name {
          var i :| 0 <= i < |list| && list[i].name == n;
          assert front[i].name == n;
        }
      }
    }
  }

  lemma UnflaggedIsUnchanged(old_: map<string, Member>, list: seq<Member>)
    requires !Flags(old_, list)
    ensures AliveMap(old_) == AliveMap(ByName(list))
  {
    ByNameHolds(list);
    var new_ := ByName(list);
    forall n | n in new_ ensures n in old_ && old_[n].alive == new_[n].alive {
      var j :| 0 <= j < |list| && list[j] == new_[n];
      assert !Differs(old_, list[j]);
    }
  }

  /** Exactly what is flagged: a change of the name-to-liveness map, or a list that contradicts itself. So no change
      is ever missed, and nothing else is flagged when the names are distinct. */
  lemma FlagsExactly(old_: map<string, Member>, list: seq<Member>)
    ensures Flags(old_, list) <==> AliveMap(old_) != AliveMap(ByName(list)) || Contradicts(list)
    ensures DistinctNames(list) ==> !Contradicts(list)
  {
    ByNameHolds(list);
    var new_ := ByName(list);
    if AliveMap(old_) == AliveMap(new_) {
      assert forall n :: n in old_ <==> n in AliveMap(old_);
      assert forall n :: n in new_ <==> n in AliveMap(new_);
      if i :| 0 <= i < |list| && Differs(old_, list[i]) {
        assert Names(list, list[i].name);
        var j :| 0 <= j < |list| && list[j] == new_[list[i].name];
        assert AliveMap(old_)[list[i].name] == list[j].alive;
      }
    } else if !Flags(old_, list) {
      UnflaggedIsUnchanged(old_, list);
    }
    if i, j :| 0 <= i < |list| && 0 <= j < |list| && list[i].name == list[j].name && list[i].alive != list[j].alive {
      assert Differs(old_, list[i]) || Differs(old_, list[j]);
    }
  }

  // A provider and its one subscriber.

  /** `heard` is the list of the last event received; `missed` says that the latest change event was dropped. */
  datatype State = State(members: map<string, Member>, channel: seq<seq<Member>>, heard: seq<Member>, missed: bool)

  /** A poll is answered with a list, or fails; the subscriber takes one event. */
  datatype Step = Poll(answer: Option<seq<Member>>) | Receive

  const NEW := State(map[], [], [], false)

  function After(s: State, step: Step): State {
    match step
    case Poll(None) => s
    case Poll(Some(list)) =>
      var full := |s.channel| >= CHANNEL_CAPACITY;
      if !Flags(s.members, list) then s.(members := ByName(list))
      else s.(members := ByName(list), channel := if full then s.channel else s.channel + [list], missed := full)
    case Receive => if s.channel == [] then s else s.(channel := s.channel[1..], heard := s.channel[0])
  }

  function AfterAll(s: State, steps: seq<Step>): State {
    if steps == [] then s else After(AfterAll(s, steps[..|steps| - 1]), steps[|steps| - 1])
  }

  function Run(steps: seq<Step>): State {
    AfterAll(NEW, steps)
  }

  /** The list the subscriber has once it has drained the channel. */
  function Newest(s: State): seq<Member> {
    if s.channel == [] then s.heard else s.channel[|s.channel| - 1]
  }

  ghost predicate Knows(s: State) {
    AliveMap(ByName(s.heard)) == AliveMap(s.members)
  }

  lemma {:induction false} NewestIsCurrent(steps: seq<Step>)
    ensures |Run(steps).channel| <= CHANNEL_CAPACITY
    ensures !Run(steps).missed ==> AliveMap(ByName(Newest(Run(steps)))) == AliveMap(Run(steps).members)
  {
    if steps != [] {
      var s, step := Run(steps[..|steps| - 1]), steps[|steps| - 1];
      NewestIsCurrent(steps[..|steps| - 1]);
      if step.Poll? && step.answer.Some? {
        FlagsExactly(s.members, step.answer.value);
      }
    }
  }

  /** In every run, a subscriber that has drained the channel knows who is there and alive, unless the latest change
      event was dropped. */
  lemma DrainedSubscriberKnows(steps: seq<Step>)
    ensures Run(steps).channel == [] && !Run(steps).missed ==> Knows(Run(steps))
  {
    NewestIsCurrent(steps);
  }

  /** What the subscriber has, or has still to take from the channel, is who is there and alive. */
  ghost predicate Current(s: State) {
    AliveMap(ByName(Newest(s))) == AliveMap(s.members)
  }

  /** A poll that finds a change while the channel is full. */
  predicate Loses(s: State, step: Step) {
    step.Poll? && step.answer.Some? && |s.channel| >= CHANNEL_CAPACITY &&
        AliveMap(ByName(step.answer.value)) != AliveMap(s.members)
  }

  /** Step by step, exactly what makes the subscriber wrong. */
  lemma StepLosesExactly(s: State, step: Step)
    requires Current(s)
    ensures Current(After(s, step)) <==> !Loses(s, step)
  {
    if step.Poll? && step.answer.Some? {
      FlagsExactly(s.members, step.answer.value);
    }
  }

  /** After each of the first `n` steps, and before them. */
  ghost predicate CurrentUntil(steps: seq<Step>, n: nat)
    requires n <= |steps|
  {
    Current(Run(steps[..n])) && (n > 0 ==> CurrentUntil(steps, n - 1))
  }

  predicate NoneLoses(steps: seq<Step>, n: nat)
    requires n <= |steps|
  {
    n > 0 ==> !Loses(Run(steps[..n - 1]), steps[n - 1]) && NoneLoses(steps, n - 1)
  }

  lemma RunStep(steps: seq<Step>, n: nat)
    requires 0 < n <= |steps|
    ensures Run(steps[..n]) == After(Run(steps[..n - 1]), steps[n - 1])
  {
    assert steps[..n][..n - 1] == steps[..n - 1];
  }

  lemma {:induction false} CurrentSoFar(steps: seq<Step>, n: nat)
    requires n <= |steps|
    ensures CurrentUntil(steps, n) <==> NoneLoses(steps, n)
  {
    if n > 0 {
      CurrentSoFar(steps, n - 1);
      RunStep(steps, n);
      if CurrentUntil(steps, n - 1) {
        StepLosesExactly(Run(steps[..n - 1]), steps[n - 1]);
      }
    }
  }

  /** Over every run: the subscriber is right all along, at any moment when it has drained the channel, if and only if
      no poll finds a change while ten events wait. */
  lemma SubscriberIsRightExactly(steps: seq<Step>)
    ensures CurrentUntil(steps, |steps|) <==> NoneLoses(steps, |steps|)
    ensures Run(steps).channel == [] ==> (Current(Run(steps)) <==> Knows(Run(steps)))
  {
    CurrentSoFar(steps, |steps|);
  }

  /** A wrong subscriber is put right by exactly one kind of step: a poll that flags a change and finds room for it,
      or one that finds the very members the subscriber has. */
  lemma StepRepairsExactly(s: State, step: Step)
    requires !Current(s)
    ensures Current(After(s, step)) <==>
      && step.Poll? && step.answer.Some?
      && var list := step.answer.value;
         if Flags(s.members, list) && |s.channel| < CHANNEL_CAPACITY then true
         else AliveMap(ByName(list)) == AliveMap(ByName(Newest(s)))
  {
    if step.Poll? && step.answer.Some? {
      FlagsExactly(s.members, step.answer.value);
    }
  }

  /** A poll that finds who is there as `s` has it, a failed poll, or a reception. */
  ghost predicate NothingNew(s: State, step: Step) {
    step.Poll? && step.answer.Some? ==>
        AliveMap(ByName(step.answer.value)) == AliveMap(s.members) && !Contradicts(step.answer.value)
  }

  /** What a drained subscriber knows stays as it is until the next change: polling again, however often, repairs
      nothing. */
  lemma {:induction false} PollingDoesNotRepair(s: State, steps: seq<Step>)
    requires s.channel == [] && forall i | 0 <= i < |steps| :: NothingNew(s, steps[i])
    ensures var e := AfterAll(s, steps); e.channel == [] && e.heard == s.heard && e.missed == s.missed
    ensures AliveMap(AfterAll(s, steps).members) == AliveMap(s.members)
    ensures Knows(AfterAll(s, steps)) <==> Knows(s)
  {
    if steps != [] {
      var step := steps[|steps| - 1];
      PollingDoesNotRepair(s, steps[..|steps| - 1]);
      if step.Poll? && step.answer.Some? {
        FlagsExactly(AfterAll(s, steps[..|steps| - 1]).members, step.answer.value);
      }
    }
  }

  /** A node that comes and goes: what the `n`-th poll answers. */
  function Flicker(n: nat): seq<Member> {
    if n % 2 == 0 then [] else [Member("n", "", 0, true)]
  }

  function Flickers(n: nat): seq<Step> {
    if n == 0 then [] else Flickers(n - 1) + [Poll(Some(Flicker(n)))]
  }

  function Answers(n: nat): seq<seq<Member>> {
    if n == 0 then [] else Answers(n - 1) + [Flicker(n)]
  }

  lemma {:induction false} FlickersFill(n: nat)
    requires n <= CHANNEL_CAPACITY
    ensures Run(Flickers(n)) == State(ByName(Flicker(n)), Answers(n), [], false)
    ensures |Answers(n)| == n
  {
    if n > 0 {
      FlickersFill(n - 1);
      assert Flickers(n)[..|Flickers(n)| - 1] == Flickers(n - 1);
      OneFlicker(n);
    }
  }

  /** Each of these answers is a change. */
  lemma OneFlicker(n: nat)
    requires n > 0
    ensures Flags(ByName(Flicker(n - 1)), Flicker(n))
  {
    ByNameHolds(Flicker(n));
    ByNameHolds(Flicker(n - 1));
    if n % 2 == 0 {
      assert Flicker(n - 1)[0].name == "n";
      assert Names(Flicker(n - 1), "n");
    } else {
      assert Differs(ByName(Flicker(n - 1)), Flicker(n)[0]);
    }
  }

  /** The subscriber takes `n` events. */
  function Receives(steps: seq<Step>, n: nat): seq<Step> {
    if n == 0 then steps else Receives(steps, n - 1) + [Receive]
  }

  lemma {:induction false} ReceivesTake(steps: seq<Step>, n: nat)
    requires n <= |Run(steps).channel|
    ensures var s := Run(steps);
      Run(Receives(steps, n)) == s.(channel := s.channel[n..], heard := if n == 0 then s.heard else s.channel[n - 1])
  {
    if n > 0 {
      ReceivesTake(steps, n - 1);
      assert Receives(steps, n)[..|Receives(steps, n)| - 1] == Receives(steps, n - 1);
    }
  }

  lemma TheNodeIsThere()
    ensures AliveMap(ByName(Flicker(CHANNEL_CAPACITY + 1))) != AliveMap(ByName(Flicker(CHANNEL_CAPACITY)))
  {
    ByNameHolds(Flicker(CHANNEL_CAPACITY + 1));
    assert Flicker(CHANNEL_CAPACITY + 1)[0].name == "n";
    assert "n" in AliveMap(ByName(Flicker(CHANNEL_CAPACITY + 1)));
  }

  /** The proviso is needed: after eleven changes and no reception in between, the last one is dropped, and the drained
      subscriber takes a live node for gone. */
  lemma AMissedChangeIsReachable()
    ensures exists steps :: var s := Run(steps); s.channel == [] && s.missed && !Knows(s)
  {
    var polls := Flickers(CHANNEL_CAPACITY + 1);
    FlickersFill(CHANNEL_CAPACITY);
    OneFlicker(CHANNEL_CAPACITY + 1);
    assert polls[..|polls| - 1] == Flickers(CHANNEL_CAPACITY);
    ReceivesTake(polls, CHANNEL_CAPACITY);
    var s := Run(Receives(polls, CHANNEL_CAPACITY));
    assert s.channel == [] && s.heard == Flicker(CHANNEL_CAPACITY);
    TheNodeIsThere();
  }

  // ----- members and events, told from the steps -----

  /** No later entry has the same name. */
  predicate IsLast(list: seq<Member>, i: nat)
    requires i < |list|
  {
    forall j | i < j < |list| :: list[j].name != list[i].name
  }

  /** The names of the list, each with the list's last entry of that name, address, port and all. */
  ghost predicate Keeps(members: map<string, Member>, list: seq<Member>) {
    && (forall n :: n in members <==> Names(list, n))
    && (forall i | 0 <= i < |list| && IsLast(list, i) :: list[i].name in members && members[list[i].name] == list[i])
  }

  lemma {:induction false} ByNameKeeps(list: seq<Member>)
    ensures Keeps(ByName(list), list)
  {
    ByNameHolds(list);
    if list != [] {
      var front, last := list[..|list| - 1], list[|list| - 1];
      ByNameKeeps(front);
      forall i | 0 <= i < |list| && IsLast(list, i)
        ensures list[i].name in ByName(list) && ByName(list)[list[i].name] == list[i]
      {
        if i < |front| {
          assert list[|list| - 1].name != list[i].name;
          assert front[i] == list[i] && IsLast(front, i);
        }
      }
    }
  }

  /** What the last poll that was answered was answered with. */
  function LastAnswer(steps: seq<Step>): seq<Member> {
    if steps == [] then []
    else
      var last := steps[|steps| - 1];
      if last.Poll? && last.answer.Some? then last.answer.value else LastAnswer(steps[..|steps| - 1])
  }

  /** Over every run: the provider keeps the members of the last answered poll, flagged or not. */
  lemma {:induction false} MembersHistory(steps: seq<Step>)
    ensures Keeps(Run(steps).members, LastAnswer(steps)) && Run(steps).members == ByName(LastAnswer(steps))
  {
    ByNameKeeps(LastAnswer(steps));
    if steps != [] {
      MembersHistory(steps[..|steps| - 1]);
    }
  }

  /** The lists of the polls that found a change, or a list that contradicts itself, and room in the channel. */
  ghost function EventsBy(steps: seq<Step>): seq<seq<Member>> {
    if steps == [] then []
    else
      var front, last := steps[..|steps| - 1], steps[|steps| - 1];
      EventsBy(front) +
      if last.Poll? && last.answer.Some? && |Run(front).channel| < CHANNEL_CAPACITY
         && (AliveMap(ByName(LastAnswer(front))) != AliveMap(ByName(last.answer.value)) ||
             Contradicts(last.answer.value))
      then [last.answer.value] else []
  }

  /** How many events the subscriber has taken. */
  function TakenBy(steps: seq<Step>): nat {
    if steps == [] then 0
    else
      var front := steps[..|steps| - 1];
      TakenBy(front) + if steps[|steps| - 1] == Receive && Run(front).channel != [] then 1 else 0
  }

  /** The channel and the subscriber are what `taken` and the rest of `events` say. */
  ghost predicate Shows(s: State, events: seq<seq<Member>>, taken: nat) {
    && taken <= |events| && s.channel == events[taken..]
    && s.heard == if taken == 0 then [] else events[taken - 1]
  }

  lemma PollShows(s: State, list: seq<Member>, events: seq<seq<Member>>, taken: nat)
    requires Shows(s, events, taken)
    ensures Shows(After(s, Poll(Some(list))),
      events + (if Flags(s.members, list) && |s.channel| < CHANNEL_CAPACITY then [list] else []), taken)
  {
    assert (events + [list])[taken..] == events[taken..] + [list];
  }

  lemma ReceiveShows(s: State, events: seq<seq<Member>>, taken: nat)
    requires Shows(s, events, taken)
    ensures Shows(After(s, Receive), events, taken + if s.channel != [] then 1 else 0)
  {
  }

  /** Over every run: the subscriber has the very lists of those polls, in order, and the rest of them waits. */
  lemma {:induction false} EventsHistory(steps: seq<Step>)
    ensures Shows(Run(steps), EventsBy(steps), TakenBy(steps))
  {
    if steps != [] {
      var front, last := steps[..|steps| - 1], steps[|steps| - 1];
      EventsHistory(front);
      match last
      case Poll(None) =>
      case Poll(Some(list)) =>
        MembersHistory(front);
        FlagsExactly(Run(front).members, list);
        PollShows(Run(front), list, EventsBy(front), TakenBy(front));
      case Receive => ReceiveShows(Run(front), EventsBy(front), TakenBy(front));
    }
  }

  class ConsulProvider {
    var members: map<string, Member>
    var topologyCh: seq<seq<Member>>
    ghost var heard: seq<Member>
    ghost var missed: bool

    constructor ()
      ensures Abstract() == NEW
    {
      members, topologyCh, heard, missed := map[], [], [], false;
    }

    ghost function Abstract(): State
      reads this
    {
      State(members, topologyCh, heard, missed)
    }

    /** One poll; `answer` is what the health query gives. */
    method UpdateTopology(answer: Option<seq<Member>>)
      modifies this
      ensures Abstract() == After(old(Abstract()), Poll(answer))
      ensures answer.None? ==> members == old(members) && topologyCh == old(topologyCh)
      ensures answer.Some? ==> Keeps(members, answer.value)
      ensures answer.Some? ==>
        var changed := AliveMap(old(members)) != AliveMap(members) || Contradicts(answer.value);
        topologyCh == old(topologyCh) +
          if changed && |old(topologyCh)| < CHANNEL_CAPACITY then [answer.value] else []
    {
      if answer.None? {
        return;
      }
      var list := answer.value;
      FlagsExactly(members, list);
      var changed := HasChanged(list);
      Rebuild(list);
      if changed {
        Publish(list);
      }
    }

    /** Somebody is new or of another liveness, or gone. */
    method HasChanged(list: seq<Member>) returns (changed: bool)
      ensures changed == Flags(members, list)
    {
      changed := false;
      var currentNodes: set<string> := {};
      for i := 0 to |list|
        invariant forall n :: n in currentNodes <==> Names(list[..i], n)
        invariant changed <==> exists j :: 0 <= j < i && Differs(members, list[j])
      {
        NamesGrow(list, i);
        currentNodes := currentNodes + {list[i].name};
        if list[i].name !in members {
          changed := true;
        } else {
          var known := members[list[i].name];
          if known.alive != list[i].alive {
            changed := true;
          }
        }
      }
      assert list[..|list|] == list;

      ghost var entered := changed;
      var names := members.Keys;
      while names != {}
        invariant names <= members.Keys
        invariant changed <==> entered || exists n :: n in members.Keys - names && !Names(list, n)
      {
        var name := Pick(names);
        names := names - {name};
        if name !in currentNodes {
          changed := true;
        }
      }
    }

    /** The new members, of whom the later of a name stays. */
    method Rebuild(list: seq<Member>)
      modifies this`members
      ensures members == ByName(list) && Keeps(members, list)
    {
      ByNameKeeps(list);
      members := map[];
      for i := 0 to |list|
        invariant members == ByName(list[..i])
      {
        assert list[..i + 1][..i] == list[..i];
        members := members[list[i].name := list[i]];
      }
      assert list[..|list|] == list;
    }

    /** One event, if there is room for it. */
    method Publish(list: seq<Member>)
      modifies this`topologyCh, this`missed
      ensures topologyCh == old(topologyCh) + if |old(topologyCh)| < CHANNEL_CAPACITY then [list] else []
      ensures missed == (|old(topologyCh)| >= CHANNEL_CAPACITY)
    {
      missed := |topologyCh| >= CHANNEL_CAPACITY;
      if |topologyCh| < CHANNEL_CAPACITY {
        topologyCh := topologyCh + [list];
      }
    }

    /** The subscriber's reception; it waits while the channel is empty. */
    method Take() returns (event: seq<Member>)
      requires topologyCh != []
      modifies this
      ensures Abstract() == After(old(Abstract()), Receive)
      ensures event == heard && old(topologyCh) == [event] + topologyCh
    {
      event := topologyCh[0];
      topologyCh, heard := topologyCh[1..], event;
    }
  }

  lemma NamesGrow(list: seq<Member>, i: nat)
    requires i < |list|
    ensures forall n :: Names(list[..i + 1], n) <==> Names(list[..i], n) || n == list[i].name
  {
    forall n ensures Names(list[..i + 1], n) <==> Names(list[..i], n) || n == list[i].name {
      if Names(list[..i], n) {
        var j :| 0 <= j < |list[..i]| && list[..i][j].name == n;
        assert list[..i + 1][j].name == n;
      }
      assert list[..i + 1][i] == list[i];
      if Names(list[..i + 1], n) && n != list[i].name {
        var j :| 0 <= j < i + 1 && list[..i + 1][j].name == n;
        assert list[..i][j].name == n;
      }
    }
  }
}
