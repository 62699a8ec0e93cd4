/**
 A client's outgoing queue: many producers, one write pump that batches what it finds into frames. Producers may run
 between any two steps of the pump.
 */
module SendQueue {
  import opened Common

  const CAPACITY := 256
  const NEWLINE: byte := 10

  datatype Frame = Text(pieces: seq<Bytes>) | Ping | CloseFrame

  /** `Taken` has received a message and not yet looked at the queue; `Writing` has `left` receives of its
      loop to go. */
  datatype Pump = Selecting | Taken(message: Bytes) | Writing(pieces: seq<Bytes>, left: nat) | Stopped

  /** `accepted` is every message the queue ever took, `sent` every frame that reached the connection. After a panic
      that is not recovered nothing runs any more. */
  datatype State = State(buf: seq<Bytes>, closed: bool, accepted: seq<Bytes>, sent: seq<Frame>, pump: Pump,
      panicked: bool)

  /** A send on a closed queue panics. Where it is made from an actor's message handler the panic is recovered, and
      the message is lost; from a connection's own goroutine it ends the process. */
  datatype Step =
    | SendToClient(m: Bytes, recovered: bool)   // a full queue is closed
    | SendToUser(m: Bytes, recovered: bool)     // a full queue drops the message
    | Receive | OpenWriter(ok: bool) | ReceiveMore | Flush(ok: bool) | SendClose | Tick(ok: bool)

  /** A producer can always send. A receive needs a message, or a closed queue, which yields the empty message. */
  predicate Enabled(s: State, st: Step) {
    !s.panicked && match st
    case SendToClient(_, _) => true
    case SendToUser(_, _) => true
    case Receive => s.pump.Selecting? && s.buf != []
    case OpenWriter(_) => s.pump.Taken?
    case ReceiveMore => s.pump.Writing? && s.pump.left > 0 && (s.buf != [] || s.closed)
    case Flush(_) => s.pump.Writing? && s.pump.left == 0
    case SendClose => s.pump.Selecting? && s.buf == [] && s.closed
    case Tick(_) => s.pump.Selecting?
  }

  function Next(s: State, st: Step): State
    requires Enabled(s, st)
  {
    match st
    case SendToClient(m, recovered) =>
      if s.closed then s.(panicked := !recovered)
      else if |s.buf| < CAPACITY then s.(buf := s.buf + [m], accepted := s.accepted + [m]) else s.(closed := true)
    case SendToUser(m, recovered) =>
      if s.closed then s.(panicked := !recovered)
      else if |s.buf| < CAPACITY then s.(buf := s.buf + [m], accepted := s.accepted + [m]) else s
    case Receive => s.(pump := Taken(s.buf[0]), buf := s.buf[1..])
    case OpenWriter(ok) => s.(pump := if ok then Writing([s.pump.message], |s.buf|) else Stopped)
    case ReceiveMore =>
      if s.buf == [] then s.(pump := Writing(s.pump.pieces + [[]], s.pump.left - 1))
      else s.(pump := Writing(s.pump.pieces + [s.buf[0]], s.pump.left - 1), buf := s.buf[1..])
    case Flush(ok) => if ok then s.(sent := s.sent + [Text(s.pump.pieces)], pump := Selecting) else s.(pump := Stopped)
    case SendClose => s.(sent := s.sent + [CloseFrame], pump := Stopped)
    case Tick(ok) => if ok then s.(sent := s.sent + [Ping]) else s.(pump := Stopped)
  }

  const EMPTY := State([], false, [], [], Selecting, false)

  /** The messages inside the frames, in order. */
  function Delivered(frames: seq<Frame>): seq<Bytes> {
    if frames == [] then []
    else Delivered(frames[..|frames| - 1]) + if frames[|frames| - 1].Text? then frames[|frames| - 1].pieces else []
  }

  /** What the pump has received and not yet flushed. */
  function InHand(p: Pump): seq<Bytes> {
    match p
    case Taken(m) => [m]
    case Writing(pieces, _) => pieces
    case _ => []
  }

  predicate Shape(s: State) {
    && |s.buf| <= CAPACITY
    && (s.pump.Writing? ==> s.pump.left <= |s.buf| && s.pump.pieces != [])
    && (forall i | 0 <= i < |s.sent| && s.sent[i].Text? :: s.sent[i].pieces != [])
  }

  /** Nothing is lost, repeated or reordered while the pump runs. */
  predicate Flow(s: State) {
    if s.pump.Stopped? then Delivered(s.sent) <= s.accepted
    else Delivered(s.sent) + InHand(s.pump) + s.buf == s.accepted
  }

  predicate Closing(s: State) {
    CloseFrame in s.sent ==>
      && s.pump.Stopped? && s.closed && Delivered(s.sent) == s.accepted
      && s.sent[|s.sent| - 1] == CloseFrame && CloseFrame !in s.sent[..|s.sent| - 1]
  }

  predicate Inv(s: State) {
    Shape(s) && Flow(s) && Closing(s)
  }

  lemma DeliveredMore(frames: seq<Frame>, f: Frame)
    ensures Delivered(frames + [f]) == Delivered(frames) + if f.Text? then f.pieces else []
  {
    assert (frames + [f])[..|frames|] == frames;
  }

  lemma AtTheBack(d: seq<Bytes>, h: seq<Bytes>, b: seq<Bytes>, m: Bytes)
    ensures d + h + (b + [m]) == (d + h + b) + [m]
  {
  }

  /** A message moves from the queue into the pump's hand. */
  lemma AcrossTheMiddle(d: seq<Bytes>, h: seq<Bytes>, b: seq<Bytes>)
    requires b != []
    ensures d + (h + [b[0]]) + b[1..] == d + h + b
  {
  }

  lemma ProducerFlow(s: State, st: Step)
    requires Inv(s) && Enabled(s, st) && (st.SendToClient? || st.SendToUser?)
    ensures Flow(Next(s, st))
  {
    AtTheBack(Delivered(s.sent), InHand(s.pump), s.buf, st.m);
  }

  lemma ReceiveFlow(s: State, st: Step)
    requires Inv(s) && Enabled(s, st) && (st.Receive? || st.OpenWriter? || st.ReceiveMore?)
    ensures Flow(Next(s, st))
  {
    if st.Receive? {
      assert [] + [s.buf[0]] == [s.buf[0]];
      AcrossTheMiddle(Delivered(s.sent), [], s.buf);
    } else if st.ReceiveMore? {
      AcrossTheMiddle(Delivered(s.sent), s.pump.pieces, s.buf);
    }
  }

  lemma FlushFlow(s: State, ok: bool)
    requires Inv(s) && Enabled(s, Flush(ok))
    ensures Flow(Next(s, Flush(ok)))
  {
    DeliveredMore(s.sent, Text(s.pump.pieces));
    assert Delivered(s.sent) + s.pump.pieces + [] + s.buf == Delivered(s.sent) + s.pump.pieces + s.buf;
  }

  lemma ControlFlow(s: State, st: Step)
    requires Inv(s) && Enabled(s, st) && (st.SendClose? || st.Tick?)
    ensures Flow(Next(s, st))
  {
    DeliveredMore(s.sent, if st.SendClose? then CloseFrame else Ping);
    assert Delivered(s.sent) + [] + s.buf == Delivered(s.sent) + s.buf;
  }

  lemma ShapeStep(s: State, st: Step)
    requires Inv(s) && Enabled(s, st)
    ensures Shape(Next(s, st))
  {
  }

  lemma ClosingStep(s: State, st: Step)
    requires Inv(s) && Enabled(s, st)
    ensures Closing(Next(s, st))
  {
    if st.SendClose? {
      DeliveredMore(s.sent, CloseFrame);
      assert CloseFrame !in s.sent;
    }
  }

  lemma InvStep(s: State, st: Step)
    requires Inv(s) && Enabled(s, st)
    ensures Inv(Next(s, st))
  {
    ShapeStep(s, st);
    ClosingStep(s, st);
    if st.SendToClient? || st.SendToUser? {
      ProducerFlow(s, st);
    } else if st.Receive? || st.OpenWriter? || st.ReceiveMore? {
      ReceiveFlow(s, st);
    } else if st.Flush? {
      FlushFlow(s, st.ok);
    } else {
      ControlFlow(s, st);
    }
  }

  predicate CanRun(s: State, steps: seq<Step>)
    decreases |steps|
  {
    steps != [] ==> Enabled(s, steps[0]) && CanRun(Next(s, steps[0]), steps[1..])
  }

  function Exec(s: State, steps: seq<Step>): State
    requires CanRun(s, steps)
    decreases |steps|
  {
    if steps == [] then s else Exec(Next(s, steps[0]), steps[1..])
  }

  lemma {:induction false} InvRun(s: State, steps: seq<Step>)
    requires Inv(s) && CanRun(s, steps)
    ensures Inv(Exec(s, steps))
    decreases |steps|
  {
    if steps != [] {
      InvStep(s, steps[0]);
      InvRun(Next(s, steps[0]), steps[1..]);
    }
  }

  /** In every run the drain loop finds a buffered message at each of its receives, so it neither blocks nor writes an
      empty message of its own. */
  lemma DrainNeverBlocks(steps: seq<Step>)
    requires CanRun(EMPTY, steps)
    ensures var s := Exec(EMPTY, steps); s.pump.Writing? && s.pump.left > 0 ==>
        s.buf != [] && (s.panicked || Enabled(s, ReceiveMore))
  {
    InvRun(EMPTY, steps);
  }

  lemma {:induction false} AppendStep(s: State, steps: seq<Step>, st: Step)
    ensures CanRun(s, steps + [st]) <==> CanRun(s, steps) && Enabled(Exec(s, steps), st)
    ensures CanRun(s, steps + [st]) ==> Exec(s, steps + [st]) == Next(Exec(s, steps), st)
    decreases |steps|
  {
    var more := steps + [st];
    if steps == [] {
      assert more[1..] == [];
      assert Enabled(s, st) ==> CanRun(Next(s, st), []) && Exec(Next(s, st), []) == Next(s, st);
    } else {
      assert more[1..] == steps[1..] + [st];
      if Enabled(s, steps[0]) {
        AppendStep(Next(s, steps[0]), steps[1..], st);
      }
    }
  }

  lemma FrontRuns(steps: seq<Step>)
    requires steps != [] && CanRun(EMPTY, steps)
    ensures var front, last := steps[..|steps| - 1], steps[|steps| - 1];
      CanRun(EMPTY, front) && Enabled(Exec(EMPTY, front), last) && Exec(EMPTY, steps) == Next(Exec(EMPTY, front), last)
  {
    var front, last := steps[..|steps| - 1], steps[|steps| - 1];
    assert steps == front + [last];
    AppendStep(EMPTY, front, last);
  }

  predicate IsSend(st: Step) {
    st.SendToClient? || st.SendToUser?
  }

  /** The messages of the sends, of either kind, that found the queue open and shorter than its capacity, in order. */
  function AcceptedBy(steps: seq<Step>): seq<Bytes>
    requires CanRun(EMPTY, steps)
  {
    if steps == [] then []
    else
      FrontRuns(steps);
      var front, last := steps[..|steps| - 1], steps[|steps| - 1];
      var s := Exec(EMPTY, front);
      AcceptedBy(front) + (if IsSend(last) && !s.closed && |s.buf| < CAPACITY then [last.m] else [])
  }

  lemma {:induction false} AcceptedExactly(steps: seq<Step>)
    requires CanRun(EMPTY, steps)
    ensures Exec(EMPTY, steps).accepted == AcceptedBy(steps)
  {
    if steps != [] {
      FrontRuns(steps);
      AcceptedExactly(steps[..|steps| - 1]);
    }
  }

  /** FIFO: what has been delivered is always a prefix of what was accepted. A close frame, if there is one, is the last
      frame and the only one of its kind, and by then everything accepted has been delivered. */
  lemma DeliveryIsFifo(steps: seq<Step>)
    requires CanRun(EMPTY, steps)
    ensures var s := Exec(EMPTY, steps);
      && Delivered(s.sent) <= AcceptedBy(steps)
      && (!s.pump.Stopped? ==> Delivered(s.sent) + InHand(s.pump) + s.buf == AcceptedBy(steps))
      && (CloseFrame in s.sent ==>
            && Delivered(s.sent) == AcceptedBy(steps)
            && s.sent[|s.sent| - 1] == CloseFrame && CloseFrame !in s.sent[..|s.sent| - 1])
  {
    InvRun(EMPTY, steps);
    AcceptedExactly(steps);
  }

  // ----- which frames, and when the pump stops -----

  datatype Kind = OfText | OfPing | OfClose

  function KindOf(f: Frame): Kind {
    match f
    case Text(_) => OfText
    case Ping => OfPing
    case CloseFrame => OfClose
  }

  function Kinds(frames: seq<Frame>): seq<Kind> {
    seq(|frames|, i requires 0 <= i < |frames| => KindOf(frames[i]))
  }

  /** One frame for every batch that is flushed, every tick and the close, in the order of these steps. */
  function KindsBy(steps: seq<Step>): seq<Kind> {
    if steps == [] then []
    else
      var last := steps[|steps| - 1];
      KindsBy(steps[..|steps| - 1]) +
      (if last == Flush(true) then [OfText] else if last == Tick(true) then [OfPing]
       else if last == SendClose then [OfClose] else [])
  }

  /** A failed write, or the close frame. */
  predicate Ends(st: Step) {
    st == OpenWriter(false) || st == Flush(false) || st == Tick(false) || st == SendClose
  }

  predicate SomeEnds(steps: seq<Step>) {
    exists i :: 0 <= i < |steps| && Ends(steps[i])
  }

  lemma SomeEndsMore(steps: seq<Step>)
    requires steps != []
    ensures SomeEnds(steps) <==> SomeEnds(steps[..|steps| - 1]) || Ends(steps[|steps| - 1])
  {
    var front := steps[..|steps| - 1];
    if SomeEnds(front) {
      var i :| 0 <= i < |front| && Ends(front[i]);
      assert Ends(steps[i]);
    }
    if i :| 0 <= i < |steps| && Ends(steps[i]) {
      assert i < |front| ==> Ends(front[i]);
    }
  }

  /** In every run the frames are one for each of these steps. */
  lemma {:induction false} FramesByStep(steps: seq<Step>)
    requires CanRun(EMPTY, steps)
    ensures Kinds(Exec(EMPTY, steps).sent) == KindsBy(steps)
  {
    if steps != [] {
      var front, last := steps[..|steps| - 1], steps[|steps| - 1];
      FrontRuns(steps);
      FramesByStep(front);
      OneMoreFrame(Exec(EMPTY, front), last);
    }
  }

  lemma OneMoreFrame(s: State, st: Step)
    requires Enabled(s, st)
    ensures Kinds(Next(s, st).sent) == Kinds(s.sent) +
      (if st == Flush(true) then [OfText] else if st == Tick(true) then [OfPing]
       else if st == SendClose then [OfClose] else [])
  {
  }

  lemma OnlyTheseStop(s: State, st: Step)
    requires Enabled(s, st)
    ensures Next(s, st).pump.Stopped? <==> s.pump.Stopped? || Ends(st)
  {
  }

  /** The pump has stopped if and only if a write has failed or the close frame is out. */
  lemma {:induction false} StopsExactly(steps: seq<Step>)
    requires CanRun(EMPTY, steps)
    ensures Exec(EMPTY, steps).pump.Stopped? <==> SomeEnds(steps)
  {
    if steps != [] {
      var front, last := steps[..|steps| - 1], steps[|steps| - 1];
      FrontRuns(steps);
      StopsExactly(front);
      OnlyTheseStop(Exec(EMPTY, front), last);
      SomeEndsMore(steps);
    }
  }

  // ----- after a close -----

  /** The steps of the pump when writes succeed and the ticker is silent. */
  predicate Pumping(st: Step) {
    st == Receive || st == OpenWriter(true) || st == ReceiveMore || st == Flush(true) || st == SendClose
  }

  /** What a closed queue's pump has still to do. */
  function Work(s: State): nat {
    3 * |s.buf| + match s.pump
      case Selecting => 1
      case Taken(_) => 3
      case Writing(_, left) => 2
      case Stopped => 0
  }

  /** A send of an actor; on a closed queue it fails and does nothing. */
  predicate FromActor(st: Step) {
    IsSend(st) && st.recovered
  }

  /** A run of the pump, with actors still sending. */
  predicate CanPump(s: State, steps: seq<Step>)
    decreases |steps|
  {
    steps != [] ==>
      (Pumping(steps[0]) || FromActor(steps[0])) && Enabled(s, steps[0]) && CanPump(Next(s, steps[0]), steps[1..])
  }

  function PumpSteps(steps: seq<Step>): nat {
    if steps == [] then 0 else PumpSteps(steps[1..]) + if Pumping(steps[0]) then 1 else 0
  }

  /** Closed, and either still pumping or done with the close frame. */
  predicate Draining(s: State) {
    Inv(s) && s.closed && !s.panicked && (s.pump.Stopped? ==> CloseFrame in s.sent)
  }

  lemma PumpStep(s: State, st: Step)
    requires Draining(s) && Enabled(s, st) && (Pumping(st) || FromActor(st))
    ensures var n := Next(s, st);
      && Draining(n) && n.accepted == s.accepted
      && Work(n) + (if Pumping(st) then 1 else 0) <= Work(s)
  {
    InvStep(s, st);
    if st.SendClose? {
      var n := Next(s, st);
      assert n.sent[|n.sent| - 1] == CloseFrame;
    }
  }

  lemma PumpIsNotStuck(s: State)
    requires Draining(s) && !s.pump.Stopped?
    ensures exists st :: Pumping(st) && Enabled(s, st)
  {
    var st := match s.pump
      case Selecting => if s.buf == [] then SendClose else Receive
      case Taken(_) => OpenWriter(true)
      case Writing(_, left) => if left == 0 then Flush(true) else ReceiveMore;
    assert Pumping(st) && Enabled(s, st);
  }

  /** After a close, whatever actors still send: the pump is never stuck before it has stopped, every step of its own
      brings it nearer, and when it stops it has sent everything and then the close frame. */
  lemma {:induction false} CloseDrains(s: State, steps: seq<Step>)
    requires Draining(s) && CanPump(s, steps)
    ensures CanRun(s, steps) && PumpSteps(steps) <= Work(s)
    ensures var n := Exec(s, steps);
      && n.accepted == s.accepted
      && (n.pump.Stopped? ==> CloseFrame in n.sent && Delivered(n.sent) == s.accepted)
      && (!n.pump.Stopped? ==> exists st :: Pumping(st) && Enabled(n, st))
    decreases |steps|
  {
    if steps == [] {
      if !s.pump.Stopped? {
        PumpIsNotStuck(s);
      }
    } else {
      PumpStep(s, steps[0]);
      CloseDrains(Next(s, steps[0]), steps[1..]);
    }
  }

  // ----- when a send panics -----

  /** Step `i` finds the queue full and closes it. */
  ghost predicate Overflows(steps: seq<Step>, i: nat) {
    i < |steps| && steps[i].SendToClient? && CanRun(EMPTY, steps[..i]) &&
      var s := Exec(EMPTY, steps[..i]); !s.closed && |s.buf| == CAPACITY
  }

  /** The queue is closed if and only if some send found it full and closed it. */
  lemma {:induction false} ClosedByOverflow(steps: seq<Step>)
    requires CanRun(EMPTY, steps)
    ensures Exec(EMPTY, steps).closed <==> exists i: nat :: Overflows(steps, i)
  {
    if steps != [] {
      var front, last := steps[..|steps| - 1], steps[|steps| - 1];
      assert steps == front + [last];
      AppendStep(EMPTY, front, last);
      ClosedByOverflow(front);
      InvRun(EMPTY, front);
      forall i: nat | i < |front| ensures Overflows(steps, i) <==> Overflows(front, i) {
        assert steps[..i] == front[..i] && steps[i] == front[i];
      }
      assert steps[..|front|] == front;
      assert Overflows(steps, |front|) <==>
          last.SendToClient? && !Exec(EMPTY, front).closed && |Exec(EMPTY, front).buf| == CAPACITY;
    }
  }

  /** A run ends in an unrecovered panic if and only if its last step is a send, of either kind, that nobody recovers,
      and an earlier one had found the queue full and closed it. */
  lemma PanicsExactly(steps: seq<Step>)
    requires CanRun(EMPTY, steps)
    ensures Exec(EMPTY, steps).panicked <==>
      steps != [] && IsSend(steps[|steps| - 1]) && !steps[|steps| - 1].recovered &&
          exists i: nat :: i < |steps| - 1 && Overflows(steps, i)
  {
    if steps != [] {
      var front, last := steps[..|steps| - 1], steps[|steps| - 1];
      assert steps == front + [last];
      AppendStep(EMPTY, front, last);
      ClosedByOverflow(front);
      forall i: nat | i < |front| ensures Overflows(steps, i) <==> Overflows(front, i) {
        assert steps[..i] == front[..i] && steps[i] == front[i];
      }
      var s := Exec(EMPTY, front);
      assert Next(s, last).panicked <==> IsSend(last) && !last.recovered && s.closed;
      if s.closed {
        var i: nat :| Overflows(front, i);
        assert i < |steps| - 1 && Overflows(steps, i);
      }
    }
  }

  function Sends(m: Bytes, n: nat): seq<Step> {
    if n == 0 then [] else Sends(m, n - 1) + [SendToClient(m, false)]
  }

  lemma {:induction false} Filling(m: Bytes, n: nat)
    requires n <= CAPACITY
    ensures CanRun(EMPTY, Sends(m, n))
    ensures var s := Exec(EMPTY, Sends(m, n)); |s.buf| == n && !s.closed && !s.panicked
  {
    if n > 0 {
      Filling(m, n - 1);
      AppendStep(EMPTY, Sends(m, n - 1), SendToClient(m, false));
    }
  }

  /** A client that does not read: the 257th message closes its queue, the 258th panics. */
  lemma PanicIsReachable(m: Bytes)
    ensures CanRun(EMPTY, Sends(m, CAPACITY + 2)) && Exec(EMPTY, Sends(m, CAPACITY + 2)).panicked
  {
    Filling(m, CAPACITY);
    AppendStep(EMPTY, Sends(m, CAPACITY), SendToClient(m, false));
    AppendStep(EMPTY, Sends(m, CAPACITY + 1), SendToClient(m, false));
  }

  // ----- what the browser sees -----

  /** A text frame carries its messages separated by newlines. */
  function Payload(pieces: seq<Bytes>): Bytes
    requires pieces != []
  {
    if |pieces| == 1 then pieces[0] else pieces[0] + [NEWLINE] + Payload(pieces[1..])
  }

  function FirstLine(b: Bytes): nat {
    if b == [] || b[0] == NEWLINE then 0 else 1 + FirstLine(b[1..])
  }

  lemma {:induction false} FirstLineInRange(b: Bytes)
    ensures FirstLine(b) <= |b| && (FirstLine(b) < |b| ==> b[FirstLine(b)] == NEWLINE)
  {
    if b != [] && b[0] != NEWLINE {
      FirstLineInRange(b[1..]);
    }
  }

  function Lines(b: Bytes): seq<Bytes>
    decreases |b|
  {
    FirstLineInRange(b);
    var i := FirstLine(b);
    if i == |b| then [b] else [b[..i]] + Lines(b[i + 1..])
  }

  lemma {:induction false} FirstLineOf(m: Bytes, rest: Bytes)
    requires NEWLINE !in m
    ensures FirstLine(m) == |m| && FirstLine(m + [NEWLINE] + rest) == |m|
  {
    if m != [] {
      assert (m + [NEWLINE] + rest)[1..] == m[1..] + [NEWLINE] + rest;
      FirstLineOf(m[1..], rest);
    }
  }

  /** Splitting a frame on newlines gives its messages back, when none of them contains one. */
  lemma {:induction false} LinesOfPayload(pieces: seq<Bytes>)
    requires pieces != [] && forall i | 0 <= i < |pieces| :: NEWLINE !in pieces[i]
    ensures Lines(Payload(pieces)) == pieces
    decreases |pieces|
  {
    if |pieces| == 1 {
      FirstLineOf(pieces[0], []);
    } else {
      var m, rest := pieces[0], Payload(pieces[1..]);
      FirstLineOf(m, rest);
      LinesOfPayload(pieces[1..]);
      var b := m + [NEWLINE] + rest;
      assert b[..|m|] == m && b[|m| + 1..] == rest;
    }
  }

  function Seen(frames: seq<Frame>): seq<Bytes>
    requires forall i | 0 <= i < |frames| && frames[i].Text? :: frames[i].pieces != []
  {
    if frames == [] then []
    else
      var last := frames[|frames| - 1];
      Seen(frames[..|frames| - 1]) + (if last.Text? then Lines(Payload(last.pieces)) else [])
  }

  lemma {:induction false} SeenIsDelivered(frames: seq<Frame>)
    requires forall i | 0 <= i < |frames| && frames[i].Text? :: frames[i].pieces != []
    requires forall i | 0 <= i < |Delivered(frames)| :: NEWLINE !in Delivered(frames)[i]
    ensures Seen(frames) == Delivered(frames)
  {
    if frames != [] {
      var front, last := frames[..|frames| - 1], frames[|frames| - 1];
      assert forall i | 0 <= i < |Delivered(front)| :: Delivered(front)[i] == Delivered(frames)[i];
      SeenIsDelivered(front);
      if last.Text? {
        assert forall i | 0 <= i < |last.pieces| :: last.pieces[i] == Delivered(frames)[|Delivered(front)| + i];
        LinesOfPayload(last.pieces);
      }
    }
  }

  /** The lines of all frames, in order, are a prefix of the accepted messages, when no message contains a newline. */
  lemma FramesSplitIntoMessages(steps: seq<Step>)
    requires CanRun(EMPTY, steps)
    requires forall i | 0 <= i < |AcceptedBy(steps)| :: NEWLINE !in AcceptedBy(steps)[i]
    ensures var s := Exec(EMPTY, steps);
      && (forall i | 0 <= i < |s.sent| && s.sent[i].Text? :: s.sent[i].pieces != [])
      && Seen(s.sent) <= AcceptedBy(steps)
  {
    InvRun(EMPTY, steps);
    AcceptedExactly(steps);
    var s := Exec(EMPTY, steps);
    assert forall i | 0 <= i < |Delivered(s.sent)| :: Delivered(s.sent)[i] == s.accepted[i];
    SeenIsDelivered(s.sent);
  }
}
