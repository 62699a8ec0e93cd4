/**
 A client connection as the program keeps it, with the write pump as a loop. Producers run in between: each point at
 which they may do so takes a list of their sends. Every method is a run of the steps of `SendQueue`.
 */
module WsClient {
  import opened Common
  import opened SendQueue

  /** The run `steps` leads from `s` to `t`. */
  ghost predicate Ran(s: State, steps: seq<Step>, t: State) {
    CanRun(s, steps) && Exec(s, steps) == t
  }

  lemma RanOne(s: State, st: Step)
    requires Enabled(s, st)
    ensures Ran(s, [], s) && Ran(s, [st], Next(s, st))
  {
    assert [st][1..] == [];
    assert CanRun(Next(s, st), []) && Exec(Next(s, st), []) == Next(s, st);
  }

  lemma {:induction false} RanThen(s: State, a: seq<Step>, t: State, b: seq<Step>, u: State)
    requires Ran(s, a, t) && Ran(t, b, u)
    ensures Ran(s, a + b, u)
    decreases |a|
  {
    if a == [] {
      assert a + b == b;
    } else {
      assert (a + b)[1..] == a[1..] + b;
      RanThen(Next(s, a[0]), a[1..], t, b, u);
    }
  }

  lemma RanOneMore(s: State, a: seq<Step>, t: State, st: Step)
    requires Ran(s, a, t) && Enabled(t, st)
    ensures Ran(s, a + [st], Next(t, st))
    ensures Inv(s) ==> Inv(t) && Inv(Next(t, st))
  {
    RanOne(t, st);
    RanThen(s, a, t, [st], Next(t, st));
    if Inv(s) {
      InvRun(s, a);
      InvStep(t, st);
    }
  }

  /** The first of the queued messages moves over to the frame, though others have come in at the back. */
  lemma MovesOver(pieces: seq<Bytes>, queued: seq<Bytes>, now: seq<Bytes>, left: nat)
    requires 0 < left <= |queued| && queued <= now
    ensures pieces + [now[0]] + now[1..][..left - 1] == pieces + queued[..left]
  {
    assert queued[..left] == [now[0]] + now[1..][..left - 1];
  }

  /** One send of a producer: `closes` tells which of the two ways to treat a full queue, `recovered` whether it is
      made where a panic is recovered. */
  datatype Send = Send(message: Bytes, closes: bool, recovered: bool)

  /** One turn of the pump's loop: the sends before it, which case of the select is ready, whether the writes succeed,
      and the sends while the batch is written. */
  datatype Turn = Turn(before: seq<Send>, tick: bool, opens: bool, during: nat -> seq<Send>, flushes: bool)

  /** Nobody sends while the batch is written. */
  ghost predicate Quiet(turn: Turn) {
    forall k :: turn.during(k) == []
  }

  /** A turn for the queue alone, in which nobody sends and all writes succeed. */
  ghost predicate Plain(turn: Turn) {
    turn.before == [] && !turn.tick && turn.opens && turn.flushes && Quiet(turn)
  }

  class WSClient {
    const id: nat
    var userID: int
    var currentRoom: string
    var send: seq<Bytes>
    var sendClosed: bool
    var frames: seq<Frame>        // what the connection was given
    var panicked: bool            // the process is gone
    ghost var accepted: seq<Bytes>
    ghost var pump: Pump

    constructor (id: nat)
      ensures this.id == id && userID == 0 && currentRoom == "" && Queue() == EMPTY
    {
      this.id, userID, currentRoom := id, 0, "";
      send, sendClosed, frames, panicked, accepted, pump := [], false, [], false, [], Selecting;
    }

    ghost function Queue(): State
      reads this
    {
      State(send, sendClosed, accepted, frames, pump, panicked)
    }

    /** Closes a full queue; panics on a closed one. */
    method SendToClient(data: Bytes, recovered: bool)
      requires !panicked
      modifies this`send, this`sendClosed, this`panicked, this`accepted
      ensures Queue() == Next(old(Queue()), Step.SendToClient(data, recovered))
      ensures send == if old(!sendClosed && |send| < CAPACITY) then old(send) + [data] else old(send)
      ensures sendClosed == (old(sendClosed) || old(|send|) >= CAPACITY) && panicked == (old(sendClosed) && !recovered)
    {
      if sendClosed {
        panicked := !recovered;
      } else if |send| < CAPACITY {
        send, accepted := send + [data], accepted + [data];
      } else {
        sendClosed := true;
      }
    }

    /** Drops the message when the queue is full; panics on a closed one. */
    method SendToUser(data: Bytes, recovered: bool)
      requires !panicked
      modifies this`send, this`panicked, this`accepted
      ensures Queue() == Next(old(Queue()), Step.SendToUser(data, recovered))
      ensures send == if old(!sendClosed && |send| < CAPACITY) then old(send) + [data] else old(send)
      ensures sendClosed == old(sendClosed) && panicked == (old(sendClosed) && !recovered)
    {
      if sendClosed {
        panicked := !recovered;
      } else if |send| < CAPACITY {
        send, accepted := send + [data], accepted + [data];
      }
    }

    /** Sends of other goroutines, up to a panic that nobody recovers. */
    method Others(sends: seq<Send>, ghost s: State, ghost steps: seq<Step>) returns (ghost more: seq<Step>)
      requires Inv(s) && Ran(s, steps, Queue())
      modifies this`send, this`sendClosed, this`panicked, this`accepted
      ensures Ran(s, more, Queue()) && Inv(Queue()) && old(send) <= send
      ensures sends == [] ==> Queue() == old(Queue())
    {
      more := steps;
      InvRun(s, steps);
      for i := 0 to |sends|
        invariant old(send) <= send && (i == 0 ==> Queue() == old(Queue()))
        invariant Ran(s, more, Queue()) && Inv(Queue()) && frames == old(frames) && pump == old(pump)
      {
        if panicked {
          return;
        }
        var m := sends[i].message;
        ghost var st := if sends[i].closes then Step.SendToClient(m, sends[i].recovered)
            else Step.SendToUser(m, sends[i].recovered);
        RanOneMore(s, more, Queue(), st);
        if sends[i].closes {
          SendToClient(m, sends[i].recovered);
        } else {
          SendToUser(m, sends[i].recovered);
        }
        more := more + [st];
      }
    }

    /** One receive of the inner loop, after the sends of others. */
    method TakeOne(sends: seq<Send>, pieces: seq<Bytes>, ghost left: nat, ghost s: State, ghost steps: seq<Step>)
        returns (r: seq<Bytes>, ghost more: seq<Step>)
      requires Inv(s) && Ran(s, steps, Queue()) && Inv(Queue()) && pump == Writing(pieces, left) && 0 < left <= |send|
      modifies this`send, this`sendClosed, this`panicked, this`accepted, this`pump
      ensures Ran(s, more, Queue()) && Inv(Queue())
      ensures panicked || (pump == Writing(r, left - 1) && left - 1 <= |send|)
      ensures panicked || r + send[..left - 1] == pieces + old(send[..left])
      ensures sends == [] && !old(panicked) ==>
        !panicked && sendClosed == old(sendClosed) && |send| == old(|send|) - 1
    {
      ghost var queued := send;
      more := Others(sends, s, steps);
      r := pieces;
      if panicked {
        return;
      }
      MovesOver(pieces, queued, send, left);
      RanOneMore(s, more, Queue(), ReceiveMore);
      r := pieces + [send[0]];
      send, pump, more := send[1..], Writing(r, left - 1), more + [ReceiveMore];
    }

    /** The inner loop: as many receives as there were messages when the frame was opened. */
    method Collect(turn: Turn, message: Bytes, ghost s: State, ghost steps: seq<Step>)
        returns (pieces: seq<Bytes>, ghost more: seq<Step>)
      requires Inv(s) && Ran(s, steps, Queue()) && Inv(Queue()) && pump == Writing([message], |send|)
      modifies this`send, this`sendClosed, this`panicked, this`accepted, this`pump
      ensures Ran(s, more, Queue()) && Inv(Queue())
      ensures panicked || (pump == Writing(pieces, 0) && pieces == [message] + old(send))
      ensures Quiet(turn) && !old(panicked) ==> send == [] && !panicked && sendClosed == old(sendClosed)
    {
      pieces, more := [message], steps;
      var n := |send|;
      assert send[..n] == send;
      for i := 0 to n
        invariant Quiet(turn) && !old(panicked) ==>
            |send| == n - i && !panicked && sendClosed == old(sendClosed)
        invariant |send| >= n - i && pieces + send[..n - i] == [message] + old(send)
        invariant pump == Writing(pieces, n - i) && Ran(s, more, Queue()) && Inv(Queue())
      {
        pieces, more := TakeOne(turn.during(i), pieces, n - i, s, more);
        if panicked {
          return;
        }
      }
    }

    /** The message case of the select: one frame for the first message and all that are queued when it is opened. */
    method WriteBatch(turn: Turn, ghost s: State, ghost steps: seq<Step>) returns (ok: bool, ghost more: seq<Step>)
      requires Inv(s) && Ran(s, steps, Queue()) && pump == Selecting && send != [] && !panicked
      modifies this`send, this`sendClosed, this`panicked, this`accepted, this`frames, this`pump
      ensures Ran(s, more, Queue())
      ensures !panicked ==> ok == (turn.opens && turn.flushes) && pump == (if ok then Selecting else Stopped)
      ensures !panicked ==> frames == old(frames) + if ok then [Text(old(send))] else []
      ensures Quiet(turn) ==> !panicked
      ensures Plain(turn) ==> send == [] && sendClosed == old(sendClosed)
    {
      RanOneMore(s, steps, Queue(), Receive);
      var message := send[0];
      assert [message] + send[1..] == send;
      send, pump, more := send[1..], Taken(message), steps + [Receive];
      RanOneMore(s, more, Queue(), OpenWriter(turn.opens));
      more := more + [OpenWriter(turn.opens)];
      pump := if turn.opens then Writing([message], |send|) else Stopped;
      if !turn.opens {
        return false, more;
      }
      var pieces: seq<Bytes>;
      pieces, more := Collect(turn, message, s, more);
      ok := turn.flushes;
      if panicked {
        return;
      }
      RanOneMore(s, more, Queue(), Flush(ok));
      more := more + [Flush(ok)];
      if ok {
        frames := frames + [Text(pieces)];
      }
      pump := if ok then Selecting else Stopped;
    }

    /** One turn of the loop: what the select finds. */
    method OneTurn(turn: Turn, ghost s: State, ghost steps: seq<Step>) returns (running: bool, ghost more: seq<Step>)
      requires Inv(s) && Ran(s, steps, Queue()) && pump == Selecting && !panicked
      modifies this`send, this`sendClosed, this`panicked, this`accepted, this`frames, this`pump
      ensures Ran(s, more, Queue()) && Inv(Queue()) && (running ==> panicked || pump == Selecting)
      ensures turn.before == [] && turn.tick && turn.flushes ==> running && frames == old(frames) + [Ping]
      ensures Plain(turn) ==> !panicked && send == [] && sendClosed == old(sendClosed)
      ensures Plain(turn) ==> (running <==> old(send) != [] || !sendClosed) && (running || CloseFrame in frames)
    {
      more := Others(turn.before, s, steps);
      running := true;
      if panicked {
        return;
      }
      if turn.tick {
        running := turn.flushes;
        RanOneMore(s, more, Queue(), Tick(running));
        more := more + [Tick(running)];
        if running {
          frames := frames + [Ping];
        }
        pump := if running then Selecting else Stopped;
      } else if send != [] {
        running, more := WriteBatch(turn, s, more);
        InvRun(s, more);
      } else if sendClosed {
        RanOneMore(s, more, Queue(), SendClose);
        frames, pump, more, running := frames + [CloseFrame], Stopped, more + [SendClose], false;
        assert frames[|frames| - 1] == CloseFrame;
      }
    }

    /** The pump, for as many turns as given, or until the process panics. It is a run of the step system, so the
        frames hold the accepted messages in order, and a close frame comes last, once, and after all of them. A turn
        that nothing disturbs empties the queue, and two of them finish a closed one. */
    method WritePump(turns: seq<Turn>) returns (ghost steps: seq<Step>)
      requires Inv(Queue()) && pump == Selecting
      modifies this`send, this`sendClosed, this`panicked, this`accepted, this`frames, this`pump
      ensures Ran(old(Queue()), steps, Queue())
      ensures Delivered(frames) <= accepted
      ensures CloseFrame in frames ==>
        Delivered(frames) == accepted && frames[|frames| - 1] == CloseFrame && CloseFrame !in frames[..|frames| - 1]
      ensures !old(panicked) && |turns| >= 1 && (forall i | 0 <= i < |turns| :: Plain(turns[i])) ==> send == []
      ensures !old(panicked) && old(sendClosed) && |turns| >= 2 && (forall i | 0 <= i < |turns| :: Plain(turns[i])) ==>
        CloseFrame in frames
    {
      ghost var s := Queue();
      ghost var plain := !panicked && forall i | 0 <= i < |turns| :: Plain(turns[i]);
      steps := [];
      var i, running := 0, true;
      while running && !panicked && i < |turns|
        invariant 0 <= i <= |turns| && Ran(s, steps, Queue()) && Inv(Queue())
        invariant running ==> panicked || pump == Selecting
        invariant plain ==> !panicked && sendClosed == old(sendClosed) && (i >= 1 ==> send == [])
        invariant plain && (!running || (i >= 2 && sendClosed)) ==> i >= 1 && CloseFrame in frames
        decreases |turns| - i
      {
        running, steps := OneTurn(turns[i], s, steps);
        i := i + 1;
      }
    }
  }
}
