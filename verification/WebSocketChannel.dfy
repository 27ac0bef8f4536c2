/**
  The send channel of a WebSocket connection. A send holds the send lock from its
  check of the flag and of the free capacity to its blocking enqueue; a close sets
  the flag under the lock and enqueues its frame outside it.
 */
module WebSocketChannel {
  import opened SendChannel

  datatype Producer =
    | Free
    | SendChecked(frame: Frame) | SendCounted(frame: Frame)
    | CloseSet(frame: Frame) | CloseCounted(frame: Frame) | CloseUndo(frame: Frame)
  {
    predicate Sending() { SendChecked? || SendCounted? }
    predicate Closing() { CloseSet? || CloseCounted? || CloseUndo? }

    /** The bytes this producer has added to the counter and not put into the queue. */
    function InHand(): nat {
      if SendCounted? || CloseCounted? || CloseUndo? then frame.body else 0
    }
  }

  datatype State = State(line: Line, closed: bool, cancelled: bool, producers: seq<Producer>)

  datatype Step = EnterSend(frame: Frame) | EnterClose(frame: Frame) | Count | Enqueue | Fail | Undo

  datatype Action = Produce(producer: nat, step: Step) | MarkClosed | CancelContext | OnWriter(write: WriterStep)

  function Init(capacity: nat, producers: nat): State {
    State(EmptyLine(capacity), false, false, seq(producers, _ => Free))
  }

  predicate LockFree(s: State) {
    forall p :: 0 <= p < |s.producers| ==> !s.producers[p].Sending()
  }

  function Put(s: State, p: nat, x: Producer): State
    requires p < |s.producers|
  {
    s.(producers := s.producers[p := x])
  }

  /** `Enqueue` of a send is a blocking channel send: it is enabled only when there is room. */
  function ApplyProduce(s: State, p: nat, step: Step): State
    requires p < |s.producers|
  {
    match (step, s.producers[p])
    case (EnterSend(f), Free) =>
      if !LockFree(s) || s.closed || s.line.Full() || f.final then s else Put(s, p, SendChecked(f))
    case (EnterClose(f), Free) =>
      if !LockFree(s) || s.closed || !f.final then s else Put(s, p, CloseSet(f)).(closed := true)
    case (Count, SendChecked(f)) => Put(s, p, SendCounted(f)).(line := s.line.(counter := s.line.counter + f.body))
    case (Count, CloseSet(f)) => Put(s, p, CloseCounted(f)).(line := s.line.(counter := s.line.counter + f.body))
    case (Enqueue, SendCounted(f)) => if s.line.Full() then s else Put(s, p, Free).(line := s.line.Enqueued(f))
    case (Enqueue, CloseCounted(f)) => if s.line.Full() then s else Put(s, p, Free).(line := s.line.Enqueued(f))
    case (Fail, SendChecked(_)) => Put(s, p, Free)
    case (Fail, CloseCounted(f)) => Put(s, p, CloseUndo(f))
    case (Undo, CloseUndo(f)) => Put(s, p, Free).(line := s.line.(counter := s.line.counter - f.body))
    case (_, _) => s
  }

  function Apply(s: State, a: Action): State {
    match a
    case Produce(p, step) => if p < |s.producers| then ApplyProduce(s, p, step) else s
    case MarkClosed => if LockFree(s) then s.(closed := true) else s
    case CancelContext => s.(cancelled := true)
    case OnWriter(step) => if step.Quit? && !s.cancelled then s else s.(line := s.line.Next(step))
  }

  function Exec(capacity: nat, producers: nat, run: seq<Action>): State {
    if run == [] then Init(capacity, producers)
    else Apply(Exec(capacity, producers, run[..|run| - 1]), run[|run| - 1])
  }

  /** The frame a producer has in hand, if any. */
  function Carried(x: Producer): Frame {
    if x.Free? then Frame(0, 0, false) else x.frame
  }

  lemma ProduceEffect(s: State, p: nat, step: Step)
    requires p < |s.producers|
    ensures var t := ApplyProduce(s, p, step);
            var x, y := s.producers[p], t.producers[p];
            && t.producers == s.producers[p := y]
            && HandsOver(s.line, t.line, x.InHand(), y.InHand(), Carried(x))
            && (t.line.accepted != s.line.accepted ==> !x.Free? && t.line.accepted == s.line.accepted + [x.frame])
  {
  }

  /** A new channel is open and empty. */
  lemma StartsEmpty(capacity: nat, producers: nat)
    ensures var s := Exec(capacity, producers, []);
      && !s.closed && !s.cancelled && s.line == EmptyLine(capacity) && |s.producers| == producers
      && forall p :: 0 <= p < producers ==> s.producers[p].Free?
  {
  }

  /** The writer takes its steps beside the producers; it quits an empty queue only when it
      is told to stop. */
  lemma WriterStepsExactly(s: State, step: WriterStep)
    ensures Apply(s, OnWriter(step)).line == if step.Quit? && !s.cancelled then s.line else s.line.Next(step)
    ensures Apply(s, OnWriter(step)) == s.(line := Apply(s, OnWriter(step)).line)
    ensures Apply(s, CancelContext) == s.(cancelled := true)
  {
  }

  /** Who gets in: a send while the channel is open and has room, and the first close, each
      under the lock. */
  lemma EntersExactly(s: State, p: nat, f: Frame)
    requires p < |s.producers| && s.producers[p].Free?
    ensures Apply(s, Produce(p, EnterSend(f))) ==
              if LockFree(s) && !s.closed && !s.line.Full() && !f.final then Put(s, p, SendChecked(f)) else s
    ensures Apply(s, Produce(p, EnterClose(f))) ==
              if LockFree(s) && !s.closed && f.final then Put(s, p, CloseSet(f)).(closed := true) else s
    ensures Apply(s, MarkClosed) == if LockFree(s) then s.(closed := true) else s
  {
  }

  /** What a producer inside does: it counts its bytes, its frame is accepted exactly when
      there is room, and a close that gives up takes its bytes back. */
  lemma ProducesExactly(s: State, p: nat)
    requires p < |s.producers| && !s.producers[p].Free?
    ensures var x := s.producers[p];
      && (Apply(s, Produce(p, Count)).line.counter == s.line.counter + if x.SendChecked? || x.CloseSet? then x.frame.body else 0)
      && (Apply(s, Produce(p, Enqueue)).line != s.line ==> Apply(s, Produce(p, Enqueue)).producers[p].Free?)
      && (Apply(s, Produce(p, Enqueue)).line ==
            if (x.SendCounted? || x.CloseCounted?) && !s.line.Full() then s.line.Enqueued(x.frame) else s.line)
      && (x.SendChecked? ==> Apply(s, Produce(p, Fail)) == Put(s, p, Free))
      && (Apply(s, Produce(p, Fail)).producers[p].CloseUndo? <==> x.CloseUndo? || x.CloseCounted?)
      && (Apply(s, Produce(p, Undo)).line.counter == s.line.counter - if x.CloseUndo? then x.frame.body else 0)
      && (x.CloseUndo? ==> Apply(s, Produce(p, Undo)).producers[p].Free?)
  {
  }

  // The lock and the closing frame.

  /** One send at a time is between its check and its enqueue; it has room, and no close
      has begun. */
  ghost predicate LockInv(s: State) {
    && FinalIsLast(s.line.accepted)
    && (Sealed(s.line.accepted) ==> s.closed)
    && (forall p :: 0 <= p < |s.producers| ==>
          && (s.producers[p].Sending() ==> !s.closed && !s.producers[p].frame.final && !s.line.Full())
          && (s.producers[p].Closing() ==> s.closed && s.producers[p].frame.final && !Sealed(s.line.accepted)))
    && (forall p, q :: 0 <= p < |s.producers| && 0 <= q < |s.producers| && p != q ==>
          !(s.producers[p].Sending() && s.producers[q].Sending()) && !(s.producers[p].Closing() && s.producers[q].Closing()))
  }

  lemma ProduceKeepsLock(s: State, p: nat, step: Step)
    requires LockInv(s) && s.line.InOrder() && p < |s.producers|
    ensures LockInv(ApplyProduce(s, p, step))
  {
  }

  lemma StepKeepsLock(s: State, a: Action)
    requires LockInv(s) && s.line.InOrder()
    ensures LockInv(Apply(s, a))
  {
    if a.Produce? && a.producer < |s.producers| { ProduceKeepsLock(s, a.producer, a.step); }
  }

  // All runs.

  function Hands(producers: seq<Producer>): seq<nat> {
    seq(|producers|, p requires 0 <= p < |producers| => producers[p].InHand())
  }

  lemma StepKeepsLine(s: State, a: Action)
    requires LineInv(s.line, Hands(s.producers))
    ensures var t := Apply(s, a);
            LineInv(t.line, Hands(t.producers)) && t.line.capacity == s.line.capacity
  {
    if a.OnWriter? {
      WriterKeepsLine(s.line, Hands(s.producers), a.write);
    } else if a.Produce? && a.producer < |s.producers| {
      var p, t := a.producer, ApplyProduce(s, a.producer, a.step);
      ProduceEffect(s, p, a.step);
      ProducerKeepsLine(s.line, t.line, Hands(s.producers), p, t.producers[p].InHand(), Carried(s.producers[p]));
      assert Hands(t.producers) == Hands(s.producers)[p := t.producers[p].InHand()];
    }
  }

  lemma {:induction false} RunKeepsInv(capacity: nat, producers: nat, run: seq<Action>)
    ensures var s := Exec(capacity, producers, run);
            LineInv(s.line, Hands(s.producers)) && LockInv(s) && s.line.capacity == capacity
  {
    if run == [] {
      EmptyLineInv(capacity, Hands(Init(capacity, producers).producers));
    } else {
      var before, a := run[..|run| - 1], run[|run| - 1];
      RunKeepsInv(capacity, producers, before);
      StepKeepsLine(Exec(capacity, producers, before), a);
      StepKeepsLock(Exec(capacity, producers, before), a);
    }
  }

  /** The frames written are a prefix of the frames accepted, and what is accepted but
      not taken is exactly the queue. */
  lemma WrittenIsPrefixOfAccepted(capacity: nat, producers: nat, run: seq<Action>)
    ensures var l := Exec(capacity, producers, run).line;
            l.written <= l.accepted && l.accepted == l.taken + l.queue && |l.queue| <= capacity
  {
    RunKeepsInv(capacity, producers, run);
    LineIsExact(Exec(capacity, producers, run).line, Hands(Exec(capacity, producers, run).producers));
  }

  /** A send that has passed its check, and so holds the lock, is never blocked: its
      enqueue succeeds whatever the others have done since. */
  lemma SendNeverBlocks(capacity: nat, producers: nat, run: seq<Action>, p: nat)
    requires p < |Exec(capacity, producers, run).producers| && Exec(capacity, producers, run).producers[p].SendCounted?
    ensures var s := Exec(capacity, producers, run);
            !s.line.Full() && Apply(s, Produce(p, Enqueue)).line.accepted == s.line.accepted + [s.producers[p].frame]
  {
    RunKeepsInv(capacity, producers, run);
  }

  lemma SealedStays(s: State, a: Action)
    requires LockInv(s) && s.line.InOrder()
    ensures Sealed(s.line.accepted) ==> Apply(s, a).line.accepted == s.line.accepted
  {
    if a.Produce? && a.producer < |s.producers| {
      ProduceEffect(s, a.producer, a.step);
    } else if a.OnWriter? {
      s.line.WriterKeepsOrder(a.write);
    }
  }

  /** At most one closing frame is ever accepted, and nothing is accepted after it: not in
      this run, nor in any way it goes on. */
  lemma {:induction false} ClosingFrameIsLast(capacity: nat, producers: nat, run: seq<Action>, more: seq<Action>)
    ensures FinalIsLast(Exec(capacity, producers, run).line.accepted)
    ensures Sealed(Exec(capacity, producers, run).line.accepted) ==>
              Exec(capacity, producers, run + more).line.accepted == Exec(capacity, producers, run).line.accepted
  {
    RunKeepsInv(capacity, producers, run);
    if more == [] {
      assert run + more == run;
    } else {
      var before, a := run + more[..|more| - 1], more[|more| - 1];
      ClosingFrameIsLast(capacity, producers, run, more[..|more| - 1]);
      RunKeepsInv(capacity, producers, before);
      assert (run + more)[..|run + more| - 1] == before;
      SealedStays(Exec(capacity, producers, before), a);
    }
  }

  /** The byte counter is what is queued or being handed over, so it is never negative. */
  lemma CounterIsExact(capacity: nat, producers: nat, run: seq<Action>)
    ensures var s := Exec(capacity, producers, run);
            s.line.Balanced(Sum(Hands(s.producers))) && Bodies(s.line.queue) <= s.line.counter
  {
    RunKeepsInv(capacity, producers, run);
    LineIsExact(Exec(capacity, producers, run).line, Hands(Exec(capacity, producers, run).producers));
  }

  datatype Outcome = Sent | Unencodable | ConnectionClosed | QueueFull | Cancelled

  /** The channel object. Without interference a call's handing over is complete when it
      returns, so the counter is exactly what is queued. */
  class Channel {
    const capacity: nat
    var outbound: seq<Frame>
    var closed: bool
    var pendingPayloadBytes: int
    var queueDropped: nat

    ghost predicate Valid()
      reads this
    {
      |outbound| <= capacity && pendingPayloadBytes == Bodies(outbound)
    }

    constructor (capacity: nat)
      ensures Valid() && this.capacity == capacity && outbound == [] && !closed && queueDropped == 0
    {
      this.capacity := capacity;
      outbound, closed, pendingPayloadBytes, queueDropped := [], false, 0, 0;
    }

    /** The flag and the capacity are checked before the frame is encoded at all. */
    method EnqueueFrame(f: Frame, encodable: bool) returns (r: Outcome)
      requires Valid()
      modifies this
      ensures Valid() && closed == old(closed)
      ensures r == if closed then ConnectionClosed else if |old(outbound)| == capacity then QueueFull
                   else if encodable then Sent else Unencodable
      ensures outbound == if r.Sent? then old(outbound) + [f] else old(outbound)
      ensures queueDropped == old(queueDropped) + if r.QueueFull? then 1 else 0
    {
      if closed { return ConnectionClosed; }
      if |outbound| == capacity {
        queueDropped := queueDropped + 1;
        return QueueFull;
      }
      if !encodable { return Unencodable; }
      BodiesAppend(outbound, f);
      pendingPayloadBytes := pendingPayloadBytes + f.body;
      outbound := outbound + [f];
      r := Sent;
    }

    /** The frame is encoded first; a frame that cannot be encoded leaves the channel open.
        `cancelled` is the context or the writer ending before there is room. */
    method CloseWithProto(f: Frame, encodable: bool, cancelled: bool) returns (r: Outcome)
      requires Valid() && (!closed && encodable && |outbound| == capacity ==> cancelled)
      modifies this
      ensures Valid() && queueDropped == old(queueDropped)
      ensures r == if !encodable then Unencodable else if old(closed) then ConnectionClosed
                   else if cancelled then Cancelled else Sent
      ensures closed == (old(closed) || encodable)
      ensures outbound == if r.Sent? then old(outbound) + [f] else old(outbound)
    {
      if !encodable { return Unencodable; }
      if closed { return ConnectionClosed; }
      closed := true;
      pendingPayloadBytes := pendingPayloadBytes + f.body;
      if cancelled {
        pendingPayloadBytes := pendingPayloadBytes - f.body;
        return Cancelled;
      }
      BodiesAppend(outbound, f);
      outbound := outbound + [f];
      r := Sent;
    }

    /** The frame the writer writes next; nothing is taken out of order. */
    method Next() returns (taken: seq<Frame>)
      requires Valid()
      modifies this
      ensures Valid() && closed == old(closed) && queueDropped == old(queueDropped)
      ensures old(outbound) == taken + outbound && |taken| == if old(outbound) == [] then 0 else 1
    {
      taken := outbound[..if outbound == [] then 0 else 1];
      if outbound != [] {
        BodiesHead(outbound);
        outbound, pendingPayloadBytes := outbound[1..], pendingPayloadBytes - outbound[0].body;
      }
    }
  }
}
