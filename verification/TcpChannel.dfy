/**
  The send channel of a TCP connection. Any number of producers push, reply and
  close; one writer takes the frames. A push holds the read lock from its check to
  its enqueue; a reply announces itself under the lock and enqueues outside it; a
  close sets the flag under the lock, waits for the announced replies, and then
  enqueues the closing frame. The byte counter is changed in steps of its own.
 */
module TcpChannel {
  import opened SendChannel

  datatype Producer =
    | Free
    | PushChecked(frame: Frame) | PushCounted(frame: Frame) | PushUndo(frame: Frame)
    | ReplyChecked(frame: Frame) | ReplyCounted(frame: Frame) | ReplyUndo(frame: Frame)
    | CloseSet(frame: Frame) | CloseWaited(frame: Frame) | CloseCounted(frame: Frame) | CloseUndo(frame: Frame)
  {
    predicate Pushing() { PushChecked? || PushCounted? || PushUndo? }
    predicate Replying() { ReplyChecked? || ReplyCounted? || ReplyUndo? }
    predicate Closing() { CloseSet? || CloseWaited? || CloseCounted? || CloseUndo? }

    /** The bytes this producer has added to the counter and not put into the queue. */
    function InHand(): nat {
      if PushCounted? || PushUndo? || ReplyCounted? || ReplyUndo? || CloseCounted? || CloseUndo? then frame.body else 0
    }
  }

  datatype State = State(line: Line, closed: bool, stopped: bool, producers: seq<Producer>)

  datatype Step =
    | EnterPush(frame: Frame) | EnterReply(frame: Frame) | EnterClose(frame: Frame)
    | WaitReplies | Count | Enqueue | Fail | Undo

  datatype Action = Produce(producer: nat, step: Step) | StopChannel | OnWriter(write: WriterStep)

  function Init(capacity: nat, producers: nat): State {
    State(EmptyLine(capacity), false, false, seq(producers, _ => Free))
  }

  /** The write lock is free when no push is inside its read lock. */
  predicate WriteLockFree(s: State) {
    forall p :: 0 <= p < |s.producers| ==> !s.producers[p].Pushing()
  }

  predicate RepliesDone(s: State) {
    forall p :: 0 <= p < |s.producers| ==> !s.producers[p].Replying()
  }

  function Put(s: State, p: nat, x: Producer): State
    requires p < |s.producers|
  {
    s.(producers := s.producers[p := x])
  }

  function ApplyEnter(s: State, p: nat, step: Step): State
    requires p < |s.producers| && (step.EnterPush? || step.EnterReply? || step.EnterClose?)
  {
    if !s.producers[p].Free? || s.closed then s
    else match step
      case EnterPush(f) => if f.final then s else Put(s, p, PushChecked(f))
      case EnterReply(f) => if f.final || !WriteLockFree(s) then s else Put(s, p, ReplyChecked(f))
      case EnterClose(f) => if !f.final || !WriteLockFree(s) then s else Put(s, p, CloseSet(f)).(closed := true)
  }

  function Counted(x: Producer): Producer {
    match x
    case PushChecked(f) => PushCounted(f)
    case ReplyChecked(f) => ReplyCounted(f)
    case CloseWaited(f) => CloseCounted(f)
    case _ => x
  }

  predicate CanEnqueue(x: Producer) { x.PushCounted? || x.ReplyCounted? || x.CloseCounted? }

  /** A push gives up only when the queue is full; the others when their context ends,
      the channel closes or the writer has stopped. */
  function GivenUp(s: State, x: Producer): Producer {
    match x
    case PushCounted(f) => if s.line.Full() then PushUndo(f) else x
    case ReplyCounted(f) => ReplyUndo(f)
    case CloseCounted(f) => CloseUndo(f)
    case _ => x
  }

  function ApplyProduce(s: State, p: nat, step: Step): State
    requires p < |s.producers|
  {
    var x := s.producers[p];
    match step
    case EnterPush(_) => ApplyEnter(s, p, step)
    case EnterReply(_) => ApplyEnter(s, p, step)
    case EnterClose(_) => ApplyEnter(s, p, step)
    case WaitReplies => if x.CloseSet? && RepliesDone(s) then Put(s, p, CloseWaited(x.frame)) else s
    case Count =>
      if Counted(x) == x then s else Put(s, p, Counted(x)).(line := s.line.(counter := s.line.counter + x.frame.body))
    case Enqueue =>
      if !CanEnqueue(x) || s.line.Full() then s else Put(s, p, Free).(line := s.line.Enqueued(x.frame))
    case Fail => Put(s, p, GivenUp(s, x))
    case Undo =>
      if x.PushUndo? || x.ReplyUndo? || x.CloseUndo?
      then Put(s, p, Free).(line := s.line.(counter := s.line.counter - x.frame.body)) else s
  }

  function Apply(s: State, a: Action): State {
    match a
    case Produce(p, step) => if p < |s.producers| then ApplyProduce(s, p, step) else s
    case StopChannel => if WriteLockFree(s) then s.(closed := true, stopped := true) else s
    case OnWriter(step) => if step.Quit? && !s.stopped then s else s.(line := s.line.Next(step))
  }

  function Exec(capacity: nat, producers: nat, run: seq<Action>): State {
    if run == [] then Init(capacity, producers)
    else Apply(Exec(capacity, producers, run[..|run| - 1]), run[|run| - 1])
  }

  /** The frame a producer has in hand, if any. */
  function Carried(x: Producer): Frame {
    if x.Free? then Frame(0, 0, false) else x.frame
  }

  lemma ProduceEffect(s: State, p: nat, step: Step)
    requires p < |s.producers|
    ensures var t := ApplyProduce(s, p, step);
            var x, y := s.producers[p], t.producers[p];
            && t.producers == s.producers[p := y]
            && HandsOver(s.line, t.line, x.InHand(), y.InHand(), Carried(x))
            && (t.line.accepted != s.line.accepted ==> !x.Free? && t.line.accepted == s.line.accepted + [x.frame])
  {
  }

  /** A new channel is open and empty. */
  lemma StartsEmpty(capacity: nat, producers: nat)
    ensures var s := Exec(capacity, producers, []);
      && !s.closed && !s.stopped && s.line == EmptyLine(capacity) && |s.producers| == producers
      && forall p :: 0 <= p < producers ==> s.producers[p].Free?
  {
  }

  /** The writer takes its steps beside the producers; it quits an empty queue only when it
      is told to stop. */
  lemma WriterStepsExactly(s: State, step: WriterStep)
    ensures Apply(s, OnWriter(step)).line == if step.Quit? && !s.stopped then s.line else s.line.Next(step)
    ensures Apply(s, OnWriter(step)) == s.(line := Apply(s, OnWriter(step)).line)
  {
  }

  /** Who gets in: a push while the channel is open, a reply and a close under the write
      lock; the first close shuts it for all. */
  lemma EntersExactly(s: State, p: nat, f: Frame)
    requires p < |s.producers| && s.producers[p].Free?
    ensures Apply(s, Produce(p, EnterPush(f))) == if !s.closed && !f.final then Put(s, p, PushChecked(f)) else s
    ensures Apply(s, Produce(p, EnterReply(f))) == if !s.closed && !f.final && WriteLockFree(s) then Put(s, p, ReplyChecked(f)) else s
    ensures Apply(s, Produce(p, EnterClose(f))) ==
              if !s.closed && f.final && WriteLockFree(s) then Put(s, p, CloseSet(f)).(closed := true) else s
    ensures Apply(s, StopChannel) == if WriteLockFree(s) then s.(closed := true, stopped := true) else s
  {
  }

  predicate Ahead(x: Producer) { x.PushChecked? || x.ReplyChecked? || x.CloseWaited? }

  predicate Behind(x: Producer) { x.PushUndo? || x.ReplyUndo? || x.CloseUndo? }

  /** What a producer inside does: it counts its bytes, its frame is accepted exactly when
      there is room, a push gives up exactly when there is none, and whoever gives up takes
      its bytes back. A close counts only after the replies announced before it are done. */
  lemma ProducesExactly(s: State, p: nat)
    requires p < |s.producers| && !s.producers[p].Free?
    ensures var x := s.producers[p];
      && (Apply(s, Produce(p, Count)).line.counter == s.line.counter + if Ahead(x) then x.frame.body else 0)
      && (Apply(s, Produce(p, Enqueue)).line != s.line ==> Apply(s, Produce(p, Enqueue)).producers[p].Free?)
      && (Apply(s, Produce(p, Enqueue)).line ==
            if (x.PushCounted? || x.ReplyCounted? || x.CloseCounted?) && !s.line.Full() then s.line.Enqueued(x.frame) else s.line)
      && (Behind(Apply(s, Produce(p, Fail)).producers[p]) <==>
            Behind(x) || (x.PushCounted? && s.line.Full()) || x.ReplyCounted? || x.CloseCounted?)
      && (Apply(s, Produce(p, Undo)).line.counter == s.line.counter - if Behind(x) then x.frame.body else 0)
      && (Behind(x) ==> Apply(s, Produce(p, Undo)).producers[p].Free?)
      && (Apply(s, Produce(p, WaitReplies)).producers[p].CloseWaited? <==> 
            x.CloseWaited? || (x.CloseSet? && forall q :: 0 <= q < |s.producers| ==> !s.producers[q].Replying()))
  {
  }

  // The closing frame.

  /** Who may still enqueue at each stage of a close. */
  ghost predicate CloseInv(s: State) {
    && FinalIsLast(s.line.accepted)
    && (forall p :: 0 <= p < |s.producers| ==>
          && !(s.producers[p].Pushing() && (s.closed || s.producers[p].frame.final))
          && !(s.producers[p].Replying() && s.producers[p].frame.final)
          && (s.producers[p].Closing() ==> s.closed && s.producers[p].frame.final && !Sealed(s.line.accepted)))
    && (forall p, q :: 0 <= p < |s.producers| && 0 <= q < |s.producers| && p != q && s.producers[p].Closing() ==>
          !s.producers[q].Closing() && (s.producers[q].Replying() ==> s.producers[p].CloseSet?))
    && (Sealed(s.line.accepted) ==> s.closed && forall p :: 0 <= p < |s.producers| ==> !s.producers[p].Replying())
  }

  lemma ProduceKeepsClose(s: State, p: nat, step: Step)
    requires CloseInv(s) && p < |s.producers|
    ensures CloseInv(ApplyProduce(s, p, step))
  {
  }

  lemma StepKeepsClose(s: State, a: Action)
    requires CloseInv(s)
    ensures CloseInv(Apply(s, a))
  {
    if a.Produce? && a.producer < |s.producers| { ProduceKeepsClose(s, a.producer, a.step); }
  }

  // All runs.

  function Hands(producers: seq<Producer>): seq<nat> {
    seq(|producers|, p requires 0 <= p < |producers| => producers[p].InHand())
  }

  lemma StepKeepsLine(s: State, a: Action)
    requires LineInv(s.line, Hands(s.producers))
    ensures var t := Apply(s, a);
            LineInv(t.line, Hands(t.producers)) && t.line.capacity == s.line.capacity
  {
    if a.OnWriter? {
      WriterKeepsLine(s.line, Hands(s.producers), a.write);
    } else if a.Produce? && a.producer < |s.producers| {
      var p, t := a.producer, ApplyProduce(s, a.producer, a.step);
      ProduceEffect(s, p, a.step);
      ProducerKeepsLine(s.line, t.line, Hands(s.producers), p, t.producers[p].InHand(), Carried(s.producers[p]));
      assert Hands(t.producers) == Hands(s.producers)[p := t.producers[p].InHand()];
    }
  }

  lemma {:induction false} RunKeepsInv(capacity: nat, producers: nat, run: seq<Action>)
    ensures var s := Exec(capacity, producers, run);
            LineInv(s.line, Hands(s.producers)) && CloseInv(s) && s.line.capacity == capacity
  {
    if run == [] {
      EmptyLineInv(capacity, Hands(Init(capacity, producers).producers));
    } else {
      var before, a := run[..|run| - 1], run[|run| - 1];
      RunKeepsInv(capacity, producers, before);
      StepKeepsLine(Exec(capacity, producers, before), a);
      StepKeepsClose(Exec(capacity, producers, before), a);
    }
  }

  /** The frames written are a prefix of the frames accepted, and what is accepted but
      not taken is exactly the queue. */
  lemma WrittenIsPrefixOfAccepted(capacity: nat, producers: nat, run: seq<Action>)
    ensures var l := Exec(capacity, producers, run).line;
            l.written <= l.accepted && l.accepted == l.taken + l.queue && |l.queue| <= capacity
  {
    RunKeepsInv(capacity, producers, run);
    LineIsExact(Exec(capacity, producers, run).line, Hands(Exec(capacity, producers, run).producers));
  }

  lemma SealedStays(s: State, a: Action)
    requires CloseInv(s) && s.line.InOrder()
    ensures Sealed(s.line.accepted) ==> Apply(s, a).line.accepted == s.line.accepted
  {
    if a.Produce? && a.producer < |s.producers| {
      ProduceEffect(s, a.producer, a.step);
    } else if a.OnWriter? {
      s.line.WriterKeepsOrder(a.write);
    }
  }

  /** At most one closing frame is ever accepted, and nothing is accepted after it: not in
      this run, nor in any way it goes on. */
  lemma {:induction false} ClosingFrameIsLast(capacity: nat, producers: nat, run: seq<Action>, more: seq<Action>)
    ensures FinalIsLast(Exec(capacity, producers, run).line.accepted)
    ensures Sealed(Exec(capacity, producers, run).line.accepted) ==>
              Exec(capacity, producers, run + more).line.accepted == Exec(capacity, producers, run).line.accepted
  {
    RunKeepsInv(capacity, producers, run);
    if more == [] {
      assert run + more == run;
    } else {
      var before, a := run + more[..|more| - 1], more[|more| - 1];
      ClosingFrameIsLast(capacity, producers, run, more[..|more| - 1]);
      RunKeepsInv(capacity, producers, before);
      assert (run + more)[..|run + more| - 1] == before;
      SealedStays(Exec(capacity, producers, before), a);
    }
  }

  /** The byte counter is what is queued or being handed over, so it is never negative. */
  lemma CounterIsExact(capacity: nat, producers: nat, run: seq<Action>)
    ensures var s := Exec(capacity, producers, run);
            s.line.Balanced(Sum(Hands(s.producers))) && Bodies(s.line.queue) <= s.line.counter
  {
    RunKeepsInv(capacity, producers, run);
    LineIsExact(Exec(capacity, producers, run).line, Hands(Exec(capacity, producers, run).producers));
  }

  datatype Outcome = Sent | InvalidFrame | ConnectionClosed | QueueFull | Cancelled

  /** The channel object. Without interference a call's handing over is complete when it
      returns, so the counter is exactly what is queued. */
  class Channel {
    const capacity: nat
    var outbound: seq<Frame>
    var closed: bool
    var stopped: bool
    var pendingBytes: int
    var dropped: nat

    ghost predicate Valid()
      reads this
    {
      |outbound| <= capacity && pendingBytes == Bodies(outbound) && (stopped ==> closed)
    }

    constructor (capacity: nat)
      ensures Valid() && this.capacity == capacity && outbound == [] && !closed && dropped == 0
    {
      this.capacity := capacity;
      outbound, closed, stopped, pendingBytes, dropped := [], false, false, 0, 0;
    }

    method Push(f: Frame, valid: bool) returns (r: Outcome)
      requires Valid()
      modifies this
      ensures Valid() && closed == old(closed) && stopped == old(stopped)
      ensures r == if !valid then InvalidFrame else if closed then ConnectionClosed
                   else if |old(outbound)| == capacity then QueueFull else Sent
      ensures outbound == if r.Sent? then old(outbound) + [f] else old(outbound)
      ensures dropped == old(dropped) + if r.QueueFull? then 1 else 0
    {
      if !valid { return InvalidFrame; }
      if closed { return ConnectionClosed; }
      pendingBytes := pendingBytes + f.body;
      if |outbound| < capacity {
        BodiesAppend(outbound, f);
        outbound := outbound + [f];
        return Sent;
      }
      pendingBytes := pendingBytes - f.body;
      dropped := dropped + 1;
      r := QueueFull;
    }

    /** A reply waits for room; `cancelled` is its context ending first. */
    method Reply(f: Frame, valid: bool, cancelled: bool) returns (r: Outcome)
      requires Valid() && (valid && !closed && |outbound| == capacity ==> cancelled)
      modifies this
      ensures Valid() && closed == old(closed) && stopped == old(stopped) && dropped == old(dropped)
      ensures r == if !valid then InvalidFrame else if closed then ConnectionClosed
                   else if cancelled then Cancelled else Sent
      ensures outbound == if r.Sent? then old(outbound) + [f] else old(outbound)
    {
      if !valid { return InvalidFrame; }
      if closed { return ConnectionClosed; }
      pendingBytes := pendingBytes + f.body;
      if cancelled {
        pendingBytes := pendingBytes - f.body;
        return Cancelled;
      }
      BodiesAppend(outbound, f);
      outbound := outbound + [f];
      r := Sent;
    }

    /** Of all closes with a valid frame only the first gets its frame in, and it closes the
        channel for all other sends whether or not the frame gets in. */
    method CloseWithProto(f: Frame, valid: bool, cancelled: bool) returns (r: Outcome)
      requires Valid() && (valid && !closed && |outbound| == capacity ==> cancelled)
      modifies this
      ensures Valid() && closed == (old(closed) || valid) && dropped == old(dropped)
      ensures r == if !valid then InvalidFrame else if old(closed) then ConnectionClosed
                   else if cancelled then Cancelled else Sent
      ensures outbound == if r.Sent? then old(outbound) + [f] else old(outbound)
      ensures stopped == (old(stopped) || r.Cancelled?)
    {
      if !valid { return InvalidFrame; }
      if closed { return ConnectionClosed; }
      closed := true;
      pendingBytes := pendingBytes + f.body;
      if cancelled {
        pendingBytes := pendingBytes - f.body;
        StopLocked();
        return Cancelled;
      }
      BodiesAppend(outbound, f);
      outbound := outbound + [f];
      r := Sent;
    }

    method StopLocked()
      modifies this`closed, this`stopped
      ensures closed && stopped
    {
      if !closed { closed := true; }
      if !stopped { stopped := true; }
    }

    /** The frame the writer writes next; nothing is taken out of order. */
    method Next() returns (taken: seq<Frame>)
      requires Valid()
      modifies this
      ensures Valid() && closed == old(closed) && stopped == old(stopped) && dropped == old(dropped)
      ensures old(outbound) == taken + outbound && |taken| == if old(outbound) == [] then 0 else 1
    {
      taken := outbound[..if outbound == [] then 0 else 1];
      if outbound != [] {
        BodiesHead(outbound);
        outbound, pendingBytes := outbound[1..], pendingBytes - outbound[0].body;
      }
    }
  }
}
