/**
  What both transports have in common: the bounded queue of outbound frames, the
  one writer that empties it, and the bytes the two account for.
 */
module SendChannel {

  /** `body` is the size that the pending-bytes counter adds and subtracts; `final` marks
      the closing frame. */
  datatype Frame = Frame(id: nat, body: nat, final: bool)

  function Sum(sizes: seq<nat>): nat {
    if sizes == [] then 0 else Sum(sizes[..|sizes| - 1]) + sizes[|sizes| - 1]
  }

  function Bodies(frames: seq<Frame>): nat {
    if frames == [] then 0 else Bodies(frames[..|frames| - 1]) + frames[|frames| - 1].body
  }

  lemma {:induction false} SumUpdate(sizes: seq<nat>, i: nat, size: nat)
    requires i < |sizes|
    ensures Sum(sizes[i := size]) == Sum(sizes) - sizes[i] + size
  {
    var last := |sizes| - 1;
    if i < last {
      assert sizes[i := size][..last] == sizes[..last][i := size];
      SumUpdate(sizes[..last], i, size);
    } else {
      assert sizes[i := size][..last] == sizes[..last];
    }
  }

  lemma BodiesAppend(frames: seq<Frame>, f: Frame)
    ensures Bodies(frames + [f]) == Bodies(frames) + f.body
  {
    assert (frames + [f])[..|frames|] == frames;
  }

  lemma {:induction false} BodiesHead(frames: seq<Frame>)
    requires frames != []
    ensures Bodies(frames) == frames[0].body + Bodies(frames[1..])
  {
    var last := |frames| - 1;
    if 0 < last {
      BodiesHead(frames[..last]);
      assert frames[..last][1..] == frames[1..][..last - 1];
    }
  }

  /** Nothing follows a closing frame. */
  predicate FinalIsLast(accepted: seq<Frame>) {
    forall i :: 0 <= i < |accepted| - 1 ==> !accepted[i].final
  }

  predicate Sealed(accepted: seq<Frame>) {
    accepted != [] && accepted[|accepted| - 1].final
  }

  /** The writer has taken a frame and not yet uncounted it, or is writing it. */
  datatype Writer = Ready | Took(frame: Frame) | Writing(frame: Frame) | Gone

  datatype WriterStep = Take | Uncount | Write(ok: bool) | Quit

  /** `accepted`, `taken` and `written` are all frames enqueued, dequeued and written so
      far; `counter` is the pending-bytes counter. */
  datatype Line = Line(
    capacity: nat,
    queue: seq<Frame>,
    writer: Writer,
    counter: int,
    accepted: seq<Frame>,
    taken: seq<Frame>,
    written: seq<Frame>)
  {
    predicate Full() { |queue| >= capacity }

    function Enqueued(f: Frame): Line {
      this.(queue := queue + [f], accepted := accepted + [f])
    }

    function Next(step: WriterStep): Line {
      match step
      case Take =>
        if !writer.Ready? || queue == [] then this
        else this.(queue := queue[1..], taken := taken + [queue[0]], writer := Took(queue[0]))
      case Uncount =>
        if writer.Took? then this.(counter := counter - writer.frame.body, writer := Writing(writer.frame)) else this
      case Write(ok) =>
        if !writer.Writing? then this
        else this.(written := if ok then written + [writer.frame] else written,
                   writer := if ok && !writer.frame.final then Ready else Gone)
      case Quit => if writer.Ready? then this.(writer := Gone) else this
    }

    /** Frames are written in the order they were accepted, and none is skipped. */
    predicate InOrder() {
      && accepted == taken + queue && |queue| <= capacity
      && (writer.Ready? ==> written == taken)
      && (writer.Took? || writer.Writing? ==> taken == written + [writer.frame])
      && written <= taken
    }

    /** The counter is the bodies queued plus those being handed over: `inHand` by the
        producers, and the one the writer has just taken. */
    predicate Balanced(inHand: nat) {
      counter == Bodies(queue) + inHand + if writer.Took? then writer.frame.body else 0
    }

    lemma EnqueueKeepsOrder(f: Frame)
      requires InOrder() && !Full()
      ensures Enqueued(f).InOrder()
    {
      assert taken + (queue + [f]) == taken + queue + [f];
    }

    lemma WriterKeepsOrder(step: WriterStep)
      requires InOrder()
      ensures Next(step).InOrder() && Next(step).capacity == capacity && Next(step).accepted == accepted
    {
      if step.Take? && writer.Ready? && queue != [] {
        assert taken + queue == Next(step).taken + Next(step).queue;
      }
    }

    lemma WriterKeepsBalance(step: WriterStep, inHand: nat)
      requires Balanced(inHand)
      ensures Next(step).Balanced(inHand)
    {
      if queue != [] { BodiesHead(queue); }
    }
  }

  function EmptyLine(capacity: nat): Line {
    Line(capacity, [], Ready, 0, [], [], [])
  }

  /** What the writer does: it takes the oldest frame, uncounts it, writes it, and goes on
      unless the write failed or the frame was the last. */
  lemma WriterIsExact(l: Line, ok: bool)
    ensures l.writer.Ready? && l.queue != [] ==>
      l.Next(Take) == l.(writer := Took(l.queue[0]), queue := l.queue[1..], taken := l.taken + [l.queue[0]])
    ensures l.writer.Took? ==> l.Next(Uncount) == l.(writer := Writing(l.writer.frame), counter := l.counter - l.writer.frame.body)
    ensures l.writer.Writing? && ok ==>
      l.Next(Write(true)) == l.(written := l.written + [l.writer.frame], writer := if l.writer.frame.final then Gone else Ready)
    ensures l.writer.Writing? ==> l.Next(Write(false)) == l.(writer := Gone)
    ensures l.writer.Ready? ==> l.Next(Quit) == l.(writer := Gone)
  {
  }

  // A line and its producers; `hands[p]` are the bytes that producer p has counted and not
  // put into the queue.

  ghost predicate LineInv(l: Line, hands: seq<nat>) {
    l.InOrder() && l.Balanced(Sum(hands))
  }

  /** A producer's step leaves the writer alone and either keeps the queue, changing the
      counter by what the producer holds, or puts what it holds into the queue. */
  predicate HandsOver(l: Line, m: Line, before: nat, after: nat, f: Frame) {
    || m == l.(counter := l.counter + after - before)
    || (!l.Full() && m == l.Enqueued(f) && before == f.body && after == 0)
  }

  lemma {:induction false} SumOfZeros(hands: seq<nat>)
    requires forall p :: 0 <= p < |hands| ==> hands[p] == 0
    ensures Sum(hands) == 0
  {
    if hands != [] {
      SumOfZeros(hands[..|hands| - 1]);
    }
  }

  lemma EmptyLineInv(capacity: nat, hands: seq<nat>)
    requires forall p :: 0 <= p < |hands| ==> hands[p] == 0
    ensures LineInv(EmptyLine(capacity), hands)
  {
    SumOfZeros(hands);
  }

  lemma ProducerKeepsLine(l: Line, m: Line, hands: seq<nat>, p: nat, after: nat, f: Frame)
    requires LineInv(l, hands) && p < |hands| && HandsOver(l, m, hands[p], after, f)
    ensures LineInv(m, hands[p := after]) && m.capacity == l.capacity
  {
    SumUpdate(hands, p, after);
    if !l.Full() {
      l.EnqueueKeepsOrder(f);
      BodiesAppend(l.queue, f);
    }
  }

  lemma WriterKeepsLine(l: Line, hands: seq<nat>, step: WriterStep)
    requires LineInv(l, hands)
    ensures LineInv(l.Next(step), hands) && l.Next(step).capacity == l.capacity && l.Next(step).accepted == l.accepted
  {
    l.WriterKeepsOrder(step);
    l.WriterKeepsBalance(step, Sum(hands));
  }

  /** What the theorems of both transports say of a line: written is a prefix of accepted,
      the rest is the queue, and the counter is what is queued or in hand. */
  lemma LineIsExact(l: Line, hands: seq<nat>)
    requires LineInv(l, hands)
    ensures l.written <= l.accepted && l.accepted == l.taken + l.queue && |l.queue| <= l.capacity
    ensures Bodies(l.queue) + Sum(hands) <= l.counter
  {
  }
}
