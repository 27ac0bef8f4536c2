/**
  The heartbeat word of a client and the three goroutines that race on it: the
  timer, the one writer, and the reader. Every load, every compare-and-swap and
  every queue operation is one action, so any two goroutines may interleave
  between a load and the swap that follows it.
 */
module Heartbeat {

  datatype Word = Idle | Queued | Writing | Outstanding

  datatype TickResult = TickQueue | TickPending | TickTimeout

  datatype TimerPc = TimerReady | TimerLoaded(seen: Word) | TimerSending | TimerCancelling | TimerStopped

  datatype WriterPc = WriterReady | WriterHolds | WriterBusy | WriterWrote | WriterReloads | WriterStopped

  datatype ReaderPc = ReaderReady | ReaderLoaded(seen: Word)

  /** `frames` counts heartbeat frames in the outbound queue; `begun`, `acked` and
      `timedOut` count heartbeats; the last two say whether the writer ever met a
      state it reports as invalid. */
  datatype State = State(
    word: Word,
    timer: TimerPc,
    writer: WriterPc,
    reader: ReaderPc,
    frames: nat,
    begun: nat,
    acked: nat,
    timedOut: nat,
    beginRefused: bool,
    finishRefused: bool)

  datatype Action =
    | TimerLoad | TimerSwap | TimerSend(ok: bool) | TimerCancel
    | WriterDequeue | WriterBegin | WriterWrite(ok: bool) | WriterFinish | WriterReload
    | ReaderLoad | ReaderSwap

  function Init(): State {
    State(Idle, TimerReady, WriterReady, ReaderReady, 0, 0, 0, 0, false, false)
  }

  /** What Tick does with the word it read, if the word has not changed since. */
  function ApplyTimer(s: State, a: Action): State {
    match (a, s.timer)
    case (TimerLoad, TimerReady) => s.(timer := TimerLoaded(s.word))
    case (TimerSwap, TimerLoaded(seen)) =>
      if seen != s.word || seen.Queued? || seen.Writing? then s.(timer := TimerReady)
      else if seen.Idle? then s.(word := Queued, timer := TimerSending)
      else s.(word := Idle, timedOut := s.timedOut + 1, timer := TimerStopped)
    case (TimerSend(ok), TimerSending) =>
      if ok then s.(frames := s.frames + 1, timer := TimerReady) else s.(timer := TimerCancelling)
    case (TimerCancel, TimerCancelling) =>
      s.(word := if s.word.Queued? then Idle else s.word, timer := TimerStopped)
    case (_, _) => s
  }

  function ApplyWriter(s: State, a: Action): State {
    match (a, s.writer)
    case (WriterDequeue, WriterReady) => if 0 < s.frames then s.(frames := s.frames - 1, writer := WriterHolds) else s
    case (WriterBegin, WriterHolds) =>
      if s.word.Queued? then s.(word := Writing, begun := s.begun + 1, writer := WriterBusy)
      else s.(beginRefused := true, writer := WriterStopped)
    case (WriterWrite(ok), WriterBusy) => s.(writer := if ok then WriterWrote else WriterStopped)
    case (WriterFinish, WriterWrote) =>
      if s.word.Writing? then s.(word := Outstanding, writer := WriterReady) else s.(writer := WriterReloads)
    case (WriterReload, WriterReloads) =>
      if s.word.Idle? || s.word.Queued? then s.(writer := WriterReady)
      else s.(finishRefused := true, writer := WriterStopped)
    case (_, _) => s
  }

  function ApplyReader(s: State, a: Action): State {
    match (a, s.reader)
    case (ReaderLoad, ReaderReady) =>
      if s.word.Writing? || s.word.Outstanding? then s.(reader := ReaderLoaded(s.word)) else s
    case (ReaderSwap, ReaderLoaded(seen)) =>
      if s.word == seen then s.(word := Idle, acked := s.acked + 1, reader := ReaderReady)
      else s.(reader := ReaderReady)
    case (_, _) => s
  }

  function Apply(s: State, a: Action): State {
    if a.TimerLoad? || a.TimerSwap? || a.TimerSend? || a.TimerCancel? then ApplyTimer(s, a)
    else if a.ReaderLoad? || a.ReaderSwap? then ApplyReader(s, a)
    else ApplyWriter(s, a)
  }

  function Exec(run: seq<Action>): State {
    if run == [] then Init() else Apply(Exec(run[..|run| - 1]), run[|run| - 1])
  }

  function Bit(b: bool): nat { if b then 1 else 0 }

  /** A queued word is one heartbeat on its way to the writer; a word that is being
      written or outstanding is one heartbeat nobody has settled yet. */
  predicate Inv(s: State) {
    && !s.beginRefused && !s.finishRefused
    && Bit(s.word.Queued?) == s.frames + Bit(s.timer.TimerSending? || s.timer.TimerCancelling?) + Bit(s.writer.WriterHolds?)
    && s.begun == s.acked + s.timedOut + Bit(s.word.Writing? || s.word.Outstanding?)
    && (s.word.Writing? ==> s.writer.WriterBusy? || s.writer.WriterWrote? || s.writer.WriterStopped?)
    && (s.word.Outstanding? ==> s.writer.WriterReady? || s.writer.WriterStopped?)
    && (s.writer.WriterReloads? ==> s.word.Idle? || s.word.Queued?)
    && (s.reader.ReaderLoaded? ==> s.reader.seen.Writing? || s.reader.seen.Outstanding?)
  }

  lemma StepKeepsInv(s: State, a: Action)
    requires Inv(s)
    ensures Inv(Apply(s, a))
  {
  }

  /** In every interleaving a dequeued heartbeat passes BeginWrite, FinishWrite never
      reports an invalid state, at most one heartbeat frame is queued, and every
      heartbeat written is settled at most once: those begun are those acknowledged,
      those timed out, and the one in hand. */
  lemma {:induction false} HeartbeatsAreSettledOnce(run: seq<Action>)
    ensures Inv(Exec(run))
    ensures var s := Exec(run);
            && (s.writer.WriterHolds? ==> s.word.Queued?)
            && (s.writer.WriterReloads? ==> s.word.Idle? || s.word.Queued?)
            && !s.beginRefused && !s.finishRefused && s.frames <= 1
            && s.acked + s.timedOut <= s.begun <= s.acked + s.timedOut + 1
  {
    if run != [] {
      HeartbeatsAreSettledOnce(run[..|run| - 1]);
      StepKeepsInv(Exec(run[..|run| - 1]), run[|run| - 1]);
    }
  }

  /** A reply or a timeout settles a heartbeat that was really written. */
  lemma SettlesAWrite(run: seq<Action>, a: Action)
    requires Apply(Exec(run), a).acked + Apply(Exec(run), a).timedOut != Exec(run).acked + Exec(run).timedOut
    ensures Exec(run).begun == Exec(run).acked + Exec(run).timedOut + 1
    ensures Apply(Exec(run), a).acked + Apply(Exec(run), a).timedOut == Exec(run).acked + Exec(run).timedOut + 1
  {
    HeartbeatsAreSettledOnce(run);
  }

  /** The writer would report a heartbeat that is not queued when it comes to write it, or not
      answered when it finds it not being written, and would stop. */
  lemma WriterReportsExactly(s: State)
    ensures s.writer.WriterHolds? ==>
      (Apply(s, WriterBegin) == if s.word.Queued? then s.(word := Writing, begun := s.begun + 1, writer := WriterBusy)
                                else s.(beginRefused := true, writer := WriterStopped))
    ensures s.writer.WriterReloads? && !s.word.Idle? && !s.word.Queued? ==>
      Apply(s, WriterReload) == s.(finishRefused := true, writer := WriterStopped)
  {
  }

  /** The steps of one heartbeat from the timer to its reply. */
  function Queue(s: State): State { Apply(Apply(Apply(s, TimerLoad), TimerSwap), TimerSend(true)) }

  function WriteOut(s: State): State { Apply(Apply(Apply(Apply(s, WriterDequeue), WriterBegin), WriterWrite(true)), WriterFinish) }

  function Answer(s: State): State { Apply(Apply(s, ReaderLoad), ReaderSwap) }

  function Expire(s: State): State { Apply(Apply(s, TimerLoad), TimerSwap) }

  predicate AtRest(s: State) { s.timer.TimerReady? && s.writer.WriterReady? && s.reader.ReaderReady? }

  /** From every reachable state at rest, a tick of an idle client queues one heartbeat, the
      writer writes it, and then either its reply settles it or the next tick finds it late. */
  lemma HeartbeatGoesRound(s: State)
    requires Inv(s) && AtRest(s) && s.word.Idle?
    ensures Queue(s) == s.(word := Queued, frames := s.frames + 1)
    ensures WriteOut(Queue(s)) == s.(word := Outstanding, begun := s.begun + 1)
    ensures Answer(WriteOut(Queue(s))) == s.(begun := s.begun + 1, acked := s.acked + 1)
    ensures Expire(WriteOut(Queue(s))) == s.(begun := s.begun + 1, timedOut := s.timedOut + 1, timer := TimerStopped)
  {
  }

  /** A reply may come before the writer has noted that it wrote; a heartbeat that could not
      be queued is taken back; one on its way is left alone by a tick. */
  lemma HeartbeatRaces(s: State)
    requires Inv(s)
    ensures s.word.Writing? && s.reader.ReaderReady? ==> Answer(s) == s.(word := Idle, acked := s.acked + 1)
    ensures s.word.Idle? && s.timer.TimerReady? ==>
              Apply(Apply(Apply(Apply(s, TimerLoad), TimerSwap), TimerSend(false)), TimerCancel) == s.(timer := TimerStopped)
    ensures (s.word.Queued? || s.word.Writing?) && s.timer.TimerReady? ==> Expire(s) == s
    ensures s.writer.WriterWrote? && !s.word.Writing? ==>
              Apply(Apply(s, WriterFinish), WriterReload) == s.(writer := WriterReady)
  {
  }

  class AtomicState {
    var value: Word

    constructor ()
      ensures value == Idle
    {
      value := Idle;
    }

    method CompareAndSwap(from: Word, to: Word) returns (swapped: bool)
      modifies this
      ensures swapped == (old(value) == from)
      ensures value == if swapped then to else old(value)
    {
      swapped := value == from;
      if swapped { value := to; }
    }

    /** `others` are the words the other goroutines leave between a load of this call
        and the swap after it. However often that makes it retry, the call takes
        effect at once, on the word `at` that it read last. */
    method Tick(others: seq<Word>) returns (r: TickResult, at: Word)
      modifies this
      ensures at == old(value) || at in others
      ensures r == (match at case Idle => TickQueue case Outstanding => TickTimeout case _ => TickPending)
      ensures value == (match at case Idle => Queued case Outstanding => Idle case _ => at)
    {
      var k := 0;
      while true
        invariant 0 <= k <= |others|
        invariant value == old(value) || value in others
        decreases |others| - k
      {
        at := value;
        if at.Queued? || at.Writing? { return TickPending, at; }
        if k < |others| { value := others[k]; }
        var swapped := CompareAndSwap(at, if at.Idle? then Queued else Idle);
        if swapped { return if at.Idle? then TickQueue else TickTimeout, at; }
        k := k + 1;
      }
    }

    method CancelQueue() returns (ok: bool)
      modifies this
      ensures ok == old(value).Queued? && value == if ok then Idle else old(value)
    {
      ok := CompareAndSwap(Queued, Idle);
    }

    method BeginWrite() returns (ok: bool)
      modifies this
      ensures ok == old(value).Queued? && value == if ok then Writing else old(value)
    {
      ok := CompareAndSwap(Queued, Writing);
    }

    method FinishWrite() returns (ok: bool)
      modifies this
      ensures value == if old(value).Writing? then Outstanding else old(value)
      ensures ok == !old(value).Outstanding?
    {
      ok := CompareAndSwap(Writing, Outstanding);
      if !ok { ok := value.Idle? || value.Queued?; }
    }

    method Reply(others: seq<Word>) returns (ok: bool, at: Word)
      modifies this
      ensures at == old(value) || at in others
      ensures ok == (at.Writing? || at.Outstanding?)
      ensures value == if ok then Idle else at
    {
      var k := 0;
      while true
        invariant 0 <= k <= |others|
        invariant value == old(value) || value in others
        decreases |others| - k
      {
        at := value;
        if !at.Writing? && !at.Outstanding? { return false, at; }
        if k < |others| { value := others[k]; }
        ok := CompareAndSwap(at, Idle);
        if ok { return; }
        k := k + 1;
      }
    }
  }
}
