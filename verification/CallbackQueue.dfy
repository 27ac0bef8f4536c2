/**
  The bounded callback queue: producers submit batches, one worker runs callbacks
  in order, and whoever closes the queue may leave terminal callbacks that run
  once the closer has released them. `Core` is what the lock protects; the
  sections under the lock are its functions. The step system around it lets
  producers, closers and the worker interleave between sections.
 */
module CallbackQueue {

  type Callback = nat

  datatype Outcome = Accepted | NilCallback | QueueClosed | QueueFull

  /** What the worker takes from one look at the queue. */
  datatype Taken = Task(callback: Callback) | Terminals(callbacks: seq<Callback>) | Nothing

  /** `wake` is the token in the one-slot wake channel; closing the queue closes it. */
  datatype Core = Core(capacity: nat, tasks: seq<Callback>, terminals: seq<Callback>, closed: bool, wake: bool) {

    function SubmitOutcome(batch: seq<Callback>, hasNil: bool): Outcome {
      if hasNil then NilCallback
      else if closed then QueueClosed
      else if |batch| > capacity - |tasks| then QueueFull
      else Accepted
    }

    function AfterSubmit(batch: seq<Callback>, hasNil: bool): Core {
      if SubmitOutcome(batch, hasNil).Accepted?
      then this.(tasks := tasks + batch, wake := wake || batch != [])
      else this
    }

    function AfterClose(callbacks: seq<Callback>): Core {
      if closed then this else this.(closed := true, tasks := [], terminals := callbacks)
    }

    function Peeked(): Taken {
      if closed then Terminals(terminals) else if tasks == [] then Nothing else Task(tasks[0])
    }

    function AfterNext(): Core {
      if closed then this.(terminals := [])
      else if tasks == [] then this
      else this.(tasks := tasks[1..])
    }
  }

  datatype Worker =
    | Looking
    | Running(callback: Callback)
    | AboutToWait
    | Gated(terminals: seq<Callback>)
    | Terminating(rest: seq<Callback>)
    | Finished

  /** `accepted` and `executed` are all callbacks accepted and started so far, `closers`
      the terminals of the call that closed the queue, `ended` those that have run. */
  datatype State = State(
    core: Core,
    worker: Worker,
    released: bool,
    accepted: seq<Callback>,
    executed: seq<Callback>,
    closers: seq<Callback>,
    ended: seq<Callback>)

  datatype Action =
    | Submit(batch: seq<Callback>, hasNil: bool)
    | Stop
    | BeginTermination(terminals: seq<Callback>, hasNil: bool)
    | Release
    | Look
    | Return
    | Wait
    | PassGate
    | RunTerminal

  function Init(capacity: nat): State {
    State(Core(capacity, [], [], false, false), Looking, false, [], [], [], [])
  }

  function Close(s: State, terminals: seq<Callback>): State {
    if s.core.closed then s else s.(core := s.core.AfterClose(terminals), closers := terminals)
  }

  /** A worker that waits goes on only if the wake channel has a token or is closed. */
  predicate CanWake(c: Core) { c.closed || c.wake }

  function Apply(s: State, a: Action): State {
    match a
    case Submit(batch, hasNil) =>
      s.(core := s.core.AfterSubmit(batch, hasNil),
         accepted := if s.core.SubmitOutcome(batch, hasNil).Accepted? then s.accepted + batch else s.accepted)
    case Stop => Close(s, [])
    case BeginTermination(terminals, hasNil) => Close(s, if hasNil then [] else terminals)
    case Release => s.(released := s.released || s.closers != [])
    case Look =>
      if !s.worker.Looking? then s
      else
        var t := s.(core := s.core.AfterNext());
        (match s.core.Peeked()
         case Task(callback) => t.(worker := Running(callback), executed := s.executed + [callback])
         case Terminals(callbacks) => t.(worker := if callbacks == [] then Finished else Gated(callbacks))
         case Nothing => t.(worker := AboutToWait))
    case Return => if s.worker.Running? then s.(worker := Looking) else s
    case Wait =>
      if !s.worker.AboutToWait? || !CanWake(s.core) then s
      else s.(worker := Looking, core := if s.core.closed then s.core else s.core.(wake := false))
    case PassGate => if s.worker.Gated? && s.released then s.(worker := Terminating(s.worker.terminals)) else s
    case RunTerminal =>
      if !s.worker.Terminating? then s
      else if s.worker.rest == [] then s.(worker := Finished)
      else s.(worker := Terminating(s.worker.rest[1..]), ended := s.ended + [s.worker.rest[0]])
  }

  function Exec(capacity: nat, run: seq<Action>): State {
    if run == [] then Init(capacity) else Apply(Exec(capacity, run[..|run| - 1]), run[|run| - 1])
  }

  /** The terminals the worker still has to run. */
  function ToRun(s: State): seq<Callback> {
    match s.worker
    case Gated(terminals) => terminals
    case Terminating(rest) => rest
    case Finished => []
    case _ => if s.core.closed then s.core.terminals else s.closers
  }

  predicate Inv(s: State) {
    && |s.core.tasks| <= s.core.capacity
    && (if s.core.closed then s.core.tasks == [] && s.executed <= s.accepted else s.accepted == s.executed + s.core.tasks)
    && (s.worker.AboutToWait? && s.core.tasks != [] ==> s.core.wake)
    && (s.worker.Gated? || s.worker.Terminating? || s.worker.Finished? ==> s.core.closed)
    && (!s.core.closed ==> s.core.terminals == [] && s.closers == [] && s.ended == [] && !s.released)
    && s.closers == s.ended + ToRun(s)
    && (s.ended != [] ==> s.released)
    && (s.worker.Terminating? ==> s.released)
    && (s.worker.Looking? || s.worker.Running? || s.worker.AboutToWait? ==> s.ended == [])
  }

  lemma SubmitKeepsInv(s: State, batch: seq<Callback>, hasNil: bool)
    requires Inv(s)
    ensures Inv(Apply(s, Submit(batch, hasNil)))
  {
    assert s.executed + (s.core.tasks + batch) == s.executed + s.core.tasks + batch;
  }

  lemma LookKeepsInv(s: State)
    requires Inv(s)
    ensures Inv(Apply(s, Look))
  {
    var t := Apply(s, Look);
    if s.worker.Looking? && s.core.Peeked().Task? {
      assert s.executed + s.core.tasks == t.executed + t.core.tasks;
    }
  }

  lemma TerminalKeepsInv(s: State)
    requires Inv(s)
    ensures Inv(Apply(s, RunTerminal))
  {
    var t := Apply(s, RunTerminal);
    if s.worker.Terminating? && s.worker.rest != [] {
      assert s.ended + s.worker.rest == t.ended + t.worker.rest;
    }
  }

  lemma StepKeepsInv(s: State, a: Action)
    requires Inv(s)
    ensures Inv(Apply(s, a))
  {
    if a.Submit? {
      SubmitKeepsInv(s, a.batch, a.hasNil);
    } else if a.Look? {
      LookKeepsInv(s);
    } else if a.RunTerminal? {
      TerminalKeepsInv(s);
    }
  }

  lemma {:induction false} RunKeepsInv(capacity: nat, run: seq<Action>)
    ensures Inv(Exec(capacity, run)) && Exec(capacity, run).core.capacity == capacity
  {
    if run != [] {
      RunKeepsInv(capacity, run[..|run| - 1]);
      StepKeepsInv(Exec(capacity, run[..|run| - 1]), run[|run| - 1]);
    }
  }

  /** What has been executed is a prefix of what was accepted, and no more than the
      capacity ever waits. */
  lemma ExecutedIsPrefixOfAccepted(capacity: nat, run: seq<Action>)
    ensures var s := Exec(capacity, run);
            s.executed <= s.accepted && |s.core.tasks| <= capacity
    ensures var s := Exec(capacity, run);
            !s.core.closed ==> s.accepted == s.executed + s.core.tasks
  {
    RunKeepsInv(capacity, run);
  }

  /** A batch enters as a whole or not at all, and it enters exactly when it has no nil,
      the queue is open and the whole batch fits. */
  lemma BatchesAreAtomic(capacity: nat, run: seq<Action>, batch: seq<Callback>, hasNil: bool)
    ensures var s, t := Exec(capacity, run), Apply(Exec(capacity, run), Submit(batch, hasNil));
            if !hasNil && !s.core.closed && |s.core.tasks| + |batch| <= capacity
            then t.accepted == s.accepted + batch && t.core.tasks == s.core.tasks + batch
            else t == s
  {
    RunKeepsInv(capacity, run);
  }

  /** No lost wake-up: a worker that stays blocked has nothing to do. */
  lemma BlockedMeansIdle(capacity: nat, run: seq<Action>)
    requires Exec(capacity, run).worker.AboutToWait?
    ensures var s := Exec(capacity, run);
            (s.core.tasks != [] || s.core.closed) ==> CanWake(s.core) && Apply(s, Wait).worker.Looking?
  {
    RunKeepsInv(capacity, run);
  }

  /** The step the worker takes next, if it is not held up. */
  function WorkerStep(w: Worker): Action {
    match w
    case Looking => Look
    case Running(_) => Return
    case AboutToWait => Wait
    case Gated(_) => PassGate
    case Terminating(_) => RunTerminal
    case Finished => RunTerminal
  }

  /** The worker is held up in exactly three ways: it has finished, it waits for terminals to
      be released, or it waits with nothing to do and nothing to wake it. */
  lemma WorkerIsHeldUpExactly(capacity: nat, run: seq<Action>)
    ensures var s := Exec(capacity, run);
            Apply(s, WorkerStep(s.worker)) == s <==>
              || s.worker.Finished?
              || (s.worker.Gated? && !s.released)
              || (s.worker.AboutToWait? && s.core.tasks == [] && !s.core.closed && !s.core.wake)
  {
    RunKeepsInv(capacity, run);
  }

  /** A wake-up uses up its token; a closed queue wakes without one. */
  lemma WakeIsExact(s: State)
    requires s.worker.AboutToWait?
    ensures Apply(s, Wait) == if s.core.closed then s.(worker := Looking)
                              else if s.core.wake then s.(worker := Looking, core := s.core.(wake := false)) else s
  {
  }

  /** What a look at the queue leads to: the oldest callback runs, the terminals of a closed
      queue are taken to their gate, and an empty queue is waited for. */
  lemma LookIsExact(s: State)
    requires s.worker.Looking?
    ensures var t := Apply(s, Look);
      if s.core.closed then
        && t.worker == (if s.core.terminals == [] then Finished else Gated(s.core.terminals))
        && t.executed == s.executed && t.core.terminals == []
      else if s.core.tasks == [] then t.worker.AboutToWait? && t.executed == s.executed
      else
        && t.worker == Running(s.core.tasks[0]) && t.executed == s.executed + [s.core.tasks[0]]
        && t.core.tasks == s.core.tasks[1..]
  {
  }

  /** The first close decides: it drops what waits and leaves its terminals, unless one of
      them is nil; a release counts once there are some. */
  lemma CloseIsExact(s: State, terminals: seq<Callback>, hasNil: bool)
    ensures s.core.closed ==> Apply(s, Stop) == s && Apply(s, BeginTermination(terminals, hasNil)) == s
    ensures !s.core.closed ==>
      var t := Apply(s, BeginTermination(terminals, hasNil));
      && t.core.closed && t.core.tasks == [] && t.core.terminals == t.closers == (if hasNil then [] else terminals)
      && t.worker == s.worker && t.executed == s.executed
    ensures !s.core.closed ==> Apply(s, Stop) == Apply(s, BeginTermination([], hasNil))
    ensures Apply(s, Release).released <==> s.released || s.closers != []
  {
  }

  /** What no step changes once the queue is closed. */
  predicate SameSinceClose(s: State, t: State) {
    && t.core.closed && t.core.wake == s.core.wake && t.closers == s.closers
    && t.accepted == s.accepted && t.executed == s.executed
  }

  /** Once the queue is closed nothing is ever sent on the wake channel, accepted or
      executed, and the terminals to run are settled. */
  lemma {:induction false} NoWakeAfterClose(capacity: nat, run: seq<Action>, more: seq<Action>)
    requires Exec(capacity, run).core.closed
    ensures SameSinceClose(Exec(capacity, run), Exec(capacity, run + more))
  {
    if more == [] {
      assert run + more == run;
    } else {
      var before := run + more[..|more| - 1];
      NoWakeAfterClose(capacity, run, more[..|more| - 1]);
      assert (run + more)[..|run + more| - 1] == before;
    }
  }

  /** The terminals of the call that closed the queue run in order, each once, only
      after the release, and all of them by the time the worker has finished. */
  lemma TerminalsRunOnce(capacity: nat, run: seq<Action>)
    ensures var s := Exec(capacity, run);
            && s.ended <= s.closers && (s.ended != [] ==> s.released)
            && (s.worker.Finished? ==> s.ended == s.closers)
            && (s.worker.Running? ==> s.ended == [])
  {
    RunKeepsInv(capacity, run);
  }

  class Queue {
    const capacity: nat
    var tasks: seq<Callback>
    var terminals: seq<Callback>
    var closed: bool
    var wake: bool

    ghost function View(): Core
      reads this
    {
      Core(capacity, tasks, terminals, closed, wake)
    }

    constructor (capacity: nat)
      requires 0 < capacity
      ensures View() == Init(capacity).core
    {
      this.capacity := capacity;
      tasks, terminals, closed, wake := [], [], false, false;
    }

    method SubmitBatch(batch: seq<Callback>, hasNil: bool) returns (outcome: Outcome)
      modifies this
      ensures outcome == if hasNil then NilCallback else if closed then QueueClosed
                         else if |old(tasks)| + |batch| > capacity then QueueFull else Accepted
      ensures tasks == (if outcome.Accepted? then old(tasks) + batch else old(tasks)) && closed == old(closed)
      ensures wake == (old(wake) || (outcome.Accepted? && batch != [])) && terminals == old(terminals)
      ensures View() == old(View()).AfterSubmit(batch, hasNil)
      ensures outcome == old(View()).SubmitOutcome(batch, hasNil)
    {
      if hasNil { return NilCallback; }
      if closed { return QueueClosed; }
      if |batch| > capacity - |tasks| { return QueueFull; }
      tasks := tasks + batch;
      if |batch| > 0 && !wake { wake := true; }
      outcome := Accepted;
    }

    method CloseWithTerminals(callbacks: seq<Callback>) returns (ok: bool)
      modifies this
      ensures ok == !old(closed) && closed && wake == old(wake)
      ensures terminals == if ok then callbacks else old(terminals)
      ensures tasks == if ok then [] else old(tasks)
      ensures View() == old(View()).AfterClose(callbacks)
    {
      if closed { return false; }
      closed, tasks, terminals := true, [], callbacks;
      ok := true;
    }

    method Next() returns (taken: Taken)
      modifies this
      ensures closed == old(closed) && wake == old(wake)
      ensures closed ==> taken == Terminals(old(terminals)) && terminals == [] && tasks == old(tasks)
      ensures !closed && old(tasks) == [] ==> taken == Nothing && tasks == [] && terminals == old(terminals)
      ensures !closed && old(tasks) != [] ==>
                taken == Task(old(tasks)[0]) && tasks == old(tasks)[1..] && terminals == old(terminals)
      ensures View() == old(View()).AfterNext()
      ensures taken == old(View()).Peeked()
    {
      if closed {
        taken := Terminals(terminals);
        terminals := [];
      } else if |tasks| == 0 {
        taken := Nothing;
      } else {
        taken := Task(tasks[0]);
        tasks := tasks[1..];
      }
    }

    /** The worker loop as it runs when nobody interferes: it empties the queue in
        order and stops either to wait, or after the terminals. */
    method RunUntilIdle() returns (executed: seq<Callback>, finished: bool)
      modifies this
      ensures finished == old(closed)
      ensures executed == if old(closed) then old(terminals) else old(tasks)
      ensures tasks == (if finished then old(tasks) else []) && closed == old(closed)
    {
      executed := [];
      while true
        invariant closed == old(closed)
        invariant if closed then executed == [] && tasks == old(tasks) && terminals == old(terminals)
                  else executed + tasks == old(tasks)
        decreases |tasks|
      {
        var taken := Next();
        match taken
        case Task(callback) => executed := executed + [callback];
        case Terminals(callbacks) => return callbacks, true;
        case Nothing => return executed, false;
      }
    }
  }
}
