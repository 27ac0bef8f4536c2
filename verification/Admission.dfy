/** The admission gate of requests and of deliveries: its phase, the work admitted, and the drained signal. */
module Admission {

  datatype Phase = Pending | Open | Closed

  /** The signal channel: not made, made, and how often it has been closed. */
  datatype Gate = Gate(phase: Phase, active: nat, signalled: bool, closings: nat) {

    function Opened(): Gate {
      if phase.Pending? then this.(phase := Open) else this
    }

    function Shut(): Gate {
      this.(phase := Closed)
    }

    function Admit(): Gate {
      if phase.Open? then this.(active := active + 1) else this
    }

    function Leave(): Gate
      requires 0 < active
    {
      this.(active := active - 1, closings := if active == 1 && signalled then closings + 1 else closings)
    }

    /** The locked section of stopAndWait, after the phase was closed. */
    function AwaitDrain(): Gate {
      if active == 0 then this else this.(signalled := true)
    }

    /** The signal exists only once nothing is admitted any more, and has been closed
        exactly when the last admitted work has left. */
    predicate Valid() {
      && (signalled ==> phase.Closed?)
      && closings == (if signalled && active == 0 then 1 else 0)
    }

    predicate Drained() {
      phase.Closed? && active == 0
    }
  }

  const FRESH := Gate(Pending, 0, false, 0)

  datatype Step = DoOpen | DoClose | DoAdmit | DoLeave | DoAwait

  function Apply(g: Gate, a: Step): Gate {
    match a
    case DoOpen => g.Opened()
    case DoClose => g.Shut()
    case DoAdmit => g.Admit()
    case DoLeave => if 0 < g.active then g.Leave() else g
    case DoAwait => if g.phase.Closed? then g.AwaitDrain() else g
  }

  function Exec(run: seq<Step>): Gate {
    if run == [] then FRESH else Apply(Exec(run[..|run| - 1]), run[|run| - 1])
  }

  lemma {:induction false} RunKeepsValid(run: seq<Step>)
    ensures Exec(run).Valid()
  {
    if run != [] {
      RunKeepsValid(run[..|run| - 1]);
    }
  }

  /** How much work the run let in, and how much of it has left. */
  function Entered(run: seq<Step>): nat {
    if run == [] then 0
    else Entered(run[..|run| - 1]) + if run[|run| - 1].DoAdmit? && Exec(run[..|run| - 1]).phase.Open? then 1 else 0
  }

  function Departed(run: seq<Step>): nat {
    if run == [] then 0
    else Departed(run[..|run| - 1]) + if run[|run| - 1].DoLeave? && Departed(run[..|run| - 1]) < Entered(run[..|run| - 1]) then 1 else 0
  }

  /** The active work is exactly what was let in and has not left, so a gate is drained
      exactly when it is closed and everything let in has left. */
  lemma {:induction false} ActiveIsExact(run: seq<Step>)
    ensures Departed(run) <= Entered(run) && Exec(run).active == Entered(run) - Departed(run)
    ensures Exec(run).Drained() <==> Exec(run).phase.Closed? && Entered(run) == Departed(run)
  {
    if run != [] {
      ActiveIsExact(run[..|run| - 1]);
    }
  }

  /** A gate opens exactly when it is told to while pending, and closes exactly when told to. */
  lemma PhaseMovesExactly(g: Gate, a: Step)
    ensures Apply(g, a).phase.Closed? <==> g.phase.Closed? || a.DoClose?
    ensures Apply(g, a).phase.Open? <==> (g.phase.Open? && !a.DoClose?) || (g.phase.Pending? && a.DoOpen?)
    ensures Apply(g, a).signalled <==> g.signalled || (a.DoAwait? && g.phase.Closed? && g.active > 0)
  {
  }

  /** Closed is terminal: nothing is admitted and the active work only shrinks. The
      drained signal is closed at most once over the whole run. */
  lemma {:induction false} ClosedIsTerminal(run: seq<Step>, more: seq<Step>)
    requires Exec(run).phase.Closed?
    ensures Exec(run + more).phase.Closed? && Exec(run + more).active <= Exec(run).active
    ensures Exec(run + more).closings <= 1
    ensures Exec(run).Drained() ==> Exec(run + more) == Exec(run)
  {
    RunKeepsValid(run + more);
    if more == [] {
      assert run + more == run;
    } else {
      var before := run + more[..|more| - 1];
      ClosedIsTerminal(run, more[..|more| - 1]);
      assert run + more == before + [more[|more| - 1]];
      assert (run + more)[..|run + more| - 1] == before;
    }
  }

  class RequestAdmission {
    var phase: Phase
    var active: nat
    var signalled: bool
    ghost var closings: nat

    ghost function View(): Gate
      reads this
    {
      Gate(phase, active, signalled, closings)
    }

    constructor ()
      ensures View() == FRESH
    {
      phase, active, signalled, closings := Pending, 0, false, 0;
    }

    method OpenGate()
      modifies this`phase
      ensures phase == if old(phase).Pending? then Open else old(phase)
      ensures View() == old(View()).Opened()
    {
      if phase.Pending? { phase := Open; }
    }

    method Admit() returns (ok: bool)
      modifies this`active
      ensures ok == phase.Open? && active == old(active) + if ok then 1 else 0
      ensures View() == old(View()).Admit()
    {
      if !phase.Open? { return false; }
      active := active + 1;
      ok := true;
    }

    /** The caller was admitted before, so there is active work. */
    method Done()
      requires View().Valid() && 0 < active
      modifies this`active, this`closings
      ensures active == old(active) - 1
      ensures closings == old(closings) + if active == 0 && signalled then 1 else 0
      ensures View() == old(View()).Leave() && View().Valid()
    {
      active := active - 1;
      if active == 0 && signalled {
        assert closings == 0;
        closings := closings + 1;
      }
    }

    method Close()
      modifies this`phase
      ensures phase.Closed?
      ensures View() == old(View()).Shut()
    {
      phase := Closed;
    }

    /** `drained` tells that there is nothing to wait for. */
    method StopAndWait() returns (drained: bool)
      requires View().Valid()
      modifies this`phase, this`signalled
      ensures phase.Closed? && (drained <==> active == 0) && signalled == (old(signalled) || active > 0)
      ensures View() == old(View()).Shut().AwaitDrain() && View().Valid()
    {
      Close();
      if active == 0 { return true; }
      signalled := true;
      drained := false;
    }
  }
}
