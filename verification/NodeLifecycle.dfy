/**
  The lifecycle of a Node server: one Start, any number of Stops, lease loss,
  registration loss and timeouts, against one cleanup. Every section that runs
  under the lifecycle lock, and every other shared access, is one action; the
  actions of the start, of the cleanup, of the failure path and of the admitted
  work interleave freely.
 */
module NodeLifecycle {
  import opened Admission

  datatype Life = New | Starting | Started

  /** How far the start has come. `Recorded` is the window in which the registrar has
      accepted the record but the server has not noted it yet. */
  datatype StartPc = NotBegun | Claiming | Renewing | Serving | Registering | Recorded | Returning | Finished

  /** Whether the server has a locator, and so an epoch, at all, and whether it has a Drain
      callback. */
  datatype Config = Config(stateful: bool, hasDrain: bool)

  /** `registers` counts the records the registrar accepted. */
  datatype Startup = Startup(
    config: Config,
    life: Life,
    pc: StartPc,
    leaseHeld: bool,
    renewed: bool,
    registration: bool,
    registers: nat)
  {
    predicate Over() { pc.NotBegun? || pc.Finished? }
  }

  /** How far the cleanup has come. */
  datatype CleanPc =
    | NotLaunched | WaitStartup | Deregister | CloseRequests | WaitRequests | Drain
    | CloseDeliveries | WaitDeliveries | ReleaseEpoch | LateHandover | Ended

  /** The last four fields count what the outside world has seen of it. */
  datatype Cleanup = Cleanup(
    pc: CleanPc,
    startupLate: bool,
    sawRecord: bool,
    requestsFailed: bool,
    drainFailed: bool,
    deliveriesFailed: bool,
    launches: nat,
    deregisters: nat,
    drains: nat,
    releases: nat)
  {
    predicate Drained() {
      !requestsFailed && !drainFailed && !deliveriesFailed
    }
  }

  datatype Gates = Gates(requests: Gate, deliveries: Gate)

  datatype State = State(startup: Startup, gates: Gates, cleanup: Cleanup)

  datatype StartStep =
    | BeginStart
    | ClaimEpoch(granted: bool, ok: bool)
    | AwaitRenewal(ok: bool)
    | StartServing(ok: bool)
    | Register(ok: bool)
    | CommitStart(ok: bool)
    | FinishStart

  datatype GateStep = BeginStopping | FailDeliveries | AdmitRequest | LeaveRequest | AdmitDelivery | LeaveDelivery

  /** What the cleanup meets: an expired budget, and the outcome of Drain. */
  datatype Weather = Weather(timedOut: bool, drainOk: bool)

  datatype Action = OnStart(start: StartStep) | OnGates(gate: GateStep) | LaunchCleanup | OnCleanup(weather: Weather)

  function Init(config: Config): State {
    State(Startup(config, New, NotBegun, false, false, false, 0),
          Gates(FRESH, FRESH),
          Cleanup(NotLaunched, false, false, false, false, false, 0, 0, 0, 0))
  }

  predicate Stopping(g: Gates) { g.requests.phase.Closed? }

  /** One stage of the start; between two stages a stop that has begun ends it. */
  function NextStartup(u: Startup, stopping: bool, step: StartStep): Startup {
    var stage := (ok: bool, pc: StartPc) => if ok && !stopping then pc else Returning;
    match (step, u.pc)
    case (BeginStart, NotBegun) =>
      if stopping || !u.life.New? then u else u.(life := Starting, pc := Claiming)
    case (ClaimEpoch(granted, ok), Claiming) =>
      u.(leaseHeld := u.config.stateful && granted, pc := stage(if u.config.stateful then granted && ok else ok, Renewing))
    case (AwaitRenewal(ok), Renewing) => u.(renewed := u.config.stateful && ok, pc := stage(ok, Serving))
    case (StartServing(ok), Serving) => u.(pc := stage(ok, Registering))
    case (Register(ok), Registering) =>
      if ok then u.(registers := u.registers + 1, pc := Recorded) else u.(pc := Returning)
    case (CommitStart(ok), Recorded) =>
      u.(registration := true, pc := Returning, life := if stopping || !ok then u.life else Started)
    case (FinishStart, Returning) => u.(pc := Finished)
    case (_, _) => u
  }

  /** The commit opens deliveries and requests. */
  function OpenedBy(u: Startup, g: Gates, step: StartStep): Gates {
    if step == CommitStart(true) && u.pc.Recorded? && !Stopping(g)
    then Gates(g.requests.Opened(), g.deliveries.Opened()) else g
  }

  function NextCleanup(c: Cleanup, u: Startup, g: Gates, w: Weather): Cleanup {
    match c.pc
    case NotLaunched => c
    case WaitStartup =>
      if u.Over() then c.(pc := Deregister)
      else if w.timedOut then c.(pc := Deregister, startupLate := true)
      else c
    case Deregister =>
      c.(pc := CloseRequests, sawRecord := u.registration,
         deregisters := if u.registration then c.deregisters + 1 else c.deregisters)
    case CloseRequests => c.(pc := WaitRequests)
    case WaitRequests =>
      if g.requests.active == 0 then c.(pc := Drain)
      else if w.timedOut then c.(pc := Drain, requestsFailed := true)
      else c
    case Drain =>
      if c.requestsFailed || !u.config.hasDrain then c.(pc := CloseDeliveries)
      else c.(pc := CloseDeliveries, drains := c.drains + 1, drainFailed := !w.drainOk)
    case CloseDeliveries => c.(pc := WaitDeliveries)
    case WaitDeliveries =>
      if g.deliveries.active == 0 then c.(pc := ReleaseEpoch)
      else if w.timedOut then c.(pc := ReleaseEpoch, deliveriesFailed := true)
      else c
    case ReleaseEpoch =>
      c.(pc := LateHandover,
         releases := if c.Drained() && !c.startupLate && u.leaseHeld then c.releases + 1 else c.releases)
    case LateHandover =>
      if !c.startupLate then c.(pc := Ended)
      else if !u.pc.Finished? then c
      else c.(pc := Ended,
              deregisters := if u.registration && !c.sawRecord then c.deregisters + 1 else c.deregisters,
              releases := if c.Drained() && u.leaseHeld then c.releases + 1 else c.releases)
    case Ended => c
  }

  function ShutBy(c: Cleanup, g: Gates): Gates {
    if c.pc.CloseRequests? then g.(requests := g.requests.Shut().AwaitDrain())
    else if c.pc.CloseDeliveries? then g.(deliveries := g.deliveries.Shut().AwaitDrain())
    else g
  }

  function NextGates(g: Gates, step: GateStep): Gates {
    match step
    case BeginStopping => g.(requests := g.requests.Shut())
    case FailDeliveries => if Stopping(g) then g.(deliveries := g.deliveries.Shut()) else g
    case AdmitRequest => g.(requests := g.requests.Admit())
    case LeaveRequest => if 0 < g.requests.active then g.(requests := g.requests.Leave()) else g
    case AdmitDelivery => g.(deliveries := g.deliveries.Admit())
    case LeaveDelivery => if 0 < g.deliveries.active then g.(deliveries := g.deliveries.Leave()) else g
  }

  function Apply(s: State, a: Action): State {
    match a
    case OnStart(step) =>
      State(NextStartup(s.startup, Stopping(s.gates), step), OpenedBy(s.startup, s.gates, step), s.cleanup)
    case OnGates(step) => s.(gates := NextGates(s.gates, step))
    case LaunchCleanup =>
      if !Stopping(s.gates) || !s.cleanup.pc.NotLaunched? then s
      else s.(cleanup := s.cleanup.(pc := WaitStartup, launches := s.cleanup.launches + 1))
    case OnCleanup(w) =>
      State(s.startup, ShutBy(s.cleanup, s.gates), NextCleanup(s.cleanup, s.startup, s.gates, w))
  }

  function Exec(config: Config, run: seq<Action>): State {
    if run == [] then Init(config) else Apply(Exec(config, run[..|run| - 1]), run[|run| - 1])
  }

  // The invariant.

  function Rank(pc: CleanPc): nat {
    match pc
    case NotLaunched => 0 case WaitStartup => 1 case Deregister => 2 case CloseRequests => 3
    case WaitRequests => 4 case Drain => 5 case CloseDeliveries => 6 case WaitDeliveries => 7
    case ReleaseEpoch => 8 case LateHandover => 9 case Ended => 10
  }

  function Bit(b: bool): nat { if b then 1 else 0 }

  /** What the start has to show at each stage. */
  predicate StartInv(u: Startup) {
    && (u.life.New? <==> u.pc.NotBegun?)
    && (u.life.Started? ==> u.registration)
    && (u.life.Started? || u.pc in {Serving, Registering, Recorded} ==> u.config.stateful ==> u.renewed && u.leaseHeld)
    && (u.pc == Renewing ==> u.config.stateful ==> u.leaseHeld)
    && (u.registration ==> u.pc in {Returning, Finished})
    && u.registers == Bit(u.registration || u.pc.Recorded?)
  }

  /** Nothing is admitted before the start has committed. */
  predicate GatesInv(u: Startup, g: Gates) {
    && g.requests.Valid() && g.deliveries.Valid()
    && (g.deliveries.phase.Closed? ==> Stopping(g))
    && (g.requests.phase.Open? || g.deliveries.phase.Open? || 0 < g.requests.active || 0 < g.deliveries.active ==>
          u.life.Started?)
  }

  predicate CountsInv(c: Cleanup, u: Startup) {
    var at := Rank(c.pc);
    && c.launches == Bit(0 < at)
    && (2 <= at && !c.startupLate ==> u.Over())
    && (at <= 1 ==> !c.startupLate)
    && (at <= 2 ==> !c.sawRecord && c.deregisters == 0)
    && (3 <= at < 10 ==> c.deregisters == Bit(c.sawRecord))
    && (3 <= at && !c.startupLate ==> c.sawRecord == u.registration)
    && (c.sawRecord ==> u.registration)
    && (at == 10 ==> u.Over() && c.deregisters == Bit(u.registration))
    && (6 <= at ==> c.drains == Bit(u.config.hasDrain && !c.requestsFailed))
    && (c.drainFailed ==> 0 < c.drains)
    && ((at == 9 && !c.startupLate) || at == 10 ==> c.releases == Bit(c.Drained() && u.leaseHeld))
  }

  predicate DrainInv(c: Cleanup, g: Gates) {
    var at := Rank(c.pc);
    && (0 < at ==> Stopping(g))
    && c.drains <= 1 && (at <= 5 ==> c.drains == 0)
    && (0 < c.drains ==> g.requests.Drained())
    && (5 <= at && !c.requestsFailed ==> g.requests.Drained())
    && (7 <= at ==> g.deliveries.phase.Closed?)
    && (8 <= at && !c.deliveriesFailed ==> g.deliveries.Drained())
    && (at <= 8 ==> c.releases == 0) && c.releases <= 1 && (at == 9 && c.startupLate ==> c.releases == 0)
    && (0 < c.releases ==> g.requests.Drained() && g.deliveries.Drained() && !c.drainFailed)
  }

  predicate Inv(s: State) {
    StartInv(s.startup) && GatesInv(s.startup, s.gates) && CountsInv(s.cleanup, s.startup) && DrainInv(s.cleanup, s.gates)
  }

  lemma StartKeepsInv(s: State, step: StartStep)
    requires Inv(s)
    ensures Inv(Apply(s, OnStart(step)))
  {
  }

  lemma EarlyCleanupKeepsInv(c: Cleanup, u: Startup, g: Gates, w: Weather)
    requires c.pc in {NotLaunched, WaitStartup, Deregister, CloseRequests}
    requires StartInv(u) && CountsInv(c, u) && DrainInv(c, g)
    ensures CountsInv(NextCleanup(c, u, g, w), u) && DrainInv(NextCleanup(c, u, g, w), ShutBy(c, g))
  {
  }

  lemma MiddleCleanupKeepsInv(c: Cleanup, u: Startup, g: Gates, w: Weather)
    requires c.pc in {WaitRequests, Drain, CloseDeliveries}
    requires StartInv(u) && CountsInv(c, u) && DrainInv(c, g)
    ensures CountsInv(NextCleanup(c, u, g, w), u) && DrainInv(NextCleanup(c, u, g, w), ShutBy(c, g))
  {
  }

  lemma ReleaseKeepsInv(c: Cleanup, u: Startup, g: Gates, w: Weather)
    requires c.pc in {WaitDeliveries, ReleaseEpoch}
    requires StartInv(u) && CountsInv(c, u) && DrainInv(c, g)
    ensures CountsInv(NextCleanup(c, u, g, w), u) && DrainInv(NextCleanup(c, u, g, w), ShutBy(c, g))
  {
  }

  lemma LateCleanupKeepsInv(c: Cleanup, u: Startup, g: Gates, w: Weather)
    requires c.pc in {LateHandover, Ended}
    requires StartInv(u) && CountsInv(c, u) && DrainInv(c, g)
    ensures CountsInv(NextCleanup(c, u, g, w), u) && DrainInv(NextCleanup(c, u, g, w), ShutBy(c, g))
  {
  }

  lemma CleanupKeepsInv(c: Cleanup, u: Startup, g: Gates, w: Weather)
    requires StartInv(u) && CountsInv(c, u) && DrainInv(c, g)
    ensures CountsInv(NextCleanup(c, u, g, w), u) && DrainInv(NextCleanup(c, u, g, w), ShutBy(c, g))
  {
    if c.pc in {NotLaunched, WaitStartup, Deregister, CloseRequests} {
      EarlyCleanupKeepsInv(c, u, g, w);
    } else if c.pc in {WaitRequests, Drain, CloseDeliveries} {
      MiddleCleanupKeepsInv(c, u, g, w);
    } else if c.pc in {WaitDeliveries, ReleaseEpoch} {
      ReleaseKeepsInv(c, u, g, w);
    } else {
      LateCleanupKeepsInv(c, u, g, w);
    }
  }

  lemma CleanupStepKeepsInv(s: State, w: Weather)
    requires Inv(s)
    ensures Inv(Apply(s, OnCleanup(w)))
  {
    CleanupKeepsInv(s.cleanup, s.startup, s.gates, w);
  }

  lemma GatesKeepInv(s: State, step: GateStep)
    requires Inv(s)
    ensures Inv(Apply(s, OnGates(step)))
  {
  }

  lemma LaunchKeepsInv(s: State)
    requires Inv(s)
    ensures Inv(Apply(s, LaunchCleanup))
  {
  }

  lemma ConfigStays(s: State, a: Action)
    ensures Apply(s, a).startup.config == s.startup.config
  {
  }

  lemma StepKeepsInv(s: State, a: Action)
    requires Inv(s)
    ensures Inv(Apply(s, a))
  {
    match a
    case OnStart(step) => StartKeepsInv(s, step);
    case OnCleanup(w) => CleanupStepKeepsInv(s, w);
    case OnGates(step) => GatesKeepInv(s, step);
    case LaunchCleanup => LaunchKeepsInv(s);
  }

  lemma {:induction false} RunKeepsInv(config: Config, run: seq<Action>)
    ensures Inv(Exec(config, run)) && Exec(config, run).startup.config == config
  {
    if run != [] {
      RunKeepsInv(config, run[..|run| - 1]);
      StepKeepsInv(Exec(config, run[..|run| - 1]), run[|run| - 1]);
      ConfigStays(Exec(config, run[..|run| - 1]), run[|run| - 1]);
    }
  }

  // The theorems.

  /** In every run the cleanup and the Drain callback each run at most once, and Drain
      only once no request is left or can come. */
  lemma CleanupAndDrainRunOnce(config: Config, run: seq<Action>)
    ensures var s := Exec(config, run);
            s.cleanup.launches <= 1 && s.cleanup.drains <= 1 && (0 < s.cleanup.drains ==> s.gates.requests.Drained())
  {
    RunKeepsInv(config, run);
  }

  lemma DrainsAtEnd(s: State)
    requires Inv(s) && s.cleanup.pc.Ended?
    ensures s.cleanup.drains == Bit(s.startup.config.hasDrain && !s.cleanup.requestsFailed)
  {
  }

  /** When the cleanup has ended, Drain has run exactly if there is one and no request was
      left behind. */
  lemma DrainRunsExactly(config: Config, run: seq<Action>)
    requires Exec(config, run).cleanup.pc.Ended?
    ensures Exec(config, run).cleanup.drains == Bit(config.hasDrain && !Exec(config, run).cleanup.requestsFailed)
  {
    RunKeepsInv(config, run);
    DrainsAtEnd(Exec(config, run));
  }

  // The work admitted.

  function GateOf(s: State, deliveries: bool): Gate {
    if deliveries then s.gates.deliveries else s.gates.requests
  }

  function Entered(config: Config, run: seq<Action>, deliveries: bool): nat {
    if run == [] then 0
    else
      var before, a := run[..|run| - 1], run[|run| - 1];
      var admits := a == OnGates(if deliveries then AdmitDelivery else AdmitRequest);
      Entered(config, before, deliveries) + if admits && GateOf(Exec(config, before), deliveries).phase.Open? then 1 else 0
  }

  function Departed(config: Config, run: seq<Action>, deliveries: bool): nat {
    if run == [] then 0
    else
      var before, a := run[..|run| - 1], run[|run| - 1];
      var leaves := a == OnGates(if deliveries then LeaveDelivery else LeaveRequest);
      var left := Departed(config, before, deliveries);
      left + if leaves && left < Entered(config, before, deliveries) then 1 else 0
  }

  lemma ActiveMovesExactly(s: State, a: Action, deliveries: bool)
    ensures GateOf(Apply(s, a), deliveries).active ==
      if a == OnGates(if deliveries then AdmitDelivery else AdmitRequest) && GateOf(s, deliveries).phase.Open?
      then GateOf(s, deliveries).active + 1
      else if a == OnGates(if deliveries then LeaveDelivery else LeaveRequest) && 0 < GateOf(s, deliveries).active
      then GateOf(s, deliveries).active - 1
      else GateOf(s, deliveries).active
  {
  }

  /** Of requests as of deliveries, the active work is exactly what the gate let in and has
      not left: a gate is drained exactly when it is closed and all that came in has left. */
  lemma {:induction false} DrainedMeansAllLeft(config: Config, run: seq<Action>, deliveries: bool)
    ensures Departed(config, run, deliveries) <= Entered(config, run, deliveries)
    ensures GateOf(Exec(config, run), deliveries).active == Entered(config, run, deliveries) - Departed(config, run, deliveries)
    ensures GateOf(Exec(config, run), deliveries).Drained() <==>
              GateOf(Exec(config, run), deliveries).phase.Closed? && Entered(config, run, deliveries) == Departed(config, run, deliveries)
  {
    if run != [] {
      DrainedMeansAllLeft(config, run[..|run| - 1], deliveries);
      ActiveMovesExactly(Exec(config, run[..|run| - 1]), run[|run| - 1], deliveries);
    }
  }

  // The stages.

  /** A stage of the start is passed exactly when it succeeds and no stop has begun. A record
      the registrar accepts is noted in any case. */
  lemma StartMovesExactly(u: Startup, stopping: bool)
    ensures NextStartup(u, stopping, BeginStart).pc.Claiming? <==>
              u.pc.Claiming? || (u.pc.NotBegun? && u.life.New? && !stopping)
    ensures u.pc.Claiming? ==> forall granted, ok ::
              var v := NextStartup(u, stopping, ClaimEpoch(granted, ok));
              && (v.pc == if ok && !stopping && (u.config.stateful ==> granted) then Renewing else Returning)
              && (v.leaseHeld <==> u.config.stateful && granted)
    ensures u.pc.Renewing? ==> forall ok ::
              var v := NextStartup(u, stopping, AwaitRenewal(ok));
              (v.pc == if ok && !stopping then Serving else Returning) && (v.renewed <==> u.config.stateful && ok)
    ensures u.pc.Serving? ==> forall ok ::
              NextStartup(u, stopping, StartServing(ok)).pc == if ok && !stopping then Registering else Returning
    ensures u.pc.Registering? ==> forall ok ::
              var v := NextStartup(u, stopping, Register(ok));
              (v.pc == if ok then Recorded else Returning) && v.registers == u.registers + Bit(ok)
    ensures u.pc.Recorded? ==> forall ok ::
              var v := NextStartup(u, stopping, CommitStart(ok));
              v.pc.Returning? && v.registration && (v.life.Started? <==> u.life.Started? || (ok && !stopping))
    ensures u.pc.Returning? ==> NextStartup(u, stopping, FinishStart) == u.(pc := Finished)
  {
  }

  /** Where the cleanup waits: for the start until its share of the budget is spent, for
      requests and for deliveries until theirs is, and for a late start without a limit. */
  predicate Waits(c: Cleanup, u: Startup, g: Gates, w: Weather) {
    || (c.pc.WaitStartup? && !u.Over() && !w.timedOut)
    || (c.pc.WaitRequests? && g.requests.active > 0 && !w.timedOut)
    || (c.pc.WaitDeliveries? && g.deliveries.active > 0 && !w.timedOut)
    || (c.pc.LateHandover? && c.startupLate && !u.pc.Finished?)
  }

  /** The cleanup goes on to its next stage at every step but where it waits. */
  predicate MovesExactly(c: Cleanup, d: Cleanup, waits: bool) {
    if waits then d == c else Rank(d.pc) == Rank(c.pc) + 1
  }

  lemma WaitingMoves(c: Cleanup, u: Startup, g: Gates, w: Weather)
    requires c.pc in {WaitStartup, WaitRequests, WaitDeliveries}
    ensures MovesExactly(c, NextCleanup(c, u, g, w), Waits(c, u, g, w))
  {
  }

  lemma EarlyMoves(c: Cleanup, u: Startup, g: Gates, w: Weather)
    requires c.pc in {Deregister, CloseRequests, Drain, CloseDeliveries}
    ensures MovesExactly(c, NextCleanup(c, u, g, w), Waits(c, u, g, w))
  {
  }

  lemma CleanupMovesExactly(c: Cleanup, u: Startup, g: Gates, w: Weather)
    requires !c.pc.NotLaunched? && !c.pc.Ended?
    ensures MovesExactly(c, NextCleanup(c, u, g, w), Waits(c, u, g, w))
  {
    if c.pc in {WaitStartup, WaitRequests, WaitDeliveries} {
      WaitingMoves(c, u, g, w);
    } else if c.pc in {Deregister, CloseRequests, Drain, CloseDeliveries} {
      EarlyMoves(c, u, g, w);
    }
  }

  /** What the cleanup leaves behind it has noted: a start, requests or deliveries that it
      waited for in vain. */
  predicate NotesExactly(c: Cleanup, d: Cleanup, u: Startup, g: Gates, w: Weather) {
    && (d.startupLate <==> c.startupLate || (c.pc.WaitStartup? && !u.Over() && w.timedOut))
    && (d.requestsFailed <==> c.requestsFailed || (c.pc.WaitRequests? && g.requests.active > 0 && w.timedOut))
    && (d.deliveriesFailed <==> c.deliveriesFailed || (c.pc.WaitDeliveries? && g.deliveries.active > 0 && w.timedOut))
  }

  lemma WaitingNotes(c: Cleanup, u: Startup, g: Gates, w: Weather)
    requires c.pc in {WaitStartup, WaitRequests, WaitDeliveries}
    ensures NotesExactly(c, NextCleanup(c, u, g, w), u, g, w)
  {
  }

  lemma EarlyNotes(c: Cleanup, u: Startup, g: Gates, w: Weather)
    requires c.pc in {Deregister, CloseRequests, Drain, CloseDeliveries}
    ensures NotesExactly(c, NextCleanup(c, u, g, w), u, g, w)
  {
  }

  lemma LateNotes(c: Cleanup, u: Startup, g: Gates, w: Weather)
    requires c.pc.NotLaunched? || c.pc.ReleaseEpoch? || c.pc.LateHandover? || c.pc.Ended?
    ensures NotesExactly(c, NextCleanup(c, u, g, w), u, g, w)
  {
  }

  lemma CleanupNotesExactly(c: Cleanup, u: Startup, g: Gates, w: Weather)
    ensures NotesExactly(c, NextCleanup(c, u, g, w), u, g, w)
  {
    if c.pc in {WaitStartup, WaitRequests, WaitDeliveries} {
      WaitingNotes(c, u, g, w);
    } else if c.pc in {Deregister, CloseRequests, Drain, CloseDeliveries} {
      EarlyNotes(c, u, g, w);
    } else {
      LateNotes(c, u, g, w);
    }
  }

  lemma DrainIsTried(c: Cleanup, u: Startup, g: Gates, w: Weather)
    requires c.pc.Drain? && !c.requestsFailed && u.config.hasDrain
    ensures NextCleanup(c, u, g, w) == c.(pc := CloseDeliveries, drains := c.drains + 1, drainFailed := !w.drainOk)
  {
  }

  /** Each stage that shuts a gate shuts its own; a failure shuts the deliveries once a stop
      has begun; and only a stop lets the cleanup start. */
  lemma ShutsExactly(s: State, a: Action)
    ensures Stopping(Apply(s, a).gates) <==>
              Stopping(s.gates) || a == OnGates(BeginStopping) || (a.OnCleanup? && s.cleanup.pc.CloseRequests?)
    ensures Apply(s, a).gates.deliveries.phase.Closed? <==>
              || s.gates.deliveries.phase.Closed?
              || (a == OnGates(FailDeliveries) && Stopping(s.gates))
              || (a.OnCleanup? && s.cleanup.pc.CloseDeliveries?)
    ensures s.cleanup.pc.NotLaunched? ==>
              (Apply(s, a).cleanup.pc.WaitStartup? <==> a.LaunchCleanup? && Stopping(s.gates))
  {
  }

  /** Work is admitted only in a server that started: its record is registered and, if
      it has an epoch, the first renewal had succeeded. */
  lemma AdmissionNeedsReadiness(config: Config, run: seq<Action>)
    requires var g := Exec(config, run).gates;
             g.requests.phase.Open? || g.deliveries.phase.Open? || 0 < g.requests.active || 0 < g.deliveries.active
    ensures var u := Exec(config, run).startup;
            u.registers == 1 && u.registration && (config.stateful ==> u.renewed && u.leaseHeld)
  {
    RunKeepsInv(config, run);
  }

  predicate Opens(g: Gate, h: Gate) {
    !g.phase.Open? && h.phase.Open?
  }

  /** A gate opens in one step only, the commit of the start; that step opens both gates
      exactly when no stop had begun by then. */
  lemma GatesOpenAtCommit(s: State, a: Action)
    requires Inv(s)
    ensures var g, h := s.gates, Apply(s, a).gates;
            var commits := a == OnStart(CommitStart(true)) && s.startup.pc.Recorded? && !Stopping(g);
            && (Opens(g.requests, h.requests) <==> commits)
            && (Opens(g.deliveries, h.deliveries) <==> commits)
            && (commits ==> s.cleanup.launches == 0)
  {
  }

  lemma DeregistersFollowRecords(s: State)
    requires Inv(s)
    ensures s.startup.registers <= 1 && s.cleanup.deregisters <= s.startup.registers
    ensures s.cleanup.pc.Ended? ==> s.cleanup.deregisters == s.startup.registers && s.startup.Over()
  {
  }

  /** Every record the registrar accepted gets at most one Deregister call and, when the
      cleanup has ended, exactly one, even if it was accepted late; the start is then over. */
  lemma EveryRecordDeregisteredOnce(config: Config, run: seq<Action>)
    ensures var s := Exec(config, run);
            s.startup.registers <= 1 && s.cleanup.deregisters <= s.startup.registers
    ensures var s := Exec(config, run);
            s.cleanup.pc.Ended? ==> s.cleanup.deregisters == s.startup.registers && s.startup.Over()
  {
    RunKeepsInv(config, run);
    DeregistersFollowRecords(Exec(config, run));
  }

  lemma EndedStays(s: State, a: Action)
    requires Inv(s) && s.cleanup.pc.Ended?
    ensures Apply(s, a).cleanup == s.cleanup && Apply(s, a).startup == s.startup
  {
  }

  /** No start begins, and nothing registers, once the cleanup has ended. */
  lemma EndedIsFinal(config: Config, run: seq<Action>, a: Action)
    requires Exec(config, run).cleanup.pc.Ended?
    ensures var s, t := Exec(config, run), Apply(Exec(config, run), a);
            t.cleanup == s.cleanup && t.startup == s.startup
  {
    RunKeepsInv(config, run);
    EndedStays(Exec(config, run), a);
  }

  /** The epoch is released, at most once, only when requests and deliveries are
      both closed with no work left and Drain has not failed. */
  lemma ReleaseNeedsDrained(config: Config, run: seq<Action>)
    ensures var s := Exec(config, run);
            && s.cleanup.releases <= 1
            && (0 < s.cleanup.releases ==>
                  s.gates.requests.Drained() && s.gates.deliveries.Drained() && !s.cleanup.drainFailed)
  {
    RunKeepsInv(config, run);
  }

  /** When the cleanup has ended the release of the epoch was asked for exactly if one was held
      and requests, Drain and deliveries had all finished. */
  lemma EndedReleasesIfDrained(config: Config, run: seq<Action>)
    requires Exec(config, run).cleanup.pc.Ended?
    ensures var s := Exec(config, run);
            s.cleanup.releases == 1 <==> s.cleanup.Drained() && s.startup.leaseHeld
  {
    RunKeepsInv(config, run);
  }

  lemma DrainedStays(s: State, a: Action)
    requires Inv(s) && 0 < s.cleanup.releases
    ensures Apply(s, a).gates == s.gates && 0 < Apply(s, a).cleanup.releases
  {
  }

  lemma ExecSnoc(config: Config, run: seq<Action>, a: Action)
    ensures Exec(config, run + [a]) == Apply(Exec(config, run), a)
  {
    assert (run + [a])[..|run|] == run;
  }

  lemma ReleasedStep(config: Config, run: seq<Action>, a: Action)
    requires 0 < Exec(config, run).cleanup.releases
    ensures Exec(config, run + [a]).gates == Exec(config, run).gates
    ensures 0 < Exec(config, run + [a]).cleanup.releases
  {
    RunKeepsInv(config, run);
    DrainedStays(Exec(config, run), a);
    ExecSnoc(config, run, a);
  }

  /** From then on no request, binding write or push is ever admitted. */
  lemma {:induction false} NothingAdmittedAfterRelease(config: Config, run: seq<Action>, more: seq<Action>)
    requires 0 < Exec(config, run).cleanup.releases
    ensures Exec(config, run + more).gates == Exec(config, run).gates
    ensures 0 < Exec(config, run + more).cleanup.releases
  {
    if more == [] {
      assert run + more == run;
    } else {
      var before, a := run + more[..|more| - 1], more[|more| - 1];
      NothingAdmittedAfterRelease(config, run, more[..|more| - 1]);
      ReleasedStep(config, before, a);
      assert run + more == before + [a];
    }
  }

  lemma StoppingSticks(s: State, a: Action)
    requires Inv(s) && Stopping(s.gates)
    ensures Stopping(Apply(s, a).gates) && Apply(s, a).gates.requests.active <= s.gates.requests.active
    ensures !s.gates.deliveries.phase.Open? ==> !Apply(s, a).gates.deliveries.phase.Open?
  {
  }

  /** A stop, once begun, is never taken back: no request is admitted and neither gate
      opens in any continuation. */
  lemma {:induction false} StoppedForGood(config: Config, run: seq<Action>, more: seq<Action>)
    requires Stopping(Exec(config, run).gates)
    ensures var g, h := Exec(config, run).gates, Exec(config, run + more).gates;
            && Stopping(h) && h.requests.active <= g.requests.active
            && (!g.deliveries.phase.Open? ==> !h.deliveries.phase.Open?)
  {
    if more == [] {
      assert run + more == run;
    } else {
      var before, a := run + more[..|more| - 1], more[|more| - 1];
      StoppedForGood(config, run, more[..|more| - 1]);
      RunKeepsInv(config, before);
      StoppingSticks(Exec(config, before), a);
      ExecSnoc(config, before, a);
      assert run + more == before + [a];
    }
  }

  // Two whole lives.

  lemma {:induction false} ExecAll(config: Config, run: seq<Action>, more: seq<Action>, states: seq<State>)
    requires |states| == |more| + 1 && states[0] == Exec(config, run)
    requires forall i :: 0 <= i < |more| ==> Apply(states[i], more[i]) == states[i + 1]
    ensures Exec(config, run + more) == states[|more|]
  {
    if more == [] {
      assert run + more == run;
    } else {
      var n := |more| - 1;
      ExecAll(config, run, more[..n], states[..|more|]);
      assert run + more == run + more[..n] + [more[n]];
      ExecSnoc(config, run + more[..n], more[n]);
    }
  }

  const GOOD := Weather(false, true)
  const CLAIM := [OnStart(BeginStart), OnStart(ClaimEpoch(true, true)), OnStart(AwaitRenewal(true))]
  const SERVE := [OnStart(StartServing(true)), OnStart(Register(true))]
  const COMMIT := [OnStart(CommitStart(true)), OnStart(FinishStart)]
  const STOP := [OnGates(BeginStopping), LaunchCleanup]

  function Clean(pc: CleanPc, sawRecord: bool, deregisters: nat, drains: nat, releases: nat): Cleanup {
    Cleanup(pc, false, sawRecord, false, false, false, if pc.NotLaunched? then 0 else 1, deregisters, drains, releases)
  }

  function Going(config: Config, life: Life, pc: StartPc, held: bool, renewed: bool, registration: bool, registers: nat): Startup {
    Startup(config, life, pc, held && config.stateful, renewed && config.stateful, registration, registers)
  }

  function Both(phase: Phase): Gates { Gates(FRESH.(phase := phase), FRESH.(phase := phase)) }

  function Unclean(u: Startup, phase: Phase): State {
    State(u, Both(phase), Clean(NotLaunched, false, 0, 0, 0))
  }

  lemma ClaimRuns(config: Config)
    ensures Exec(config, CLAIM) == Unclean(Going(config, Starting, Serving, true, true, false, 0), Pending)
  {
    ExecAll(config, [], CLAIM,
            [Unclean(Going(config, New, NotBegun, false, false, false, 0), Pending),
             Unclean(Going(config, Starting, Claiming, false, false, false, 0), Pending),
             Unclean(Going(config, Starting, Renewing, true, false, false, 0), Pending),
             Unclean(Going(config, Starting, Serving, true, true, false, 0), Pending)]);
    assert [] + CLAIM == CLAIM;
  }

  lemma ServeRuns(config: Config)
    ensures Exec(config, CLAIM + SERVE) == Unclean(Going(config, Starting, Recorded, true, true, false, 1), Pending)
  {
    ClaimRuns(config);
    ExecAll(config, CLAIM, SERVE,
            [Unclean(Going(config, Starting, Serving, true, true, false, 0), Pending),
             Unclean(Going(config, Starting, Registering, true, true, false, 0), Pending),
             Unclean(Going(config, Starting, Recorded, true, true, false, 1), Pending)]);
  }

  lemma CommitRuns(config: Config)
    ensures Apply(Unclean(Going(config, Starting, Recorded, true, true, false, 1), Pending), OnStart(CommitStart(true)))
         == Unclean(Going(config, Started, Returning, true, true, true, 1), Open)
  {
  }

  /** A start in which every stage succeeds opens both gates, with its record registered and,
      if it has an epoch, the lease held and renewed. */
  lemma StartCanSucceed(config: Config)
    ensures Exec(config, CLAIM + SERVE + COMMIT) == Unclean(Going(config, Started, Finished, true, true, true, 1), Open)
  {
    ServeRuns(config);
    CommitRuns(config);
    ExecAll(config, CLAIM + SERVE, COMMIT,
            [Unclean(Going(config, Starting, Recorded, true, true, false, 1), Pending),
             Unclean(Going(config, Started, Returning, true, true, true, 1), Open),
             Unclean(Going(config, Started, Finished, true, true, true, 1), Open)]);
  }

  const CLEAN_UP := seq(10, _ => OnCleanup(GOOD))

  /** What the cleanup does to a server at rest: one Deregister for its record, one Drain if it
      has one, one release if it holds a lease, and then it has ended. */
  lemma CleanupCanSucceed(config: Config, run: seq<Action>, u: Startup, g: Gates)
    requires Exec(config, run) == State(u, g, Clean(WaitStartup, false, 0, 0, 0))
    requires u.Over() && g.requests == Gate(Closed, 0, false, 0) && g.deliveries.active == 0 && !g.deliveries.signalled
    ensures Exec(config, run + CLEAN_UP).cleanup
         == Clean(Ended, u.registration, Bit(u.registration), Bit(u.config.hasDrain), Bit(u.leaseHeld))
  {
    var d, n, l := Bit(u.registration), Bit(u.config.hasDrain), Bit(u.leaseHeld);
    var shut := g.(deliveries := g.deliveries.(phase := Closed));
    var end := State(u, shut, Clean(Ended, u.registration, d, n, l));
    ExecAll(config, run, CLEAN_UP,
            [State(u, g, Clean(WaitStartup, false, 0, 0, 0)), State(u, g, Clean(Deregister, false, 0, 0, 0)),
             State(u, g, Clean(CloseRequests, u.registration, d, 0, 0)), State(u, g, Clean(WaitRequests, u.registration, d, 0, 0)),
             State(u, g, Clean(Drain, u.registration, d, 0, 0)), State(u, g, Clean(CloseDeliveries, u.registration, d, n, 0)),
             State(u, shut, Clean(WaitDeliveries, u.registration, d, n, 0)), State(u, shut, Clean(ReleaseEpoch, u.registration, d, n, 0)),
             State(u, shut, Clean(LateHandover, u.registration, d, n, l)), end, end]);
  }

  lemma StopRuns(config: Config, run: seq<Action>, u: Startup, phase: Phase)
    requires Exec(config, run) == State(u, Both(phase), Clean(NotLaunched, false, 0, 0, 0))
    ensures Exec(config, run + STOP)
         == State(u, Both(phase).(requests := Gate(Closed, 0, false, 0)), Clean(WaitStartup, false, 0, 0, 0))
  {
    var g := Both(phase).(requests := Gate(Closed, 0, false, 0));
    ExecAll(config, run, STOP,
            [State(u, Both(phase), Clean(NotLaunched, false, 0, 0, 0)), State(u, g, Clean(NotLaunched, false, 0, 0, 0)),
             State(u, g, Clean(WaitStartup, false, 0, 0, 0))]);
  }

  /** A whole life: started, stopped and cleaned up, with one Deregister, with Drain and the
      release exactly once if there are any; and a server that never started leaves none. */
  lemma WholeLife(config: Config)
    ensures Exec(config, CLAIM + SERVE + COMMIT + STOP + CLEAN_UP).cleanup == Clean(Ended, true, 1, Bit(config.hasDrain), Bit(config.stateful))
    ensures Exec(config, STOP + CLEAN_UP).cleanup == Clean(Ended, false, 0, Bit(config.hasDrain), 0)
  {
    StartCanSucceed(config);
    var u := Going(config, Started, Finished, true, true, true, 1);
    StopRuns(config, CLAIM + SERVE + COMMIT, u, Open);
    CleanupCanSucceed(config, CLAIM + SERVE + COMMIT + STOP, u, Both(Open).(requests := Gate(Closed, 0, false, 0)));
    var v := Going(config, New, NotBegun, false, false, false, 0);
    StopRuns(config, [], v, Pending);
    assert [] + STOP == STOP;
    CleanupCanSucceed(config, STOP, v, Both(Pending).(requests := Gate(Closed, 0, false, 0)));
  }
}
