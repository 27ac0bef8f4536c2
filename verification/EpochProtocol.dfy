/**
  The Node ownership protocol: epochs claimed, renewed and released against a
  store whose keys expire, binding writes fenced by the epoch, and sticky
  requests fenced on arrival.

  The model is a step system. Any number of processes run against one store and
  one clock. A process is named by the epoch it drew. A call to the store is
  sent, executed and answered in three separate steps, so an answer can be late
  or lost, a call can execute long after its sender gave up, and every call may
  be executed again by a retransmission. A key may be dropped by the store at any
  moment from its expiry on, not only at it.

  A run is a sequence of actions. An action that is not enabled leaves the state
  as it is, so a statement about `Exec(run)` for every `run` is a statement about
  every interleaving.
 */
module EpochProtocol {

  import opened NodeStore

  type RequestId = nat

  const RPC_TIMEOUT: nat := 3_000

  /** Where the renewal of one lease stands; `Granted` is the window between the
      last validity check of a renewal and the store of its new deadline. */
  datatype Renewal = Idle | Checked | Waiting(started: nat, limit: nat) | Granted(started: nat)

  /** What the process of a lease does next. */
  datatype LeaseStep =
    | Check
    | CheckRenewal
    | SendRenewal
    | AcceptRenewal
    | StoreDeadline
    | FailRenewal(lost: bool)
    | Cancel
    | Release
    | SendWrite(op: BindingOp, uid: Uid)

  datatype Lease = Lease(deadline: nat, cancelled: bool, renewal: Renewal) {
    /** The answer of the local lease check. */
    predicate Passes(now: nat) {
      !cancelled && now < deadline
    }

    /** The lease after a local check: an expired lease is cancelled for good. */
    function AfterCheck(now: nat): Lease {
      if now < deadline then this else this.(cancelled := true)
    }

    /** One step; `acked` says that the store confirmed the renewal waited for. */
    function Next(now: nat, acked: bool, step: LeaseStep): Lease {
      match step
      case Check => AfterCheck(now)
      case CheckRenewal => if renewal.Idle? && Passes(now) then this.(renewal := Checked) else AfterCheck(now)
      case SendRenewal =>
        if renewal.Checked? then this.(renewal := Waiting(now, Min(deadline, now + RPC_TIMEOUT))) else this
      case AcceptRenewal =>
        if !renewal.Waiting? || !acked then this
        else if now >= renewal.limit then this.(renewal := Idle)
        else if Passes(now) then this.(renewal := Granted(renewal.started))
        else AfterCheck(now).(renewal := Idle)
      case StoreDeadline =>
        if renewal.Granted? then this.(deadline := renewal.started + EPOCH_TTL, renewal := Idle) else this
      case FailRenewal(lost) =>
        if renewal.Waiting? then this.(renewal := Idle, cancelled := cancelled || lost) else this
      case Cancel => this.(cancelled := true)
      case Release => this
      case SendWrite(_, _) => this
    }

    /** The store calls this step sends. */
    function Sent(e: Epoch, now: nat, step: LeaseStep): set<Call> {
      match step
      case SendRenewal => if renewal.Checked? then {Renew(e, now)} else {}
      case Release => if cancelled then {Unregister(e)} else {}
      case SendWrite(op, uid) => {Write(e, op, uid)}
      case _ => {}
    }
  }

  function Min(a: nat, b: nat): nat { if a < b then a else b }

  datatype Call =
    | Register(epoch: Epoch, started: nat)
    | Renew(epoch: Epoch, started: nat)
    | Unregister(epoch: Epoch)
    | Write(epoch: Epoch, op: BindingOp, uid: Uid)

  /** What the Gateway claims about the target; two empty strings claim nothing. */
  datatype StickyClaim = StickyClaim(node: NodeId, epoch: Epoch)

  datatype Phase = Admitted | Routed | Fenced | Located(named: NodeId) | Cleared | Handling | Rejected

  datatype Request = Request(process: Epoch, uid: Uid, claim: StickyClaim, phase: Phase)

  /** `entered` are the epochs that have ever been in the store. */
  datatype State = State(
    now: nat,
    epochs: map<NodeId, StoredEpoch>,
    bindings: map<Uid, StoredBinding>,
    owners: map<Epoch, NodeId>,
    entered: set<Epoch>,
    leases: map<Epoch, Lease>,
    calls: set<Call>,
    acks: set<Call>,
    requests: map<RequestId, Request>)

  /** What the server of a request does next. */
  datatype RequestStep = Route | Fence | Locate | Recheck | Handle

  datatype Action =
    | Advance(elapsed: nat)
    | DropEpoch(node: NodeId)
    | DropBinding(uid: Uid)
    | Claim(epoch: Epoch, node: NodeId)
    | AcceptClaim(epoch: Epoch, started: nat)
    | OnLease(epoch: Epoch, lease: LeaseStep)
    | Execute(call: Call)
    | Arrive(id: RequestId, epoch: Epoch, uid: Uid, claim: StickyClaim)
    | OnRequest(id: RequestId, request: RequestStep)

  function Init(): State {
    State(0, map[], map[], map[], {}, map[], {}, {}, map[])
  }

  /** The store holds exactly this epoch under the NodeID of its process. */
  predicate Registered(s: State, e: Epoch) {
    e in s.owners && EpochGate(s.epochs, s.owners[e], e).Done?
  }

  /** The process of epoch `e` would pass its local lease check right now. */
  predicate Passing(s: State, e: Epoch) {
    e in s.leases && s.leases[e].Passes(s.now)
  }

  // The store scripts, each one atomic step.

  function ExecuteRegister(s: State, c: Call): State
    requires c.Register? && c.epoch in s.owners
  {
    var n := s.owners[c.epoch];
    if n in s.epochs then s
    else s.(entered := s.entered + {c.epoch},
            epochs := s.epochs[n := StoredEpoch(c.epoch, s.now + EPOCH_TTL)],
            acks := s.acks + {c})
  }

  function ExecuteRenew(s: State, c: Call): State
    requires c.Renew?
  {
    if !Registered(s, c.epoch) then s
    else s.(epochs := s.epochs[s.owners[c.epoch] := StoredEpoch(c.epoch, s.now + EPOCH_TTL)],
            acks := s.acks + {c})
  }

  function ExecuteUnregister(s: State, c: Call): State
    requires c.Unregister?
  {
    if Registered(s, c.epoch) then s.(epochs := s.epochs - {s.owners[c.epoch]}) else s
  }

  function ExecuteWrite(s: State, c: Call): State
    requires c.Write? && c.epoch in s.owners
  {
    s.(bindings := Written(s.epochs, s.bindings, c.op, s.owners[c.epoch], c.epoch, c.uid, s.now))
  }

  function ExecuteCall(s: State, c: Call): State {
    if c !in s.calls || c.epoch !in s.owners then s
    else match c
      case Register(_, _) => ExecuteRegister(s, c)
      case Renew(_, _) => ExecuteRenew(s, c)
      case Unregister(_) => ExecuteUnregister(s, c)
      case Write(_, _, _) => ExecuteWrite(s, c)
  }

  // The process side.

  predicate RenewalAcked(s: State, e: Epoch)
    requires e in s.leases
  {
    s.leases[e].renewal.Waiting? && Renew(e, s.leases[e].renewal.started) in s.acks
  }

  function ApplyLease(s: State, e: Epoch, step: LeaseStep): State
    requires e in s.leases
  {
    s.(leases := s.leases[e := s.leases[e].Next(s.now, RenewalAcked(s, e), step)],
       calls := s.calls + s.leases[e].Sent(e, s.now, step))
  }

  /** fenceStickyClaim up to the read of the binding. */
  function FenceVerdict(node: NodeId, q: Request): Phase {
    if (q.claim.node == "") != (q.claim.epoch == "") then Rejected
    else if q.claim.node == "" then Cleared
    else if node != q.claim.node then Rejected
    else if q.claim.epoch != q.process then Rejected
    else Fenced
  }

  /** The steps that end in a lease check. */
  predicate ChecksLease(node: NodeId, phase: Phase, step: RequestStep) {
    (step.Route? && phase.Admitted?) || (step.Recheck? && phase.Located? && phase.named == node)
  }

  function NextPhase(s: State, q: Request, step: RequestStep): Phase
    requires q.process in s.owners && q.process in s.leases
  {
    var node := s.owners[q.process];
    var verdict := (onPass: Phase) => if s.leases[q.process].Passes(s.now) then onPass else Rejected;
    match step
    case Route => if q.phase.Admitted? then verdict(Routed) else q.phase
    case Fence => if q.phase.Routed? then FenceVerdict(node, q) else q.phase
    case Locate =>
      if !q.phase.Fenced? then q.phase
      else if q.uid in s.bindings then Located(s.bindings[q.uid].node)
      else Rejected
    case Recheck =>
      if !q.phase.Located? then q.phase
      else if q.phase.named != node then Rejected
      else verdict(Cleared)
    case Handle => if q.phase.Cleared? then Handling else q.phase
  }

  function ApplyRequest(s: State, id: RequestId, step: RequestStep): State
    requires id in s.requests && s.requests[id].process in s.owners && s.requests[id].process in s.leases
  {
    var q := s.requests[id];
    var l := s.leases[q.process];
    s.(requests := s.requests[id := q.(phase := NextPhase(s, q, step))],
       leases := if ChecksLease(s.owners[q.process], q.phase, step)
                 then s.leases[q.process := l.AfterCheck(s.now)] else s.leases)
  }

  function Apply(s: State, a: Action): State {
    match a
    case Advance(elapsed) => s.(now := s.now + elapsed)
    case DropEpoch(n) =>
      if n in s.epochs && s.epochs[n].expiry <= s.now then s.(epochs := s.epochs - {n}) else s
    case DropBinding(u) =>
      if u in s.bindings && s.bindings[u].expiry <= s.now then s.(bindings := s.bindings - {u}) else s
    case Claim(e, n) =>
      if e == "" || e in s.owners then s
      else s.(owners := s.owners[e := n], calls := s.calls + {Register(e, s.now)})
    case AcceptClaim(e, started) =>
      if Register(e, started) !in s.acks || e !in s.owners || e in s.leases then s
      else s.(leases := s.leases[e := Lease(started + EPOCH_TTL, false, Idle)])
    case OnLease(e, step) => if e in s.leases then ApplyLease(s, e, step) else s
    case Execute(c) => ExecuteCall(s, c)
    case Arrive(id, e, uid, claim) =>
      if id in s.requests || e !in s.leases || e !in s.owners then s
      else s.(requests := s.requests[id := Request(e, uid, claim, Admitted)])
    case OnRequest(id, step) =>
      if id in s.requests && s.requests[id].process in s.owners && s.requests[id].process in s.leases
      then ApplyRequest(s, id, step) else s
  }

  function Exec(run: seq<Action>): State {
    if run == [] then Init() else Apply(Exec(run[..|run| - 1]), run[|run| - 1])
  }

  // The inductive invariant.

  predicate IsGrant(c: Call) { c.Register? || c.Renew? }

  /** An acknowledged grant is backed by the store for a whole TTL from its start,
      unless its own process asked for the release. */
  ghost predicate Backed(s: State, c: Call)
    requires IsGrant(c)
  {
    Unregister(c.epoch) !in s.calls && s.now < c.started + EPOCH_TTL ==>
      Registered(s, c.epoch) && c.started + EPOCH_TTL <= s.epochs[s.owners[c.epoch]].expiry
  }

  ghost predicate GrantAcked(s: State, e: Epoch, started: nat) {
    Register(e, started) in s.acks || Renew(e, started) in s.acks
  }

  ghost predicate LeaseInv(s: State, e: Epoch)
    requires e in s.leases
  {
    var l := s.leases[e];
    && EPOCH_TTL <= l.deadline
    && GrantAcked(s, e, l.deadline - EPOCH_TTL)
    && (l.renewal.Granted? ==> Renew(e, l.renewal.started) in s.acks)
  }

  ghost predicate CallsInv(s: State) {
    && (forall c :: c in s.calls ==> c.epoch in s.owners)
    && (forall c :: c in s.calls && IsGrant(c) ==> c.started <= s.now)
    && (forall c :: c in s.calls && c.Unregister? ==> c.epoch in s.leases && s.leases[c.epoch].cancelled)
  }

  ghost predicate AcksInv(s: State) {
    forall c :: c in s.acks ==>
      c in s.calls && IsGrant(c) && Backed(s, c) && (c.Register? ==> c.epoch in s.entered)
  }

  ghost predicate StoreInv(s: State) {
    && s.entered <= s.owners.Keys
    && (forall n :: n in s.epochs ==> s.epochs[n].epoch in s.entered && s.owners[s.epochs[n].epoch] == n)
  }

  ghost predicate ProcessInv(s: State) {
    && s.leases.Keys <= s.owners.Keys
    && (forall e :: e in s.leases ==> LeaseInv(s, e))
    && (forall id :: id in s.requests ==> s.requests[id].process in s.leases)
  }

  ghost predicate Inv(s: State) {
    CallsInv(s) && AcksInv(s) && StoreInv(s) && ProcessInv(s)
  }
}
