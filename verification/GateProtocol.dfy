/**
  The Gateway session protocol: a connection authenticates once, binds its player
  in the store with a fresh token, renews that lease by heartbeats, and gives the
  binding up to exactly one of a close, a kick and the shutdown drain.

  Any number of connections, of any number of Gateways that open, shut down and are
  replaced, run against one store and one clock. Store calls are sent, executed and
  answered in separate steps, so an answer may be late or lost, a call may execute
  long after its sender gave up, and a retransmission may execute it again. An
  action that is not enabled leaves the state as it is.
 */
module GateProtocol {
  import opened Basics
  import opened GateStore

  type GateId = string

  /** The one authentication of a connection, which holds its handler lock from
      `Attempted` until `Finished`. */
  datatype Auth =
    | NotTried
    | Attempted
    | Admitted(binding: Binding, started: nat)
    | Bound(binding: Binding, started: nat)
    | Finished

  datatype Beat = Idle | Renewing(binding: Binding, started: nat)

  datatype Path = ByClose | ByKick | ByDrain

  datatype Closing = Open | Leaving(path: Path) | Detached

  /** `looked` says that a kick holds the session, having found it in the registry;
      `kicked` that a kick has detached it. */
  datatype Session = Session(
    gate: GateId,
    ttl: nat,
    authDeadline: nat,
    listed: bool,
    auth: Auth,
    binding: Option<Binding>,
    leaseDeadline: nat,
    beat: Beat,
    closing: Closing,
    looked: bool,
    kicked: bool)
  {
    predicate LeaseValid(now: nat) {
      binding.Some? && now < leaseDeadline
    }

    predicate CanAuthenticate(cancelled: bool, now: nat) {
      !cancelled && now < authDeadline
    }

    predicate RenewalDue(now: nat) {
      LeaseValid(now) && leaseDeadline <= now + ttl / 2
    }

    /** The end of a successful authentication. */
    function Committed(b: Binding, started: nat): Session {
      this.(binding := Some(b), leaseDeadline := started + ttl, auth := Finished)
    }

    function Renewed(b: Binding, started: nat): Session {
      if binding == Some(b) then this.(leaseDeadline := started + ttl) else this
    }

    function WithoutBinding(): Session {
      this.(binding := None, leaseDeadline := 0)
    }

    /** The locks that the detaching of a close waits for are free. */
    predicate LocksFree() {
      (auth.NotTried? || auth.Finished?) && beat.Idle?
    }
  }

  datatype Call =
    | BindGate(binding: Binding, ttl: nat, started: nat)
    | RenewGate(binding: Binding, ttl: nat, started: nat)
    | UnbindGate(binding: Binding)

  /** `unbound` says that the taker goes on to unbind; a drain may run out of time first. */
  datatype Handout = Handout(binding: Binding, path: Path, unbound: bool)

  /** Why a binding left the store. */
  datatype Cause = Overwritten(next: Call) | Expired | Unbound

  datatype Departure = Departure(at: nat, cause: Cause)

  /** The store and the calls under way; `left` is when and why a binding that is not
      stored was last seen to leave. */
  datatype Net = Net(
    now: nat,
    store: map<Key, Stored>,
    calls: set<Call>,
    acks: set<Call>,
    left: map<Binding, Departure>)
  {
    function Send(c: Call): Net {
      this.(calls := calls + {c})
    }
  }

  /** The Gateways, those that have closed their admission and those whose shutdown has
      taken the sessions; `bound`, `committed`, `rolledBack` and `handouts` record what
      became of each successful bind. */
  datatype State = State(
    net: Net,
    sessions: map<ConnId, Session>,
    closed: set<GateId>,
    taken: set<GateId>,
    tokens: set<Token>,
    bound: set<Binding>,
    committed: set<Binding>,
    rolledBack: set<Binding>,
    handouts: seq<Handout>)

  datatype SessionStep =
    | BeginAuth
    | Admit(key: Key, token: Token, cancelled: bool)
    | AcceptBind
    | FailBind
    | Commit(cancelled: bool)
    | StartBeat
    | AcceptBeat
    | FailBeat
    | Remove
    | Detach(unbind: bool)
    | LookUp
    | Kick(binding: Binding)
    | KickRemove

  datatype Action =
    | Advance(elapsed: nat)
    | Drop(key: Key)
    | OpenConn(conn: ConnId, gate: GateId, ttl: nat, authTimeout: nat)
    | OnSession(conn: ConnId, step: SessionStep)
    | Execute(call: Call)
    | CloseAdmission(gate: GateId)
    | TakeAll(gate: GateId)

  function Init(): State {
    State(Net(0, map[], {}, {}, map[]), map[], {}, {}, {}, {}, {}, {}, [])
  }

  // The store.

  predicate IsStored(n: Net, b: Binding) {
    b.key in n.store && n.store[b.key].value == Encoded(b)
  }

  /** The departures once what is stored under `key` leaves now. */
  function Departing(n: Net, key: Key, cause: Cause): map<Binding, Departure> {
    if key in n.store && n.store[key].value.Encoded?
    then n.left[n.store[key].value.binding := Departure(n.now, cause)] else n.left
  }

  function ExecuteBind(n: Net, c: Call): Net
    requires c.BindGate?
  {
    var b := c.binding;
    if !BindStatus(n.store, b.key, n.now).Done? then n
    else n.(left := Departing(n, b.key, Overwritten(c)) - {b},
            store := n.store[b.key := Stored(Encoded(b), n.now + c.ttl)],
            acks := n.acks + {c})
  }

  function ExecuteRenew(n: Net, c: Call): Net
    requires c.RenewGate?
  {
    if !MatchStatus(n.store, c.binding, n.now).Done? then n
    else n.(store := n.store[c.binding.key := Stored(Encoded(c.binding), n.now + c.ttl)], acks := n.acks + {c})
  }

  function RemoveKey(n: Net, key: Key, cause: Cause): Net {
    n.(left := Departing(n, key, cause), store := n.store - {key})
  }

  function ExecuteCall(n: Net, c: Call): Net {
    match c
    case BindGate(_, _, _) => ExecuteBind(n, c)
    case RenewGate(_, _, _) => ExecuteRenew(n, c)
    case UnbindGate(b) => if MatchStatus(n.store, b, n.now).Done? then RemoveKey(n, b.key, Unbound) else n
  }

  // The Gateway.

  function Put(s: State, conn: ConnId, x: Session): State {
    s.(sessions := s.sessions[conn := x])
  }

  function ApplyAuth(s: State, conn: ConnId, step: SessionStep): State
    requires conn in s.sessions
    requires step.BeginAuth? || step.Admit? || step.AcceptBind? || step.FailBind? || step.Commit?
  {
    var x := s.sessions[conn];
    match step
    case BeginAuth => if x.auth.NotTried? then Put(s, conn, x.(auth := Attempted)) else s
    case Admit(key, token, cancelled) =>
      if !x.auth.Attempted? || token in s.tokens then s
      else if x.gate in s.closed || !x.listed || !x.CanAuthenticate(cancelled, s.net.now) then Put(s, conn, x.(auth := Finished))
      else
        var b := Binding(key, conn, token);
        Put(s, conn, x.(auth := Admitted(b, s.net.now)))
        .(tokens := s.tokens + {token}, net := s.net.Send(BindGate(b, x.ttl, s.net.now)))
    case AcceptBind =>
      if !x.auth.Admitted? || BindGate(x.auth.binding, x.ttl, x.auth.started) !in s.net.acks then s
      else Put(s, conn, x.(auth := Bound(x.auth.binding, x.auth.started)))
           .(bound := s.bound + {x.auth.binding})
    case FailBind => if x.auth.Admitted? then Put(s, conn, x.(auth := Finished)) else s
    case Commit(cancelled) =>
      if !x.auth.Bound? then s
      else if x.listed && x.CanAuthenticate(cancelled, s.net.now) && s.net.now < x.auth.started + x.ttl
      then Put(s, conn, x.Committed(x.auth.binding, x.auth.started))
           .(committed := s.committed + {x.auth.binding})
      else Put(s, conn, x.(auth := Finished))
           .(rolledBack := s.rolledBack + {x.auth.binding}, net := s.net.Send(UnbindGate(x.auth.binding)))
  }

  function ApplyBeat(s: State, conn: ConnId, step: SessionStep): State
    requires conn in s.sessions
    requires step.StartBeat? || step.AcceptBeat? || step.FailBeat?
  {
    var x := s.sessions[conn];
    match step
    case StartBeat =>
      if !x.beat.Idle? || !x.RenewalDue(s.net.now) then s
      else Put(s, conn, x.(beat := Renewing(x.binding.value, s.net.now)))
           .(net := s.net.Send(RenewGate(x.binding.value, x.ttl, s.net.now)))
    case AcceptBeat =>
      if !x.beat.Renewing? || RenewGate(x.beat.binding, x.ttl, x.beat.started) !in s.net.acks then s
      else Put(s, conn, x.Renewed(x.beat.binding, x.beat.started).(beat := Idle))
    case FailBeat => Put(s, conn, x.(beat := Idle))
  }

  function HandOut(s: State, b: Binding, path: Path, unbind: bool): State {
    s.(handouts := s.handouts + [Handout(b, path, unbind)],
       net := if unbind then s.net.Send(UnbindGate(b)) else s.net)
  }

  function ApplyClose(s: State, conn: ConnId, step: SessionStep): State
    requires conn in s.sessions
    requires step.Remove? || step.Detach? || step.LookUp? || step.Kick? || step.KickRemove?
  {
    var x := s.sessions[conn];
    match step
    case Remove =>
      if x.listed then Put(s, conn, x.(listed := false, closing := Leaving(ByClose))) else s
    case Detach(unbind) =>
      if !x.closing.Leaving? || !x.LocksFree() then s
      else
        var t := Put(s, conn, x.WithoutBinding().(closing := Detached));
        if x.binding.None? then t
        else HandOut(t, x.binding.value, x.closing.path, unbind || x.closing.path.ByClose?)
    case LookUp => if x.listed then Put(s, conn, x.(looked := true)) else s
    case Kick(b) =>
      if !x.looked || x.binding != Some(b) || x.leaseDeadline <= s.net.now then s
      else HandOut(Put(s, conn, x.WithoutBinding().(kicked := true)), b, ByKick, true)
    case KickRemove => if x.listed && x.kicked then Put(s, conn, x.(listed := false)) else s
  }

  function ApplySession(s: State, conn: ConnId, step: SessionStep): State
    requires conn in s.sessions
  {
    match step
    case BeginAuth => ApplyAuth(s, conn, step)
    case Admit(_, _, _) => ApplyAuth(s, conn, step)
    case AcceptBind => ApplyAuth(s, conn, step)
    case FailBind => ApplyAuth(s, conn, step)
    case Commit(_) => ApplyAuth(s, conn, step)
    case StartBeat => ApplyBeat(s, conn, step)
    case AcceptBeat => ApplyBeat(s, conn, step)
    case FailBeat => ApplyBeat(s, conn, step)
    case Remove => ApplyClose(s, conn, step)
    case Detach(_) => ApplyClose(s, conn, step)
    case LookUp => ApplyClose(s, conn, step)
    case Kick(_) => ApplyClose(s, conn, step)
    case KickRemove => ApplyClose(s, conn, step)
  }

  function Taken(x: Session, gate: GateId): Session {
    if x.gate == gate && x.listed then x.(listed := false, closing := Leaving(ByDrain)) else x
  }

  function Apply(s: State, a: Action): State {
    match a
    case Advance(elapsed) => s.(net := s.net.(now := s.net.now + elapsed))
    case Drop(key) =>
      if key in s.net.store && s.net.store[key].expiry <= s.net.now
      then s.(net := RemoveKey(s.net, key, Expired)) else s
    case OpenConn(conn, gate, ttl, authTimeout) =>
      if conn in s.sessions || gate in s.closed || gate in s.taken then s
      else Put(s, conn, Session(gate, ttl, s.net.now + authTimeout, true, NotTried, None, 0, Idle, Open, false, false))
    case OnSession(conn, step) => if conn in s.sessions then ApplySession(s, conn, step) else s
    case Execute(c) => if c in s.net.calls then s.(net := ExecuteCall(s.net, c)) else s
    case CloseAdmission(gate) => s.(closed := s.closed + {gate})
    case TakeAll(gate) =>
      if gate !in s.closed then s
      else s.(taken := s.taken + {gate}, sessions := map conn | conn in s.sessions :: Taken(s.sessions[conn], gate))
  }

  function Exec(run: seq<Action>): State {
    if run == [] then Init() else Apply(Exec(run[..|run| - 1]), run[|run| - 1])
  }
}
