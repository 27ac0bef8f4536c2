/**
  The session and registry objects of the Gateway. Each method is one section
  held under the lock named in the source. `Matches` ties an object to a session
  of the protocol, and each section is proved to do to the object what the
  protocol does to that session.
 */
module GateSession {
  import opened Basics
  import opened GateStore
  import opened GateProtocol

  class ClientSession {
    const connId: ConnId
    const authDeadline: nat
    var authAttempted: bool
    var timerArmed: bool
    var binding: Option<Binding>
    var leaseDeadline: nat

    ghost predicate Matches(x: Session)
      reads this
    {
      x.authDeadline == authDeadline && x.binding == binding && x.leaseDeadline == leaseDeadline
    }

    constructor (connId: ConnId, now: nat, authTimeout: nat, ghost gate: GateId, ghost ttl: nat)
      ensures this.connId == connId && !authAttempted && timerArmed
      ensures authDeadline == now + authTimeout && binding.None? && leaseDeadline == 0
      ensures Matches(Session(gate, ttl, now + authTimeout, true, NotTried, None, 0, Idle, Open, false, false))
    {
      this.connId, authDeadline := connId, now + authTimeout;
      authAttempted, timerArmed, binding, leaseDeadline := false, true, None, 0;
    }

    method BeginAuthentication() returns (ok: bool)
      modifies this`authAttempted
      ensures ok == !old(authAttempted) && authAttempted
    {
      ok := !authAttempted;
      authAttempted := true;
    }

    method FinishAuthentication(b: Binding, ttl: nat, boundAt: nat, now: nat, ghost x: Session) returns (ok: bool)
      requires Matches(x) && x.ttl == ttl
      modifies this
      ensures ok <==> now < authDeadline && now < boundAt + ttl
      ensures binding == if ok then Some(b) else old(binding)
      ensures leaseDeadline == if ok then boundAt + ttl else old(leaseDeadline)
      ensures Matches(if ok then x.Committed(b, boundAt) else x)
      ensures authAttempted == old(authAttempted) && timerArmed == (old(timerArmed) && !ok)
    {
      if now >= authDeadline || now >= boundAt + ttl { return false; }
      binding, leaseDeadline, timerArmed := Some(b), boundAt + ttl, false;
      ok := true;
    }

    method HeartbeatRoute(now: nat, interval: nat, ghost x: Session) returns (b: Option<Binding>, valid: bool, due: bool)
      requires Matches(x) && interval == x.ttl / 2
      ensures b == binding && (valid <==> binding.Some? && now < leaseDeadline)
      ensures due <==> binding.Some? && now < leaseDeadline <= now + interval
      ensures valid == x.LeaseValid(now) && due == x.RenewalDue(now)
    {
      valid := binding.Some? && now < leaseDeadline;
      b, due := binding, valid && leaseDeadline <= now + interval;
    }

    method FinishHeartbeat(expected: Binding, renewedAt: nat, ttl: nat, ghost x: Session)
      requires Matches(x) && x.ttl == ttl
      modifies this`leaseDeadline
      ensures leaseDeadline == if binding == Some(expected) then renewedAt + ttl else old(leaseDeadline)
      ensures Matches(x.Renewed(expected, renewedAt))
    {
      if binding == Some(expected) { leaseDeadline := renewedAt + ttl; }
    }

    method DetachForClose(ghost x: Session) returns (b: Option<Binding>)
      requires Matches(x)
      modifies this
      ensures b == old(binding) && binding.None? && leaseDeadline == 0 && !timerArmed
      ensures Matches(x.WithoutBinding())
      ensures authAttempted == old(authAttempted)
    {
      b := binding;
      timerArmed, binding, leaseDeadline := false, None, 0;
    }

    method DetachForKick(expected: Binding, now: nat, ghost x: Session) returns (ok: bool)
      requires Matches(x)
      modifies this`binding, this`leaseDeadline
      ensures ok <==> old(binding) == Some(expected) && now < old(leaseDeadline)
      ensures binding == if ok then None else old(binding)
      ensures leaseDeadline == if ok then 0 else old(leaseDeadline)
      ensures Matches(if ok then x.WithoutBinding() else x)
    {
      ok := binding == Some(expected) && now < leaseDeadline;
      if ok { binding, leaseDeadline := None, 0; }
    }

    /** A push reaches the connection only under the exact binding and a valid lease. */
    method SendIfCurrent(expected: Binding, now: nat, ghost x: Session) returns (sent: bool)
      requires Matches(x)
      ensures sent <==> binding == Some(expected) && now < leaseDeadline
      ensures sent ==> x.LeaseValid(now)
    {
      sent := binding == Some(expected) && now < leaseDeadline;
    }
  }

  class Registry {
    var open: bool
    var byConn: map<ConnId, ClientSession>
    var accepting: bool
    var authentications: nat

    /** Every session is listed under its own connection; nothing is listed or
        accepted once the map is gone. */
    ghost predicate Valid()
      reads this
    {
      && (forall c :: c in byConn ==> byConn[c].connId == c)
      && (!open ==> byConn == map[])
    }

    constructor ()
      ensures Valid() && open && byConn == map[] && accepting && authentications == 0
    {
      open, byConn, accepting, authentications := true, map[], true, 0;
    }

    method Add(sess: ClientSession) returns (ok: bool)
      requires Valid()
      modifies this`byConn
      ensures Valid()
      ensures ok <==> accepting && open && sess.connId !in old(byConn)
      ensures byConn == if ok then old(byConn)[sess.connId := sess] else old(byConn)
    {
      ok := accepting && open && sess.connId !in byConn;
      if ok { byConn := byConn[sess.connId := sess]; }
    }

    /** The counter is raised only while accepting, so that a shutdown that closed
        admission can wait for it. */
    method AdmitAuthentication(sess: ClientSession, cancelled: bool, now: nat) returns (ok: bool)
      requires Valid()
      modifies this`authentications
      ensures ok <==> accepting && sess in byConn.Values && !cancelled && now < sess.authDeadline
      ensures authentications == old(authentications) + if ok then 1 else 0
    {
      ok := accepting && sess.connId in byConn && byConn[sess.connId] == sess && !cancelled && now < sess.authDeadline;
      if ok { authentications := authentications + 1; }
    }

    method CommitAuthentication(sess: ClientSession, cancelled: bool, b: Binding, ttl: nat, boundAt: nat, now: nat,
                                ghost x: Session) returns (ok: bool)
      requires Valid() && sess.Matches(x) && x.ttl == ttl
      modifies sess
      ensures ok <==> sess in byConn.Values && !cancelled && now < sess.authDeadline && now < boundAt + ttl
      ensures sess.binding == if ok then Some(b) else old(sess.binding)
      ensures sess.leaseDeadline == if ok then boundAt + ttl else old(sess.leaseDeadline)
      ensures sess.Matches(if ok then x.Committed(b, boundAt) else x)
    {
      if sess.connId !in byConn || byConn[sess.connId] != sess || cancelled || now >= sess.authDeadline {
        return false;
      }
      ok := sess.FinishAuthentication(b, ttl, boundAt, now, x);
    }

    method Remove(sess: ClientSession) returns (removed: bool)
      requires Valid()
      modifies this`byConn
      ensures Valid()
      ensures removed <==> sess in old(byConn).Values
      ensures byConn == if removed then old(byConn) - {sess.connId} else old(byConn)
    {
      removed := sess.connId in byConn && byConn[sess.connId] == sess;
      if removed { byConn := byConn - {sess.connId}; }
    }

    /** The sessions of the map in some order, each exactly once. */
    ghost predicate Lists(sessions: seq<ClientSession>, of: map<ConnId, ClientSession>) {
      && (forall i :: 0 <= i < |sessions| ==> sessions[i] in of.Values)
      && (forall x :: x in of.Values ==> x in sessions)
      && (forall i, j :: 0 <= i < j < |sessions| ==> sessions[i] != sessions[j])
    }

    method Snapshot() returns (sessions: seq<ClientSession>)
      requires Valid()
      ensures Lists(sessions, byConn)
    {
      sessions := [];
      var rest := byConn.Keys;
      while rest != {}
        invariant rest <= byConn.Keys
        invariant forall i :: 0 <= i < |sessions| ==>
                    sessions[i].connId in byConn.Keys - rest && byConn[sessions[i].connId] == sessions[i]
        invariant forall c :: c in byConn.Keys - rest ==> byConn[c] in sessions
        invariant forall i, j :: 0 <= i < j < |sessions| ==> sessions[i] != sessions[j]
        decreases rest
      {
        var c :| c in rest;
        sessions := sessions + [byConn[c]];
        rest := rest - {c};
      }
    }

    method TakeAll() returns (sessions: seq<ClientSession>)
      requires Valid()
      modifies this`open, this`byConn
      ensures Valid() && !open && byConn == map[]
      ensures Lists(sessions, old(byConn))
    {
      sessions := Snapshot();
      open, byConn := false, map[];
    }
  }
}

/**
  The workers of the shutdown drain share one atomic index into the sessions
  taken. `claimed` is what each worker holds, `drained` what has been drained.
 */
module SessionDrain {

  const WORKER_LIMIT: nat := 64

  datatype Worker = Ready | Holding(index: nat) | Gone

  datatype State = State(total: nat, next: nat, workers: seq<Worker>, drained: seq<nat>)

  datatype Action = Claim(worker: nat) | Finish(worker: nat)

  function Init(total: nat): State {
    var count := if total < WORKER_LIMIT then total else WORKER_LIMIT;
    State(total, 0, seq(count, _ => Ready), [])
  }

  function Apply(s: State, a: Action): State {
    if a.worker >= |s.workers| then s
    else match (a, s.workers[a.worker])
      case (Claim(w), Ready) =>
        s.(next := s.next + 1, workers := s.workers[w := if s.next < s.total then Holding(s.next) else Gone])
      case (Finish(w), Holding(i)) => s.(workers := s.workers[w := Ready], drained := s.drained + [i])
      case (_, _) => s
  }

  function Exec(total: nat, run: seq<Action>): State {
    if run == [] then Init(total) else Apply(Exec(total, run[..|run| - 1]), run[|run| - 1])
  }

  ghost predicate Inv(s: State) {
    && |s.workers| == (if s.total < WORKER_LIMIT then s.total else WORKER_LIMIT)
    && (forall w :: 0 <= w < |s.workers| && s.workers[w].Holding? ==>
          s.workers[w].index < s.next && s.workers[w].index < s.total && s.workers[w].index !in s.drained)
    && (forall v, w :: 0 <= v < w < |s.workers| && s.workers[v].Holding? && s.workers[w].Holding? ==>
          s.workers[v].index != s.workers[w].index)
    && (forall k :: 0 <= k < |s.drained| ==> s.drained[k] < s.next && s.drained[k] < s.total)
    && (forall k, m :: 0 <= k < m < |s.drained| ==> s.drained[k] != s.drained[m])
    && (forall i :: 0 <= i < s.next && i < s.total ==> i in s.drained || Held(s, i))
    && (forall w :: 0 <= w < |s.workers| && s.workers[w].Gone? ==> s.total <= s.next)
  }

  ghost predicate Held(s: State, i: nat) {
    exists w :: 0 <= w < |s.workers| && s.workers[w] == Holding(i)
  }

  lemma ClaimKeepsHeld(s: State, a: Action, i: nat)
    requires Inv(s) && Held(s, i)
    ensures Held(Apply(s, a), i) || i in Apply(s, a).drained
  {
    var w :| 0 <= w < |s.workers| && s.workers[w] == Holding(i);
    if a == Finish(w) {
      assert Apply(s, a).drained[|s.drained|] == i;
    } else {
      assert Apply(s, a).workers[w] == Holding(i);
    }
  }

  /** No index gets lost: what was given out is held or drained. */
  lemma StepLosesNone(s: State, a: Action, i: nat)
    requires Inv(s) && i < Apply(s, a).next && i < s.total
    ensures i in Apply(s, a).drained || Held(Apply(s, a), i)
  {
    var t := Apply(s, a);
    if i >= s.next {
      assert t.workers[a.worker] == Holding(i);
    } else if i in s.drained {
      var k :| 0 <= k < |s.drained| && s.drained[k] == i;
      assert t.drained[k] == i;
    } else {
      ClaimKeepsHeld(s, a, i);
    }
  }

  lemma StepKeepsInv(s: State, a: Action)
    requires Inv(s)
    ensures Inv(Apply(s, a))
  {
    var t := Apply(s, a);
    forall i | 0 <= i < t.next && i < t.total ensures i in t.drained || Held(t, i) {
      StepLosesNone(s, a, i);
    }
  }

  lemma {:induction false} RunKeepsInv(total: nat, run: seq<Action>)
    ensures Inv(Exec(total, run)) && Exec(total, run).total == total
  {
    if run != [] {
      RunKeepsInv(total, run[..|run| - 1]);
      StepKeepsInv(Exec(total, run[..|run| - 1]), run[|run| - 1]);
    }
  }

  /** A worker that is ready claims the next index, or goes when there is none; one that holds
      an index drains it. So no worker is ever held up by the others. */
  lemma WorkersMoveExactly(s: State, w: nat)
    requires w < |s.workers|
    ensures s.workers[w].Ready? ==>
      Apply(s, Claim(w)) == s.(next := s.next + 1, workers := s.workers[w := if s.next < s.total then Holding(s.next) else Gone])
    ensures s.workers[w].Holding? ==>
      Apply(s, Finish(w)) == s.(workers := s.workers[w := Ready], drained := s.drained + [s.workers[w].index])
  {
  }

  /** However the workers interleave, no session is drained twice, and once they have
      all gone every session has been drained. */
  lemma EachSessionDrainedOnce(total: nat, run: seq<Action>)
    ensures var s := Exec(total, run);
            forall k, m :: 0 <= k < m < |s.drained| ==> s.drained[k] != s.drained[m]
    ensures var s := Exec(total, run);
            (forall w :: 0 <= w < |s.workers| ==> s.workers[w].Gone?) ==> forall i :: 0 <= i < total ==> i in s.drained
  {
    RunKeepsInv(total, run);
    var s := Exec(total, run);
    if forall w :: 0 <= w < |s.workers| ==> s.workers[w].Gone? {
      if 0 < total { assert s.workers[0].Gone?; }
      forall i | 0 <= i < total ensures i in s.drained {
        assert !Held(s, i);
      }
    }
  }
}
