/**
  What each step of the Node ownership protocol brings about, and nothing else does: the
  store scripts, the end and the extension of a lease, the calls sent, and the way of a
  request through the fence.
 */
module EpochEffects {
  import opened Basics
  import opened NodeStore
  import opened EpochProtocol
  import opened EpochSafety

  /**
    A call executed by the store object: the protocol's step leaves epochs and bindings as
    the script does, and acknowledges a claim or a renewal exactly when the script did.
   */
  method Perform(store: Store, c: Call, node: NodeId, now: nat, ghost s: State) returns (done: bool)
    requires store.epochs == s.epochs && store.bindings == s.bindings && now == s.now
    requires c in s.calls && c.epoch in s.owners && s.owners[c.epoch] == node
    modifies store
    ensures var t := Apply(s, Execute(c));
      && store.epochs == t.epochs && store.bindings == t.bindings
      && t.acks == s.acks + (if IsGrant(c) && done then {c} else {})
      && t.leases == s.leases && t.owners == s.owners && t.calls == s.calls && t.requests == s.requests && t.now == s.now
  {
    var status := Done;
    match c {
      case Register(e, _) => status := store.RegisterEpoch(node, e, now);
      case Renew(e, _) => status := store.RenewEpoch(node, e, now);
      case Unregister(e) => store.UnregisterEpoch(node, e);
      case Write(e, op, uid) =>
        match op {
          case Bind => status := store.BindNode(node, e, uid, now);
          case RenewBinding => status := store.RenewNode(node, e, uid, now);
          case Unbind => status := store.UnbindNode(node, e, uid, now);
        }
    }
    done := status.Done?;
  }

  /** A key past its expiry may vanish, and only that key. */
  lemma DropRemovesOne(s: State, n: NodeId, u: Uid)
    ensures Apply(s, DropEpoch(n)) == if n in s.epochs && s.epochs[n].expiry <= s.now then s.(epochs := s.epochs - {n}) else s
    ensures Apply(s, DropBinding(u)) == if u in s.bindings && s.bindings[u].expiry <= s.now then s.(bindings := s.bindings - {u}) else s
  {
  }

  // The lease.

  /** The steps that check the lease of `e` against the clock: the check itself, the one
      before a renewal, the one after an answer in time, and those of a request. */
  predicate Checks(s: State, a: Action, e: Epoch)
    requires e in s.leases
  {
    var r := s.leases[e].renewal;
    || a == OnLease(e, Check)
    || a == OnLease(e, CheckRenewal)
    || (a == OnLease(e, AcceptRenewal) && r.Waiting? && Renew(e, r.started) in s.acks && s.now < r.limit)
    || (&& a.OnRequest? && a.id in s.requests && s.requests[a.id].process == e && e in s.owners
        && var phase := s.requests[a.id].phase;
        || (a.request.Route? && phase.Admitted?)
        || (a.request.Recheck? && phase.Located? && phase.named == s.owners[e]))
  }

  /** A lease ends in exactly three ways: it is cancelled, the store refuses its renewal, or
      a check finds it at or past its deadline. A renewal that merely fails ends nothing. */
  lemma CancelledExactly(s: State, a: Action, e: Epoch)
    requires e in s.leases && !s.leases[e].cancelled
    ensures CancelledLease(Apply(s, a), e) <==>
      || a == OnLease(e, Cancel)
      || (a == OnLease(e, FailRenewal(true)) && s.leases[e].renewal.Waiting?)
      || (Checks(s, a, e) && s.leases[e].deadline <= s.now)
  {
    if a.OnLease? && a.epoch == e {
      assert Apply(s, a).leases[e] == s.leases[e].Next(s.now, RenewalAcked(s, e), a.lease);
    }
  }

  lemma FailureKeepsLease(l: Lease, now: nat, acked: bool)
    requires l.Passes(now) && l.renewal.Waiting?
    ensures l.Next(now, acked, FailRenewal(false)) == l.(renewal := Idle)
    ensures l.Next(now, acked, FailRenewal(false)).Passes(now)
  {
  }

  /** The deadline moves exactly when a granted renewal stores it, to one TTL after the
      start of that renewal. */
  lemma DeadlineMovesExactly(s: State, a: Action, e: Epoch)
    requires e in s.leases
    ensures e in Apply(s, a).leases
    ensures Apply(s, a).leases[e].deadline ==
            if a == OnLease(e, StoreDeadline) && s.leases[e].renewal.Granted?
            then s.leases[e].renewal.started + EPOCH_TTL else s.leases[e].deadline
  {
    if a.OnLease? && a.epoch == e {
      assert Apply(s, a).leases[e] == s.leases[e].Next(s.now, RenewalAcked(s, e), a.lease);
    }
  }

  /** A process becomes an owner exactly by an acknowledged claim, for one TTL from its start. */
  lemma OwnershipStartsExactly(s: State, a: Action, e: Epoch)
    requires e !in s.leases
    ensures e in Apply(s, a).leases <==>
              a.AcceptClaim? && a.epoch == e && e in s.owners && Register(e, a.started) in s.acks
    ensures e in Apply(s, a).leases ==> Apply(s, a).leases[e] == Lease(a.started + EPOCH_TTL, false, Idle)
  {
  }

  function AfterSend(s: State, e: Epoch): State {
    Apply(Apply(s, OnLease(e, CheckRenewal)), OnLease(e, SendRenewal))
  }

  function AfterRenewal(s: State, e: Epoch): State {
    Apply(Apply(Apply(AfterSend(s, e), Execute(Renew(e, s.now))), OnLease(e, AcceptRenewal)), OnLease(e, StoreDeadline))
  }

  lemma SendIsExact(s: State, e: Epoch)
    requires Passing(s, e) && s.leases[e].renewal.Idle?
    ensures AfterSend(s, e) == s.(calls := s.calls + {Renew(e, s.now)},
              leases := s.leases[e := s.leases[e].(renewal := Waiting(s.now, Min(s.leases[e].deadline, s.now + RPC_TIMEOUT)))])
  {
    var t := Apply(s, OnLease(e, CheckRenewal));
    assert t == s.(leases := s.leases[e := s.leases[e].(renewal := Checked)]);
  }

  /** From every state in which a process owns its node, a renewal answered at once extends
      the lease, here and in the store, by a whole TTL from now. */
  lemma RenewalExtends(s: State, e: Epoch)
    requires Passing(s, e) && Registered(s, e) && s.leases[e].renewal.Idle?
    ensures var t := AfterRenewal(s, e);
      && Passing(t, e) && t.leases[e] == Lease(s.now + EPOCH_TTL, false, Idle)
      && Registered(t, e) && t.epochs[t.owners[e]].expiry == s.now + EPOCH_TTL
  {
    SendIsExact(s, e);
    var sent := AfterSend(s, e);
    var stored := Apply(sent, Execute(Renew(e, s.now)));
    assert stored == sent.(epochs := s.epochs[s.owners[e] := StoredEpoch(e, s.now + EPOCH_TTL)],
                           acks := s.acks + {Renew(e, s.now)});
    var granted := Apply(stored, OnLease(e, AcceptRenewal));
    assert granted == stored.(leases := stored.leases[e := s.leases[e].(renewal := Granted(s.now))]);
  }

  // The calls.

  /** Which step sends which call: a claim once per epoch, a renewal after a passing check, a
      release only for a cancelled lease, a write at any time. */
  predicate Sends(s: State, a: Action, c: Call) {
    match c
    case Register(e, started) => a.Claim? && a.epoch == e && e != "" && e !in s.owners && started == s.now
    case Renew(e, started) =>
      a == OnLease(e, SendRenewal) && e in s.leases && s.leases[e].renewal.Checked? && started == s.now
    case Unregister(e) => a == OnLease(e, Release) && CancelledLease(s, e)
    case Write(e, op, uid) => a == OnLease(e, SendWrite(op, uid)) && e in s.leases
  }

  lemma SentExactly(s: State, a: Action, c: Call)
    ensures c in Apply(s, a).calls <==> c in s.calls || Sends(s, a, c)
  {
  }

  // The requests.

  /** Where a request stands after a step of its server. It is turned away exactly when a
      lease check fails, when its claim is not both or neither of this node and this epoch,
      or when the store names no node or another one; a request without a claim skips the
      read of the binding. */
  lemma FenceIsExact(s: State, id: RequestId, step: RequestStep)
    requires id in s.requests && s.requests[id].process in s.owners && s.requests[id].process in s.leases
    ensures var q := s.requests[id];
      var node, owns := s.owners[q.process], Passing(s, q.process);
      var unclaimed := q.claim.node == "" && q.claim.epoch == "";
      var claimed := q.claim.node != "" && q.claim.epoch != "" && q.claim == StickyClaim(node, q.process);
      var phase := Apply(s, OnRequest(id, step)).requests[id].phase;
      && (q.phase.Admitted? && step.Route? ==> phase == (if owns then Routed else Rejected))
      && (q.phase.Routed? && step.Fence? ==> phase == (if unclaimed then Cleared else if claimed then Fenced else Rejected))
      && (q.phase.Fenced? && step.Locate? ==>
            phase == (if q.uid in s.bindings then Located(s.bindings[q.uid].node) else Rejected))
      && (q.phase.Located? && step.Recheck? ==> phase == (if q.phase.named == node && owns then Cleared else Rejected))
      && (q.phase.Cleared? && step.Handle? ==> phase == Handling)
      && (phase != q.phase ==>
            || (q.phase.Admitted? && step.Route?) || (q.phase.Routed? && step.Fence?) || (q.phase.Fenced? && step.Locate?)
            || (q.phase.Located? && step.Recheck?) || (q.phase.Cleared? && step.Handle?))
  {
  }

  /** A request is taken in by any process that holds a lease, once under its number. */
  lemma ArrivesExactly(s: State, a: Action, id: RequestId)
    requires id !in s.requests
    ensures id in Apply(s, a).requests <==> a.Arrive? && a.id == id && a.epoch in s.leases && a.epoch in s.owners
    ensures id in Apply(s, a).requests ==> Apply(s, a).requests[id] == Request(a.epoch, a.uid, a.claim, Admitted)
  {
  }
}
