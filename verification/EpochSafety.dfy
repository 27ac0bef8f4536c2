/** What every run of the Node ownership protocol keeps. */
module EpochSafety {
  import opened Basics
  import opened NodeStore
  import opened EpochProtocol

  /** A claim enters only under a free NodeID, where no other grant still runs; so does a
      claim that is executed again. */
  lemma EnterKeepsBacked(s: State, c: Call, d: Call)
    requires Inv(s) && c in s.calls && c.Register? && s.owners[c.epoch] !in s.epochs
    requires d in s.acks || d == c
    ensures Backed(ExecuteRegister(s, c), d)
  {
    if d != c { assert Backed(s, d); }
  }

  lemma ExecuteRegisterKeepsInv(s: State, c: Call)
    requires Inv(s) && c in s.calls && c.Register?
    ensures Inv(ExecuteRegister(s, c))
  {
    var t := ExecuteRegister(s, c);
    if s.owners[c.epoch] !in s.epochs {
      assert CallsInv(t) && StoreInv(t);
      forall e | e in t.leases ensures LeaseInv(t, e) { assert LeaseInv(s, e); }
      forall d | d in t.acks ensures Backed(t, d) { EnterKeepsBacked(s, c, d); }
    }
  }

  lemma ExecuteRenewKeepsInv(s: State, c: Call)
    requires Inv(s) && c in s.calls && c.Renew?
    ensures Inv(ExecuteRenew(s, c))
  {
    var t := ExecuteRenew(s, c);
    assert CallsInv(t);
    assert StoreInv(t);
    assert ProcessInv(t) by {
      forall e | e in t.leases ensures LeaseInv(t, e) { assert LeaseInv(s, e); }
    }
    forall d | d in t.acks ensures d in t.calls && IsGrant(d) && Backed(t, d) && (d.Register? ==> d.epoch in t.entered) {
      if d != c { assert Backed(s, d); }
    }
  }

  /** Removing one epoch key is safe when no grant of that epoch still runs. */
  lemma DropKeepsInv(s: State, n: NodeId)
    requires Inv(s) && n in s.epochs
    requires s.epochs[n].expiry <= s.now || Unregister(s.epochs[n].epoch) in s.calls
    ensures Inv(s.(epochs := s.epochs - {n}))
  {
    var t := s.(epochs := s.epochs - {n});
    assert CallsInv(t);
    assert StoreInv(t);
    assert ProcessInv(t) by {
      forall e | e in t.leases ensures LeaseInv(t, e) { assert LeaseInv(s, e); }
    }
    forall d | d in t.acks ensures Backed(t, d) {
      assert Backed(s, d);
    }
  }

  lemma BindingsKeepInv(s: State, bindings: map<Uid, StoredBinding>)
    requires Inv(s)
    ensures Inv(s.(bindings := bindings))
  {
    var t := s.(bindings := bindings);
    forall d | d in t.acks ensures Backed(t, d) { assert Backed(s, d); }
    forall e | e in t.leases ensures LeaseInv(t, e) { assert LeaseInv(s, e); }
  }

  lemma ExecuteKeepsInv(s: State, c: Call)
    requires Inv(s)
    ensures Inv(ExecuteCall(s, c))
  {
    if c in s.calls {
      match c
      case Register(_, _) => ExecuteRegisterKeepsInv(s, c);
      case Renew(_, _) => ExecuteRenewKeepsInv(s, c);
      case Unregister(e) => if Registered(s, e) { DropKeepsInv(s, s.owners[e]); }
      case Write(_, _, _) => BindingsKeepInv(s, ExecuteWrite(s, c).bindings);
    }
  }

  /** A lease may be replaced by one that stays granted and stays cancelled. */
  lemma SetLeaseKeepsInv(s: State, e: Epoch, l: Lease)
    requires Inv(s) && e in s.owners
    requires e in s.leases && s.leases[e].cancelled ==> l.cancelled
    requires EPOCH_TTL <= l.deadline && GrantAcked(s, e, l.deadline - EPOCH_TTL)
    requires l.renewal.Granted? ==> Renew(e, l.renewal.started) in s.acks
    ensures Inv(s.(leases := s.leases[e := l]))
  {
    var t := s.(leases := s.leases[e := l]);
    forall d | d in t.acks ensures Backed(t, d) { assert Backed(s, d); }
    forall f | f in t.leases ensures LeaseInv(t, f) { if f != e { assert LeaseInv(s, f); } }
  }

  lemma SendKeepsInv(s: State, sent: set<Call>)
    requires Inv(s)
    requires forall c :: c in sent ==> c.epoch in s.owners && (IsGrant(c) ==> c.started <= s.now)
    requires forall c :: c in sent && c.Unregister? ==> c.epoch in s.leases && s.leases[c.epoch].cancelled
    ensures Inv(s.(calls := s.calls + sent))
  {
    var t := s.(calls := s.calls + sent);
    forall d | d in t.acks ensures Backed(t, d) { assert Backed(s, d); }
    forall f | f in t.leases ensures LeaseInv(t, f) { assert LeaseInv(s, f); }
  }

  lemma LeaseStepKeepsInv(s: State, e: Epoch, step: LeaseStep)
    requires Inv(s) && e in s.leases
    ensures Inv(ApplyLease(s, e, step))
  {
    assert LeaseInv(s, e);
    var l := s.leases[e].Next(s.now, RenewalAcked(s, e), step);
    SetLeaseKeepsInv(s, e, l);
    SendKeepsInv(s.(leases := s.leases[e := l]), s.leases[e].Sent(e, s.now, step));
  }

  lemma RequestsKeepInv(s: State, requests: map<RequestId, Request>)
    requires Inv(s)
    requires forall id :: id in requests ==> requests[id].process in s.leases
    ensures Inv(s.(requests := requests))
  {
    var t := s.(requests := requests);
    forall d | d in t.acks ensures Backed(t, d) { assert Backed(s, d); }
    forall f | f in t.leases ensures LeaseInv(t, f) { assert LeaseInv(s, f); }
  }

  lemma RequestStepKeepsInv(s: State, id: RequestId, step: RequestStep)
    requires Inv(s) && id in s.requests
    ensures Inv(ApplyRequest(s, id, step))
  {
    var e := s.requests[id].process;
    var t := ApplyRequest(s, id, step);
    assert LeaseInv(s, e);
    SetLeaseKeepsInv(s, e, s.leases[e].AfterCheck(s.now));
    RequestsKeepInv(s.(leases := t.leases), t.requests);
  }

  lemma AdvanceKeepsInv(s: State, elapsed: nat)
    requires Inv(s)
    ensures Inv(s.(now := s.now + elapsed))
  {
    var t := s.(now := s.now + elapsed);
    forall d | d in t.acks ensures Backed(t, d) { assert Backed(s, d); }
    forall f | f in t.leases ensures LeaseInv(t, f) { assert LeaseInv(s, f); }
  }

  lemma ClaimKeepsInv(s: State, e: Epoch, n: NodeId)
    requires Inv(s)
    ensures Inv(Apply(s, Claim(e, n)))
  {
    if e != "" && e !in s.owners {
      var t := s.(owners := s.owners[e := n]);
      assert Inv(t) by {
        forall d | d in t.acks ensures Backed(t, d) { assert Backed(s, d); }
        forall f | f in t.leases ensures LeaseInv(t, f) { assert LeaseInv(s, f); }
      }
      SendKeepsInv(t, {Register(e, s.now)});
    }
  }

  lemma NewLeaseKeepsInv(s: State, e: Epoch, started: nat)
    requires Inv(s) && e in s.owners && e !in s.leases && Register(e, started) in s.acks
    ensures Inv(s.(leases := s.leases[e := Lease(started + EPOCH_TTL, false, Idle)]))
  {
    var l := Lease(started + EPOCH_TTL, false, Idle);
    assert l.deadline - EPOCH_TTL == started;
    SetLeaseKeepsInv(s, e, l);
  }

  lemma AcceptClaimEffect(s: State, e: Epoch, started: nat)
    ensures var t := Apply(s, AcceptClaim(e, started));
      if Register(e, started) in s.acks && e in s.owners && e !in s.leases
      then t == s.(leases := s.leases[e := Lease(started + EPOCH_TTL, false, Idle)]) else t == s
  {
  }

  lemma AcceptClaimKeepsInv(s: State, e: Epoch, started: nat)
    requires Inv(s)
    ensures Inv(Apply(s, AcceptClaim(e, started)))
  {
    AcceptClaimEffect(s, e, started);
    if Register(e, started) in s.acks && e in s.owners && e !in s.leases {
      NewLeaseKeepsInv(s, e, started);
    }
  }

  lemma ArriveKeepsInv(s: State, a: Action)
    requires Inv(s) && a.Arrive?
    ensures Inv(Apply(s, a))
  {
    if a.id !in s.requests && a.epoch in s.leases {
      RequestsKeepInv(s, s.requests[a.id := Request(a.epoch, a.uid, a.claim, Admitted)]);
    }
  }

  lemma StoreStepKeepsInv(s: State, a: Action)
    requires Inv(s)
    requires a.DropEpoch? || a.DropBinding? || a.Execute?
    ensures Inv(Apply(s, a))
  {
    match a
    case DropEpoch(n) => if n in s.epochs && s.epochs[n].expiry <= s.now { DropKeepsInv(s, n); }
    case DropBinding(u) => BindingsKeepInv(s, s.bindings - {u});
    case Execute(c) => ExecuteKeepsInv(s, c);
  }

  lemma StepKeepsInv(s: State, a: Action)
    requires Inv(s)
    ensures Inv(Apply(s, a))
  {
    match a
    case Advance(elapsed) => AdvanceKeepsInv(s, elapsed);
    case OnLease(e, step) => if e in s.leases { LeaseStepKeepsInv(s, e, step); }
    case OnRequest(id, step) => if id in s.requests { RequestStepKeepsInv(s, id, step); }
    case DropEpoch(_) => StoreStepKeepsInv(s, a);
    case DropBinding(_) => StoreStepKeepsInv(s, a);
    case Execute(_) => StoreStepKeepsInv(s, a);
    case Claim(e, n) => ClaimKeepsInv(s, e, n);
    case AcceptClaim(e, started) => AcceptClaimKeepsInv(s, e, started);
    case Arrive(_, _, _, _) => ArriveKeepsInv(s, a);
  }

  lemma {:induction false} RunKeepsInv(run: seq<Action>)
    ensures Inv(Exec(run))
  {
    if run != [] {
      RunKeepsInv(run[..|run| - 1]);
      StepKeepsInv(Exec(run[..|run| - 1]), run[|run| - 1]);
    }
  }

  // At most one owner.

  /** A process that passes its local check holds the registered epoch, and the
      store keeps it at least until the local deadline. */
  lemma OwnerIsRegistered(run: seq<Action>, e: Epoch)
    requires Passing(Exec(run), e)
    ensures var s := Exec(run);
            Registered(s, e) && s.leases[e].deadline <= s.epochs[s.owners[e]].expiry
  {
    RunKeepsInv(run);
    var s := Exec(run);
    assert LeaseInv(s, e);
    var started := s.leases[e].deadline - EPOCH_TTL;
    assert Unregister(e) !in s.calls;
    if Register(e, started) in s.acks {
      assert Backed(s, Register(e, started));
    } else {
      assert Backed(s, Renew(e, started));
    }
  }

  lemma AtMostOneOwner(run: seq<Action>, e: Epoch, f: Epoch)
    requires Passing(Exec(run), e) && Passing(Exec(run), f)
    requires e in Exec(run).owners && f in Exec(run).owners
    requires Exec(run).owners[e] == Exec(run).owners[f]
    ensures e == f
  {
    OwnerIsRegistered(run, e);
    OwnerIsRegistered(run, f);
  }

  // Facts that, once true, stay true for the rest of the run.

  lemma ExecSnoc(run: seq<Action>, a: Action)
    ensures Exec(run + [a]) == Apply(Exec(run), a)
  {
    assert (run + [a])[..|run|] == run;
  }

  /** `Exec(run + more)`, one action of `more` earlier. */
  lemma ExecLast(run: seq<Action>, more: seq<Action>)
    requires more != []
    ensures Exec(run + more) == Apply(Exec(run + more[..|more| - 1]), more[|more| - 1])
  {
    assert (run + more)[..|run + more| - 1] == run + more[..|more| - 1];
  }

  predicate CancelledLease(s: State, e: Epoch) {
    e in s.leases && s.leases[e].cancelled
  }

  lemma CancellationSticks(s: State, a: Action, e: Epoch)
    requires CancelledLease(s, e)
    ensures CancelledLease(Apply(s, a), e)
  {
    if a.OnLease? && a.epoch == e { assert s.leases[e].Next(s.now, RenewalAcked(s, e), a.lease).cancelled; }
  }

  lemma {:induction false} CancelledForGood(run: seq<Action>, more: seq<Action>, e: Epoch)
    requires CancelledLease(Exec(run), e)
    ensures CancelledLease(Exec(run + more), e)
  {
    if more == [] {
      assert run + more == run;
    } else {
      CancelledForGood(run, more[..|more| - 1], e);
      CancellationSticks(Exec(run + more[..|more| - 1]), more[|more| - 1], e);
      ExecLast(run, more);
    }
  }

  /** A lease whose check failed once never passes again, whatever follows. */
  lemma FailedLeaseNeverPasses(run: seq<Action>, more: seq<Action>, e: Epoch)
    requires e in Exec(run).leases && !Passing(Exec(run), e)
    ensures !Passing(Exec(run + [OnLease(e, Check)] + more), e)
  {
    ExecSnoc(run, OnLease(e, Check));
    CancelledForGood(run + [OnLease(e, Check)], more, e);
  }

  /** The same for the checks a request makes, on its arrival and after it read the binding:
      a request rejected by one means that its process owns nothing from then on. */
  lemma RejectedRequestEndsLease(run: seq<Action>, more: seq<Action>, id: RequestId, step: RequestStep)
    requires id in Exec(run).requests && Exec(run).requests[id].process in Exec(run).owners
    requires var s := Exec(run);
             var q := s.requests[id];
             ChecksLease(s.owners[q.process], q.phase, step) && !Passing(s, q.process)
    ensures var q := Exec(run).requests[id];
            !Passing(Exec(run + [OnRequest(id, step)] + more), q.process)
  {
    RunKeepsInv(run);
    ExecSnoc(run, OnRequest(id, step));
    CancelledForGood(run + [OnRequest(id, step)], more, Exec(run).requests[id].process);
  }

  // Fencing of binding writes.

  /** The epoch was in the store and has left it. */
  predicate Gone(s: State, e: Epoch) {
    e in s.entered && !Registered(s, e)
  }

  /** The claim of `e` itself is executed once more and finds the NodeID free. */
  predicate Reclaims(s: State, a: Action, e: Epoch) {
    && a.Execute? && a.call in s.calls && a.call.Register? && a.call.epoch == e
    && e in s.owners && s.owners[e] !in s.epochs
  }

  /** An epoch that has left the store is registered after the next step exactly when that
      step executes its own claim again while its NodeID is free. */
  lemma ReturnsOnlyByReclaim(s: State, a: Action, e: Epoch)
    requires Inv(s) && Gone(s, e)
    ensures Registered(Apply(s, a), e) <==> Reclaims(s, a, e)
    ensures e in Apply(s, a).entered
  {
  }

  predicate Reclaimed(run: seq<Action>, more: seq<Action>, e: Epoch) {
    exists k :: 0 <= k < |more| && Reclaims(Exec(run + more[..k]), more[k], e)
  }

  lemma ReclaimedEarlier(run: seq<Action>, more: seq<Action>, n: nat, e: Epoch)
    requires n <= |more| && Reclaimed(run, more[..n], e)
    ensures Reclaimed(run, more, e)
  {
    var k :| 0 <= k < n && Reclaims(Exec(run + more[..n][..k]), more[..n][k], e);
    assert more[..n][..k] == more[..k];
  }

  /** Unless its own claim is executed again while the NodeID is free, an epoch that has
      left the store never returns. */
  lemma {:induction false} GoneNeverReturns(run: seq<Action>, more: seq<Action>, e: Epoch)
    requires Gone(Exec(run), e) && !Reclaimed(run, more, e)
    ensures Gone(Exec(run + more), e)
  {
    if more == [] {
      assert run + more == run;
    } else {
      var n := |more| - 1;
      if Reclaimed(run, more[..n], e) { ReclaimedEarlier(run, more, n, e); }
      GoneNeverReturns(run, more[..n], e);
      RunKeepsInv(run + more[..n]);
      ReturnsOnlyByReclaim(Exec(run + more[..n]), more[n], e);
      ExecLast(run, more);
    }
  }

  /** A call of a generation that has not been reclaimed, however late, changes nothing at
      all, neither an epoch nor any binding, exactly when it is not that reclaim itself. */
  lemma ReplacedGenerationIsFenced(run: seq<Action>, more: seq<Action>, c: Call)
    requires Gone(Exec(run), c.epoch) && !Reclaimed(run, more, c.epoch)
    ensures Exec(run + more + [Execute(c)]) == Exec(run + more) <==> !Reclaims(Exec(run + more), Execute(c), c.epoch)
  {
    GoneNeverReturns(run, more, c.epoch);
    RunKeepsInv(run + more);
    ExecSnoc(run + more, Execute(c));
    ReturnsOnlyByReclaim(Exec(run + more), Execute(c), c.epoch);
  }

  function NodeOf(s: State, u: Uid): Option<NodeId> {
    if u in s.bindings then Some(s.bindings[u].node) else None
  }

  /** The one way a uid comes to name another node, or none: its key expired, the
      registered epoch of the new node bound it, or the registered epoch of the node
      it named unbound it. In particular a renewal never creates or moves one. */
  predicate FencedChange(s: State, a: Action, t: State, u: Uid) {
    || (a == DropBinding(u) && u in s.bindings && s.bindings[u].expiry <= s.now && NodeOf(t, u).None?)
    || (&& a.Execute? && a.call.Write? && a.call.uid == u && a.call in s.calls
        && Registered(s, a.call.epoch)
        && var node := s.owners[a.call.epoch];
           || (a.call.op.Bind? && NodeOf(t, u) == Some(node))
           || (a.call.op.Unbind? && NodeOf(s, u) == Some(node) && NodeOf(t, u).None?))
  }

  lemma BindingChangesAreFenced(s: State, a: Action, u: Uid)
    ensures NodeOf(Apply(s, a), u) != NodeOf(s, u) ==> FencedChange(s, a, Apply(s, a), u)
    ensures u in s.bindings && u in Apply(s, a).bindings && Apply(s, a).bindings[u].expiry != s.bindings[u].expiry ==>
              a.Execute? && a.call.Write? && a.call.uid == u && Registered(s, a.call.epoch)
              && Apply(s, a).bindings[u] == StoredBinding(s.owners[a.call.epoch], s.now + BINDING_TTL)
  {
  }

  /** Every binding in the store was put there by an epoch that was registered for
      the named node at that moment, and has named that node ever since. */
  lemma {:induction false} BindingHasFencedOrigin(run: seq<Action>, u: Uid) returns (k: nat)
    requires u in Exec(run).bindings
    ensures k < |run| && run[k].Execute? && run[k].call.Write? && run[k].call.op.Bind? && run[k].call.uid == u
    ensures var s := Exec(run[..k]);
            Registered(s, run[k].call.epoch) && s.owners[run[k].call.epoch] == Exec(run).bindings[u].node
    ensures forall j :: k < j <= |run| ==> NodeOf(Exec(run[..j]), u) == NodeOf(Exec(run), u)
  {
    var last := |run| - 1;
    var s := Exec(run[..last]);
    BindingChangesAreFenced(s, run[last], u);
    assert run[..|run|] == run;
    if NodeOf(s, u) == NodeOf(Exec(run), u) {
      k := BindingHasFencedOrigin(run[..last], u);
      assert run[..last][..k] == run[..k];
      forall j | k < j <= |run| ensures NodeOf(Exec(run[..j]), u) == NodeOf(Exec(run), u) {
        if j < |run| { assert run[..last][..j] == run[..j]; }
      }
    } else {
      k := last;
    }
  }

  // Fencing of sticky requests.

  /** The binding of the request was read at position `i` of the run, while the
      request was there. */
  predicate NamedAt(run: seq<Action>, i: nat, id: RequestId, u: Uid, node: NodeId)
    requires i <= |run|
  {
    id in Exec(run[..i]).requests && NodeOf(Exec(run[..i]), u) == Some(node)
  }

  /** The last lease check of the request is action `j`, and it passed. */
  predicate CheckedAt(run: seq<Action>, j: nat, id: RequestId, e: Epoch)
    requires j < |run|
  {
    && run[j] == OnRequest(id, Recheck)
    && Passing(Exec(run[..j]), e) && Registered(Exec(run[..j]), e)
    && id in Exec(run[..j]).requests && Exec(run[..j]).requests[id].phase.Located?
  }

  /** The store named this node for the uid at `i`, while the request was there, and
      the last lease check of the request, at `j`, found this process the owner. */
  predicate FencedBy(run: seq<Action>, id: RequestId, i: nat, j: nat) {
    var s := Exec(run);
    && id in s.requests
    && var q := s.requests[id];
    && q.process in s.owners
    && i <= j < |run|
    && NamedAt(run, i, id, q.uid, s.owners[q.process])
    && CheckedAt(run, j, id, q.process)
  }

  lemma OwnersGrow(s: State, a: Action, e: Epoch)
    requires e in s.owners
    ensures e in Apply(s, a).owners && Apply(s, a).owners[e] == s.owners[e]
  {
  }

  /** One step changes a request only by its own steps, and never who it is for. */
  lemma RequestChange(s: State, a: Action, id: RequestId)
    requires id in Apply(s, a).requests
    ensures id !in s.requests ==> a.Arrive? && Apply(s, a).requests[id].phase.Admitted?
    ensures id in s.requests ==>
      var q := s.requests[id];
      var r := Apply(s, a).requests[id];
      && r == q.(phase := r.phase)
      && (r.phase != q.phase ==>
            && a.OnRequest? && a.id == id && q.process in s.owners && q.process in s.leases
            && r.phase == NextPhase(s, q, a.request))
  {
  }

  lemma {:induction false} LocatedWasNamed(run: seq<Action>, id: RequestId) returns (i: nat)
    requires id in Exec(run).requests && Exec(run).requests[id].phase.Located?
    ensures i < |run|
    ensures NamedAt(run, i, id, Exec(run).requests[id].uid, Exec(run).requests[id].phase.named)
  {
    var before := run[..|run| - 1];
    RequestChange(Exec(before), run[|run| - 1], id);
    if Exec(before).requests[id].phase == Exec(run).requests[id].phase {
      i := LocatedWasNamed(before, id);
      assert before[..i] == run[..i];
    } else {
      i := |run| - 1;
    }
  }

  /** What the phases after the fence remember about a request with a claim. */
  predicate ClaimHeld(s: State, q: Request) {
    (q.claim != StickyClaim("", "") && (q.phase.Fenced? || q.phase.Located? || q.phase.Cleared? || q.phase.Handling?)) ==>
      q.process in s.owners && q.claim == StickyClaim(s.owners[q.process], q.process) && q.claim.node != ""
  }

  lemma {:induction false} ClaimsAreHeld(run: seq<Action>, id: RequestId)
    requires id in Exec(run).requests
    ensures ClaimHeld(Exec(run), Exec(run).requests[id])
  {
    var before := run[..|run| - 1];
    RequestChange(Exec(before), run[|run| - 1], id);
    if id in Exec(before).requests {
      ClaimsAreHeld(before, id);
      var e := Exec(before).requests[id].process;
      if e in Exec(before).owners { OwnersGrow(Exec(before), run[|run| - 1], e); }
    }
  }

  /** A request with a claim is cleared only by a recheck that passed. */
  lemma ClearanceIsChecked(s: State, a: Action, id: RequestId)
    requires id in s.requests && id in Apply(s, a).requests && ClaimHeld(Apply(s, a), Apply(s, a).requests[id])
    requires s.requests[id].claim != StickyClaim("", "")
    requires !s.requests[id].phase.Cleared? && Apply(s, a).requests[id].phase.Cleared?
    ensures a == OnRequest(id, Recheck) && Passing(s, s.requests[id].process)
    ensures s.requests[id].phase.Located? && s.requests[id].process in s.owners
    ensures s.requests[id].phase.named == s.owners[s.requests[id].process]
  {
    RequestChange(s, a, id);
  }

  lemma {:induction false} ClearedWasFenced(run: seq<Action>, id: RequestId) returns (i: nat, j: nat)
    requires id in Exec(run).requests && Exec(run).requests[id].claim != StickyClaim("", "")
    requires Exec(run).requests[id].phase.Cleared? || Exec(run).requests[id].phase.Handling?
    ensures FencedBy(run, id, i, j)
  {
    var before := run[..|run| - 1];
    var s := Exec(before);
    RequestChange(s, run[|run| - 1], id);
    ClaimsAreHeld(run, id);
    var q := s.requests[id];
    if q.phase.Cleared? || q.phase.Handling? {
      i, j := ClearedWasFenced(before, id);
      assert before[..i] == run[..i] && before[..j] == run[..j];
    } else {
      ClearanceIsChecked(s, run[|run| - 1], id);
      i := LocatedWasNamed(before, id);
      j := |run| - 1;
      assert before[..i] == run[..i];
      OwnerIsRegistered(before, q.process);
    }
    OwnersGrow(s, run[|run| - 1], q.process);
  }

  /** A handler that starts for a request carrying a claim, however incomplete the
      claim, was named by the store during the request, and its process held the
      registered epoch at the last lease check before the handler. */
  lemma HandlerIsFenced(run: seq<Action>, id: RequestId) returns (i: nat, j: nat)
    requires id in Exec(run).requests && Exec(run).requests[id].phase.Handling?
    requires Exec(run).requests[id].claim != StickyClaim("", "")
    ensures FencedBy(run, id, i, j)
    ensures var q := Exec(run).requests[id];
            q.claim == StickyClaim(Exec(run).owners[q.process], q.process) && q.claim.node != ""
  {
    ClaimsAreHeld(run, id);
    i, j := ClearedWasFenced(run, id);
  }

  // What an unobserved lapse means.

  /** A lease that does not pass passes after the next step in exactly one case: it
      was never cancelled, so no check has seen it lapse, and a renewal confirmed and
      rechecked in time stores its deadline, which is still ahead. */
  lemma RevivedOnlyByGrant(s: State, a: Action, e: Epoch)
    requires e in s.leases && !Passing(s, e)
    ensures Passing(Apply(s, a), e) <==>
            && a == OnLease(e, StoreDeadline) && !s.leases[e].cancelled
            && s.leases[e].renewal.Granted? && s.now < s.leases[e].renewal.started + EPOCH_TTL
  {
    if a.OnLease? && a.epoch == e {
      var l := s.leases[e].Next(s.now, RenewalAcked(s, e), a.lease);
      assert Apply(s, a).leases[e] == l;
    }
  }
}
