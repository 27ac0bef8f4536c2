/** What every run of the Gateway session protocol keeps. */
module GateSafety {
  import opened Basics
  import opened GateStore
  import opened GateProtocol

  predicate IsGrant(c: Call) { c.BindGate? || c.RenewGate? }

  // The store side.

  /** What an acknowledged grant means while its binding is stored, and once it has left. */
  ghost predicate AckInv(n: Net, c: Call) {
    && c in n.calls && IsGrant(c)
    && (IsStored(n, c.binding) || c.binding in n.left)
    && (IsStored(n, c.binding) ==> c.started + c.ttl <= n.store[c.binding.key].expiry)
    && (c.binding in n.left ==>
          var d := n.left[c.binding];
          c.started <= d.at && (d.cause.Expired? ==> c.started + c.ttl <= d.at))
  }

  /** A departure is explained: it is not stored now, an unbind was asked for, or the bind
      of another binding took its place. */
  ghost predicate LeftInv(n: Net, b: Binding)
    requires b in n.left
  {
    var d := n.left[b];
    && !IsStored(n, b) && d.at <= n.now
    && (d.cause.Unbound? ==> UnbindGate(b) in n.calls)
    && (d.cause.Overwritten? ==>
          d.cause.next.BindGate? && d.cause.next in n.calls && d.cause.next.binding != b && d.cause.next.binding.key == b.key)
  }

  ghost predicate NetInv(n: Net) {
    && (forall c :: c in n.calls && IsGrant(c) ==> c.started <= n.now)
    && (forall c :: c in n.acks ==> AckInv(n, c))
    && (forall b :: b in n.left ==> LeftInv(n, b))
    && (forall k :: k in n.store && n.store[k].value.Encoded? ==> n.store[k].value.binding.key == k)
  }

  /** All grants of one binding ask for the same TTL. */
  ghost predicate OneTtl(n: Net, b: Binding, ttl: nat) {
    forall c :: c in n.calls && IsGrant(c) && c.binding == b ==> c.ttl == ttl
  }

  lemma BindKeepsAck(n: Net, c: Call, d: Call)
    requires NetInv(n) && c in n.calls && c.BindGate? && OneTtl(n, c.binding, c.ttl)
    requires BindStatus(n.store, c.binding.key, n.now).Done? && (d in n.acks || d == c)
    ensures AckInv(ExecuteBind(n, c), d)
  {
    if d in n.acks { assert AckInv(n, d); }
  }

  lemma BindKeepsNet(n: Net, c: Call)
    requires NetInv(n) && c in n.calls && c.BindGate? && OneTtl(n, c.binding, c.ttl)
    ensures NetInv(ExecuteBind(n, c))
  {
    var t := ExecuteBind(n, c);
    if t != n {
      forall d | d in t.acks ensures AckInv(t, d) { BindKeepsAck(n, c, d); }
      forall b | b in t.left ensures LeftInv(t, b) { if b in n.left { assert LeftInv(n, b); } }
    }
  }

  lemma RenewKeepsNet(n: Net, c: Call)
    requires NetInv(n) && c in n.calls && c.RenewGate? && OneTtl(n, c.binding, c.ttl)
    ensures NetInv(ExecuteRenew(n, c))
  {
    var t := ExecuteRenew(n, c);
    forall d | d in t.acks ensures AckInv(t, d) { if d in n.acks { assert AckInv(n, d); } }
    forall b | b in t.left ensures LeftInv(t, b) { assert LeftInv(n, b); }
  }

  lemma RemoveKeepsNet(n: Net, key: Key, cause: Cause)
    requires NetInv(n) && key in n.store
    requires cause.Expired? ==> n.store[key].expiry <= n.now
    requires cause.Unbound? && n.store[key].value.Encoded? ==> UnbindGate(n.store[key].value.binding) in n.calls
    requires !cause.Overwritten?
    ensures NetInv(RemoveKey(n, key, cause))
  {
    var t := RemoveKey(n, key, cause);
    forall d | d in t.acks ensures AckInv(t, d) { assert AckInv(n, d); }
    forall b | b in t.left ensures LeftInv(t, b) { if b in n.left { assert LeftInv(n, b); } }
  }

  lemma SendKeepsNet(n: Net, c: Call)
    requires NetInv(n) && (IsGrant(c) ==> c.started <= n.now)
    ensures NetInv(n.Send(c))
  {
    var t := n.Send(c);
    forall d | d in t.acks ensures AckInv(t, d) { assert AckInv(n, d); }
    forall b | b in t.left ensures LeftInv(t, b) { assert LeftInv(n, b); }
  }

  lemma AdvanceKeepsNet(n: Net, elapsed: nat)
    requires NetInv(n)
    ensures NetInv(n.(now := n.now + elapsed))
  {
    var t := n.(now := n.now + elapsed);
    forall d | d in t.acks ensures AckInv(t, d) { assert AckInv(n, d); }
    forall b | b in t.left ensures LeftInv(t, b) { assert LeftInv(n, b); }
  }

  // The Gateway side.

  ghost predicate GrantAcked(n: Net, b: Binding, ttl: nat, started: nat) {
    BindGate(b, ttl, started) in n.acks || RenewGate(b, ttl, started) in n.acks
  }

  /** Calls belong to a session and carry its TTL. An unbind is sent only for a binding
      that was rolled back or handed out. */
  ghost predicate CallInv(s: State, c: Call) {
    && c.binding.conn in s.sessions
    && (IsGrant(c) ==> c.ttl == s.sessions[c.binding.conn].ttl)
    && (c.UnbindGate? ==> c.binding in s.rolledBack || HandedOut(s, c.binding))
  }

  ghost predicate SessionInv(s: State, conn: ConnId)
    requires conn in s.sessions
  {
    var x := s.sessions[conn];
    && (x.binding.Some? ==>
          && x.auth.Finished? && x.binding.value.conn == conn && x.binding.value in s.committed
          && x.ttl <= x.leaseDeadline && GrantAcked(s.net, x.binding.value, x.ttl, x.leaseDeadline - x.ttl))
    && (x.auth.Admitted? || x.auth.Bound? ==> x.auth.binding.conn == conn)
    && (x.auth.Bound? ==> BindGate(x.auth.binding, x.ttl, x.auth.started) in s.net.acks && x.auth.binding in s.bound)
    && (x.listed ==> x.closing.Open? && x.gate !in s.taken)
    && (x.closing.Detached? ==> x.binding.None?)
    && (x.closing.Leaving? ==> !x.closing.path.ByKick?)
  }

  ghost predicate HandedOut(s: State, b: Binding) {
    exists i :: 0 <= i < |s.handouts| && s.handouts[i].binding == b
  }

  /** Undecided, committed or rolled back: where a successful bind stands. */
  ghost predicate Fate(s: State, b: Binding) {
    && b.conn in s.sessions
    && var x := s.sessions[b.conn];
    && (b in s.committed || b in s.rolledBack ==> x.auth.Finished?)
    && (b in s.committed || b in s.rolledBack || (x.auth.Bound? && x.auth.binding == b))
    && !(b in s.committed && b in s.rolledBack)
    && (b in s.rolledBack ==> UnbindGate(b) in s.net.calls)
    && (b in s.committed ==> x.binding == Some(b) || HandedOut(s, b))
  }

  ghost predicate HandoutInv(s: State) {
    && (forall i :: 0 <= i < |s.handouts| ==>
          && s.handouts[i].binding in s.committed && s.handouts[i].binding.conn in s.sessions
          && s.sessions[s.handouts[i].binding.conn].binding.None?
          && (s.handouts[i].path.ByDrain? || s.handouts[i].unbound)
          && (s.handouts[i].unbound ==> UnbindGate(s.handouts[i].binding) in s.net.calls))
    && (forall i, j :: 0 <= i < j < |s.handouts| ==> s.handouts[i].binding != s.handouts[j].binding)
  }

  ghost predicate GateInv(s: State) {
    && (forall c :: c in s.net.calls ==> CallInv(s, c))
    && (forall conn :: conn in s.sessions ==> SessionInv(s, conn))
    && s.committed <= s.bound && s.rolledBack <= s.bound
    && (forall b :: b in s.bound ==> Fate(s, b))
    && HandoutInv(s)
    && s.taken <= s.closed
  }

  lemma HandoutsGrow(s: State, t: State, b: Binding)
    requires s.handouts <= t.handouts && HandedOut(s, b)
    ensures HandedOut(t, b)
  {
    var i :| 0 <= i < |s.handouts| && s.handouts[i].binding == b;
    assert t.handouts[i].binding == b;
  }

  /** A call stays accounted for while sessions keep their TTL and records only grow. */
  lemma CallStays(s: State, t: State, c: Call)
    requires CallInv(s, c) && s.rolledBack <= t.rolledBack && s.handouts <= t.handouts
    requires c.binding.conn in t.sessions && t.sessions[c.binding.conn].ttl == s.sessions[c.binding.conn].ttl
    ensures CallInv(t, c)
  {
    if HandedOut(s, c.binding) { HandoutsGrow(s, t, c.binding); }
  }

  /** More calls and more answers take nothing away from a Gateway. */
  lemma NetGrowthKeepsGate(s: State, n: Net)
    requires GateInv(s) && n.calls == s.net.calls && s.net.acks <= n.acks
    ensures GateInv(s.(net := n))
  {
    var t := s.(net := n);
    forall c | c in t.net.calls ensures CallInv(t, c) { CallStays(s, t, c); }
    forall conn | conn in t.sessions ensures SessionInv(t, conn) { assert SessionInv(s, conn); }
    forall b | b in t.bound ensures Fate(t, b) { assert Fate(s, b); }
  }

  /** A step of one session: it replaces that session, may send calls, decide the fate
      of the bind of that session, and hand out its binding. */
  ghost predicate LocalStep(s: State, t: State, conn: ConnId)
    requires conn in s.sessions
  {
    && conn in t.sessions && t.sessions == s.sessions[conn := t.sessions[conn]]
    && t.sessions[conn].ttl == s.sessions[conn].ttl && t.sessions[conn].gate == s.sessions[conn].gate
    && t.taken == s.taken && t.closed == s.closed
    && t.net.acks == s.net.acks && s.net.calls <= t.net.calls
    && (forall c :: c in t.net.calls && c !in s.net.calls ==> CallInv(t, c))
    && t.committed <= t.bound && t.rolledBack <= t.bound
    && s.bound <= t.bound && s.committed <= t.committed && s.rolledBack <= t.rolledBack
    && (forall b :: b in t.bound && b.conn != conn ==> b in s.bound)
    && (forall b :: b in t.committed && b.conn != conn ==> b in s.committed)
    && (forall b :: b in t.rolledBack && b.conn != conn ==> b in s.rolledBack)
    && s.handouts <= t.handouts
  }

  lemma LocalStepKeepsGate(s: State, t: State, conn: ConnId)
    requires GateInv(s) && conn in s.sessions && LocalStep(s, t, conn)
    requires SessionInv(t, conn)
    requires forall b :: b in t.bound && b.conn == conn ==> Fate(t, b)
    requires HandoutInv(t)
    ensures GateInv(t)
  {
    forall c | c in t.net.calls ensures CallInv(t, c) { if c in s.net.calls { CallStays(s, t, c); } }
    forall d | d in t.sessions ensures SessionInv(t, d) { assert SessionInv(s, d); }
    forall b | b in t.bound ensures Fate(t, b) {
      if b.conn != conn {
        assert Fate(s, b);
        if HandedOut(s, b) { HandoutsGrow(s, t, b); }
      }
    }
  }

  /** A step that decides nothing about the bind of its session. */
  lemma QuietStepKeepsGate(s: State, t: State, conn: ConnId)
    requires GateInv(s) && conn in s.sessions && LocalStep(s, t, conn)
    requires t.bound == s.bound && t.committed == s.committed && t.rolledBack == s.rolledBack
    requires t.handouts == s.handouts
    requires var x, y := s.sessions[conn], t.sessions[conn];
             y.binding == x.binding && (x.auth.Bound? || x.auth.Finished? ==> y.auth == x.auth)
    requires SessionInv(t, conn)
    ensures GateInv(t)
  {
    forall b | b in t.bound && b.conn == conn ensures Fate(t, b) {
      assert Fate(s, b);
      if HandedOut(s, b) { HandoutsGrow(s, t, b); }
    }
    LocalStepKeepsGate(s, t, conn);
  }

  lemma AcceptBindKeepsGate(s: State, conn: ConnId)
    requires GateInv(s) && conn in s.sessions
    ensures GateInv(ApplyAuth(s, conn, AcceptBind))
  {
    var t := ApplyAuth(s, conn, AcceptBind);
    if t != s {
      assert SessionInv(s, conn);
      forall b | b in s.bound ensures b.conn != conn { assert Fate(s, b); }
      LocalStepKeepsGate(s, t, conn);
    }
  }

  /** Nothing of a session that is still authenticating has been handed out. */
  lemma UndecidedIsNotHandedOut(s: State, conn: ConnId, i: nat)
    requires GateInv(s) && conn in s.sessions && s.sessions[conn].auth.Bound? && i < |s.handouts|
    ensures s.handouts[i].binding.conn != conn
  {
    assert Fate(s, s.handouts[i].binding);
  }

  lemma CommitKeepsHandouts(s: State, conn: ConnId, cancelled: bool)
    requires GateInv(s) && conn in s.sessions
    ensures HandoutInv(ApplyAuth(s, conn, Commit(cancelled)))
  {
    if s.sessions[conn].auth.Bound? {
      forall i | 0 <= i < |s.handouts| ensures s.handouts[i].binding.conn != conn {
        UndecidedIsNotHandedOut(s, conn, i);
      }
    }
  }

  lemma CommitKeepsGate(s: State, conn: ConnId, cancelled: bool)
    requires GateInv(s) && conn in s.sessions
    ensures GateInv(ApplyAuth(s, conn, Commit(cancelled)))
  {
    var t := ApplyAuth(s, conn, Commit(cancelled));
    if s.sessions[conn].auth.Bound? {
      assert SessionInv(s, conn);
      forall b | b in t.bound && b.conn == conn ensures Fate(t, b) { assert Fate(s, b); }
      CommitKeepsHandouts(s, conn, cancelled);
      LocalStepKeepsGate(s, t, conn);
    }
  }

  lemma AuthKeepsGate(s: State, conn: ConnId, step: SessionStep)
    requires GateInv(s) && conn in s.sessions
    requires step.BeginAuth? || step.Admit? || step.AcceptBind? || step.FailBind? || step.Commit?
    ensures GateInv(ApplyAuth(s, conn, step))
  {
    if step.AcceptBind? {
      AcceptBindKeepsGate(s, conn);
    } else if step.Commit? {
      CommitKeepsGate(s, conn, step.cancelled);
    } else if ApplyAuth(s, conn, step) != s {
      assert SessionInv(s, conn);
      QuietStepKeepsGate(s, ApplyAuth(s, conn, step), conn);
    }
  }

  lemma BeatKeepsGate(s: State, conn: ConnId, step: SessionStep)
    requires GateInv(s) && conn in s.sessions
    requires step.StartBeat? || step.AcceptBeat? || step.FailBeat?
    ensures GateInv(ApplyBeat(s, conn, step))
  {
    var t := ApplyBeat(s, conn, step);
    if t != s {
      assert SessionInv(s, conn);
      QuietStepKeepsGate(s, t, conn);
    }
  }

  /** Handing out takes the binding away from its session in the same step. */
  lemma HandOutKeepsGate(s: State, t: State, conn: ConnId, h: Handout)
    requires GateInv(s) && conn in s.sessions && LocalStep(s, t, conn) && SessionInv(t, conn)
    requires t.bound == s.bound && t.committed == s.committed && t.rolledBack == s.rolledBack
    requires s.sessions[conn].binding == Some(h.binding) && t.sessions[conn].binding.None?
    requires t.sessions[conn].auth == s.sessions[conn].auth && t.handouts == s.handouts + [h]
    requires (h.path.ByDrain? || h.unbound) && (h.unbound ==> UnbindGate(h.binding) in t.net.calls)
    ensures GateInv(t)
  {
    assert SessionInv(s, conn);
    forall b | b in t.bound && b.conn == conn ensures Fate(t, b) {
      assert Fate(s, b);
      if b == h.binding { assert t.handouts[|s.handouts|].binding == b; }
      if HandedOut(s, b) { HandoutsGrow(s, t, b); }
    }
    LocalStepKeepsGate(s, t, conn);
  }

  lemma CloseKeepsGate(s: State, conn: ConnId, step: SessionStep)
    requires GateInv(s) && conn in s.sessions
    requires step.Remove? || step.Detach? || step.LookUp? || step.Kick? || step.KickRemove?
    ensures GateInv(ApplyClose(s, conn, step))
  {
    var t := ApplyClose(s, conn, step);
    if t != s {
      var x := s.sessions[conn];
      assert SessionInv(s, conn);
      if t.handouts == s.handouts {
        QuietStepKeepsGate(s, t, conn);
      } else {
        HandOutKeepsGate(s, t, conn, t.handouts[|s.handouts|]);
      }
    }
  }

  lemma TakeAllKeepsGate(s: State, gate: GateId)
    requires GateInv(s)
    ensures GateInv(Apply(s, TakeAll(gate)))
  {
    var t := Apply(s, TakeAll(gate));
    if gate in s.closed {
      forall c | c in t.net.calls ensures CallInv(t, c) { CallStays(s, t, c); }
      forall d | d in t.sessions ensures SessionInv(t, d) { assert SessionInv(s, d); }
      forall b | b in t.bound ensures Fate(t, b) {
        assert Fate(s, b);
        if HandedOut(s, b) { HandoutsGrow(s, t, b); }
      }
    }
  }

  lemma OpenKeepsGate(s: State, a: Action)
    requires GateInv(s) && a.OpenConn?
    ensures GateInv(Apply(s, a))
  {
    var t := Apply(s, a);
    if t != s {
      forall c | c in t.net.calls ensures CallInv(t, c) { CallStays(s, t, c); }
      forall d | d in t.sessions ensures SessionInv(t, d) { if d in s.sessions { assert SessionInv(s, d); } }
      forall b | b in t.bound ensures Fate(t, b) {
        assert Fate(s, b);
        if HandedOut(s, b) { HandoutsGrow(s, t, b); }
      }
    }
  }

  // All steps, all runs.

  ghost predicate BindSent(n: Net, b: Binding) {
    exists c :: c in n.calls && c.BindGate? && c.binding == b
  }

  /** What a session has of a binding, it has from a bind that was sent. */
  ghost predicate SentInv(n: Net, x: Session) {
    && (x.auth.Admitted? || x.auth.Bound? ==> BindGate(x.auth.binding, x.ttl, x.auth.started) in n.calls)
    && (x.binding.Some? ==> BindSent(n, x.binding.value))
  }

  predicate Tried(x: Session) { !x.auth.NotTried? && !x.auth.Attempted? }

  /** A connection sends one bind in its life, when it is admitted. */
  ghost predicate BindsInv(s: State) {
    && (forall c :: c in s.net.calls && c.BindGate? ==> c.binding.conn in s.sessions && Tried(s.sessions[c.binding.conn]))
    && (forall c, d :: c in s.net.calls && d in s.net.calls && c.BindGate? && d.BindGate? && c.binding.conn == d.binding.conn ==>
          c == d)
    && (forall conn :: conn in s.sessions ==> SentInv(s.net, s.sessions[conn]))
  }

  /** What a session step does to one session and to the binds sent. */
  lemma SessionEffect(s: State, conn: ConnId, step: SessionStep)
    requires conn in s.sessions
    ensures var t := ApplySession(s, conn, step);
            && conn in t.sessions && t.sessions == s.sessions[conn := t.sessions[conn]]
            && t.sessions[conn].gate == s.sessions[conn].gate
            && (Tried(s.sessions[conn]) ==> Tried(t.sessions[conn]))
            && s.net.calls <= t.net.calls
            && (forall c :: c in t.net.calls && c !in s.net.calls && c.BindGate? ==>
                  && !Tried(s.sessions[conn]) && t.sessions[conn].auth.Admitted?
                  && c == BindGate(t.sessions[conn].auth.binding, t.sessions[conn].ttl, t.sessions[conn].auth.started)
                  && c.binding.conn == conn)
  {
  }

  lemma SentGrows(n: Net, m: Net, x: Session)
    requires SentInv(n, x) && n.calls <= m.calls
    ensures SentInv(m, x)
  {
  }

  lemma SessionKeepsSent(s: State, conn: ConnId, step: SessionStep)
    requires conn in s.sessions && SentInv(s.net, s.sessions[conn])
    ensures SentInv(ApplySession(s, conn, step).net, ApplySession(s, conn, step).sessions[conn])
  {
    var x, t := s.sessions[conn], ApplySession(s, conn, step);
    SessionEffect(s, conn, step);
    SentGrows(s.net, t.net, x);
    if step.Commit? && x.auth.Bound? { assert BindGate(x.auth.binding, x.ttl, x.auth.started) in t.net.calls; }
  }

  lemma SessionKeepsBinds(s: State, conn: ConnId, step: SessionStep)
    requires BindsInv(s) && conn in s.sessions
    ensures BindsInv(ApplySession(s, conn, step))
  {
    var t := ApplySession(s, conn, step);
    SessionEffect(s, conn, step);
    forall d | d in t.sessions ensures SentInv(t.net, t.sessions[d]) {
      if d == conn { SessionKeepsSent(s, conn, step); } else { SentGrows(s.net, t.net, s.sessions[d]); }
    }
  }

  lemma StepKeepsBinds(s: State, a: Action)
    requires BindsInv(s)
    ensures BindsInv(Apply(s, a))
  {
    if a.OnSession? && a.conn in s.sessions {
      SessionKeepsBinds(s, a.conn, a.step);
    } else {
      var t := Apply(s, a);
      assert t.net.calls == s.net.calls;
      forall d | d in t.sessions ensures SentInv(t.net, t.sessions[d]) {
        if d in s.sessions { SentGrows(s.net, t.net, s.sessions[d]); }
      }
    }
  }

  ghost predicate Inv(s: State) {
    NetInv(s.net) && GateInv(s) && BindsInv(s)
  }

  lemma GrantsAgree(s: State, c: Call)
    requires GateInv(s) && c in s.net.calls && IsGrant(c)
    ensures OneTtl(s.net, c.binding, c.ttl)
  {
    forall d | d in s.net.calls && IsGrant(d) && d.binding == c.binding ensures d.ttl == c.ttl {
      assert CallInv(s, d) && CallInv(s, c);
    }
  }

  lemma ExecuteKeepsNet(s: State, c: Call)
    requires Inv(s) && c in s.net.calls
    ensures NetInv(ExecuteCall(s.net, c))
  {
    match c
    case BindGate(_, _, _) => GrantsAgree(s, c); BindKeepsNet(s.net, c);
    case RenewGate(_, _, _) => GrantsAgree(s, c); RenewKeepsNet(s.net, c);
    case UnbindGate(b) => if MatchStatus(s.net.store, b, s.net.now).Done? { RemoveKeepsNet(s.net, b.key, Unbound); }
  }

  /** A step of the store side changes nothing else, and forgets no answer. */
  lemma NetStepKeepsNet(s: State, a: Action)
    requires Inv(s) && (a.Advance? || a.Drop? || a.Execute?)
    ensures var n := Apply(s, a).net;
            Apply(s, a) == s.(net := n) && NetInv(n) && n.calls == s.net.calls && s.net.acks <= n.acks
  {
    match a
    case Advance(elapsed) => AdvanceKeepsNet(s.net, elapsed);
    case Drop(key) => if key in s.net.store && s.net.store[key].expiry <= s.net.now { RemoveKeepsNet(s.net, key, Expired); }
    case Execute(c) => if c in s.net.calls { ExecuteKeepsNet(s, c); }
  }

  lemma NetStepKeepsInv(s: State, a: Action)
    requires Inv(s) && (a.Advance? || a.Drop? || a.Execute?)
    ensures NetInv(Apply(s, a).net) && GateInv(Apply(s, a))
  {
    NetStepKeepsNet(s, a);
    NetGrowthKeepsGate(s, Apply(s, a).net);
  }

  /** A session step touches the store side only by sending calls that start now. */
  lemma SessionSends(s: State, conn: ConnId, step: SessionStep)
    requires Inv(s) && conn in s.sessions
    ensures NetInv(ApplySession(s, conn, step).net)
  {
    var t := ApplySession(s, conn, step);
    var x := s.sessions[conn];
    if t.net != s.net {
      var c :| c in t.net.calls && c !in s.net.calls && t.net == s.net.Send(c) && (IsGrant(c) ==> c.started <= s.net.now);
      SendKeepsNet(s.net, c);
    }
  }

  lemma SessionKeepsInv(s: State, conn: ConnId, step: SessionStep)
    requires Inv(s) && conn in s.sessions
    ensures NetInv(ApplySession(s, conn, step).net) && GateInv(ApplySession(s, conn, step))
  {
    SessionSends(s, conn, step);
    if step.StartBeat? || step.AcceptBeat? || step.FailBeat? {
      BeatKeepsGate(s, conn, step);
    } else if step.Remove? || step.Detach? || step.LookUp? || step.Kick? || step.KickRemove? {
      CloseKeepsGate(s, conn, step);
    } else {
      AuthKeepsGate(s, conn, step);
    }
  }

  lemma StepKeepsInv(s: State, a: Action)
    requires Inv(s)
    ensures Inv(Apply(s, a))
  {
    StepKeepsBinds(s, a);
    match a
    case Advance(_) => NetStepKeepsInv(s, a);
    case Drop(_) => NetStepKeepsInv(s, a);
    case Execute(_) => NetStepKeepsInv(s, a);
    case OpenConn(_, _, _, _) => OpenKeepsGate(s, a);
    case OnSession(conn, step) => if conn in s.sessions { SessionKeepsInv(s, conn, step); }
    case CloseAdmission(gate) => ClosedKeepsGate(s, gate);
    case TakeAll(gate) => TakeAllKeepsGate(s, gate);
  }

  lemma ClosedKeepsGate(s: State, gate: GateId)
    requires GateInv(s)
    ensures GateInv(s.(closed := s.closed + {gate}))
  {
    var t := s.(closed := s.closed + {gate});
    forall c | c in t.net.calls ensures CallInv(t, c) { CallStays(s, t, c); }
    forall d | d in t.sessions ensures SessionInv(t, d) { assert SessionInv(s, d); }
    forall b | b in t.bound ensures Fate(t, b) {
      assert Fate(s, b);
      if HandedOut(s, b) { HandoutsGrow(s, t, b); }
    }
  }

  lemma {:induction false} RunKeepsInv(run: seq<Action>)
    ensures Inv(Exec(run))
  {
    if run != [] {
      RunKeepsInv(run[..|run| - 1]);
      StepKeepsInv(Exec(run[..|run| - 1]), run[|run| - 1]);
    }
  }

  lemma ExecSnoc(run: seq<Action>, a: Action)
    ensures Exec(run + [a]) == Apply(Exec(run), a)
  {
    assert (run + [a])[..|run|] == run;
  }

  // The lease.

  /** The deadline of a session is one TTL after the start of an acknowledged grant. */
  lemma DeadlineIsGranted(s: State, conn: ConnId) returns (c: Call)
    requires Inv(s) && conn in s.sessions && s.sessions[conn].binding.Some?
    ensures c in s.net.acks && AckInv(s.net, c)
    ensures var x := s.sessions[conn];
            c.binding == x.binding.value && c.ttl == x.ttl && c.started + c.ttl == x.leaseDeadline
  {
    var x := s.sessions[conn];
    assert SessionInv(s, conn);
    var started := x.leaseDeadline - x.ttl;
    c := BindGate(x.binding.value, x.ttl, started);
    if c !in s.net.acks { c := RenewGate(x.binding.value, x.ttl, started); }
    assert AckInv(s.net, c);
  }

  /** While the binding of a session is the stored one, the session gives up on it no
      later than the store does. */
  lemma LocalDeadlineWithinStored(run: seq<Action>, conn: ConnId)
    requires conn in Exec(run).sessions && Exec(run).sessions[conn].binding.Some?
    requires IsStored(Exec(run).net, Exec(run).sessions[conn].binding.value)
    ensures var x := Exec(run).sessions[conn];
            x.leaseDeadline <= Exec(run).net.store[x.binding.value.key].expiry
  {
    RunKeepsInv(run);
    var c := DeadlineIsGranted(Exec(run), conn);
  }

  /** Once its binding has left the store, a session is locally valid for at most one
      TTL more, whatever answers are still under way. */
  lemma DepartedLeaseIsBounded(run: seq<Action>, conn: ConnId)
    requires conn in Exec(run).sessions && Exec(run).sessions[conn].binding.Some?
    requires Exec(run).sessions[conn].binding.value in Exec(run).net.left
    ensures var x := Exec(run).sessions[conn];
            x.leaseDeadline <= Exec(run).net.left[x.binding.value].at + x.ttl
  {
    RunKeepsInv(run);
    var c := DeadlineIsGranted(Exec(run), conn);
  }

  /** An unbind is sent only for a binding that its session does not have any more. */
  lemma UnbindIsDecided(s: State, b: Binding)
    requires Inv(s) && UnbindGate(b) in s.net.calls
    ensures b in s.rolledBack || HandedOut(s, b)
    ensures b.conn in s.sessions && s.sessions[b.conn].binding != Some(b)
  {
    assert CallInv(s, UnbindGate(b));
    assert SessionInv(s, b.conn);
    if b in s.rolledBack { assert Fate(s, b); }
  }

  /** A bind of another binding than the one a session has is of another connection. */
  lemma OtherBindOtherConn(s: State, b: Binding, other: Call)
    requires Inv(s) && b.conn in s.sessions && s.sessions[b.conn].binding == Some(b)
    requires other in s.net.calls && other.BindGate? && other.binding != b
    ensures other.binding.conn != b.conn
  {
    assert SentInv(s.net, s.sessions[b.conn]);
    var c :| c in s.net.calls && c.BindGate? && c.binding == b;
  }

  /** A locally valid session is what the store says, or has lost its player to another
      connection: its binding is stored, or the bind of another connection took its place;
      it was neither dropped at its expiry nor unbound. */
  lemma ValidIsStoredOrReplaced(run: seq<Action>, conn: ConnId)
    requires conn in Exec(run).sessions && Exec(run).sessions[conn].LeaseValid(Exec(run).net.now)
    ensures var n, b := Exec(run).net, Exec(run).sessions[conn].binding.value;
            || IsStored(n, b)
            || (&& b in n.left && n.left[b].cause.Overwritten?
                && var d := n.left[b].cause.next.binding; d.key == b.key && d.conn != conn)
  {
    RunKeepsInv(run);
    var s := Exec(run);
    var c := DeadlineIsGranted(s, conn);
    var b := s.sessions[conn].binding.value;
    assert SessionInv(s, conn);
    if b in s.net.left {
      assert LeftInv(s.net, b);
      if UnbindGate(b) in s.net.calls { UnbindIsDecided(s, b); }
      if s.net.left[b].cause.Overwritten? { OtherBindOtherConn(s, b, s.net.left[b].cause.next); }
    }
  }

  // What a departed binding can come back by.

  /** The bind of `b` itself is executed once more and finds nothing in its way. */
  predicate Rebinds(s: State, a: Action, b: Binding) {
    && a.Execute? && a.call in s.net.calls && a.call.BindGate? && a.call.binding == b
    && BindStatus(s.net.store, b.key, s.net.now).Done?
  }

  lemma ExecutionKeepsDeparture(n: Net, c: Call, b: Binding)
    requires NetInv(n) && b in n.left
    ensures IsStored(ExecuteCall(n, c), b) <==>
              c.BindGate? && c.binding == b && BindStatus(n.store, b.key, n.now).Done?
    ensures !IsStored(ExecuteCall(n, c), b) ==> b in ExecuteCall(n, c).left && ExecuteCall(n, c).left[b] == n.left[b]
  {
    assert LeftInv(n, b);
  }

  /** A binding that has left the store is stored after the next step exactly when that
      step executes its own bind again; otherwise the departure stands. */
  lemma ReturnsOnlyByRebind(s: State, a: Action, b: Binding)
    requires NetInv(s.net) && b in s.net.left
    ensures IsStored(Apply(s, a).net, b) <==> Rebinds(s, a, b)
    ensures !Rebinds(s, a, b) ==> b in Apply(s, a).net.left && Apply(s, a).net.left[b] == s.net.left[b]
  {
    assert LeftInv(s.net, b);
    if a.Execute? {
      ExecutionKeepsDeparture(s.net, a.call, b);
    } else if a.OnSession? && a.conn in s.sessions {
      var t := ApplySession(s, a.conn, a.step);
      assert t.net.left == s.net.left && t.net.store == s.net.store;
    }
  }

  predicate Rebound(run: seq<Action>, more: seq<Action>, b: Binding) {
    exists k :: 0 <= k < |more| && Rebinds(Exec(run + more[..k]), more[k], b)
  }

  lemma ReboundEarlier(run: seq<Action>, more: seq<Action>, n: nat, b: Binding)
    requires n <= |more| && Rebound(run, more[..n], b)
    ensures Rebound(run, more, b)
  {
    var k :| 0 <= k < n && Rebinds(Exec(run + more[..n][..k]), more[..n][k], b);
    assert more[..n][..k] == more[..k];
  }

  /** Unless its own bind is executed again, a departed binding never comes back. */
  lemma {:induction false} DepartedForGood(run: seq<Action>, more: seq<Action>, b: Binding)
    requires b in Exec(run).net.left && !Rebound(run, more, b)
    ensures !IsStored(Exec(run + more).net, b)
    ensures b in Exec(run + more).net.left && Exec(run + more).net.left[b] == Exec(run).net.left[b]
  {
    if more == [] {
      RunKeepsInv(run);
      assert run + more == run;
      assert LeftInv(Exec(run).net, b);
    } else {
      var n := |more| - 1;
      var before, a := run + more[..n], more[n];
      if Rebound(run, more[..n], b) { ReboundEarlier(run, more, n, b); }
      DepartedForGood(run, more[..n], b);
      RunKeepsInv(before);
      ReturnsOnlyByRebind(Exec(before), a, b);
      assert run + more == before + [a];
      ExecSnoc(before, a);
    }
  }

  /** After another bind replaces it at time T, the old session is never locally valid
      at or after T plus its TTL, but for one way: its own bind was executed again. */
  lemma ReplacedSessionLapses(run: seq<Action>, c: Call, more: seq<Action>, b: Binding, conn: ConnId)
    requires c.BindGate? && IsStored(Exec(run).net, b) && c.binding != b && c.binding.key == b.key
    requires IsStored(Exec(run + [Execute(c)]).net, c.binding)
    ensures var t := Exec(run + [Execute(c)] + more);
            (conn in t.sessions && t.sessions[conn].binding == Some(b) && t.sessions[conn].LeaseValid(t.net.now)
             && Exec(run).net.now + t.sessions[conn].ttl <= t.net.now) ==> Rebound(run + [Execute(c)], more, b)
  {
    ExecSnoc(run, Execute(c));
    assert b in Exec(run + [Execute(c)]).net.left;
    var t := Exec(run + [Execute(c)] + more);
    if conn in t.sessions && t.sessions[conn].binding == Some(b) && !Rebound(run + [Execute(c)], more, b) {
      DepartedForGood(run + [Execute(c)], more, b);
      DepartedLeaseIsBounded(run + [Execute(c)] + more, conn);
    }
  }

  // The fate of a bind.

  /** Every successful bind is still undecided in its own authentication, committed, or
      rolled back by that authentication: exactly one of the three. */
  lemma BindHasOneFate(run: seq<Action>, b: Binding)
    requires b in Exec(run).bound
    ensures b.conn in Exec(run).sessions
    ensures var s := Exec(run);
            var undecided := s.sessions[b.conn].auth.Bound? && s.sessions[b.conn].auth.binding == b;
            && (undecided || b in s.committed || b in s.rolledBack)
            && !(undecided && b in s.committed) && !(undecided && b in s.rolledBack)
            && !(b in s.committed && b in s.rolledBack)
            && (b in s.rolledBack ==> UnbindGate(b) in s.net.calls)
  {
    RunKeepsInv(run);
    assert Fate(Exec(run), b);
  }

  lemma BoundStep(s: State, a: Action, b: Binding)
    requires Inv(s) && b !in s.bound && b in Apply(s, a).bound
    ensures Apply(s, a).bound == s.bound + {b}
    ensures forall d :: d in s.bound ==> d.conn != b.conn
  {
    if a.OnSession? && a.conn in s.sessions { assert SessionInv(s, a.conn); }
    forall d | d in s.bound ensures d.conn != b.conn { assert Fate(s, d); }
  }

  /** A connection binds, and so commits, at most once in its life. */
  lemma {:induction false} OneBindPerConnection(run: seq<Action>, b: Binding, d: Binding)
    requires b in Exec(run).bound && d in Exec(run).bound && b.conn == d.conn
    ensures b == d
  {
    var before := run[..|run| - 1];
    var s := Exec(before);
    RunKeepsInv(before);
    if b in s.bound && d in s.bound {
      OneBindPerConnection(before, b, d);
    } else {
      BoundStep(s, run[|run| - 1], if b in s.bound then d else b);
    }
  }

  /** A bind is committed only by its own authentication, to a session that is still
      registered and not yet past its authentication deadline. */
  lemma CommitStep(s: State, a: Action, b: Binding)
    requires Inv(s) && b !in s.committed && b in Apply(s, a).committed
    ensures a.OnSession? && a.step == Commit(false) && a.conn == b.conn && b.conn in s.sessions
    ensures var x := s.sessions[b.conn];
            x.listed && x.gate !in s.taken && s.net.now < x.authDeadline && x.auth == Bound(b, x.auth.started)
  {
    if a.OnSession? && a.conn in s.sessions { assert SessionInv(s, a.conn); }
  }

  /** A committed binding is handed out at most once; it is handed out exactly when its
      session no longer has it, in particular once a close or a drain has detached it. */
  lemma HandedOutOnce(run: seq<Action>, b: Binding)
    requires b in Exec(run).committed
    ensures var s := Exec(run);
            && b.conn in s.sessions
            && (forall i, j | 0 <= i < |s.handouts| && 0 <= j < |s.handouts| ::
                  s.handouts[i].binding == b && s.handouts[j].binding == b ==> i == j)
            && (HandedOut(s, b) <==> s.sessions[b.conn].binding != Some(b))
            && (s.sessions[b.conn].closing.Detached? ==> HandedOut(s, b))
  {
    RunKeepsInv(run);
    var s := Exec(run);
    assert Fate(s, b);
    assert SessionInv(s, b.conn);
  }

  /** Only committed bindings are handed out. */
  lemma HandoutWasCommitted(run: seq<Action>, i: nat)
    requires i < |Exec(run).handouts|
    ensures Exec(run).handouts[i].binding in Exec(run).committed
  {
    RunKeepsInv(run);
  }

  /** Every binding handed out by a close or a kick, and by a drain in time, is unbound: the
      call is sent. So once a session has given its binding up by a close, the store is told. */
  lemma HandoutBringsUnbind(run: seq<Action>, i: nat)
    requires i < |Exec(run).handouts|
    ensures var h := Exec(run).handouts[i];
            && (!h.path.ByDrain? ==> h.unbound)
            && (h.unbound ==> UnbindGate(h.binding) in Exec(run).net.calls)
  {
    RunKeepsInv(run);
  }

  /** In every run an unbind is sent only for a binding that its authentication rolled back
      or that was handed out, so for none that a session still has. */
  lemma UnbindIsEarned(run: seq<Action>, b: Binding)
    requires UnbindGate(b) in Exec(run).net.calls
    ensures var s := Exec(run);
            && (b in s.rolledBack || HandedOut(s, b))
            && b.conn in s.sessions && s.sessions[b.conn].binding != Some(b)
  {
    RunKeepsInv(run);
    UnbindIsDecided(Exec(run), b);
  }

  /** In every run executing an unbind, however late, removes no entry of a session that
      still has its binding, and none of another connection. */
  lemma UnbindSparesOthers(run: seq<Action>, b: Binding, k: Key)
    requires k in Exec(run).net.store && k !in Exec(run + [Execute(UnbindGate(b))]).net.store
    ensures var s := Exec(run);
            && s.net.store[k].value == Encoded(b) && (b in s.rolledBack || HandedOut(s, b))
            && b.conn in s.sessions && s.sessions[b.conn].binding != Some(b)
  {
    ExecSnoc(run, Execute(UnbindGate(b)));
    UnbindIsEarned(run, b);
  }

  lemma TakenCommitsNothing(s: State, a: Action, g: GateId)
    requires Inv(s) && g in s.taken
    ensures g in Apply(s, a).taken
    ensures forall b :: b in Apply(s, a).committed && b !in s.committed ==>
              b.conn in s.sessions && s.sessions[b.conn].gate != g
  {
    forall b | b in Apply(s, a).committed && b !in s.committed ensures b.conn in s.sessions && s.sessions[b.conn].gate != g {
      CommitStep(s, a, b);
    }
  }

  lemma GateStays(s: State, a: Action, conn: ConnId)
    requires conn in s.sessions
    ensures conn in Apply(s, a).sessions && Apply(s, a).sessions[conn].gate == s.sessions[conn].gate
  {
    if a.OnSession? && a.conn in s.sessions { SessionEffect(s, a.conn, a.step); }
  }

  ghost predicate CommittedOn(s: State, b: Binding, g: GateId) {
    b in s.committed && b.conn in s.sessions && s.sessions[b.conn].gate == g
  }

  /** After the shutdown of a Gateway has taken its sessions nothing is ever committed on
      it again, whatever the other Gateways do. */
  lemma {:induction false} NoCommitAfterTakeAll(run: seq<Action>, more: seq<Action>, g: GateId, b: Binding)
    requires g in Exec(run).taken
    ensures g in Exec(run + more).taken
    ensures CommittedOn(Exec(run + more), b, g) ==> CommittedOn(Exec(run), b, g)
  {
    if more == [] {
      assert run + more == run;
    } else {
      var before, a := run + more[..|more| - 1], more[|more| - 1];
      NoCommitAfterTakeAll(run, more[..|more| - 1], g, b);
      RunKeepsInv(before);
      TakenCommitsNothing(Exec(before), a, g);
      assert run + more == before + [a];
      ExecSnoc(before, a);
      if CommittedOn(Exec(run + more), b, g) {
        if b in Exec(before).committed { assert Fate(Exec(before), b); }
        GateStays(Exec(before), a, b.conn);
      }
    }
  }
}
