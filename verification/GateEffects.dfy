/**
  What each step of the Gateway session protocol brings about, and nothing else does: the
  store scripts, the calls sent, when a bind is committed or rolled back, when a lease is
  extended, and when a session is listed and gives its binding up.
 */
module GateEffects {
  import opened Basics
  import opened GateStore
  import opened GateProtocol
  import opened GateSafety

  /** A call executed by the store object: the protocol's step leaves the entries as the
      script does, and acknowledges a grant exactly when the script did. */
  method Perform(store: Store, c: Call, now: nat, ghost s: State) returns (done: bool)
    requires store.entries == s.net.store && now == s.net.now && c in s.net.calls
    requires IsGrant(c) ==> 0 < c.ttl
    modifies store
    ensures var t := Apply(s, Execute(c));
      && store.entries == t.net.store
      && t.net.acks == s.net.acks + (if IsGrant(c) && done then {c} else {})
      && t == s.(net := t.net) && t.net.calls == s.net.calls && t.net.now == s.net.now
  {
    var status;
    match c {
      case BindGate(b, ttl, _) =>
        var previous;
        status, previous := store.BindGate(b, ttl, now);
      case RenewGate(b, ttl, _) => status := store.RenewGateLease(b, ttl, now);
      case UnbindGate(b) => status := store.UnbindGate(b, now);
    }
    done := status.Done?;
  }

  /** A session changes only by its own steps and by the shutdown of its Gateway. */
  lemma OthersAreLeftAlone(s: State, a: Action, conn: ConnId)
    requires conn in s.sessions
    ensures conn in Apply(s, a).sessions
    ensures !(a.OnSession? && a.conn == conn) ==>
      Apply(s, a).sessions[conn] == if a.TakeAll? && a.gate in s.closed then Taken(s.sessions[conn], a.gate) else s.sessions[conn]
  {
    if a.OnSession? && a.conn in s.sessions { SessionEffect(s, a.conn, a.step); }
  }

  /** A key vanishes exactly from its expiry on, and only that key; what was bound there is
      noted as expired. */
  lemma DropExactly(s: State, key: Key)
    ensures var t := Apply(s, Drop(key));
      if key in s.net.store && s.net.store[key].expiry <= s.net.now
      then
        && t.net.store == s.net.store - {key}
        && (s.net.store[key].value.Encoded? ==>
              t.net.left == s.net.left[s.net.store[key].value.binding := Departure(s.net.now, Expired)])
      else t == s
  {
  }

  /** A bind that failed ends its authentication, and a renewal that failed leaves the lease
      as it is for the next heartbeat. */
  lemma FailureExactly(s: State, conn: ConnId)
    requires conn in s.sessions
    ensures s.sessions[conn].auth.Admitted? ==>
      Apply(s, OnSession(conn, FailBind)) == Put(s, conn, s.sessions[conn].(auth := Finished))
    ensures Apply(s, OnSession(conn, FailBeat)) == Put(s, conn, s.sessions[conn].(beat := Beat.Idle))
  {
  }

  // The calls.

  predicate Admits(s: State, conn: ConnId, token: Token, cancelled: bool)
    requires conn in s.sessions
  {
    var x := s.sessions[conn];
    x.auth.Attempted? && token !in s.tokens && x.gate !in s.closed && x.listed && !cancelled && s.net.now < x.authDeadline
  }

  predicate Commits(s: State, conn: ConnId, cancelled: bool)
    requires conn in s.sessions && s.sessions[conn].auth.Bound?
  {
    var x := s.sessions[conn];
    x.listed && !cancelled && s.net.now < x.authDeadline && s.net.now < x.auth.started + x.ttl
  }

  /** The steps at which a session gives its binding up. */
  predicate GivesUp(s: State, a: Action, conn: ConnId, b: Binding)
    requires conn in s.sessions
  {
    var x := s.sessions[conn];
    && a.OnSession? && a.conn == conn && x.binding == Some(b)
    && (|| (a.step.Detach? && x.closing.Leaving? && x.beat.Idle? && (x.auth.NotTried? || x.auth.Finished?))
        || (a.step == Kick(b) && x.looked && s.net.now < x.leaseDeadline))
  }

  /** Which step sends which call: a bind on admission, a renewal in the second half of a
      valid lease, an unbind for a bind not committed and for a binding given up. */
  predicate Sends(s: State, a: Action, c: Call) {
    var conn := c.binding.conn;
    && a.OnSession? && a.conn == conn && conn in s.sessions
    && var x := s.sessions[conn];
    match c
    case BindGate(b, ttl, started) =>
      && a.step.Admit? && Admits(s, conn, a.step.token, a.step.cancelled)
      && b == Binding(a.step.key, conn, a.step.token) && ttl == x.ttl && started == s.net.now
    case RenewGate(b, ttl, started) =>
      && a.step.StartBeat? && x.beat.Idle? && x.binding == Some(b) && ttl == x.ttl && started == s.net.now
      && s.net.now < x.leaseDeadline <= s.net.now + x.ttl / 2
    case UnbindGate(b) =>
      || (a.step.Commit? && x.auth.Bound? && x.auth.binding == b && !Commits(s, conn, a.step.cancelled))
      || (GivesUp(s, a, conn, b) && (a.step.Kick? || x.closing.path.ByClose? || a.step.unbind))
  }

  lemma SentBySession(s: State, a: Action, c: Call)
    requires GateInv(s) && a.OnSession? && a.conn in s.sessions
    ensures c in Apply(s, a).net.calls <==> c in s.net.calls || Sends(s, a, c)
  {
    assert SessionInv(s, a.conn);
  }

  lemma SentExactly(s: State, a: Action, c: Call)
    requires GateInv(s)
    ensures c in Apply(s, a).net.calls <==> c in s.net.calls || Sends(s, a, c)
  {
    if a.OnSession? && a.conn in s.sessions {
      SentBySession(s, a, c);
    } else {
      assert Apply(s, a).net.calls == s.net.calls;
    }
  }

  // The fate of a bind.

  /** A bind counts as successful exactly when its own authentication takes its answer. */
  lemma BoundExactly(s: State, a: Action, b: Binding)
    requires GateInv(s) && b !in s.bound
    ensures b in Apply(s, a).bound <==>
      && a == OnSession(b.conn, AcceptBind) && b.conn in s.sessions
      && var x := s.sessions[b.conn];
      x.auth.Admitted? && x.auth.binding == b && BindGate(b, x.ttl, x.auth.started) in s.net.acks
  {
    if a.OnSession? && a.conn in s.sessions { assert SessionInv(s, a.conn); }
  }

  /** The step that decides a bind commits it exactly when the session is listed, not
      cancelled and both deadlines are ahead, with a lease counted from the start of the
      bind; otherwise it rolls it back. */
  lemma DecidedExactly(s: State, conn: ConnId, cancelled: bool)
    requires conn in s.sessions && s.sessions[conn].auth.Bound?
    ensures var x, t := s.sessions[conn], Apply(s, OnSession(conn, Commit(cancelled)));
      && conn in t.sessions && t.sessions[conn].auth.Finished?
      && (if Commits(s, conn, cancelled)
          then
            && t.committed == s.committed + {x.auth.binding} && t.rolledBack == s.rolledBack
            && t.sessions[conn].binding == Some(x.auth.binding) && t.sessions[conn].leaseDeadline == x.auth.started + x.ttl
          else
            && t.committed == s.committed && t.rolledBack == s.rolledBack + {x.auth.binding}
            && t.sessions[conn].binding == x.binding)
  {
  }

  // The lease.

  /** The lease of a session that keeps its binding moves exactly when the answer of its own
      renewal is taken, to one TTL after the start of that renewal. */
  lemma LeaseMovesExactly(s: State, a: Action, conn: ConnId, b: Binding)
    requires GateInv(s) && conn in s.sessions && s.sessions[conn].binding == Some(b)
    requires !GivesUp(s, a, conn, b)
    ensures conn in Apply(s, a).sessions
    ensures var x, y := s.sessions[conn], Apply(s, a).sessions[conn];
      && y.binding == Some(b)
      && y.leaseDeadline ==
           if a == OnSession(conn, AcceptBeat) && x.beat.Renewing? && x.beat.binding == b && RenewGate(b, x.ttl, x.beat.started) in s.net.acks
           then x.beat.started + x.ttl else x.leaseDeadline
  {
    assert SessionInv(s, conn);
    OthersAreLeftAlone(s, a, conn);
  }

  /** Giving a binding up takes it from the session and adds exactly one hand-out, on the
      path of that step. Nothing else adds one. */
  lemma GivenUpExactly(s: State, a: Action, conn: ConnId, b: Binding)
    requires conn in s.sessions && GivesUp(s, a, conn, b)
    ensures var x, t := s.sessions[conn], Apply(s, a);
      && conn in t.sessions && t.sessions[conn].binding.None? && t.sessions[conn].leaseDeadline == 0
      && t.handouts == s.handouts + [Handout(b, if a.step.Kick? then ByKick else x.closing.path,
                                             a.step.Kick? || x.closing.path.ByClose? || a.step.unbind)]
  {
  }

  lemma HandedOutOnlyThen(s: State, a: Action)
    requires Apply(s, a).handouts != s.handouts
    ensures a.OnSession? && a.conn in s.sessions && s.sessions[a.conn].binding.Some?
    ensures GivesUp(s, a, a.conn, s.sessions[a.conn].binding.value)
  {
  }

  // The registry.

  lemma OwnListing(s: State, conn: ConnId, step: SessionStep)
    requires conn in s.sessions
    ensures var x, y := s.sessions[conn], ApplySession(s, conn, step).sessions[conn];
      && (y.listed <==> x.listed && !step.Remove? && !(step.KickRemove? && x.kicked))
      && (x.listed && step.Remove? ==> y.closing == Leaving(ByClose))
  {
  }

  /** A session leaves the registry exactly by its close, by a kick that has detached it, or
      by the shutdown of its Gateway; the first and the last then have to detach it. */
  lemma UnlistedExactly(s: State, a: Action, conn: ConnId)
    requires conn in s.sessions && s.sessions[conn].listed
    ensures conn in Apply(s, a).sessions
    ensures var x, y := s.sessions[conn], Apply(s, a).sessions[conn];
      && (!y.listed <==>
            || a == OnSession(conn, Remove)
            || (a == OnSession(conn, KickRemove) && x.kicked)
            || (a == TakeAll(x.gate) && x.gate in s.closed))
      && (a == OnSession(conn, Remove) ==> y.closing == Leaving(ByClose))
      && (a == TakeAll(x.gate) && x.gate in s.closed ==> y.closing == Leaving(ByDrain))
  {
    OthersAreLeftAlone(s, a, conn);
    if a.OnSession? && a.conn == conn { OwnListing(s, conn, a.step); }
  }

  lemma OwnKick(s: State, conn: ConnId, step: SessionStep)
    requires conn in s.sessions
    ensures var x, y := s.sessions[conn], ApplySession(s, conn, step).sessions[conn];
      && (y.looked <==> x.looked || (step.LookUp? && x.listed))
      && (y.kicked <==> x.kicked || (step.Kick? && GivesUp(s, OnSession(conn, step), conn, step.binding)))
  {
  }

  /** A kick holds a session exactly when it looked it up while it was listed, and has
      kicked it exactly when it detached it. */
  lemma KickExactly(s: State, a: Action, conn: ConnId)
    requires conn in s.sessions
    ensures conn in Apply(s, a).sessions
    ensures var x, y := s.sessions[conn], Apply(s, a).sessions[conn];
      && (y.looked <==> x.looked || (a == OnSession(conn, LookUp) && x.listed))
      && (y.kicked <==> x.kicked || (a.OnSession? && a.step.Kick? && GivesUp(s, a, conn, a.step.binding)))
  {
    OthersAreLeftAlone(s, a, conn);
    if a.OnSession? && a.conn == conn { OwnKick(s, conn, a.step); }
  }

  /** A connection is taken in once, by a Gateway that has neither closed nor shut down. */
  lemma OpensExactly(s: State, a: Action, conn: ConnId)
    requires conn !in s.sessions
    ensures conn in Apply(s, a).sessions <==>
              a.OpenConn? && a.conn == conn && a.gate !in s.closed && a.gate !in s.taken
    ensures conn in Apply(s, a).sessions ==>
      var x := Apply(s, a).sessions[conn];
      && x.gate == a.gate && x.ttl == a.ttl && x.authDeadline == s.net.now + a.authTimeout && x.listed
      && x.auth.NotTried? && x.binding.None? && x.closing.Open?
  {
  }

  /** A Gateway has closed or shut down exactly when it was told to. */
  lemma ShutsExactly(s: State, a: Action, g: GateId)
    ensures g in Apply(s, a).closed <==> g in s.closed || a == CloseAdmission(g)
    ensures g in Apply(s, a).taken <==> g in s.taken || (a == TakeAll(g) && g in s.closed)
  {
  }
}
