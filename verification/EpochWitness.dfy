/** Runs of the Node ownership protocol that reach what the theorems speak about. */
module EpochWitness {
  import opened Basics
  import opened NodeStore
  import opened EpochProtocol
  import opened EpochSafety

  // A run in which everything goes well.

  function Owned(n: NodeId, e: Epoch): State {
    State(0, map[n := StoredEpoch(e, EPOCH_TTL)], map[], map[e := n], {e},
          map[e := Lease(EPOCH_TTL, false, Idle)], {Register(e, 0)}, {Register(e, 0)}, map[])
  }

  function BoundTo(n: NodeId, e: Epoch, u: Uid): State {
    Owned(n, e).(calls := {Register(e, 0), Write(e, Bind, u)}, bindings := map[u := StoredBinding(n, BINDING_TTL)])
  }

  function Serving(n: NodeId, e: Epoch, u: Uid, phase: Phase): State {
    BoundTo(n, e, u).(requests := map[0 := Request(e, u, StickyClaim(n, e), phase)])
  }

  lemma ClaimRuns(n: NodeId, e: Epoch)
    requires e != ""
    ensures Apply(Apply(Apply(Init(), Claim(e, n)), Execute(Register(e, 0))), AcceptClaim(e, 0)) == Owned(n, e)
  {
    var s := Apply(Init(), Claim(e, n));
    assert s == Init().(owners := map[e := n], calls := {Register(e, 0)});
    var t := Apply(s, Execute(Register(e, 0)));
    assert t == Owned(n, e).(leases := map[]);
  }

  lemma BindRuns(n: NodeId, e: Epoch, u: Uid)
    ensures Apply(Apply(Owned(n, e), OnLease(e, SendWrite(Bind, u))), Execute(Write(e, Bind, u))) == BoundTo(n, e, u)
  {
    var s := Apply(Owned(n, e), OnLease(e, SendWrite(Bind, u)));
    assert s == Owned(n, e).(calls := {Register(e, 0), Write(e, Bind, u)});
  }

  lemma FenceRuns(n: NodeId, e: Epoch, u: Uid)
    requires n != "" && e != ""
    ensures Apply(BoundTo(n, e, u), Arrive(0, e, u, StickyClaim(n, e))) == Serving(n, e, u, Admitted)
    ensures Apply(Serving(n, e, u, Admitted), OnRequest(0, Route)) == Serving(n, e, u, Routed)
    ensures Apply(Serving(n, e, u, Routed), OnRequest(0, Fence)) == Serving(n, e, u, Fenced)
  {
  }

  lemma LocateRuns(n: NodeId, e: Epoch, u: Uid)
    ensures Apply(Serving(n, e, u, Fenced), OnRequest(0, Locate)) == Serving(n, e, u, Located(n))
  {
  }

  lemma HandlerRuns(n: NodeId, e: Epoch, u: Uid)
    ensures Apply(Serving(n, e, u, Located(n)), OnRequest(0, Recheck)) == Serving(n, e, u, Cleared)
    ensures Apply(Serving(n, e, u, Cleared), OnRequest(0, Handle)) == Serving(n, e, u, Handling)
  {
  }

  lemma {:induction false} ExecAll(run: seq<Action>, more: seq<Action>, states: seq<State>)
    requires |states| == |more| + 1 && states[0] == Exec(run)
    requires forall i :: 0 <= i < |more| ==> Apply(states[i], more[i]) == states[i + 1]
    ensures Exec(run + more) == states[|more|]
  {
    if more == [] {
      assert run + more == run;
    } else {
      ExecAll(run, more[..|more| - 1], states[..|more|]);
      ExecLast(run, more);
    }
  }

  /** For every node, epoch and player there is a run in which the process owns the node,
      the player is bound to it, and the handler of a request with that claim starts. */
  lemma HandlerCanStart(n: NodeId, e: Epoch, u: Uid) returns (run: seq<Action>)
    requires n != "" && e != ""
    ensures Exec(run) == Serving(n, e, u, Handling) && Passing(Exec(run), e)
  {
    var s1 := Apply(Init(), Claim(e, n));
    var s2 := Apply(s1, Execute(Register(e, 0)));
    var s3 := Apply(Owned(n, e), OnLease(e, SendWrite(Bind, u)));
    ClaimRuns(n, e);
    BindRuns(n, e, u);
    FenceRuns(n, e, u);
    LocateRuns(n, e, u);
    HandlerRuns(n, e, u);
    run := [Claim(e, n), Execute(Register(e, 0)), AcceptClaim(e, 0), OnLease(e, SendWrite(Bind, u)),
            Execute(Write(e, Bind, u)), Arrive(0, e, u, StickyClaim(n, e)), OnRequest(0, Route),
            OnRequest(0, Fence), OnRequest(0, Locate), OnRequest(0, Recheck), OnRequest(0, Handle)];
    ExecAll([], run, [Init(), s1, s2, Owned(n, e), s3, BoundTo(n, e, u), Serving(n, e, u, Admitted),
                      Serving(n, e, u, Routed), Serving(n, e, u, Fenced), Serving(n, e, u, Located(n)),
                      Serving(n, e, u, Cleared), Serving(n, e, u, Handling)]);
    assert [] + run == run;
  }

  lemma ClaimRun(n: NodeId, e: Epoch)
    requires e != ""
    ensures Exec([Claim(e, n), Execute(Register(e, 0)), AcceptClaim(e, 0)]) == Owned(n, e)
  {
    var run := [Claim(e, n), Execute(Register(e, 0)), AcceptClaim(e, 0)];
    var s := Apply(Init(), Claim(e, n));
    ClaimRuns(n, e);
    ExecAll([], run, [Init(), s, Apply(s, Execute(Register(e, 0))), Owned(n, e)]);
    assert [] + run == run;
  }

  // A run in which a claim executed a second time brings a lapsed epoch back.

  function Lapsed(n: NodeId, e: Epoch, u: Uid): State {
    Owned(n, e).(now := EPOCH_TTL, epochs := map[], calls := {Register(e, 0), Write(e, Bind, u)})
  }

  lemma LapseRuns(n: NodeId, e: Epoch, u: Uid)
    ensures Apply(Apply(Apply(Owned(n, e), OnLease(e, SendWrite(Bind, u))), Advance(EPOCH_TTL)), DropEpoch(n)) == Lapsed(n, e, u)
  {
    var s := Apply(Owned(n, e), OnLease(e, SendWrite(Bind, u)));
    assert s == Owned(n, e).(calls := {Register(e, 0), Write(e, Bind, u)});
    assert Apply(s, Advance(EPOCH_TTL)) == s.(now := EPOCH_TTL);
  }

  lemma ReclaimRuns(n: NodeId, e: Epoch, u: Uid)
    ensures var back := Apply(Lapsed(n, e, u), Execute(Register(e, 0)));
            && Registered(back, e)
            && NodeOf(Apply(back, Execute(Write(e, Bind, u))), u) == Some(n)
  {
    var back := Apply(Lapsed(n, e, u), Execute(Register(e, 0)));
    assert back == Lapsed(n, e, u).(epochs := map[n := StoredEpoch(e, EPOCH_TTL + EPOCH_TTL)]);
  }

  /** The one exception of GoneNeverReturns is real: in some run an epoch is gone, its claim
      is executed again, and then a late write of that generation takes effect. */
  lemma GoneCanReturn(n: NodeId, e: Epoch, u: Uid) returns (run: seq<Action>)
    requires e != ""
    ensures Gone(Exec(run), e) && Reclaims(Exec(run), Execute(Register(e, 0)), e)
    ensures Registered(Exec(run + [Execute(Register(e, 0))]), e)
    ensures NodeOf(Exec(run + [Execute(Register(e, 0))] + [Execute(Write(e, Bind, u))]), u) == Some(n)
  {
    var claim := [Claim(e, n), Execute(Register(e, 0)), AcceptClaim(e, 0)];
    var lapse := [OnLease(e, SendWrite(Bind, u)), Advance(EPOCH_TTL), DropEpoch(n)];
    var s := Apply(Owned(n, e), OnLease(e, SendWrite(Bind, u)));
    ClaimRun(n, e);
    LapseRuns(n, e, u);
    ExecAll(claim, lapse, [Owned(n, e), s, Apply(s, Advance(EPOCH_TTL)), Lapsed(n, e, u)]);
    run := claim + lapse;
    ReclaimRuns(n, e, u);
    ExecSnoc(run, Execute(Register(e, 0)));
    ExecSnoc(run + [Execute(Register(e, 0))], Execute(Write(e, Bind, u)));
  }

  // A run in which a lease that nobody checked lapses and is revived.

  const LAST: nat := EPOCH_TTL - 1

  function AtLast(n: NodeId, e: Epoch, renewal: Renewal): State {
    Owned(n, e).(now := LAST, leases := map[e := Lease(EPOCH_TTL, false, renewal)])
  }

  function Renewed(n: NodeId, e: Epoch, renewal: Renewal): State {
    AtLast(n, e, renewal).(calls := {Register(e, 0), Renew(e, LAST)}, acks := {Register(e, 0), Renew(e, LAST)},
                           epochs := map[n := StoredEpoch(e, LAST + EPOCH_TTL)])
  }

  lemma RenewalIsSent(n: NodeId, e: Epoch)
    ensures Apply(Owned(n, e), Advance(LAST)) == AtLast(n, e, Idle)
    ensures Apply(AtLast(n, e, Idle), OnLease(e, CheckRenewal)) == AtLast(n, e, Checked)
    ensures Apply(AtLast(n, e, Checked), OnLease(e, SendRenewal))
         == AtLast(n, e, Waiting(LAST, EPOCH_TTL)).(calls := {Register(e, 0), Renew(e, LAST)})
  {
  }

  lemma RenewalIsGranted(n: NodeId, e: Epoch)
    ensures Apply(AtLast(n, e, Waiting(LAST, EPOCH_TTL)).(calls := {Register(e, 0), Renew(e, LAST)}), Execute(Renew(e, LAST)))
         == Renewed(n, e, Waiting(LAST, EPOCH_TTL))
    ensures Apply(Renewed(n, e, Waiting(LAST, EPOCH_TTL)), OnLease(e, AcceptRenewal)) == Renewed(n, e, Granted(LAST))
  {
  }

  /** The revival of RevivedOnlyByGrant is reached: a renewal sent and accepted one
      millisecond before the deadline is stored at the deadline, and in between the lease
      does not pass. */
  lemma LapseCanBeRevived(n: NodeId, e: Epoch) returns (run: seq<Action>)
    requires e != ""
    ensures e in Exec(run).leases && !Passing(Exec(run), e) && Exec(run).now == EPOCH_TTL
    ensures Passing(Exec(run + [OnLease(e, StoreDeadline)]), e)
  {
    var claim := [Claim(e, n), Execute(Register(e, 0)), AcceptClaim(e, 0)];
    var renew := [Advance(LAST), OnLease(e, CheckRenewal), OnLease(e, SendRenewal), Execute(Renew(e, LAST)),
                  OnLease(e, AcceptRenewal), Advance(1)];
    var last := Renewed(n, e, Granted(LAST)).(now := EPOCH_TTL);
    ClaimRun(n, e);
    RenewalIsSent(n, e);
    RenewalIsGranted(n, e);
    ExecAll(claim, renew,
            [Owned(n, e), AtLast(n, e, Idle), AtLast(n, e, Checked),
             AtLast(n, e, Waiting(LAST, EPOCH_TTL)).(calls := {Register(e, 0), Renew(e, LAST)}),
             Renewed(n, e, Waiting(LAST, EPOCH_TTL)), Renewed(n, e, Granted(LAST)), last]);
    run := claim + renew;
    ExecSnoc(run, OnLease(e, StoreDeadline));
  }
}
