/**
  The lease object of one Node process. Each method is a section that other
  goroutines see as one step; `View` is the lease of the ownership protocol, and
  every section is proved to be the protocol's step of the same name.
 */
module EpochLease {
  import opened NodeStore
  import opened EpochProtocol

  /** Why the lease context was cancelled; the first cause is kept. */
  datatype Cause = Live | Expired | OwnershipLost | Stopped

  /** What a store call came back with. */
  datatype Outcome = Confirmed | Refused | Failed

  class EpochLease {
    const epoch: Epoch
    var deadline: nat
    var cause: Cause
    var released: bool
    var renewal: Renewal

    ghost function View(): Lease
      reads this
    {
      Lease(deadline, !cause.Live?, renewal)
    }

    constructor (epoch: Epoch, started: nat)
      ensures this.epoch == epoch && !released
      ensures View() == Lease(started + EPOCH_TTL, false, Idle)
    {
      this.epoch := epoch;
      deadline, cause, released, renewal := started + EPOCH_TTL, Live, false, Idle;
    }

    method CancelWith(reason: Cause)
      requires !reason.Live?
      modifies this`cause
      ensures cause == if old(cause).Live? then reason else old(cause)
    {
      if cause.Live? { cause := reason; }
    }

    method Valid(now: nat) returns (err: Cause)
      modifies this`cause
      ensures View() == old(View()).Next(now, false, Check)
      ensures err == cause && cause == if old(cause).Live? && now >= deadline then Expired else old(cause)
    {
      if now >= deadline { CancelWith(Expired); }
      return cause;
    }

    method LoseOwnership() returns (err: Cause)
      modifies this`cause
      ensures View() == old(View()).Next(0, false, Cancel)
      ensures err == cause && cause == if old(cause).Live? then OwnershipLost else old(cause)
    {
      CancelWith(OwnershipLost);
      return cause;
    }

    method CheckBeforeRenewal(now: nat) returns (ok: bool)
      requires renewal.Idle?
      modifies this`cause, this`renewal
      ensures View() == old(View()).Next(now, false, CheckRenewal)
      ensures ok <==> old(cause).Live? && now < deadline
      ensures renewal == if ok then Checked else Idle
      ensures cause == if old(cause).Live? && now >= deadline then Expired else old(cause)
    {
      var err := Valid(now);
      ok := err.Live?;
      if ok { renewal := Checked; }
    }

    method SendRenewal(now: nat)
      requires renewal.Checked?
      modifies this`renewal
      ensures View() == old(View()).Next(now, false, LeaseStep.SendRenewal)
      ensures renewal == Waiting(now, if deadline < now + RPC_TIMEOUT then deadline else now + RPC_TIMEOUT)
    {
      var limit := deadline;
      if now + RPC_TIMEOUT < limit { limit := now + RPC_TIMEOUT; }
      renewal := Waiting(now, limit);
    }

    method FinishRenewal(now: nat, outcome: Outcome) returns (ok: bool)
      requires renewal.Waiting?
      modifies this`cause, this`renewal
      ensures View() == old(View()).Next(now, true,
                          if outcome.Confirmed? then AcceptRenewal else FailRenewal(outcome.Refused?))
      ensures ok <==> outcome.Confirmed? && now < old(renewal).limit && now < deadline && old(cause).Live?
      ensures renewal == if ok then Granted(old(renewal).started) else Idle
      ensures cause == if !old(cause).Live? then old(cause)
                       else if outcome.Refused? then OwnershipLost
                       else if outcome.Confirmed? && deadline <= now < old(renewal).limit then Expired else Live
    {
      var started, limit := renewal.started, renewal.limit;
      ok := outcome.Confirmed? && now < limit;
      if ok {
        var err := Valid(now);
        ok := err.Live?;
      } else if outcome.Refused? {
        CancelWith(OwnershipLost);
      }
      renewal := if ok then Granted(started) else Idle;
    }

    method StoreDeadline()
      requires renewal.Granted?
      modifies this`deadline, this`renewal
      ensures View() == old(View()).Next(0, false, LeaseStep.StoreDeadline)
      ensures deadline == old(renewal).started + EPOCH_TTL && renewal.Idle?
    {
      deadline := renewal.started + EPOCH_TTL;
      renewal := Idle;
    }

    /** One renewal without interference: the deadline moves exactly when the store
        confirmed it in time, and it is then counted from the start of the call. The lease
        ends exactly when it had lapsed before or the store refused; a call that merely
        failed or came late leaves it as it was. */
    method RenewOnce(checked: nat, started: nat, replied: nat, outcome: Outcome) returns (ok: bool)
      requires checked <= started <= replied && renewal.Idle?
      modifies this`deadline, this`cause, this`renewal
      ensures renewal.Idle?
      ensures ok <==> old(cause).Live? && checked < old(deadline) && outcome.Confirmed?
                      && replied < old(deadline) && replied < started + RPC_TIMEOUT
      ensures deadline == if ok then started + EPOCH_TTL else old(deadline)
      ensures cause == if !old(cause).Live? then old(cause)
                       else if checked >= old(deadline) then Expired
                       else if outcome.Refused? then OwnershipLost else Live
    {
      ok := CheckBeforeRenewal(checked);
      if ok {
        SendRenewal(started);
        ok := FinishRenewal(replied, outcome);
        if ok { StoreDeadline(); }
      }
    }

    /** stopRenewal and the compare-and-delete of the epoch; `sent` tells whether the
        store was called at all. Only a cancelled lease ever asks for its release. */
    method Release(stopped: bool, acknowledged: bool) returns (sent: bool, ok: bool)
      modifies this`cause, this`released
      ensures View() == old(View()).Next(0, false, Cancel)
      ensures sent <==> stopped && !old(released)
      ensures sent ==> Unregister(epoch) in View().Sent(epoch, 0, LeaseStep.Release)
      ensures released == (old(released) || (sent && acknowledged))
      ensures ok <==> stopped && released
    {
      CancelWith(Stopped);
      sent := stopped && !released;
      if sent && acknowledged { released := true; }
      ok := stopped && released;
    }
  }

  /** What wakes the monitor: the result of a renewal, the timer, or the context. */
  datatype Event = Renewed(err: Cause) | Timer | Done

  /** One wake-up. Renewals run beside the monitor, so each wake-up finds the deadline and
      the cause that they and others have left by then. */
  datatype Wake = Wake(event: Event, at: nat, deadline: nat, cause: Cause)

  predicate FirstResult(wakes: seq<Wake>, i: nat) {
    i < |wakes| && wakes[i].event.Renewed? && forall j :: 0 <= j < i ==> !wakes[j].event.Renewed?
  }

  /** The lease is found lapsed or cancelled, or the first renewal failed. */
  predicate Stops(wakes: seq<Wake>, i: nat) {
    && i < |wakes|
    && (|| wakes[i].at >= wakes[i].deadline || !wakes[i].cause.Live?
        || (FirstResult(wakes, i) && !wakes[i].event.err.Live?))
  }

  /**
    The monitor loop over the wake-ups it meets. It ends exactly when one of them stops it,
    however often renewals have moved the deadline before. The start of the process waits
    on `ready`, a channel with one slot: it gets at most one message, exactly one once the
    monitor has ended, and a message without error exactly if the first renewal succeeded
    before anything stopped the monitor.
   */
  method Monitor(lease: EpochLease, wakes: seq<Wake>) returns (ready: seq<Cause>, ended: bool, err: Cause)
    requires lease.cause.Live?
    modifies lease`deadline, lease`cause
    ensures |ready| <= 1
    ensures ended <==> exists i: nat :: Stops(wakes, i)
    ensures ended ==> |ready| == 1 && !err.Live?
    ensures ready == [Live] <==>
              exists i: nat :: FirstResult(wakes, i) && wakes[i].event.err.Live? && forall j: nat :: j < i ==> !Stops(wakes, j)
  {
    ready, err := [], Live;
    var k: nat := 0;
    while k < |wakes|
      invariant k <= |wakes| && lease.cause.Live?
      invariant ready == [] || ready == [Live]
      invariant forall i: nat :: i < k ==> !Stops(wakes, i)
      invariant ready == [] <==> forall j :: 0 <= j < k ==> !wakes[j].event.Renewed?
      invariant ready == [Live] <==> exists i: nat :: i < k && FirstResult(wakes, i) && wakes[i].event.err.Live?
    {
      var w := wakes[k];
      lease.deadline, lease.cause := w.deadline, w.cause;
      if w.event.Renewed? && ready == [] {
        assert FirstResult(wakes, k);
        ready := [w.event.err];
        if !w.event.err.Live? {
          assert Stops(wakes, k);
          return ready, true, w.event.err;
        }
      }
      err := lease.Valid(w.at);
      if !err.Live? {
        assert Stops(wakes, k);
        if ready == [] { ready := [err]; }
        return ready, true, err;
      }
      k := k + 1;
    }
    ended := false;
  }
}
