/**
  A run of the Gateway session protocol in which a bind executed a second time brings a
  replaced binding back: two connections of one player, a TTL of two.
 */
module GateWitness {
  import opened Basics
  import opened GateStore
  import opened GateProtocol
  import opened GateSafety

  const OLD := Binding("uid", 0, "old")
  const NEW := Binding("uid", 1, "new")
  const BIND_OLD := BindGate(OLD, 2, 0)
  const BIND_NEW := BindGate(NEW, 2, 0)
  const RENEW_OLD := RenewGate(OLD, 2, 1)

  function Fresh(auth: Auth): Session {
    Session("gate", 2, 10, true, auth, None, 0, Beat.Idle, Open, false, false)
  }

  function Holding(deadline: nat, beat: Beat): Session {
    Fresh(Finished).(binding := Some(OLD), leaseDeadline := deadline, beat := beat)
  }

  function Alone(net: Net, x: Session): State {
    State(net, map[0 := x], {}, {}, {"old"}, {}, {}, {}, [])
  }

  /** The first connection has committed its binding; the second has sent its bind. */
  function Both(net: Net, x: Session): State {
    State(net, map[0 := x, 1 := Fresh(Admitted(NEW, 0))], {}, {}, {"old", "new"}, {OLD}, {OLD}, {}, [])
  }

  function Calls(n: nat): set<Call> {
    if n == 1 then {BIND_OLD} else if n == 2 then {BIND_OLD, BIND_NEW} else {BIND_OLD, BIND_NEW, RENEW_OLD}
  }

  const ADMITTED := Alone(Net(0, map[], {BIND_OLD}, {}, map[]), Fresh(Admitted(OLD, 0)))
  const STORED_OLD := Stored(Encoded(OLD), 2)
  const NET_OLD := Net(0, map["uid" := STORED_OLD], {BIND_OLD}, {BIND_OLD}, map[])
  const COMMITTED := Alone(NET_OLD, Holding(2, Beat.Idle)).(bound := {OLD}, committed := {OLD})
  const SECOND := Both(NET_OLD.(calls := Calls(2)), Holding(2, Beat.Idle))
  const NET_REPLACED := Net(0, map["uid" := Stored(Encoded(NEW), 2)], Calls(2), Calls(2),
                            map[OLD := Departure(0, Overwritten(BIND_NEW))])
  const NET_BACK := Net(0, map["uid" := STORED_OLD], Calls(2), Calls(2), map[NEW := Departure(0, Overwritten(BIND_OLD))])
  const NET_RENEWED := Net(1, map["uid" := Stored(Encoded(OLD), 3)], Calls(3), Calls(3),
                           map[NEW := Departure(0, Overwritten(BIND_OLD))])

  lemma {:induction false} ExecAll(run: seq<Action>, more: seq<Action>, states: seq<State>)
    requires |states| == |more| + 1 && states[0] == Exec(run)
    requires forall i :: 0 <= i < |more| ==> Apply(states[i], more[i]) == states[i + 1]
    ensures Exec(run + more) == states[|more|]
  {
    if more == [] {
      assert run + more == run;
    } else {
      var n := |more| - 1;
      ExecAll(run, more[..n], states[..|more|]);
      assert run + more == run + more[..n] + [more[n]];
      ExecSnoc(run + more[..n], more[n]);
    }
  }

  function Step(conn: ConnId, step: SessionStep): Action { OnSession(conn, step) }

  const BIND_FIRST := [OpenConn(0, "gate", 2, 10), Step(0, BeginAuth), Step(0, Admit("uid", "old", false)),
                       Execute(BIND_OLD), Step(0, AcceptBind), Step(0, Commit(false))]
  const BIND_SECOND := [OpenConn(1, "gate", 2, 10), Step(1, BeginAuth), Step(1, Admit("uid", "new", false))]
  const BIND_AGAIN := [Execute(BIND_OLD), Advance(1)]
  const RENEW := [Step(0, StartBeat), Execute(RENEW_OLD), Step(0, AcceptBeat), Advance(1)]

  lemma FirstBinds()
    ensures Exec(BIND_FIRST) == COMMITTED
  {
    var s1 := Init().(sessions := map[0 := Fresh(NotTried)]);
    var s2 := Init().(sessions := map[0 := Fresh(Attempted)]);
    var s4 := Alone(NET_OLD, Fresh(Admitted(OLD, 0)));
    var s5 := Alone(NET_OLD, Fresh(Bound(OLD, 0))).(bound := {OLD});
    ExecAll([], BIND_FIRST, [Init(), s1, s2, ADMITTED, s4, s5, COMMITTED]);
    assert [] + BIND_FIRST == BIND_FIRST;
  }

  lemma SendsSecond()
    ensures Apply(COMMITTED.(sessions := COMMITTED.sessions[1 := Fresh(Attempted)]), Step(1, Admit("uid", "new", false))) == SECOND
  {
  }

  lemma SecondBinds()
    ensures Exec(BIND_FIRST + BIND_SECOND) == SECOND
  {
    FirstBinds();
    SendsSecond();
    var s1 := COMMITTED.(sessions := COMMITTED.sessions[1 := Fresh(NotTried)]);
    var s2 := COMMITTED.(sessions := COMMITTED.sessions[1 := Fresh(Attempted)]);
    ExecAll(BIND_FIRST, BIND_SECOND, [COMMITTED, s1, s2, SECOND]);
  }

  lemma Replaces()
    ensures Exec(BIND_FIRST + BIND_SECOND + [Execute(BIND_NEW)]) == Both(NET_REPLACED, Holding(2, Beat.Idle))
  {
    SecondBinds();
    ExecSnoc(BIND_FIRST + BIND_SECOND, Execute(BIND_NEW));
  }

  lemma StoresAgain()
    ensures Apply(Both(NET_REPLACED, Holding(2, Beat.Idle)), Execute(BIND_OLD)) == Both(NET_BACK, Holding(2, Beat.Idle))
  {
  }

  lemma BindsAgain(run: seq<Action>)
    requires Exec(run) == Both(NET_REPLACED, Holding(2, Beat.Idle))
    ensures Exec(run + BIND_AGAIN) == Both(NET_BACK.(now := 1), Holding(2, Beat.Idle))
  {
    StoresAgain();
    ExecAll(run, BIND_AGAIN,
            [Both(NET_REPLACED, Holding(2, Beat.Idle)), Both(NET_BACK, Holding(2, Beat.Idle)),
             Both(NET_BACK.(now := 1), Holding(2, Beat.Idle))]);
  }

  lemma SendsRenewal()
    ensures Apply(Both(NET_BACK.(now := 1), Holding(2, Beat.Idle)), Step(0, StartBeat))
         == Both(NET_BACK.(now := 1, calls := Calls(3)), Holding(2, Renewing(OLD, 1)))
  {
  }

  lemma StoresRenewal()
    ensures Apply(Both(NET_BACK.(now := 1, calls := Calls(3)), Holding(2, Renewing(OLD, 1))), Execute(RENEW_OLD))
         == Both(NET_RENEWED, Holding(2, Renewing(OLD, 1)))
  {
  }

  lemma AcceptsRenewal()
    ensures Apply(Both(NET_RENEWED, Holding(2, Renewing(OLD, 1))), Step(0, AcceptBeat))
         == Both(NET_RENEWED, Holding(3, Beat.Idle))
  {
  }

  lemma Renews(run: seq<Action>)
    requires Exec(run) == Both(NET_BACK.(now := 1), Holding(2, Beat.Idle))
    ensures Exec(run + RENEW) == Both(NET_RENEWED.(now := 2), Holding(3, Beat.Idle))
  {
    SendsRenewal();
    StoresRenewal();
    AcceptsRenewal();
    ExecAll(run, RENEW,
            [Both(NET_BACK.(now := 1), Holding(2, Beat.Idle)),
             Both(NET_BACK.(now := 1, calls := Calls(3)), Holding(2, Renewing(OLD, 1))),
             Both(NET_RENEWED, Holding(2, Renewing(OLD, 1))), Both(NET_RENEWED, Holding(3, Beat.Idle)),
             Both(NET_RENEWED.(now := 2), Holding(3, Beat.Idle))]);
  }

  /** The one exception of ReplacedSessionLapses is real: after its replacement at time 0 the
      old session, with a TTL of 2, is locally valid and stored at time 2, because its bind
      was executed again. */
  lemma ReplacedCanOutlive()
    ensures var run := BIND_FIRST + BIND_SECOND;
            var t := Exec(run + [Execute(BIND_NEW)] + (BIND_AGAIN + RENEW));
            && IsStored(Exec(run).net, OLD) && IsStored(Exec(run + [Execute(BIND_NEW)]).net, NEW)
            && OLD in Exec(run + [Execute(BIND_NEW)]).net.left && Exec(run).net.now == 0
            && t.net.now == 2 && IsStored(t.net, OLD)
            && 0 in t.sessions && t.sessions[0].ttl == 2 && t.sessions[0].binding == Some(OLD) && t.sessions[0].LeaseValid(2)
  {
    SecondBinds();
    Replaces();
    var run := BIND_FIRST + BIND_SECOND + [Execute(BIND_NEW)];
    BindsAgain(run);
    Renews(run + BIND_AGAIN);
    assert run + (BIND_AGAIN + RENEW) == run + BIND_AGAIN + RENEW;
  }

  // The race of a kick and a close for one binding.

  function Unlisted(x: Session, handouts: seq<Handout>, unbinds: set<Call>): State {
    COMMITTED.(sessions := map[0 := x], handouts := handouts, net := NET_OLD.(calls := {BIND_OLD} + unbinds))
  }

  const FOUND := Holding(2, Beat.Idle).(looked := true, listed := false, closing := Leaving(ByClose))
  const EMPTY := FOUND.(binding := None, leaseDeadline := 0)

  lemma BothFind()
    ensures Exec(BIND_FIRST + [Step(0, LookUp), Step(0, Remove)]) == Unlisted(FOUND, [], {})
  {
    FirstBinds();
    ExecAll(BIND_FIRST, [Step(0, LookUp), Step(0, Remove)],
            [COMMITTED, COMMITTED.(sessions := map[0 := Holding(2, Beat.Idle).(looked := true)]), Unlisted(FOUND, [], {})]);
  }

  /** Once a kick has found a session and a close has unlisted it, either may take the
      binding first, and the other then gets nothing. */
  lemma EitherCanWin()
    ensures var s := Exec(BIND_FIRST + [Step(0, LookUp), Step(0, Remove)]);
            && Apply(Apply(s, Step(0, Kick(OLD))), Step(0, Detach(true))).handouts == [Handout(OLD, ByKick, true)]
            && Apply(Apply(s, Step(0, Detach(true))), Step(0, Kick(OLD))).handouts == [Handout(OLD, ByClose, true)]
  {
    BothFind();
    var s := Unlisted(FOUND, [], {});
    assert Apply(s, Step(0, Kick(OLD))) == Unlisted(EMPTY.(kicked := true), [Handout(OLD, ByKick, true)], {UnbindGate(OLD)});
    assert Apply(s, Step(0, Detach(true))) == Unlisted(EMPTY.(closing := Detached), [Handout(OLD, ByClose, true)], {UnbindGate(OLD)});
  }
}
