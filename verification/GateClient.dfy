/**
  The pool of connections to other Gateways: one entry per host, shared by the
  calls that hold it, and evicted by a timer once it has been idle long enough.
  Timers fire and their callbacks run in separate steps, so a callback may run
  long after its timer was replaced.
 */
module GateClient {
  import opened Basics

  type Host = string
  type ConnId = nat
  type TimerId = nat

  datatype TimerStatus = Armed | Fired | Over

  datatype Timer = Timer(conn: ConnId, due: nat, status: TimerStatus)

  datatype Entry = Entry(conn: ConnId, lastUsed: nat, timer: Option<TimerId>, inflight: nat)

  /** `hosts` knows every connection ever dialled, `held` how many calls hold it right
      now, `closes` how often it was closed. */
  datatype State = State(
    idle: nat,
    now: nat,
    cancelled: bool,
    closed: bool,
    byHost: map<Host, Entry>,
    hosts: map<ConnId, Host>,
    held: map<ConnId, nat>,
    closes: map<ConnId, nat>,
    timers: map<TimerId, Timer>)

  datatype Action =
    | Advance(elapsed: nat)
    | Acquire(host: Host)
    | Connect(host: Host, conn: ConnId, timer: TimerId, delay: nat)
    | Release(conn: ConnId, timer: TimerId, delay: nat)
    | Fire(timer: TimerId)
    | RunCallback(timer: TimerId)
    | CancelContext
    | CloseAll

  function Init(idle: nat): State {
    State(idle, 0, false, false, map[], map[], map[], map[], map[])
  }

  /** Stopping a timer that has fired already does nothing. */
  function Stopped(timers: map<TimerId, Timer>, t: Option<TimerId>): map<TimerId, Timer> {
    if t.Some? && t.value in timers && timers[t.value].status.Armed?
    then timers[t.value := timers[t.value].(status := Over)] else timers
  }

  function CloseConn(s: State, c: ConnId): State
    requires c in s.closes
  {
    s.(closes := s.closes[c := s.closes[c] + 1])
  }

  function ApplyAcquire(s: State, host: Host): State {
    if s.cancelled || s.closed || host !in s.byHost || s.byHost[host].conn !in s.held then s
    else
      var e := s.byHost[host];
      s.(byHost := s.byHost[host := e.(inflight := e.inflight + 1, timer := None)],
         held := s.held[e.conn := s.held[e.conn] + 1],
         timers := Stopped(s.timers, e.timer))
  }

  function ApplyConnect(s: State, host: Host, c: ConnId, t: TimerId, delay: nat): State {
    if c in s.hosts || t in s.timers then s
    else
      var d := s.(hosts := s.hosts[c := host], held := s.held[c := 0], closes := s.closes[c := 0]);
      if s.closed || host in s.byHost then CloseConn(d, c)
      else d.(byHost := s.byHost[host := Entry(c, s.now, Some(t), 0)],
              timers := s.timers[t := Timer(c, s.now + s.idle + delay, Armed)])
  }

  function ApplyRelease(s: State, c: ConnId, t: TimerId, delay: nat): State {
    if c !in s.hosts || c !in s.held || s.held[c] == 0 || t in s.timers then s
    else
      var host := s.hosts[c];
      var d := s.(held := s.held[c := s.held[c] - 1]);
      if host !in s.byHost || s.byHost[host].conn != c || s.byHost[host].inflight == 0 then d
      else
        var e := s.byHost[host];
        if e.inflight == 1
        then d.(byHost := s.byHost[host := Entry(c, s.now, Some(t), 0)],
                timers := s.timers[t := Timer(c, s.now + s.idle + delay, Armed)])
        else d.(byHost := s.byHost[host := e.(inflight := e.inflight - 1, lastUsed := s.now)])
  }

  /** What the callback of a timer finds out about the entry it was armed for. */
  predicate Evicts(s: State, c: ConnId) {
    && c in s.hosts && s.hosts[c] in s.byHost
    && var e := s.byHost[s.hosts[c]];
    e.conn == c && e.inflight == 0 && s.idle <= s.now - e.lastUsed
  }

  function ApplyCallback(s: State, t: TimerId): State {
    if t !in s.timers || !s.timers[t].status.Fired? then s
    else
      var c := s.timers[t].conn;
      var d := s.(timers := s.timers[t := s.timers[t].(status := Over)]);
      if Evicts(s, c) && c in s.closes then CloseConn(d.(byHost := s.byHost - {s.hosts[c]}), c) else d
  }

  predicate Pooled(s: State, c: ConnId) {
    c in s.hosts && s.hosts[c] in s.byHost && s.byHost[s.hosts[c]].conn == c
  }

  function Apply(s: State, a: Action): State {
    match a
    case Advance(elapsed) => s.(now := s.now + elapsed)
    case Acquire(host) => ApplyAcquire(s, host)
    case Connect(host, c, t, delay) => ApplyConnect(s, host, c, t, delay)
    case Release(c, t, delay) => ApplyRelease(s, c, t, delay)
    case Fire(t) =>
      if t in s.timers && s.timers[t].status.Armed? && s.timers[t].due <= s.now
      then s.(timers := s.timers[t := s.timers[t].(status := Fired)]) else s
    case RunCallback(t) => ApplyCallback(s, t)
    case CancelContext => s.(cancelled := true)
    case CloseAll =>
      if s.closed then s
      else s.(cancelled := true, closed := true, byHost := map[],
              closes := map c | c in s.closes :: if Pooled(s, c) then s.closes[c] + 1 else s.closes[c])
  }

  function Exec(idle: nat, run: seq<Action>): State {
    if run == [] then Init(idle) else Apply(Exec(idle, run[..|run| - 1]), run[|run| - 1])
  }

  // The invariant.

  /** Every connection ever dialled is in the pool or has been closed, once; one that is
      held stays in the pool until the pool itself is closed. */
  predicate ConnInv(s: State, c: ConnId)
    requires c in s.hosts
  {
    && c in s.held && c in s.closes
    && s.closes[c] == (if Pooled(s, c) then 0 else 1)
    && (Pooled(s, c) ==> s.byHost[s.hosts[c]].inflight == s.held[c])
    && (0 < s.held[c] && !s.closed ==> Pooled(s, c))
  }

  /** An idle entry has a timer that will evict it. */
  predicate EntryInv(s: State, h: Host)
    requires h in s.byHost
  {
    var e := s.byHost[h];
    && e.conn in s.hosts && s.hosts[e.conn] == h && e.lastUsed <= s.now
    && (0 < e.inflight ==> e.timer.None?)
    && (e.inflight == 0 ==>
          && e.timer.Some? && e.timer.value in s.timers
          && var t := s.timers[e.timer.value];
          t.conn == e.conn && !t.status.Over? && e.lastUsed + s.idle <= t.due && (t.status.Fired? ==> t.due <= s.now))
  }

  ghost predicate Inv(s: State) {
    && (forall c :: c in s.hosts ==> ConnInv(s, c))
    && (forall h :: h in s.byHost ==> EntryInv(s, h))
    && (s.closed ==> s.byHost == map[])
    && (forall t :: t in s.timers ==> s.timers[t].conn in s.hosts)
  }

  lemma AcquireKeepsEntry(s: State, host: Host, h: Host)
    requires Inv(s) && h in s.byHost
    ensures EntryInv(ApplyAcquire(s, host), h)
  {
    assert EntryInv(s, h);
    if host in s.byHost { assert EntryInv(s, host); }
  }

  lemma AcquireKeepsInv(s: State, host: Host)
    requires Inv(s)
    ensures Inv(ApplyAcquire(s, host))
  {
    var t := ApplyAcquire(s, host);
    if t != s {
      assert EntryInv(s, host) && ConnInv(s, s.byHost[host].conn);
      forall c | c in t.hosts ensures ConnInv(t, c) { assert ConnInv(s, c); }
      forall h | h in t.byHost ensures EntryInv(t, h) { AcquireKeepsEntry(s, host, h); }
    }
  }

  lemma ConnectKeepsConn(s: State, host: Host, c: ConnId, t: TimerId, delay: nat, b: ConnId)
    requires Inv(s) && c !in s.hosts && t !in s.timers && (b in s.hosts || b == c)
    ensures ConnInv(ApplyConnect(s, host, c, t, delay), b)
  {
    if b != c { assert ConnInv(s, b); }
    if host in s.byHost { assert EntryInv(s, host); }
  }

  lemma ConnectKeepsEntry(s: State, host: Host, c: ConnId, t: TimerId, delay: nat, h: Host)
    requires Inv(s) && h in ApplyConnect(s, host, c, t, delay).byHost
    ensures EntryInv(ApplyConnect(s, host, c, t, delay), h)
  {
    if h in s.byHost { assert EntryInv(s, h); }
  }

  lemma ConnectKeepsInv(s: State, host: Host, c: ConnId, t: TimerId, delay: nat)
    requires Inv(s)
    ensures Inv(ApplyConnect(s, host, c, t, delay))
  {
    if c !in s.hosts && t !in s.timers {
      var d := ApplyConnect(s, host, c, t, delay);
      forall b | b in d.hosts ensures ConnInv(d, b) { ConnectKeepsConn(s, host, c, t, delay, b); }
      forall h | h in d.byHost ensures EntryInv(d, h) { ConnectKeepsEntry(s, host, c, t, delay, h); }
    }
  }

  lemma ReleaseKeepsConn(s: State, c: ConnId, t: TimerId, delay: nat, b: ConnId)
    requires Inv(s) && b in s.hosts
    ensures ConnInv(ApplyRelease(s, c, t, delay), b)
  {
    assert ConnInv(s, b);
    if c in s.hosts { assert ConnInv(s, c); }
  }

  lemma ReleaseKeepsEntry(s: State, c: ConnId, t: TimerId, delay: nat, h: Host)
    requires Inv(s) && h in s.byHost
    ensures h in ApplyRelease(s, c, t, delay).byHost && EntryInv(ApplyRelease(s, c, t, delay), h)
  {
    assert EntryInv(s, h);
  }

  lemma ReleaseKeepsInv(s: State, c: ConnId, t: TimerId, delay: nat)
    requires Inv(s)
    ensures Inv(ApplyRelease(s, c, t, delay))
  {
    var d := ApplyRelease(s, c, t, delay);
    forall b | b in d.hosts ensures ConnInv(d, b) { ReleaseKeepsConn(s, c, t, delay, b); }
    forall h | h in d.byHost ensures EntryInv(d, h) { ReleaseKeepsEntry(s, c, t, delay, h); }
  }

  lemma CallbackKeepsConn(s: State, t: TimerId, b: ConnId)
    requires Inv(s) && b in s.hosts
    ensures ConnInv(ApplyCallback(s, t), b)
  {
    assert ConnInv(s, b);
    if t in s.timers { assert ConnInv(s, s.timers[t].conn); }
  }

  /** A callback that finds its entry idle under the same timer evicts it. */
  lemma OwnTimerEvicts(s: State, t: TimerId, h: Host)
    requires h in s.byHost && EntryInv(s, h) && s.byHost[h].inflight == 0
    requires s.byHost[h].timer == Some(t) && s.timers[t].status.Fired?
    ensures Evicts(s, s.timers[t].conn) && s.hosts[s.timers[t].conn] == h
  {
  }

  lemma CallbackKeepsEntry(s: State, t: TimerId, h: Host)
    requires Inv(s) && h in ApplyCallback(s, t).byHost
    ensures EntryInv(ApplyCallback(s, t), h)
  {
    assert EntryInv(s, h);
    if t in s.timers && s.timers[t].status.Fired? {
      assert ConnInv(s, s.timers[t].conn);
      if s.byHost[h].inflight == 0 && s.byHost[h].timer == Some(t) { OwnTimerEvicts(s, t, h); }
    }
  }

  lemma CallbackKeepsInv(s: State, t: TimerId)
    requires Inv(s)
    ensures Inv(ApplyCallback(s, t))
  {
    var d := ApplyCallback(s, t);
    forall b | b in d.hosts ensures ConnInv(d, b) { CallbackKeepsConn(s, t, b); }
    forall h | h in d.byHost ensures EntryInv(d, h) { CallbackKeepsEntry(s, t, h); }
  }

  lemma OthersKeepInv(s: State, a: Action)
    requires Inv(s) && (a.Advance? || a.Fire? || a.CancelContext? || a.CloseAll?)
    ensures Inv(Apply(s, a))
  {
    var d := Apply(s, a);
    forall b | b in d.hosts ensures ConnInv(d, b) { assert ConnInv(s, b); }
    forall h | h in d.byHost ensures EntryInv(d, h) { assert EntryInv(s, h); }
  }

  lemma StepKeepsInv(s: State, a: Action)
    requires Inv(s)
    ensures Inv(Apply(s, a)) && Apply(s, a).idle == s.idle
  {
    match a
    case Acquire(host) => AcquireKeepsInv(s, host);
    case Connect(host, c, t, delay) => ConnectKeepsInv(s, host, c, t, delay);
    case Release(c, t, delay) => ReleaseKeepsInv(s, c, t, delay);
    case RunCallback(t) => CallbackKeepsInv(s, t);
    case Advance(_) => OthersKeepInv(s, a);
    case Fire(_) => OthersKeepInv(s, a);
    case CancelContext => OthersKeepInv(s, a);
    case CloseAll => OthersKeepInv(s, a);
  }

  lemma {:induction false} RunKeepsInv(idle: nat, run: seq<Action>)
    ensures Inv(Exec(idle, run)) && Exec(idle, run).idle == idle
  {
    if run != [] {
      RunKeepsInv(idle, run[..|run| - 1]);
      StepKeepsInv(Exec(idle, run[..|run| - 1]), run[|run| - 1]);
    }
  }

  // What each operation brings about.

  /** A call gets the pooled connection of its host exactly if there is one and the pool is
      neither cancelled nor closed; it is then held once more, and its timer is stopped. */
  lemma AcquireExactly(s: State, host: Host)
    requires Inv(s)
    ensures var t := Apply(s, Acquire(host));
      if s.cancelled || s.closed || host !in s.byHost then t == s
      else
        var c := s.byHost[host].conn;
        && t.byHost == s.byHost[host := Entry(c, s.byHost[host].lastUsed, None, s.byHost[host].inflight + 1)]
        && c in s.held && t.held == s.held[c := s.held[c] + 1] && t.closes == s.closes
        && forall i :: i in s.timers && s.byHost[host].timer == Some(i) && s.timers[i].status.Armed? ==>
             i in t.timers && t.timers[i].status.Over?
  {
    if host in s.byHost { assert EntryInv(s, host) && ConnInv(s, s.byHost[host].conn); }
  }

  /** A connection dialled enters the pool exactly if it is open and has none for that host,
      idle and with a timer; otherwise it is closed at once. */
  lemma ConnectExactly(s: State, host: Host, c: ConnId, i: TimerId, delay: nat)
    requires c !in s.hosts && i !in s.timers
    ensures var t := Apply(s, Connect(host, c, i, delay));
      && t.hosts == s.hosts[c := host] && c in t.held && t.held[c] == 0 && c in t.closes
      && (if !s.closed && host !in s.byHost
          then
            && t.byHost == s.byHost[host := Entry(c, s.now, Some(i), 0)] && t.closes[c] == 0
            && t.timers == s.timers[i := Timer(c, s.now + s.idle + delay, Armed)]
          else t.byHost == s.byHost && t.closes[c] == 1 && t.timers == s.timers)
  {
  }

  /** A call gives its connection back: one holder fewer, the last use noted, and the timer
      armed by the last holder. */
  lemma ReleaseExactly(s: State, c: ConnId, i: TimerId, delay: nat)
    requires Inv(s) && c in s.hosts && c in s.held && s.held[c] > 0 && i !in s.timers
    ensures var t := Apply(s, Release(c, i, delay));
      && t.held == s.held[c := s.held[c] - 1] && t.closes == s.closes
      && (if Pooled(s, c)
          then
            && t.byHost == s.byHost[s.hosts[c] := Entry(c, s.now, if s.held[c] == 1 then Some(i) else None, s.held[c] - 1)]
            && t.timers == if s.held[c] == 1 then s.timers[i := Timer(c, s.now + s.idle + delay, Armed)] else s.timers
          else t.byHost == s.byHost && t.timers == s.timers)
  {
    assert ConnInv(s, c);
    if s.hosts[c] in s.byHost { assert EntryInv(s, s.hosts[c]); }
  }

  /** A callback evicts exactly the pooled connection of its timer, if it is idle and has
      been for the idle time; a timer fires exactly at or after it is due. */
  lemma CallbackExactly(s: State, i: TimerId)
    requires Inv(s) && i in s.timers
    ensures var c, t := s.timers[i].conn, Apply(s, RunCallback(i));
      if !s.timers[i].status.Fired? then t == s
      else
        && i in t.timers && t.timers[i].status.Over? && c in s.hosts && c in s.closes && t.held == s.held
        && (if Pooled(s, c) && s.byHost[s.hosts[c]].inflight == 0 && s.byHost[s.hosts[c]].lastUsed + s.idle <= s.now
            then t.byHost == s.byHost - {s.hosts[c]} && t.closes == s.closes[c := s.closes[c] + 1]
            else t.byHost == s.byHost && t.closes == s.closes)
    ensures i in Apply(s, Fire(i)).timers
    ensures Apply(s, Fire(i)).timers[i].status.Fired? <==>
              s.timers[i].status.Fired? || (s.timers[i].status.Armed? && s.timers[i].due <= s.now)
  {
    assert ConnInv(s, s.timers[i].conn);
    if s.hosts[s.timers[i].conn] in s.byHost { assert EntryInv(s, s.hosts[s.timers[i].conn]); }
  }

  /** A new pool is open and empty, and only time passing changes the clock. */
  lemma StartsEmpty(idle: nat)
    ensures var s := Exec(idle, []);
      !s.cancelled && !s.closed && s.idle == idle && s.byHost == map[] && s.hosts == map[] && s.timers == map[]
  {
  }

  lemma TimeMovesExactly(s: State, a: Action)
    ensures Apply(s, a).now == if a.Advance? then s.now + a.elapsed else s.now
  {
  }

  lemma ShutsExactly(s: State, a: Action)
    ensures Apply(s, a).closed <==> s.closed || a.CloseAll?
    ensures Apply(s, a).cancelled <==> s.cancelled || a.CancelContext? || (a.CloseAll? && !s.closed)
  {
  }

  // The theorems.

  lemma CloseNeedsRelease(s: State, a: Action, c: ConnId)
    requires c in s.hosts && ConnInv(s, c) && !a.CloseAll?
    requires c in Apply(s, a).closes && s.closes[c] < Apply(s, a).closes[c]
    ensures a.RunCallback? && s.held[c] == 0
  {
  }

  /** No step but the closing of the whole pool closes a connection that a call holds. */
  lemma HeldIsNeverEvicted(idle: nat, run: seq<Action>, a: Action, c: ConnId)
    requires c in Exec(idle, run).hosts && c in Apply(Exec(idle, run), a).closes
    requires c in Exec(idle, run).closes && Exec(idle, run).closes[c] < Apply(Exec(idle, run), a).closes[c]
    ensures a.CloseAll? || (c in Exec(idle, run).held && Exec(idle, run).held[c] == 0)
  {
    RunKeepsInv(idle, run);
    assert ConnInv(Exec(idle, run), c);
    if !a.CloseAll? { CloseNeedsRelease(Exec(idle, run), a, c); }
  }

  /** Every connection ever dialled is either in the pool, under its own host, with an
      in-flight count equal to its holders, or has been closed exactly once. */
  lemma PooledOrClosedOnce(idle: nat, run: seq<Action>, c: ConnId)
    requires c in Exec(idle, run).hosts
    ensures var s := Exec(idle, run);
            && c in s.held && c in s.closes
            && s.closes[c] == (if Pooled(s, c) then 0 else 1)
            && (Pooled(s, c) ==> s.byHost[s.hosts[c]].inflight == s.held[c])
            && (0 < s.held[c] && !s.closed ==> Pooled(s, c))
            && (s.closed ==> s.closes[c] == 1)
  {
    RunKeepsInv(idle, run);
    assert ConnInv(Exec(idle, run), c);
  }

  /** No idle entry is stranded: a timer of its own is armed or has fired, due no earlier
      than the idle time after its last use, and when its callback runs while the entry
      is still idle, the entry is evicted. */
  lemma IdleEntryIsEvicted(idle: nat, run: seq<Action>, h: Host)
    requires h in Exec(idle, run).byHost && Exec(idle, run).byHost[h].inflight == 0
    ensures var s := Exec(idle, run);
            var e := s.byHost[h];
            && e.timer.Some? && e.timer.value in s.timers
            && var t := s.timers[e.timer.value];
            && t.conn == e.conn && !t.status.Over? && e.lastUsed + idle <= t.due
            && (t.status.Fired? ==> h !in Apply(s, RunCallback(e.timer.value)).byHost)
  {
    RunKeepsInv(idle, run);
    var s := Exec(idle, run);
    assert EntryInv(s, h) && ConnInv(s, s.byHost[h].conn);
  }
}

/** The pool object: the sections under its lock, and the loop of acquire around them. */
module PoolObject {
  import opened GateClient

  class Rpc {
    const host: Host
    const conn: ConnId
    var lastUsed: nat
    var armed: bool
    var inflight: nat

    constructor (host: Host, conn: ConnId, now: nat)
      ensures this.host == host && this.conn == conn && lastUsed == now && armed && inflight == 0
    {
      this.host, this.conn, lastUsed, armed, inflight := host, conn, now, true, 0;
    }
  }

  /** What a dial of acquire comes back with. */
  datatype Dial = Dialled(conn: ConnId) | DialFailed | GaveUp

  class Client {
    const idle: nat
    var cancelled: bool
    var closed: bool
    var byHost: map<Host, Rpc>

    /** Entries sit under their own host; a timer is armed exactly while an entry is idle. */
    ghost predicate Valid()
      reads this, byHost.Values
    {
      && (forall h :: h in byHost ==> byHost[h].host == h && (byHost[h].armed <==> byHost[h].inflight == 0))
      && (closed ==> byHost == map[])
    }

    constructor (idle: nat)
      ensures Valid() && this.idle == idle && byHost == map[] && !closed && !cancelled
    {
      this.idle, cancelled, closed, byHost := idle, false, false, map[];
    }

    method Cached(host: Host) returns (entry: Rpc?, ok: bool)
      requires Valid()
      modifies byHost.Values
      ensures Valid() && ok == (!cancelled && !closed)
      ensures (entry != null) == (ok && host in byHost)
      ensures entry != null ==> entry == byHost[host] && entry.inflight == old(entry.inflight) + 1 && entry.lastUsed == old(entry.lastUsed)
      ensures forall h :: h in byHost && byHost[h] != entry ==> unchanged(byHost[h])
    {
      entry, ok := null, !cancelled && !closed;
      if ok && host in byHost {
        entry := byHost[host];
        entry.inflight := entry.inflight + 1;
        entry.armed := false;
      }
    }

    /** `kept` tells whether the dialled connection entered the pool; otherwise it is
        closed on the spot. */
    method Connect(host: Host, conn: ConnId, now: nat) returns (kept: bool)
      requires Valid()
      modifies this`byHost
      ensures Valid() && kept == (!closed && host !in old(byHost))
      ensures byHost.Keys == old(byHost).Keys + if kept then {host} else {}
      ensures forall h :: h in old(byHost) ==> byHost[h] == old(byHost)[h]
      ensures kept ==> fresh(byHost[host]) && byHost[host].conn == conn && byHost[host].lastUsed == now && byHost[host].inflight == 0
    {
      kept := !closed && host !in byHost;
      if kept {
        var entry := new Rpc(host, conn, now);
        byHost := byHost[host := entry];
      }
    }

    /** A caller gives back an entry it acquired: if the entry is still pooled, it has
        calls in flight. */
    method Release(entry: Rpc, now: nat)
      requires Valid() && (entry in byHost.Values ==> 0 < entry.inflight)
      modifies entry
      ensures Valid()
      ensures if entry in byHost.Values
              then entry.inflight == old(entry.inflight) - 1 && entry.lastUsed == now && entry.armed == (entry.inflight == 0)
              else unchanged(entry)
    {
      if entry.host !in byHost || byHost[entry.host] != entry { return; }
      entry.inflight := entry.inflight - 1;
      entry.lastUsed := now;
      if entry.inflight == 0 { entry.armed := true; }
    }

    method Evict(entry: Rpc, now: nat) returns (evicted: bool)
      requires Valid() && entry.lastUsed <= now
      modifies this`byHost
      ensures Valid()
      ensures evicted <==> entry in old(byHost).Values && entry.inflight == 0 && idle <= now - entry.lastUsed
      ensures byHost == if evicted then old(byHost) - {entry.host} else old(byHost)
    {
      evicted := entry.host in byHost && byHost[entry.host] == entry && entry.inflight == 0 && idle <= now - entry.lastUsed;
      if evicted { byHost := byHost - {entry.host}; }
    }

    /** Closes every pooled connection, each exactly once, and is idempotent: `closing` lists
        the entries whose connections are closed. */
    method Close() returns (closing: seq<Rpc>)
      requires Valid()
      modifies this
      ensures Valid() && closed && cancelled && byHost == map[]
      ensures forall entry :: entry in closing <==> entry in old(byHost).Values
      ensures forall i, j :: 0 <= i < j < |closing| ==> closing[i] != closing[j]
    {
      cancelled, closing := true, [];
      var rest := byHost.Keys;
      while rest != {}
        invariant rest <= byHost.Keys && byHost == old(byHost)
        invariant forall h :: h in byHost ==> byHost[h].host == h
        invariant forall i :: 0 <= i < |closing| ==>
                    closing[i].host in byHost.Keys - rest && byHost[closing[i].host] == closing[i]
        invariant forall h :: h in byHost && h !in rest ==> byHost[h] in closing
        invariant forall i, j :: 0 <= i < j < |closing| ==> closing[i] != closing[j]
        decreases rest
      {
        var h :| h in rest;
        closing := closing + [byHost[h]];
        rest := rest - {h};
      }
      closed, byHost := true, map[];
    }

    /** The loop of acquire over the dials it makes: it returns an entry only with its
        count raised by one, and only one that is in the pool. */
    method Acquire(host: Host, dials: seq<Dial>, now: nat) returns (entry: Rpc?)
      requires Valid()
      modifies this`byHost, byHost.Values
      ensures Valid()
      ensures entry != null ==> host in byHost && byHost[host] == entry && 0 < entry.inflight && !closed
      ensures entry != null && host in old(byHost) ==> entry == old(byHost)[host] && entry.inflight == old(entry.inflight) + 1
      ensures entry != null && host !in old(byHost) ==> fresh(entry) && entry.inflight == 1
      ensures entry != null <==>
                !cancelled && !closed && (host in old(byHost) || (dials != [] && dials[0].Dialled?))
    {
      var ok: bool;
      var k := 0;
      while true
        invariant Valid() && 0 <= k <= |dials|
        invariant old(byHost).Keys <= byHost.Keys && byHost.Keys <= old(byHost).Keys + {host}
        invariant forall h :: h in old(byHost) ==> byHost[h] == old(byHost)[h] && unchanged(byHost[h])
        invariant host in byHost && host !in old(byHost) ==>
                    fresh(byHost[host]) && byHost[host].inflight == 0 && dials != [] && dials[0].Dialled?
        invariant 0 < k ==> host in byHost
        decreases |dials| - k
      {
        entry, ok := Cached(host);
        if !ok || entry != null || k == |dials| || !dials[k].Dialled? { return; }
        var kept := Connect(host, dials[k].conn, now);
        if closed { return; }
        k := k + 1;
      }
    }
  }
}
