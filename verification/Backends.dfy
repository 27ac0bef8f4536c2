/**
  What the Gateway keeps of a node service: the latest snapshot, in a mode that never
  changes once set; the picker that reaches one node; and the claims it forwards.
 */
module Backends {

  import opened Basics
  import opened Discovery

  // The snapshot over any sequence of updates.

  /** One discovery update: the list, what resolving it gave, and whether the client
      connection took the addresses. */
  datatype Refresh = Refresh(list: seq<Option<Instance>>, resolution: Resolution, taken: bool)

  /** The resolution is what resolving the list gives. */
  ghost predicate Faithful(service: string, u: Refresh) {
    && (u.resolution.Resolved? <==> Acceptable(Matching(service, u.list)))
    && (u.resolution.Resolved? ==>
          SnapshotOf(Matching(service, u.list), u.resolution.snapshot) &&
          AddressesOf(Matching(service, u.list), u.resolution.addresses))
  }

  /** The mode survives, the rest does not. */
  function Unavailable(state: Option<Snapshot>): Option<Snapshot> {
    if state.None? then None else Some(Snapshot(false, state.value.sticky, map[]))
  }

  function AfterUpdate(state: Option<Snapshot>, u: Refresh): Option<Snapshot> {
    var r := u.resolution;
    if r.Rejected? then Unavailable(state)
    else if state.Some? && r.snapshot.available && r.snapshot.sticky != state.value.sticky then Unavailable(state)
    else if r.addresses == [] || !u.taken then Unavailable(state)
    else Some(r.snapshot)
  }

  function AfterUpdates(updates: seq<Refresh>): Option<Snapshot> {
    if updates == [] then None
    else AfterUpdate(AfterUpdates(updates[..|updates| - 1]), updates[|updates| - 1])
  }

  class BackendState {
    var snapshot: Option<Snapshot>

    constructor ()
      ensures snapshot == AfterUpdates([])
    {
      snapshot := None;
    }

    method MarkUnavailable()
      modifies this
      ensures snapshot == Unavailable(old(snapshot))
    {
      if snapshot.Some? {
        snapshot := Some(Snapshot(false, snapshot.value.sticky, map[]));
      }
    }

    /** One update, from the list to the snapshot kept. */
    method Update(service: string, list: seq<Option<Instance>>, taken: bool) returns (ghost u: Refresh)
      modifies this
      ensures u.list == list && u.taken == taken && Faithful(service, u)
      ensures snapshot == AfterUpdate(old(snapshot), u)
    {
      var r := Resolve(service, list);
      u := Refresh(list, r, taken);
      if r.Rejected? {
        MarkUnavailable();
        return;
      }
      if snapshot.Some? && r.snapshot.available && snapshot.value.sticky != r.snapshot.sticky {
        MarkUnavailable();
        return;
      }
      if |r.addresses| == 0 {
        MarkUnavailable();
        return;
      }
      if !taken {
        MarkUnavailable();
        return;
      }
      snapshot := Some(r.snapshot);
    }
  }

  lemma UpdateKeepsMode(state: Option<Snapshot>, service: string, u: Refresh)
    requires state.Some? && Faithful(service, u)
    ensures AfterUpdate(state, u).Some? && AfterUpdate(state, u).value.sticky == state.value.sticky
  {
    if u.resolution.Resolved? && u.resolution.addresses != [] {
      assert u.resolution.addresses[0].instance in Matching(service, u.list);
    }
  }

  /** Once a snapshot has been stored the sticky mode never changes, whatever lists,
      rejections and failures follow. */
  lemma {:induction false} ModeIsLatched(service: string, updates: seq<Refresh>, more: seq<Refresh>)
    requires forall i :: 0 <= i < |more| ==> Faithful(service, more[i])
    requires AfterUpdates(updates).Some?
    ensures AfterUpdates(updates + more).Some?
    ensures AfterUpdates(updates + more).value.sticky == AfterUpdates(updates).value.sticky
    decreases |more|
  {
    if more == [] {
      assert updates + more == updates;
    } else {
      var n := |more| - 1;
      ModeIsLatched(service, updates, more[..n]);
      assert (updates + more)[..|updates + more| - 1] == updates + more[..n];
      UpdateKeepsMode(AfterUpdates(updates + more[..n]), service, more[n]);
    }
  }

  /** An update makes the service available exactly when its list is acceptable and not
      empty, keeps the mode, and the addresses were taken; whatever was there before is
      gone in any case. */
  lemma AvailableExactly(service: string, updates: seq<Refresh>, u: Refresh)
    requires Faithful(service, u)
    ensures var s, before, after := Matching(service, u.list), AfterUpdates(updates), AfterUpdates(updates + [u]);
      && ((after.Some? && after.value.available) <==>
            && Acceptable(s) && s != {} && u.taken
            && (before.None? || StickyOf(s, before.value.sticky)))
      && (after.Some? && !after.value.available ==>
            before.Some? && after.value == Snapshot(false, before.value.sticky, map[]))
      && (after.None? ==> before.None?)
  {
    assert (updates + [u])[..|updates|] == updates;
    var s := Matching(service, u.list);
    if u.resolution.Resolved? {
      if u.resolution.addresses != [] { assert u.resolution.addresses[0].instance in s; }
      if s != {} {
        var x :| x in s;
        assert x.Valid() && Listed(u.resolution.addresses, x.Host().value);
      }
    }
  }

  /** A snapshot offered for routing is never stale: it is exactly that of the last list
      received, which was acceptable and not empty. */
  lemma AvailableIsLatest(service: string, updates: seq<Refresh>)
    requires forall i :: 0 <= i < |updates| ==> Faithful(service, updates[i])
    requires AfterUpdates(updates).Some? && AfterUpdates(updates).value.available
    ensures updates != []
    ensures var s := Matching(service, updates[|updates| - 1].list);
      s != {} && Acceptable(s) && SnapshotOf(s, AfterUpdates(updates).value)
  {
    var u := updates[|updates| - 1];
    assert Faithful(service, u);
  }

  // Picking one node.

  type Conn = nat

  /** The exact map of a picker: built from the ready connections in no particular order. */
  method BuildExact(ready: map<Conn, Address>) returns (exact: map<string, Conn>)
    ensures "" !in exact
    ensures forall id :: id in exact ==> exact[id] in ready && ready[exact[id]].instance.id == id
    ensures forall c :: c in ready && ready[c].instance.id != "" ==> ready[c].instance.id in exact
  {
    exact := map[];
    var todo := ready.Keys;
    while todo != {}
      invariant todo <= ready.Keys && "" !in exact
      invariant forall id :: id in exact ==> exact[id] in ready && ready[exact[id]].instance.id == id
      invariant forall c :: c in ready && c !in todo && ready[c].instance.id != "" ==> ready[c].instance.id in exact
      decreases |todo|
    {
      var c :| c in todo;
      var id := ready[c].instance.id;
      if id != "" {
        exact := exact[id := c];
      }
      todo := todo - {c};
    }
  }

  /** A picker for addresses of a sticky snapshot: a NodeID of the snapshot is reached, at
      its own host, exactly when a connection to that host is ready. */
  lemma PickReachesNode(s: set<Instance>, snapshot: Snapshot, addresses: seq<Address>,
                        ready: map<Conn, Address>, exact: map<string, Conn>, id: string)
    requires StickyResult(s, snapshot, addresses) && id in snapshot.hostByNodeID
    requires forall c :: c in ready ==> ready[c] in addresses
    requires forall x :: x in exact ==> exact[x] in ready && ready[exact[x]].instance.id == x
    requires forall c :: c in ready && ready[c].instance.id != "" ==> ready[c].instance.id in exact
    ensures id in exact ==> ready[exact[id]].host == snapshot.hostByNodeID[id]
    ensures id in exact <==> exists c :: c in ready && ready[c].host == snapshot.hostByNodeID[id]
  {
    var i := NodeHasOneAddress(s, snapshot, addresses, id);
    forall c | c in ready ensures ready[c].instance.id == id <==> ready[c].host == snapshot.hostByNodeID[id] {
      var j :| 0 <= j < |addresses| && addresses[j] == ready[c];
    }
  }

  // Claims.

  datatype Located<T> = Found(value: T) | Missing | Failed

  datatype Route = Route(nodeID: string, epoch: string)

  /** `valid` says whether service and uid make a valid location. */
  function ResolveNode(snapshot: Snapshot, valid: bool, located: Located<string>): Option<Route> {
    if !snapshot.available then None
    else if !snapshot.sticky then Some(Route("", ""))
    else match located
      case Missing => Some(Route("", ""))
      case Failed => None
      case Found(id) => if valid && id != "" && id in snapshot.hostByNodeID then Some(Route(id, "")) else None
  }

  /** The locator refuses an empty stored epoch. */
  function LocateEpoch(stored: Located<string>): Located<string> {
    if stored == Found("") then Failed else stored
  }

  /** A route claims a NodeID and an epoch both or neither; a claim is what the locator
      holds, for a node of the snapshot. There is none exactly when the service is not
      sticky or the player is not bound, and there is one exactly when the service is sticky
      and the locator holds a valid binding to a node of the snapshot and its epoch; in all
      other cases the request fails. */
  function ResolveForward(snapshot: Snapshot, valid: bool, located: Located<string>, epoch: Located<string>)
    : (r: Option<Route>)
    ensures r.Some? ==> (r.value.nodeID == "" <==> r.value.epoch == "")
    ensures r.Some? && r.value.nodeID != "" ==>
              && snapshot.available && snapshot.sticky && r.value.nodeID in snapshot.hostByNodeID
              && located == Found(r.value.nodeID) && epoch == Found(r.value.epoch)
    ensures r == Some(Route("", "")) <==> snapshot.available && (!snapshot.sticky || located.Missing?)
    ensures r.Some? && r.value.nodeID != "" <==>
              && snapshot.available && snapshot.sticky && valid
              && located.Found? && located.value != "" && located.value in snapshot.hostByNodeID
              && epoch.Found? && epoch.value != ""
  {
    var route := ResolveNode(snapshot, valid, located);
    if route.None? || route.value.nodeID == "" then route
    else
      var e := LocateEpoch(epoch);
      if e.Found? then Some(route.value.(epoch := e.value)) else None
  }
}
