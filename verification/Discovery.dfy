/**
  Resolving the instances of a node service: which lists are accepted, what snapshot and
  addresses they give, and what the exact picker makes of them.
 */
module Discovery {

  import opened Basics

  /** `sticky` is the value of the sticky metadata key, if present; each endpoint is given
      by its host, if it suits the configured transport. */
  datatype Instance = Instance(name: string, id: string, sticky: Option<string>, endpoints: seq<Option<string>>) {

    function IsSticky(): Option<bool> {
      if sticky.None? then Some(false)
      else if sticky.value == "true" then Some(true)
      else if sticky.value == "false" then Some(false)
      else None
    }

    predicate Sticky() {
      IsSticky() == Some(true)
    }

    function Host(): Option<string> {
      if |endpoints| == 1 then endpoints[0] else None
    }

    predicate Valid() {
      IsSticky().Some? && Host().Some? && (Sticky() ==> id != "")
    }
  }

  /** What the parts of an instance mean, said of its fields: it is sticky exactly by the
      value "true" and valid exactly with one usable endpoint, a known value or none, and a
      NodeID if sticky. */
  lemma InstanceExactly(x: Instance)
    ensures x.Sticky() <==> x.sticky == Some("true")
    ensures x.IsSticky().None? <==> x.sticky.Some? && x.sticky.value != "true" && x.sticky.value != "false"
    ensures forall h :: x.Host() == Some(h) <==> x.endpoints == [Some(h)]
    ensures x.Valid() <==>
              && (exists h :: x.endpoints == [Some(h)])
              && (x.sticky.None? || x.sticky.value == "true" || x.sticky.value == "false")
              && (x.sticky == Some("true") ==> x.id != "")
  {
    if |x.endpoints| == 1 {
      assert x.endpoints == [x.endpoints[0]];
      if x.endpoints[0].Some? { assert x.endpoints == [Some(x.endpoints[0].value)]; }
    }
  }

  datatype Snapshot = Snapshot(available: bool, sticky: bool, hostByNodeID: map<string, string>)

  datatype Address = Address(host: string, instance: Instance)

  // What a list means. Only the instances that match matter, not their order or number.

  function Matching(service: string, list: seq<Option<Instance>>): set<Instance> {
    set o | o in list && o.Some? && o.value.name == service :: o.value
  }

  ghost predicate OneToOne(s: set<Instance>) {
    forall x, y :: x in s && y in s && x.id != "" && y.id != "" ==>
      (x.id == y.id <==> x.Host() == y.Host())
  }

  ghost predicate Agree(s: set<Instance>) {
    forall x, y :: x in s && y in s ==> x.Sticky() == y.Sticky()
  }

  ghost predicate AllValid(s: set<Instance>) {
    forall x :: x in s ==> x.Valid()
  }

  /** Every instance is valid, the sticky modes agree, and ids and hosts go together. */
  ghost predicate Acceptable(s: set<Instance>) {
    AllValid(s) && Agree(s) && OneToOne(s)
  }

  ghost predicate StickyOf(s: set<Instance>, sticky: bool) {
    sticky <==> exists x :: x in s && x.Sticky()
  }

  ghost predicate HostsOf(s: set<Instance>, hosts: map<string, string>) {
    && (forall id :: id in hosts ==> exists x :: x in s && x.id == id)
    && (forall x :: x in s && x.id != "" ==> x.id in hosts && x.Host() == Some(hosts[x.id]))
    && "" !in hosts
  }

  ghost predicate SnapshotOf(s: set<Instance>, snapshot: Snapshot) {
    && (snapshot.available <==> s != {})
    && StickyOf(s, snapshot.sticky)
    && HostsOf(s, snapshot.hostByNodeID)
  }

  predicate Listed(addresses: seq<Address>, host: string) {
    exists i :: 0 <= i < |addresses| && addresses[i].host == host
  }

  /** One address per host, carrying an instance there. */
  ghost predicate AddressesOf(s: set<Instance>, addresses: seq<Address>) {
    && (forall x :: x in s && x.Host().Some? ==> Listed(addresses, x.Host().value))
    && (forall i :: 0 <= i < |addresses| ==>
          addresses[i].instance in s && addresses[i].instance.Host() == Some(addresses[i].host))
    && (forall i, j :: 0 <= i < j < |addresses| ==> addresses[i].host != addresses[j].host)
  }

  datatype Resolution = Rejected | Resolved(snapshot: Snapshot, addresses: seq<Address>)

  // Resolving.

  /** The two maps that keep the relation between ids and hosts one-to-one. */
  datatype Identities = Identities(hostByNodeID: map<string, string>, nodeIDByHost: map<string, string>) {

    ghost predicate Describe(s: set<Instance>) {
      && HostsOf(s, hostByNodeID)
      && (forall h :: h in nodeIDByHost ==> nodeIDByHost[h] in hostByNodeID && hostByNodeID[nodeIDByHost[h]] == h)
      && (forall id :: id in hostByNodeID ==>
            hostByNodeID[id] in nodeIDByHost && nodeIDByHost[hostByNodeID[id]] == id)
    }

    function Add(id: string, host: string): Option<Identities> {
      if id == "" then Some(this)
      else if id in hostByNodeID && hostByNodeID[id] != host then None
      else if host in nodeIDByHost && nodeIDByHost[host] != id then None
      else Some(Identities(hostByNodeID[id := host], nodeIDByHost[host := id]))
    }
  }

  /** Adding an instance fails exactly when it breaks the one-to-one relation. */
  lemma AddIsExact(ids: Identities, s: set<Instance>, x: Instance)
    requires ids.Describe(s) && OneToOne(s)
    requires x.Valid()
    ensures var r := ids.Add(x.id, x.Host().value);
      && (r.Some? <==> OneToOne(s + {x}))
      && (r.Some? ==> r.value.Describe(s + {x}))
  {
    var host := x.Host().value;
    var r := ids.Add(x.id, host);
    if r.None? {
      if x.id in ids.hostByNodeID && ids.hostByNodeID[x.id] != host {
        var y :| y in s && y.id == x.id;
        assert y in s + {x} && x in s + {x};
      } else {
        var y :| y in s && y.id == ids.nodeIDByHost[host];
        assert y in s + {x} && x in s + {x};
      }
    }
  }

  lemma MatchingSnoc(service: string, list: seq<Option<Instance>>, o: Option<Instance>)
    ensures Matching(service, list + [o])
         == Matching(service, list) + if o.Some? && o.value.name == service then {o.value} else {}
  {
    assert forall p :: p in list + [o] <==> p in list || p == o;
  }

  lemma AgreeStep(s: set<Instance>, sticky: bool, x: Instance)
    requires Agree(s) && StickyOf(s, sticky)
    ensures Agree(s + {x}) <==> s == {} || sticky == x.Sticky()
    ensures Agree(s + {x}) ==> StickyOf(s + {x}, x.Sticky())
  {
    if s != {} {
      var y :| y in s;
      assert y in s + {x} && x in s + {x};
    }
  }

  ghost predicate SeenOf(addresses: seq<Address>, seen: set<string>) {
    forall h :: h in seen <==> Listed(addresses, h)
  }

  lemma AddressStep(s: set<Instance>, addresses: seq<Address>, seen: set<string>, x: Instance)
    requires AddressesOf(s, addresses) && SeenOf(addresses, seen) && x.Valid()
    ensures var host := x.Host().value;
      if host in seen then AddressesOf(s + {x}, addresses)
      else
        && AddressesOf(s + {x}, addresses + [Address(host, x)])
        && SeenOf(addresses + [Address(host, x)], seen + {host})
  {
    var host := x.Host().value;
    if host !in seen {
      var more := addresses + [Address(host, x)];
      forall h ensures Listed(more, h) <==> Listed(addresses, h) || h == host {
        if Listed(addresses, h) {
          var i :| 0 <= i < |addresses| && addresses[i].host == h;
          assert more[i].host == h;
        }
        assert more[|addresses|].host == host;
      }
    }
  }

  lemma SubsetAcceptable(s: set<Instance>, all: set<Instance>)
    requires s <= all && Acceptable(all)
    ensures Acceptable(s)
  {
  }

  /** What the loop has gathered from the matching instances it has passed. */
  datatype Progress = Progress(ids: Identities, addresses: seq<Address>, seen: set<string>, sticky: bool, found: bool) {

    ghost predicate Describe(s: set<Instance>) {
      && Acceptable(s) && ids.Describe(s) && AddressesOf(s, addresses) && SeenOf(addresses, seen)
      && StickyOf(s, sticky) && (found <==> s != {})
    }

    /** One more matching instance, unless it is invalid or in conflict. */
    function Extend(x: Instance): Option<Progress> {
      if !x.Valid() || (found && sticky != x.IsSticky().value) then None
      else
        var host, more := x.Host().value, ids.Add(x.id, x.Host().value);
        if more.None? then None
        else if host in seen then Some(this.(ids := more.value, sticky := x.IsSticky().value, found := true))
        else Some(Progress(more.value, addresses + [Address(host, x)], seen + {host}, x.IsSticky().value, true))
    }
  }

  /** An instance is refused exactly when it makes the others unacceptable. */
  lemma ExtendIsExact(p: Progress, s: set<Instance>, x: Instance)
    requires p.Describe(s)
    ensures p.Extend(x).Some? <==> Acceptable(s + {x})
  {
    assert x in s + {x};
    if x.Valid() {
      AgreeStep(s, p.sticky, x);
      AddIsExact(p.ids, s, x);
    }
  }

  lemma ExtendDescribes(p: Progress, s: set<Instance>, x: Instance)
    requires p.Describe(s) && p.Extend(x).Some? && Acceptable(s + {x})
    ensures p.Extend(x).value.Describe(s + {x})
  {
    AgreeStep(s, p.sticky, x);
    AddIsExact(p.ids, s, x);
    AddressStep(s, p.addresses, p.seen, x);
  }

  /** The list is accepted exactly when it is acceptable, and then the snapshot and the
      addresses are those of its matching instances. */
  method Resolve(service: string, list: seq<Option<Instance>>) returns (r: Resolution)
    ensures r.Resolved? <==> Acceptable(Matching(service, list))
    ensures r.Resolved? ==> SnapshotOf(Matching(service, list), r.snapshot)
    ensures r.Resolved? ==> AddressesOf(Matching(service, list), r.addresses)
  {
    var p := Progress(Identities(map[], map[]), [], {}, false, false);
    ghost var s: set<Instance> := {};
    for n := 0 to |list|
      invariant s == Matching(service, list[..n]) && p.Describe(s)
    {
      assert list[..n + 1] == list[..n] + [list[n]];
      MatchingSnoc(service, list[..n], list[n]);
      if list[n].Some? && list[n].value.name == service {
        var x := list[n].value;
        ExtendIsExact(p, s, x);
        var more := p.Extend(x);
        if more.None? {
          if Acceptable(Matching(service, list)) { SubsetAcceptable(s + {x}, Matching(service, list)); }
          return Rejected;
        }
        ExtendDescribes(p, s, x);
        p := more.value;
        s := s + {x};
      }
    }
    assert list[..|list|] == list;
    SnapshotAtEnd(p, s);
    r := Resolved(Snapshot(|p.addresses| > 0, p.sticky, p.ids.hostByNodeID), p.addresses);
  }

  lemma SnapshotAtEnd(p: Progress, s: set<Instance>)
    requires p.Describe(s)
    ensures SnapshotOf(s, Snapshot(|p.addresses| > 0, p.sticky, p.ids.hostByNodeID))
  {
    if |p.addresses| > 0 { assert p.addresses[0].instance in s; }
    if s != {} {
      var x :| x in s;
      assert x.Valid() && Listed(p.addresses, x.Host().value);
    }
  }

  // What acceptance gives.

  lemma SameMatching(service: string, list: seq<Option<Instance>>, other: seq<Option<Instance>>)
    requires forall o :: o in list <==> o in other
    ensures Matching(service, list) == Matching(service, other)
  {
  }

  lemma SnapshotIsUnique(s: set<Instance>, a: Snapshot, b: Snapshot)
    requires SnapshotOf(s, a) && SnapshotOf(s, b)
    ensures a == b
  {
    forall id | id in a.hostByNodeID ensures id in b.hostByNodeID && a.hostByNodeID[id] == b.hostByNodeID[id] {
      var x :| x in s && x.id == id;
    }
    forall id | id in b.hostByNodeID ensures id in a.hostByNodeID {
      var x :| x in s && x.id == id;
    }
    assert a.hostByNodeID == b.hostByNodeID;
  }

  /** Acceptance does not depend on the order of the list, nor on how often an instance is
      in it, and neither does the snapshot of an accepted list. */
  lemma OrderDoesNotMatter(service: string, list: seq<Option<Instance>>, other: seq<Option<Instance>>,
                           a: Snapshot, b: Snapshot)
    requires forall o :: o in list <==> o in other
    ensures Acceptable(Matching(service, list)) <==> Acceptable(Matching(service, other))
    ensures SnapshotOf(Matching(service, list), a) && SnapshotOf(Matching(service, other), b) ==> a == b
  {
    SameMatching(service, list, other);
    var s := Matching(service, list);
    if SnapshotOf(s, a) && SnapshotOf(s, b) { SnapshotIsUnique(s, a, b); }
  }

  ghost predicate StickyResult(s: set<Instance>, snapshot: Snapshot, addresses: seq<Address>) {
    Acceptable(s) && SnapshotOf(s, snapshot) && AddressesOf(s, addresses) && snapshot.sticky
  }

  /** In a sticky snapshot every address carries one of its NodeIDs, at the host of that ID. */
  lemma AddressCarriesNode(s: set<Instance>, snapshot: Snapshot, addresses: seq<Address>, i: nat)
    requires StickyResult(s, snapshot, addresses) && i < |addresses|
    ensures addresses[i].instance.id in snapshot.hostByNodeID
    ensures snapshot.hostByNodeID[addresses[i].instance.id] == addresses[i].host
  {
    var z :| z in s && z.Sticky();
    var x := addresses[i].instance;
    assert x in s && x.Sticky() == z.Sticky() && x.Valid();
  }

  /** In a sticky snapshot every NodeID is carried by exactly one address. */
  lemma NodeHasOneAddress(s: set<Instance>, snapshot: Snapshot, addresses: seq<Address>, id: string) returns (i: nat)
    requires StickyResult(s, snapshot, addresses) && id in snapshot.hostByNodeID
    ensures i < |addresses| && addresses[i].instance.id == id && addresses[i].host == snapshot.hostByNodeID[id]
    ensures forall j :: 0 <= j < |addresses| && addresses[j].instance.id == id ==> j == i
  {
    var x :| x in s && x.id == id;
    assert x.Valid() && Listed(addresses, x.Host().value);
    i :| 0 <= i < |addresses| && addresses[i].host == x.Host().value;
    AddressCarriesNode(s, snapshot, addresses, i);
    assert addresses[i].instance in s && addresses[i].instance.Host() == x.Host();
    forall j | 0 <= j < |addresses| && addresses[j].instance.id == id ensures j == i {
      AddressCarriesNode(s, snapshot, addresses, j);
    }
  }

  /** Instances of an accepted list with one host and different ids: at most one of them has
      a NodeID, and the list is not sticky. */
  lemma SharedHostIsNotSticky(s: set<Instance>, x: Instance, y: Instance)
    requires Acceptable(s) && x in s && y in s && x.Host() == y.Host() && x.id != y.id
    ensures (x.id == "" || y.id == "") && forall z :: z in s ==> !z.Sticky()
  {
    assert !x.Sticky() || !y.Sticky();
  }

  /** Nothing but its id and host tells a valid sticky instance of the service from another. */
  lemma SameInstance(x: Instance, y: Instance)
    requires x.Valid() && y.Valid() && x.Sticky() && y.Sticky()
    requires x.name == y.name && x.id == y.id && x.Host() == y.Host()
    ensures x == y
  {
    assert x.endpoints == [x.endpoints[0]] && y.endpoints == [y.endpoints[0]];
  }

  lemma AddressIsInOther(service: string, list: seq<Option<Instance>>, xs: seq<Address>, ys: seq<Address>, i: nat)
    requires var s := Matching(service, list);
      && Acceptable(s) && AddressesOf(s, xs) && AddressesOf(s, ys) && exists z :: z in s && z.Sticky()
    requires i < |xs|
    ensures xs[i] in ys
  {
    var s, x := Matching(service, list), xs[i].instance;
    var z :| z in s && z.Sticky();
    assert x in s && x.Valid() && x.Sticky() == z.Sticky();
    assert Listed(ys, xs[i].host);
    var j :| 0 <= j < |ys| && ys[j].host == xs[i].host;
    var y := ys[j].instance;
    assert y in s && y.Valid() && y.Sticky() == z.Sticky();
    SameInstance(x, y);
  }

  /** For sticky lists the addresses, too, depend neither on order nor on repetitions: two
      accepted lists with the same elements give the same addresses. */
  lemma StickyAddressesIgnoreOrder(service: string, list: seq<Option<Instance>>, other: seq<Option<Instance>>,
                                   xs: seq<Address>, ys: seq<Address>)
    requires forall o :: o in list <==> o in other
    requires var s := Matching(service, list); Acceptable(s) && exists z :: z in s && z.Sticky()
    requires AddressesOf(Matching(service, list), xs) && AddressesOf(Matching(service, other), ys)
    ensures forall a :: a in xs <==> a in ys
  {
    SameMatching(service, list, other);
    forall a | a in xs ensures a in ys {
      var i :| 0 <= i < |xs| && xs[i] == a;
      AddressIsInOther(service, list, xs, ys, i);
    }
    forall a | a in ys ensures a in xs {
      var i :| 0 <= i < |ys| && ys[i] == a;
      AddressIsInOther(service, other, ys, xs, i);
    }
  }
}
