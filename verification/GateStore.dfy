/**
  The store scripts of the Gate locator. A key holds the encoded binding of the
  connection that owns a player, or, if something else wrote it, garbage.
 */
module GateStore {

  type Key = string
  type ConnId = nat
  type Token = string

  /** `conn` and `token` stand for the whole connection identity; the token is new
      for every authentication. */
  datatype Binding = Binding(key: Key, conn: ConnId, token: Token)

  datatype Value = Encoded(binding: Binding) | Garbage

  datatype Stored = Stored(value: Value, expiry: nat)

  /** The status codes 1, 0, -1, -2 and -3. */
  datatype Status = Done | Missing | Conflict | BadLease | Invalid

  predicate ValidValue(v: Value, key: Key) {
    v.Encoded? && v.binding.key == key
  }

  /** Any current value is validated, then always overwritten. */
  function BindStatus(m: map<Key, Stored>, key: Key, now: nat): Status {
    if key !in m then Done
    else if m[key].expiry <= now then BadLease
    else if !ValidValue(m[key].value, key) then Invalid
    else Done
  }

  /** Renewal and unbind act only on the exact value they expect. */
  function MatchStatus(m: map<Key, Stored>, b: Binding, now: nat): Status {
    if b.key !in m then Missing
    else if m[b.key].expiry <= now then BadLease
    else if m[b.key].value != Encoded(b) then Conflict
    else Done
  }

  class Store {
    var entries: map<Key, Stored>

    constructor ()
      ensures entries == map[]
    {
      entries := map[];
    }

    method BindGate(b: Binding, ttl: nat, now: nat) returns (status: Status, previous: seq<Binding>)
      requires 0 < ttl
      modifies this
      ensures status == if b.key !in old(entries) then Done
                        else if old(entries)[b.key].expiry <= now then BadLease
                        else if old(entries)[b.key].value.Encoded? && old(entries)[b.key].value.binding.key == b.key then Done
                        else Invalid
      ensures status == BindStatus(old(entries), b.key, now)
      ensures entries == if status.Done? then old(entries)[b.key := Stored(Encoded(b), now + ttl)] else old(entries)
      ensures previous == if status.Done? && b.key in old(entries) then [old(entries)[b.key].value.binding] else []
    {
      previous := [];
      if b.key in entries {
        if entries[b.key].expiry <= now { return BadLease, []; }
        if !ValidValue(entries[b.key].value, b.key) { return Invalid, []; }
        previous := [entries[b.key].value.binding];
      }
      entries := entries[b.key := Stored(Encoded(b), now + ttl)];
      status := Done;
    }

    method RenewGateLease(b: Binding, ttl: nat, now: nat) returns (status: Status)
      requires 0 < ttl
      modifies this
      ensures status == if b.key !in old(entries) then Missing
                        else if old(entries)[b.key].expiry <= now then BadLease
                        else if old(entries)[b.key].value == Encoded(b) then Done else Conflict
      ensures status == MatchStatus(old(entries), b, now)
      ensures entries == if status.Done? then old(entries)[b.key := Stored(Encoded(b), now + ttl)] else old(entries)
    {
      if b.key !in entries { return Missing; }
      if entries[b.key].expiry <= now { return BadLease; }
      if entries[b.key].value != Encoded(b) { return Conflict; }
      entries := entries[b.key := entries[b.key].(expiry := now + ttl)];
      return Done;
    }

    /** Compare and delete: whatever is stored for another connection survives. */
    method UnbindGate(b: Binding, now: nat) returns (status: Status)
      modifies this
      ensures status == if b.key !in old(entries) then Missing
                        else if old(entries)[b.key].expiry <= now then BadLease
                        else if old(entries)[b.key].value == Encoded(b) then Done else Conflict
      ensures status == MatchStatus(old(entries), b, now)
      ensures entries == if status.Done? then old(entries) - {b.key} else old(entries)
      ensures forall k :: k in old(entries) && old(entries)[k].value != Encoded(b) ==> k in entries && entries[k] == old(entries)[k]
    {
      if b.key !in entries { return Missing; }
      if entries[b.key].expiry <= now { return BadLease; }
      if entries[b.key].value != Encoded(b) { return Conflict; }
      entries := entries - {b.key};
      return Done;
    }
  }
}
