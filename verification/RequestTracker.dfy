/**
  The request tracker of a client and its callers: every request draws a number,
  is stored under it, is sent, and is then settled by a response, by the failing
  of all requests at shutdown, or by its own cancellation.
 */
module RequestTracker {

  const WORD: nat := 0x1_0000_0000
  const NUMBERS: nat := 0x8000_0000

  type Number = nat
  type HandleId = nat

  predicate ValidNumber(k: nat) { 1 <= k < NUMBERS }

  /** One request. `Live` is between the store and the send, `Sent` waits for its
      outcome, `Refused` has to cancel, `Ended` has returned to its caller. */
  datatype Phase = Drawing | Drawn | Live | Sent | Refused | Ended

  /** `outcomes` counts the values put into the one-slot channel of the handle. */
  datatype Handle = Handle(phase: Phase, number: Number, outcomes: nat)

  datatype Failing = NotFailing | Ranging(todo: map<Number, HandleId>) | Failed

  /** `owed` are the handles taken out of the map whose outcome is not yet in their
      channel; `done` is the closed channel of the client. */
  datatype State = State(
    counter: nat,
    handles: map<HandleId, Handle>,
    pending: map<Number, HandleId>,
    owed: set<HandleId>,
    done: bool,
    failing: Failing)

  datatype Action =
    | Begin(id: HandleId)
    | Draw(id: HandleId)
    | Store(id: HandleId)
    | Send(id: HandleId, accepted: bool)
    | Cancel(id: HandleId)
    | Resolve(number: Number)
    | Deliver(id: HandleId)
    | GiveUp(id: HandleId)
    | Receive(id: HandleId)
    | CloseDone
    | StartFail
    | Visit(number: Number)
    | VisitLate(number: Number)
    | EndFail

  function Init(): State {
    State(0, map[], map[], {}, false, NotFailing)
  }

  function Put(s: State, id: HandleId, h: Handle): State {
    s.(handles := s.handles[id := h])
  }

  /** Taking a handle out of the map is what earns the right to send its outcome. */
  function Take(s: State, k: Number): State
    requires k in s.pending
  {
    s.(pending := s.pending - {k}, owed := s.owed + {s.pending[k]})
  }

  function Drop(s: State, id: HandleId, k: Number): State {
    if k in s.pending && s.pending[k] == id then s.(pending := s.pending - {k}) else s
  }

  function ApplyHandle(s: State, id: HandleId, a: Action): State
    requires id in s.handles
  {
    var h := s.handles[id];
    match (a, h.phase)
    case (Draw(_), Drawing) =>
      var counter := (s.counter + 1) % WORD;
      var number := counter % NUMBERS;
      if number == 0 then s.(counter := counter) else Put(s.(counter := counter), id, h.(phase := Drawn, number := number))
    case (Store(_), Drawn) =>
      if h.number in s.pending then Put(s, id, h.(phase := Drawing))
      else Put(s.(pending := s.pending[h.number := id]), id, h.(phase := Live))
    case (Send(_, accepted), Live) => Put(s, id, h.(phase := if accepted && !s.done then Sent else Refused))
    case (Cancel(_), Refused) => Put(Drop(s, id, h.number), id, h.(phase := Ended))
    case (GiveUp(_), Sent) =>
      if h.number in s.pending && s.pending[h.number] == id
      then Put(Drop(s, id, h.number), id, h.(phase := Ended)) else s
    case (Receive(_), Sent) => if 0 < h.outcomes then Put(s, id, h.(phase := Ended)) else s
    case (Deliver(_), _) =>
      if id in s.owed then Put(s.(owed := s.owed - {id}), id, h.(outcomes := h.outcomes + 1)) else s
    case (_, _) => s
  }

  function Apply(s: State, a: Action): State {
    match a
    case Begin(id) => if id in s.handles then s else Put(s, id, Handle(Drawing, 0, 0))
    case Resolve(k) => if k in s.pending then Take(s, k) else s
    case CloseDone => s.(done := true)
    case StartFail => if s.done && s.failing.NotFailing? then s.(failing := Ranging(s.pending)) else s
    case Visit(k) =>
      if !s.failing.Ranging? || k !in s.failing.todo then s
      else
        var t := s.(failing := Ranging(s.failing.todo - {k}));
        if k in s.pending && s.pending[k] == s.failing.todo[k] then Take(t, k) else t
    case VisitLate(k) => if s.failing.Ranging? && k in s.pending then Take(s, k) else s
    case EndFail => if s.failing.Ranging? && s.failing.todo == map[] then s.(failing := Failed) else s
    case Draw(id) => if id in s.handles then ApplyHandle(s, id, a) else s
    case Store(id) => if id in s.handles then ApplyHandle(s, id, a) else s
    case Send(id, _) => if id in s.handles then ApplyHandle(s, id, a) else s
    case Cancel(id) => if id in s.handles then ApplyHandle(s, id, a) else s
    case Deliver(id) => if id in s.handles then ApplyHandle(s, id, a) else s
    case GiveUp(id) => if id in s.handles then ApplyHandle(s, id, a) else s
    case Receive(id) => if id in s.handles then ApplyHandle(s, id, a) else s
  }

  function Exec(run: seq<Action>): State {
    if run == [] then Init() else Apply(Exec(run[..|run| - 1]), run[|run| - 1])
  }

  // The invariant.

  predicate IsPending(s: State, id: HandleId)
    requires id in s.handles
  {
    s.handles[id].number in s.pending && s.pending[s.handles[id].number] == id
  }

  predicate HandleInv(s: State, id: HandleId)
    requires id in s.handles
  {
    var h := s.handles[id];
    && (h.phase.Drawn? || h.phase.Live? || h.phase.Sent? ==> ValidNumber(h.number))
    && h.outcomes <= 1 && (id in s.owed ==> h.outcomes == 0)
    && (IsPending(s, id) ==> h.outcomes == 0 && id !in s.owed && (h.phase.Live? || h.phase.Sent? || h.phase.Refused?))
    && (h.phase.Drawing? || h.phase.Drawn? ==> h.outcomes == 0 && id !in s.owed)
    && ((h.phase.Live? || h.phase.Sent?) && !IsPending(s, id) ==> id in s.owed || h.outcomes == 1)
    && (h.phase.Sent? && IsPending(s, id) && s.failing.Ranging? ==>
          h.number in s.failing.todo && s.failing.todo[h.number] == id)
    && (h.phase.Sent? && s.failing.Failed? ==> !IsPending(s, id))
  }

  ghost predicate Inv(s: State) {
    && s.counter < WORD
    && (forall id :: id in s.handles ==> HandleInv(s, id))
    && (forall k :: k in s.pending ==> ValidNumber(k) && s.pending[k] in s.handles && s.handles[s.pending[k]].number == k)
    && s.owed <= s.handles.Keys
    && (!s.failing.NotFailing? ==> s.done)
  }

  lemma HandleKeepsMap(s: State, id: HandleId, a: Action)
    requires Inv(s) && id in s.handles
    ensures var t := ApplyHandle(s, id, a);
            forall k :: k in t.pending ==> ValidNumber(k) && t.pending[k] in t.handles && t.handles[t.pending[k]].number == k
  {
    assert HandleInv(s, id);
  }

  lemma HandleKeepsSelf(s: State, id: HandleId, a: Action)
    requires Inv(s) && id in s.handles
    ensures HandleInv(ApplyHandle(s, id, a), id)
  {
    assert HandleInv(s, id);
  }

  lemma HandleKeepsOther(s: State, id: HandleId, a: Action, d: HandleId)
    requires Inv(s) && id in s.handles && d in s.handles && d != id
    ensures HandleInv(ApplyHandle(s, id, a), d)
  {
    assert HandleInv(s, d) && HandleInv(s, id);
  }

  lemma HandleKeepsInv(s: State, id: HandleId, a: Action)
    requires Inv(s) && id in s.handles
    ensures Inv(ApplyHandle(s, id, a))
  {
    var t := ApplyHandle(s, id, a);
    HandleKeepsMap(s, id, a);
    HandleKeepsSelf(s, id, a);
    forall d | d in t.handles && d != id ensures HandleInv(t, d) { HandleKeepsOther(s, id, a, d); }
  }

  lemma TakeKeepsInv(s: State, k: Number)
    requires Inv(s) && k in s.pending
    ensures Inv(Take(s, k))
  {
    var t := Take(s, k);
    forall d | d in t.handles ensures HandleInv(t, d) { assert HandleInv(s, d); }
  }

  lemma VisitKeepsInv(s: State, k: Number)
    requires Inv(s)
    ensures Inv(Apply(s, Visit(k)))
  {
    var t := Apply(s, Visit(k));
    forall d | d in t.handles ensures HandleInv(t, d) { assert HandleInv(s, d); }
  }

  lemma FailKeepsInv(s: State, a: Action)
    requires Inv(s) && (a.Begin? || a.CloseDone? || a.StartFail? || a.EndFail?)
    ensures Inv(Apply(s, a))
  {
    var t := Apply(s, a);
    forall d | d in t.handles ensures HandleInv(t, d) { if d in s.handles { assert HandleInv(s, d); } }
  }

  lemma StepKeepsInv(s: State, a: Action)
    requires Inv(s)
    ensures Inv(Apply(s, a))
  {
    if a.Begin? || a.CloseDone? || a.StartFail? || a.EndFail? {
      FailKeepsInv(s, a);
    } else if a.Visit? {
      VisitKeepsInv(s, a.number);
    } else if a.Resolve? || a.VisitLate? {
      if a.number in s.pending { TakeKeepsInv(s, a.number); }
    } else if a.id in s.handles {
      HandleKeepsInv(s, a.id, a);
    }
  }

  lemma {:induction false} RunKeepsInv(run: seq<Action>)
    ensures Inv(Exec(run))
  {
    if run != [] {
      RunKeepsInv(run[..|run| - 1]);
      StepKeepsInv(Exec(run[..|run| - 1]), run[|run| - 1]);
    }
  }

  /** A handle gets at most one outcome, and whoever sends it finds the slot empty. */
  lemma AtMostOneOutcome(run: seq<Action>, id: HandleId)
    requires id in Exec(run).handles
    ensures Exec(run).handles[id].outcomes <= 1
    ensures id in Exec(run).owed ==> Exec(run).handles[id].outcomes == 0
  {
    RunKeepsInv(run);
    assert HandleInv(Exec(run), id);
  }

  /** A request that waits: stored or sent, with no outcome and none on the way. */
  predicate Waits(s: State, id: HandleId) {
    && id in s.handles && (s.handles[id].phase.Live? || s.handles[id].phase.Sent?)
    && s.handles[id].outcomes == 0 && id !in s.owed
  }

  /** Requests that wait have distinct numbers from 1 to 2^31-1, however often the counter
      has wrapped around, and the map leads from each number to its request: none ever
      loses its slot to a later one. */
  lemma LiveNumbersAreDistinct(run: seq<Action>, id: HandleId, other: HandleId)
    requires Waits(Exec(run), id) && Waits(Exec(run), other) && id != other
    ensures Exec(run).handles[id].number != Exec(run).handles[other].number
    ensures ValidNumber(Exec(run).handles[id].number)
    ensures IsPending(Exec(run), id)
  {
    RunKeepsInv(run);
    assert HandleInv(Exec(run), id) && HandleInv(Exec(run), other);
  }

  function Answered(s: State, id: HandleId): State
    requires id in s.handles
  {
    Apply(Apply(s, Resolve(s.handles[id].number)), Deliver(id))
  }

  /** In every run a response to a request that waits reaches exactly that request: it has
      its outcome, and no other request is touched. */
  lemma ResponseSettles(run: seq<Action>, id: HandleId, other: HandleId)
    requires Waits(Exec(run), id) && other in Exec(run).handles && other != id
    ensures var s, t := Exec(run), Answered(Exec(run), id);
      && t.handles[id] == s.handles[id].(outcomes := 1) && !IsPending(t, id) && id !in t.owed
      && t.handles[other] == s.handles[other] && (IsPending(t, other) <==> IsPending(s, other))
      && t.owed == s.owed
  {
    RunKeepsInv(run);
    var s := Exec(run);
    assert HandleInv(s, id) && HandleInv(s, other);
    assert IsPending(s, id);
    var k := s.handles[id].number;
    var taken := Apply(s, Resolve(k));
    assert taken == s.(pending := s.pending - {k}, owed := s.owed + {id});
    assert s.owed + {id} - {id} == s.owed;
  }

  /** What a request does on its way: a drawn number that is free is taken, a send succeeds
      exactly if the client takes it and is not closed, a refused request gives its number
      back, and one that gives up or has its outcome returns. */
  lemma RequestMovesExactly(s: State, id: HandleId, accepted: bool)
    requires id in s.handles
    ensures s.handles[id].phase.Drawn? && s.handles[id].number !in s.pending ==>
      Apply(s, Store(id)).pending == s.pending[s.handles[id].number := id] && Apply(s, Store(id)).handles[id].phase.Live?
    ensures s.handles[id].phase.Drawn? && s.handles[id].number in s.pending ==>
      Apply(s, Store(id)).pending == s.pending && Apply(s, Store(id)).handles[id].phase.Drawing?
    ensures s.handles[id].phase.Live? ==>
      (Apply(s, Send(id, accepted)).handles[id].phase.Sent? <==> accepted && !s.done)
      && (Apply(s, Send(id, accepted)).handles[id].phase.Refused? <==> !accepted || s.done)
    ensures s.handles[id].phase.Refused? ==> Apply(s, Cancel(id)).handles[id].phase.Ended? && !IsPending(Apply(s, Cancel(id)), id)
    ensures s.handles[id].phase.Sent? ==>
      && (Apply(s, GiveUp(id)).handles[id].phase.Ended? <==> IsPending(s, id)) && !IsPending(Apply(s, GiveUp(id)), id)
      && (Apply(s, Receive(id)).handles[id].phase.Ended? <==> s.handles[id].outcomes > 0)
  {
  }

  /** A request begins once under its name, and the client closes exactly when it is told. */
  lemma BeginsExactly(s: State, a: Action, id: HandleId)
    ensures id !in s.handles ==> (id in Apply(s, a).handles <==> a == Begin(id))
    ensures id !in s.handles && a == Begin(id) ==> Apply(s, a).handles[id] == Handle(Drawing, 0, 0)
    ensures Apply(s, a).done <==> s.done || a.CloseDone?
  {
  }

  /** The first request of a client is sent under number 1 and waits for its response. */
  lemma FirstRequestWaits(id: HandleId)
    ensures var run := [Begin(id), Draw(id), Store(id), Send(id, true)];
            Waits(Exec(run), id) && Exec(run).handles[id] == Handle(Sent, 1, 0) && !Exec(run).done
  {
    var none: seq<Action> := [];
    ExecSnoc(none, Begin(id));
    ExecSnoc([Begin(id)], Draw(id));
    ExecSnoc([Begin(id), Draw(id)], Store(id));
    ExecSnoc([Begin(id), Draw(id), Store(id)], Send(id, true));
    assert none + [Begin(id)] == [Begin(id)] && [Begin(id)] + [Draw(id)] == [Begin(id), Draw(id)];
    assert [Begin(id), Draw(id)] + [Store(id)] == [Begin(id), Draw(id), Store(id)];
    assert [Begin(id), Draw(id), Store(id)] + [Send(id, true)] == [Begin(id), Draw(id), Store(id), Send(id, true)];
  }

  /** The counter goes through all 32-bit words; its low 31 bits are the number drawn. */
  lemma DrawIsExact(s: State, id: HandleId)
    requires id in s.handles && s.handles[id].phase.Drawing? && s.counter < WORD
    ensures var t := Apply(s, Draw(id));
      && t.counter == (if s.counter == 0xFFFF_FFFF then 0 else s.counter + 1)
      && (if t.counter % 0x8000_0000 == 0 then t.handles == s.handles
          else t.handles[id].phase.Drawn? && t.handles[id].number == t.counter % 0x8000_0000)
  {
  }

  /** The shutdown takes what is pending when it begins, visits all of it, and is over
      exactly then; each visit takes its handle if it is still there. */
  lemma FailIsExact(s: State, k: Number)
    ensures Apply(s, StartFail).failing == if s.done && s.failing.NotFailing? then Ranging(s.pending) else s.failing
    ensures Apply(s, EndFail).failing.Failed? <==> s.failing.Failed? || (s.failing.Ranging? && s.failing.todo == map[])
    ensures s.failing.Ranging? && k in s.failing.todo ==>
      var t := Apply(s, Visit(k));
      && t.failing == Ranging(s.failing.todo - {k})
      && (k in s.pending && s.pending[k] == s.failing.todo[k] ==> t.pending == s.pending - {k} && t.owed == s.owed + {s.pending[k]})
  {
  }

  /** Once the shutdown has failed all requests, every request whose send succeeded has
      its outcome in its channel or on the way there: none waits forever. */
  lemma ShutdownSettlesAll(run: seq<Action>, id: HandleId)
    requires Exec(run).failing.Failed?
    requires id in Exec(run).handles && Exec(run).handles[id].phase.Sent?
    ensures Exec(run).handles[id].outcomes == 1 || id in Exec(run).owed
    ensures !IsPending(Exec(run), id)
  {
    RunKeepsInv(run);
    assert HandleInv(Exec(run), id);
  }

  lemma ExecSnoc(run: seq<Action>, a: Action)
    ensures Exec(run + [a]) == Apply(Exec(run), a)
  {
    assert (run + [a])[..|run|] == run;
  }

  lemma ClosedRefuses(s: State, a: Action, id: HandleId)
    requires s.done && (id in s.handles ==> !s.handles[id].phase.Sent?)
    ensures Apply(s, a).done && (id in Apply(s, a).handles ==> !Apply(s, a).handles[id].phase.Sent?)
  {
  }

  /** After the client was closed no send succeeds: a request not sent by then, or begun
      only later, is never sent. */
  lemma {:induction false} NoSendAfterClose(run: seq<Action>, more: seq<Action>, id: HandleId)
    requires Exec(run).done && (id in Exec(run).handles ==> !Exec(run).handles[id].phase.Sent?)
    ensures var t := Exec(run + more);
            t.done && (id in t.handles ==> !t.handles[id].phase.Sent?)
  {
    if more == [] {
      assert run + more == run;
    } else {
      var before, a := run + more[..|more| - 1], more[|more| - 1];
      NoSendAfterClose(run, more[..|more| - 1], id);
      ClosedRefuses(Exec(before), a, id);
      assert run + more == before + [a];
      ExecSnoc(before, a);
    }
  }
}

/** The tracker object itself: the wrapping counter, the map, and the retry loops. */
module TrackerObject {
  import opened RequestTracker

  datatype Outcome = Response(body: seq<nat>, code: int) | Failure

  class Pending {
    const number: Number
    var slot: seq<Outcome>

    constructor (number: Number)
      ensures this.number == number && slot == []
    {
      this.number, slot := number, [];
    }
  }

  /** How many draws after counter value `c` the number `k` comes up. */
  function DrawsUntil(c: nat, k: Number): nat
    requires c < WORD && ValidNumber(k)
    ensures 1 <= DrawsUntil(c, k) <= NUMBERS
  {
    if c % NUMBERS < k then k - c % NUMBERS else NUMBERS + k - c % NUMBERS
  }

  /** The counter word is twice the range of numbers. */
  lemma Residue(c: nat)
    requires c < WORD
    ensures c % NUMBERS == if c < NUMBERS then c else c - NUMBERS
  {
  }

  lemma DrawComesCloser(c: nat, k: Number)
    requires c < WORD && ValidNumber(k)
    ensures var d := (c + 1) % WORD;
            d < WORD && (d % NUMBERS != k ==> DrawsUntil(d, k) == DrawsUntil(c, k) - 1)
  {
    var d := if c + 1 == WORD then 0 else c + 1;
    assert d == (c + 1) % WORD;
    Residue(c);
    Residue(d);
  }

  function NumbersBelow(n: nat): (s: set<nat>)
    ensures forall k :: k in s <==> 1 <= k < n
    ensures |s| == if n == 0 then 0 else n - 1
  {
    if n <= 1 then {} else NumbersBelow(n - 1) + {n - 1}
  }

  lemma SubsetSize(a: set<nat>, b: set<nat>)
    requires a <= b
    ensures |a| <= |b|
  {
    assert b == a + (b - a);
  }

  /** As long as not all numbers are in use, one is free. */
  lemma FreeNumber(used: set<nat>) returns (k: Number)
    requires |used| < NUMBERS - 1
    ensures ValidNumber(k) && k !in used
  {
    var all := NumbersBelow(NUMBERS);
    if all <= used { SubsetSize(all, used); }
    k :| k in all && k !in used;
  }

  class Tracker {
    var counter: nat
    var pending: map<Number, Pending>

    /** Handles in the map are stored under their own number and have no outcome yet. */
    ghost predicate Valid()
      reads this, pending.Values
    {
      && counter < WORD
      && (forall k :: k in pending ==> ValidNumber(k) && pending[k].number == k && pending[k].slot == [])
    }

    constructor ()
      ensures Valid() && pending == map[]
    {
      counter, pending := 0, map[];
    }

    /** The next number, skipping zero; `free` is any number one is waiting for. */
    method NextSequence(ghost free: Number) returns (number: Number)
      requires counter < WORD && ValidNumber(free)
      modifies this`counter
      ensures counter < WORD && ValidNumber(number)
      ensures number != free ==> DrawsUntil(counter, free) < DrawsUntil(old(counter), free)
    {
      while true
        invariant counter < WORD
        invariant counter == old(counter) || DrawsUntil(counter, free) < DrawsUntil(old(counter), free)
        decreases DrawsUntil(counter, free)
      {
        DrawComesCloser(counter, free);
        counter := (counter + 1) % WORD;
        number := counter % NUMBERS;
        if number != 0 { return; }
      }
    }

    /** The loop ends because a free number comes up; if every number from 1 to 2^31-1
        were live, the source would look for one forever. */
    method Begin() returns (p: Pending)
      requires Valid() && |pending| < NUMBERS - 1
      modifies this
      ensures Valid() && fresh(p) && p.slot == [] && p.number !in old(pending)
      ensures pending == old(pending)[p.number := p]
    {
      ghost var free := FreeNumber(pending.Keys);
      while true
        invariant Valid() && pending == old(pending)
        decreases DrawsUntil(counter, free)
      {
        var number := NextSequence(free);
        if number !in pending {
          p := new Pending(number);
          pending := pending[number := p];
          return;
        }
      }
    }

    /** A response settles the request of its number, if that is still there. */
    method Resolve(number: Number, outcome: Outcome) returns (ok: bool)
      requires Valid()
      modifies this`pending, pending.Values
      ensures Valid() && ok == (number in old(pending)) && pending == old(pending) - {number}
      ensures ok ==> old(pending)[number].slot == [outcome]
      ensures forall k :: k in pending ==> pending[k].slot == []
    {
      ok := number in pending;
      if ok {
        var p := pending[number];
        pending := pending - {number};
        p.slot := p.slot + [outcome];
      }
    }

    /** Compare and delete: only the handle itself is taken out. */
    method Cancel(p: Pending)
      requires Valid()
      modifies this`pending
      ensures Valid()
      ensures pending == if p in old(pending).Values then old(pending) - {p.number} else old(pending)
    {
      if p.number in pending && pending[p.number] == p {
        pending := pending - {p.number};
      }
    }

    /** Every handle in the map gets exactly one outcome. */
    method Fail()
      requires Valid()
      modifies this`pending, pending.Values
      ensures Valid() && pending == map[]
      ensures forall k :: k in old(pending) ==> old(pending)[k].slot == [Failure]
    {
      ghost var all := pending;
      while pending != map[]
        invariant Valid()
        invariant pending.Keys <= all.Keys && forall k :: k in pending ==> pending[k] == all[k]
        invariant forall k :: k in all && k !in pending ==> all[k].slot == [Failure]
        invariant forall k :: k in all ==> all[k].number == k
        decreases pending.Keys
      {
        var k :| k in pending;
        var p := pending[k];
        pending := pending - {k};
        p.slot := p.slot + [Failure];
      }
    }
  }
}
