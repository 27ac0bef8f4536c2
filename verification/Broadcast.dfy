/**
  The broadcaster: messages are accepted into a bounded queue, a coordinator takes
  one at a time, puts it into the one shared prepared message, cuts the current
  sessions into slices, hands them to the workers over one channel and collects
  their reports over another. Messages are numbered by acceptance. Cancellation may
  strike anywhere.
 */
module Broadcast {

  type Conn = int

  function Min(a: nat, b: nat): nat { if a < b then a else b }

  // Cutting the snapshot.

  function Concat<T>(slices: seq<seq<T>>): seq<T> {
    if slices == [] then [] else Concat(slices[..|slices| - 1]) + slices[|slices| - 1]
  }

  lemma ConcatSnoc<T>(slices: seq<seq<T>>, slice: seq<T>)
    ensures Concat(slices + [slice]) == Concat(slices) + slice
  {
    assert (slices + [slice])[..|slices|] == slices;
  }

  function SliceSize(count: nat, slices: nat): nat
    requires 0 < slices
  {
    (count + slices - 1) / slices
  }

  /** So many slices of that size cover everything. */
  lemma SizeCovers(count: nat, slices: nat)
    requires 0 < slices
    ensures count <= slices * SliceSize(count, slices)
    ensures 0 < count ==> 0 < SliceSize(count, slices)
  {
    var q, r := (count + slices - 1) / slices, (count + slices - 1) % slices;
    assert count + slices - 1 == slices * q + r;
    if q == 0 { assert slices * q == 0; }
  }

  /** And none smaller would. */
  lemma SizeIsLeast(count: nat, slices: nat)
    requires 0 < slices <= count
    ensures (SliceSize(count, slices) - 1) * slices < count
    ensures SliceSize(count, slices) <= count
  {
    var q, r := (count + slices - 1) / slices, (count + slices - 1) % slices;
    assert count + slices - 1 == slices * q + r;
    assert (q - 1) * slices == slices * q - slices;
    SizeCovers(count, slices);
    Monotone(1, slices, q - 1);
  }

  lemma FewerSlices(done: nat, slices: nat, size: nat, count: nat)
    requires done * size < count <= slices * size
    ensures done < slices
  {
    if slices <= done {
      assert slices * size <= done * size by { Monotone(slices, done, size); }
    }
  }

  lemma OneMore(done: nat, size: nat)
    ensures (done + 1) * size == done * size + size
  {
  }

  lemma Monotone(a: nat, b: nat, c: nat)
    requires a <= b
    ensures a * c <= b * c
  {
    assert b * c == a * c + (b - a) * c;
  }

  /**
    The batching loop of fanout: for every number of sessions and workers the slices,
    put together in order, are the snapshot itself, so none is missed and none is
    served twice; none is empty, and there are at most as many as workers. All but the last
    have the least size with which so many slices cover the snapshot.
   */
  method Slice<T>(sessions: seq<T>, workers: nat) returns (slices: seq<seq<T>>)
    ensures 0 < workers ==> Concat(slices) == sessions
    ensures |slices| <= Min(workers, |sessions|)
    ensures forall i :: 0 <= i < |slices| ==> slices[i] != []
    ensures forall i :: 0 <= i < |slices| - 1 ==> |slices[i]| == |slices[0]|
    ensures slices != [] ==> (|slices[0]| - 1) * Min(workers, |sessions|) < |sessions| <= |slices[0]| * Min(workers, |sessions|)
  {
    slices := [];
    var count := Min(workers, |sessions|);
    if count == 0 {
      assert 0 < workers ==> sessions == [];
      return;
    }
    var size := SliceSize(|sessions|, count);
    SizeCovers(|sessions|, count);
    SizeIsLeast(|sessions|, count);
    assert size <= |sessions|;
    var offset := 0;
    while offset < |sessions|
      invariant 0 <= offset == |slices| * size
      invariant Concat(slices) == sessions[..Min(offset, |sessions|)]
      invariant |slices| <= count
      invariant forall i :: 0 <= i < |slices| ==> slices[i] != []
      invariant forall i :: 0 <= i < |slices| && offset < |sessions| ==> |slices[i]| == size
      invariant forall i :: 0 <= i < |slices| - 1 ==> |slices[i]| == size
      invariant slices != [] ==> |slices[0]| == size
    {
      FewerSlices(|slices|, count, size, |sessions|);
      var end := Min(offset + size, |sessions|);
      ConcatSnoc(slices, sessions[offset..end]);
      OneMore(|slices|, size);
      assert sessions[..offset] + sessions[offset..end] == sessions[..end];
      slices := slices + [sessions[offset..end]];
      offset := offset + size;
    }
    assert sessions[..|sessions|] == sessions;
  }

  // The protocol.

  datatype Batch = Batch(msg: nat, todo: seq<Conn>)

  datatype Worker = Ready | Busy(batch: Batch) | Reporting | Gone {
    function Todo(): seq<Conn> { if Busy? then batch.todo else [] }
    function Weight(): nat { if Busy? || Reporting? then 1 else 0 }
  }

  datatype Coord = Idle | Handing(rest: seq<seq<Conn>>) | Collecting | Ended

  /** `owed` is how many slices were handed over and not yet collected; `prepared` is the
      message in the shared view, which workers read at the moment they send; the queue
      holds the messages from `next` to `accepted`. `snapshots[m]` lists the sessions
      there were when message m was taken. */
  datatype State = State(
    capacity: nat,
    accepted: nat,
    next: nat,
    prepared: nat,
    cancelled: bool,
    coord: Coord,
    owed: nat,
    batches: seq<Batch>,
    reports: nat,
    workers: seq<Worker>,
    snapshots: seq<seq<Conn>>,
    offered: map<Conn, seq<nat>>)

  datatype WorkerStep = Take | Offer | Skip | Report | Leave

  datatype CoordStep = Start(slices: seq<seq<Conn>>) | HandOver | Collect | GiveUp

  datatype Action = Accept | Cancel | Coordinate(step: CoordStep) | Work(worker: nat, job: WorkerStep)

  function Init(capacity: nat, workers: nat): State {
    State(capacity, 0, 0, 0, false, Idle, 0, [], 0, seq(workers, _ => Ready), [], map[])
  }

  predicate Distinct(s: seq<Conn>) {
    forall i, j :: 0 <= i < j < |s| ==> s[i] != s[j]
  }

  /** What the batching loop makes of a snapshot, which lists no session twice. */
  predicate ValidSlices(slices: seq<seq<Conn>>, workers: nat) {
    |slices| <= workers && Distinct(Concat(slices))
  }

  function OfferedTo(s: State, c: Conn): seq<nat> {
    if c in s.offered then s.offered[c] else []
  }

  function ApplyCoord(s: State, a: CoordStep): State {
    match a
    case Start(slices) =>
      if !s.coord.Idle? || s.next == s.accepted || !ValidSlices(slices, |s.workers|) then s
      else s.(prepared := s.next, next := s.next + 1, owed := 0, coord := Handing(slices),
              snapshots := s.snapshots + [Concat(slices)])
    case HandOver =>
      if !s.coord.Handing? then s
      else if s.coord.rest == [] then s.(coord := if s.owed == 0 then Idle else Collecting)
      else if |s.batches| == |s.workers| then s
      else s.(batches := s.batches + [Batch(s.prepared, s.coord.rest[0])], owed := s.owed + 1,
              coord := Handing(s.coord.rest[1..]))
    case Collect =>
      if !s.coord.Collecting? || s.reports == 0 || s.owed == 0 then s
      else s.(reports := s.reports - 1, owed := s.owed - 1, coord := if s.owed == 1 then Idle else Collecting)
    case GiveUp => if s.cancelled then s.(coord := Ended) else s
  }

  function ApplyWorker(s: State, w: nat, a: WorkerStep): State
    requires w < |s.workers|
  {
    var k := s.workers[w];
    match a
    case Take =>
      if !k.Ready? || s.batches == [] then s
      else s.(workers := s.workers[w := Busy(s.batches[0])], batches := s.batches[1..])
    case Offer =>
      if !k.Busy? then s
      else if k.batch.todo == [] then s.(workers := s.workers[w := Reporting])
      else
        var c := k.batch.todo[0];
        s.(workers := s.workers[w := Busy(k.batch.(todo := k.batch.todo[1..]))],
           offered := s.offered[c := OfferedTo(s, c) + [s.prepared]])
    case Skip => if k.Busy? && s.cancelled then s.(workers := s.workers[w := Reporting]) else s
    case Report =>
      if !k.Reporting? || s.reports == |s.workers| then s
      else s.(workers := s.workers[w := Ready], reports := s.reports + 1)
    case Leave => if k.Ready? && s.cancelled then s.(workers := s.workers[w := Gone]) else s
  }

  function Apply(s: State, a: Action): State {
    match a
    case Accept =>
      if s.cancelled || s.accepted - s.next >= s.capacity then s else s.(accepted := s.accepted + 1)
    case Cancel => s.(cancelled := true)
    case Coordinate(step) => ApplyCoord(s, step)
    case Work(w, job) => if w < |s.workers| then ApplyWorker(s, w, job) else s
  }

  function Exec(capacity: nat, workers: nat, run: seq<Action>): State {
    if run == [] then Init(capacity, workers)
    else Apply(Exec(capacity, workers, run[..|run| - 1]), run[|run| - 1])
  }

  // Where slices and sessions are: how many workers are engaged, and how often a
  // session occurs among the slices still to be served.

  function Engaged(workers: seq<Worker>): nat {
    if workers == [] then 0 else workers[0].Weight() + Engaged(workers[1..])
  }

  lemma {:induction false} EngagedUpdate(workers: seq<Worker>, w: nat, k: Worker)
    requires w < |workers|
    ensures Engaged(workers[w := k]) == Engaged(workers) - workers[w].Weight() + k.Weight()
  {
    if w == 0 {
      assert workers[w := k][1..] == workers[1..];
    } else {
      assert workers[w := k][1..] == workers[1..][w - 1 := k];
      EngagedUpdate(workers[1..], w - 1, k);
    }
  }

  lemma {:induction false} IdleCrew(workers: seq<Worker>)
    ensures Engaged(workers) == 0 <==> forall i :: 0 <= i < |workers| ==> workers[i].Weight() == 0
  {
    if workers != [] {
      IdleCrew(workers[1..]);
      if Engaged(workers) == 0 {
        forall i | 0 <= i < |workers| ensures workers[i].Weight() == 0 {
          if i > 0 { assert workers[i] == workers[1..][i - 1]; }
        }
      } else if workers[0].Weight() == 0 {
        var i :| 0 <= i < |workers[1..]| && workers[1..][i].Weight() != 0;
        assert workers[i + 1].Weight() != 0;
      }
    }
  }

  function Times(slices: seq<seq<Conn>>, c: Conn): nat {
    if slices == [] then 0 else multiset(slices[0])[c] + Times(slices[1..], c)
  }

  lemma {:induction false} TimesSplit(a: seq<seq<Conn>>, b: seq<seq<Conn>>, c: Conn)
    ensures Times(a + b, c) == Times(a, c) + Times(b, c)
  {
    if a == [] {
      assert a + b == b;
    } else {
      assert (a + b)[1..] == a[1..] + b;
      TimesSplit(a[1..], b, c);
    }
  }

  lemma {:induction false} TimesUpdate(slices: seq<seq<Conn>>, i: nat, slice: seq<Conn>, c: Conn)
    requires i < |slices|
    ensures Times(slices[i := slice], c) == Times(slices, c) - multiset(slices[i])[c] + multiset(slice)[c]
  {
    if i == 0 {
      assert slices[i := slice][1..] == slices[1..];
    } else {
      assert slices[i := slice][1..] == slices[1..][i - 1 := slice];
      TimesUpdate(slices[1..], i - 1, slice, c);
    }
  }

  lemma {:induction false} TimesConcat(slices: seq<seq<Conn>>, c: Conn)
    ensures Times(slices, c) == multiset(Concat(slices))[c]
  {
    if slices != [] {
      var n := |slices| - 1;
      TimesConcat(slices[..n], c);
      TimesSplit(slices[..n], [slices[n]], c);
      assert slices == slices[..n] + [slices[n]];
      var last := [slices[n]];
      assert last[1..] == [];
    }
  }

  lemma {:induction false} DistinctOnce(s: seq<Conn>, c: Conn)
    requires Distinct(s)
    ensures multiset(s)[c] == if c in s then 1 else 0
  {
    if s != [] {
      DistinctOnce(s[1..], c);
      assert s == [s[0]] + s[1..];
    }
  }

  function Queued(batches: seq<Batch>): seq<seq<Conn>> {
    seq(|batches|, i requires 0 <= i < |batches| => batches[i].todo)
  }

  function Held(workers: seq<Worker>): seq<seq<Conn>> {
    seq(|workers|, i requires 0 <= i < |workers| => workers[i].Todo())
  }

  function Rest(coord: Coord): seq<seq<Conn>> {
    if coord.Handing? then coord.rest else []
  }

  /** How often the session still has to be offered the prepared message. */
  function Due(s: State, c: Conn): nat {
    Times(Rest(s.coord), c) + Times(Queued(s.batches), c) + Times(Held(s.workers), c)
  }

  // What every step keeps.

  function Outstanding(s: State): nat {
    |s.batches| + Engaged(s.workers) + s.reports
  }

  predicate CountsAgree(s: State) {
    match s.coord
    case Idle => Outstanding(s) == 0
    case Handing(rest) => s.owed == Outstanding(s) && s.owed + |rest| <= |s.workers|
    case Collecting => 0 < s.owed == Outstanding(s) <= |s.workers|
    case Ended => Outstanding(s) <= |s.workers| && s.cancelled
  }

  /** Every slice handed over carries the message that is in the shared view. */
  predicate ViewIsCurrent(s: State) {
    && (forall i :: 0 <= i < |s.batches| ==> s.batches[i].msg == s.prepared)
    && (forall i :: 0 <= i < |s.workers| && s.workers[i].Busy? ==> s.workers[i].batch.msg == s.prepared)
    && (forall i :: 0 <= i < |s.workers| && s.workers[i].Gone? ==> s.cancelled)
  }

  predicate Increasing(q: seq<nat>) {
    forall i, j :: 0 <= i < j < |q| ==> q[i] < q[j]
  }

  predicate Numbered(s: State) {
    && s.next <= s.accepted <= s.next + s.capacity
    && |s.snapshots| == s.next
    && (s.next > 0 ==> s.prepared == s.next - 1)
  }

  /** What holds of one session: it is due the last message at most once, and it was
      offered exactly the messages whose snapshot it was in, but for the one it is due
      or, after cancellation, lost. */
  predicate Served(c: Conn, due: nat, offered: seq<nat>, snapshots: seq<seq<Conn>>, cancelled: bool) {
    && due <= 1
    && (due == 1 ==> snapshots != [] && c in snapshots[|snapshots| - 1] && |snapshots| - 1 !in offered)
    && Increasing(offered)
    && (forall m :: m in offered ==> m < |snapshots| && c in snapshots[m])
    && (!cancelled ==>
          forall m :: 0 <= m < |snapshots| && c in snapshots[m] && !(m == |snapshots| - 1 && due == 1)
            ==> m in offered)
  }

  predicate ConnInv(s: State, c: Conn) {
    Served(c, Due(s, c), OfferedTo(s, c), s.snapshots, s.cancelled)
  }

  ghost predicate Inv(s: State) {
    && Numbered(s)
    && CountsAgree(s)
    && ViewIsCurrent(s)
    && forall c: Conn :: ConnInv(s, c)
  }

  lemma {:induction false} NothingHeld(workers: seq<Worker>, c: Conn)
    requires Engaged(workers) == 0
    ensures Times(Held(workers), c) == 0
  {
    if workers != [] {
      assert Held(workers)[1..] == Held(workers[1..]);
      NothingHeld(workers[1..], c);
    }
  }

  lemma NothingDue(s: State, c: Conn)
    requires CountsAgree(s) && s.coord.Idle?
    ensures Due(s, c) == 0
  {
    NothingHeld(s.workers, c);
  }

  lemma HeldUpdate(workers: seq<Worker>, w: nat, k: Worker, c: Conn)
    requires w < |workers|
    ensures Times(Held(workers[w := k]), c)
         == Times(Held(workers), c) - multiset(workers[w].Todo())[c] + multiset(k.Todo())[c]
  {
    assert Held(workers[w := k]) == Held(workers)[w := k.Todo()];
    TimesUpdate(Held(workers), w, k.Todo(), c);
  }

  // What a session is due changes only when a snapshot is taken, when it is offered the
  // message, or when a slice is dropped after cancellation.

  lemma StartDue(s: State, slices: seq<seq<Conn>>, c: Conn)
    requires CountsAgree(s) && s.coord.Idle? && Distinct(Concat(slices))
    ensures Due(s.(coord := Handing(slices)), c) == if c in Concat(slices) then 1 else 0
  {
    NothingDue(s, c);
    assert Due(s.(coord := Handing(slices)), c) == Times(slices, c) + Due(s, c);
    TimesConcat(slices, c);
    DistinctOnce(Concat(slices), c);
  }

  lemma HandOverDue(rest: seq<seq<Conn>>, batches: seq<Batch>, msg: nat, c: Conn)
    requires rest != []
    ensures Times(rest[1..], c) + Times(Queued(batches + [Batch(msg, rest[0])]), c)
         == Times(rest, c) + Times(Queued(batches), c)
  {
    var slice := [rest[0]];
    assert slice[1..] == [];
    assert Queued(batches + [Batch(msg, rest[0])]) == Queued(batches) + slice;
    TimesSplit(Queued(batches), slice, c);
  }

  lemma TakeDue(batches: seq<Batch>, c: Conn)
    requires batches != []
    ensures Times(Queued(batches), c) == multiset(batches[0].todo)[c] + Times(Queued(batches[1..]), c)
  {
    assert Queued(batches[1..]) == Queued(batches)[1..];
  }

  lemma OfferPays(todo: seq<Conn>, c: Conn)
    requires todo != []
    ensures multiset(todo)[c] == multiset(todo[1..])[c] + if todo[0] == c then 1 else 0
  {
    assert todo == [todo[0]] + todo[1..];
  }

  lemma OfferServes(c: Conn, due: nat, offered: seq<nat>, snapshots: seq<seq<Conn>>, cancelled: bool)
    requires Served(c, due, offered, snapshots, cancelled) && due > 0
    ensures Served(c, due - 1, offered + [|snapshots| - 1], snapshots, cancelled)
  {
    var more := offered + [|snapshots| - 1];
    assert forall m :: m in more <==> m in offered || m == |snapshots| - 1;
    assert forall i :: 0 <= i < |offered| ==> offered[i] in offered;
  }

  lemma SnapshotServes(c: Conn, offered: seq<nat>, snapshots: seq<seq<Conn>>, cancelled: bool, more: seq<Conn>)
    requires Served(c, 0, offered, snapshots, cancelled)
    ensures Served(c, if c in more then 1 else 0, offered, snapshots + [more], cancelled)
  {
  }

  lemma CoordKeepsConn(s: State, a: CoordStep, c: Conn)
    requires Numbered(s) && CountsAgree(s) && ConnInv(s, c)
    ensures ConnInv(ApplyCoord(s, a), c)
  {
    var t := ApplyCoord(s, a);
    if t != s {
      if a.Start? {
        StartDue(s, a.slices, c);
        NothingDue(s, c);
        SnapshotServes(c, OfferedTo(s, c), s.snapshots, s.cancelled, Concat(a.slices));
      } else if a.HandOver? && s.coord.rest != [] {
        HandOverDue(s.coord.rest, s.batches, s.prepared, c);
      }
    }
  }

  lemma WorkerDue(s: State, w: nat, k: Worker, c: Conn)
    requires w < |s.workers|
    ensures Due(s.(workers := s.workers[w := k]), c)
         == Due(s, c) - multiset(s.workers[w].Todo())[c] + multiset(k.Todo())[c]
  {
    HeldUpdate(s.workers, w, k, c);
  }

  lemma TakeKeepsConn(s: State, w: nat, c: Conn)
    requires w < |s.workers| && s.workers[w].Ready? && s.batches != [] && ConnInv(s, c)
    ensures ConnInv(ApplyWorker(s, w, Take), c)
  {
    WorkerDue(s, w, Busy(s.batches[0]), c);
    TakeDue(s.batches, c);
  }

  lemma OfferDue(s: State, w: nat, c: Conn)
    requires w < |s.workers| && s.workers[w].Todo() != []
    ensures Due(s, c) == Due(ApplyWorker(s, w, Offer), c) + if s.workers[w].Todo()[0] == c then 1 else 0
  {
    var t := ApplyWorker(s, w, Offer);
    WorkerDue(s, w, t.workers[w], c);
    OfferPays(s.workers[w].Todo(), c);
    assert Due(t, c) == Due(s.(workers := t.workers), c);
  }

  lemma OfferRecords(s: State, w: nat, c: Conn)
    requires w < |s.workers| && s.workers[w].Todo() != []
    ensures var t := ApplyWorker(s, w, Offer);
      && OfferedTo(t, c) == (if s.workers[w].Todo()[0] == c then OfferedTo(s, c) + [s.prepared] else OfferedTo(s, c))
      && t.snapshots == s.snapshots && t.cancelled == s.cancelled
  {
  }

  lemma OfferKeepsConn(s: State, w: nat, c: Conn)
    requires w < |s.workers| && s.workers[w].Todo() != [] && Numbered(s) && ConnInv(s, c)
    ensures ConnInv(ApplyWorker(s, w, Offer), c)
  {
    OfferDue(s, w, c);
    OfferRecords(s, w, c);
    if s.workers[w].Todo()[0] == c {
      OfferServes(c, Due(s, c), OfferedTo(s, c), s.snapshots, s.cancelled);
    }
  }

  lemma WorkerKeepsConn(s: State, w: nat, a: WorkerStep, c: Conn)
    requires w < |s.workers| && Numbered(s) && ConnInv(s, c)
    ensures ConnInv(ApplyWorker(s, w, a), c)
  {
    var t := ApplyWorker(s, w, a);
    if t != s {
      if a.Take? {
        TakeKeepsConn(s, w, c);
      } else if a.Offer? && s.workers[w].Todo() != [] {
        OfferKeepsConn(s, w, c);
      } else {
        WorkerDue(s, w, t.workers[w], c);
        assert Due(t, c) == Due(s.(workers := t.workers), c);
      }
    }
  }

  lemma CoordKeepsCounts(s: State, a: CoordStep)
    requires Numbered(s) && CountsAgree(s) && ViewIsCurrent(s)
    ensures Numbered(ApplyCoord(s, a)) && CountsAgree(ApplyCoord(s, a)) && ViewIsCurrent(ApplyCoord(s, a))
  {
    if s.coord.Idle? { IdleCrew(s.workers); }
  }

  lemma WorkerKeepsCounts(s: State, w: nat, a: WorkerStep)
    requires w < |s.workers| && CountsAgree(s)
    ensures CountsAgree(ApplyWorker(s, w, a))
  {
    var t := ApplyWorker(s, w, a);
    if t != s {
      EngagedUpdate(s.workers, w, t.workers[w]);
    }
  }

  lemma WorkerKeepsView(s: State, w: nat, a: WorkerStep)
    requires w < |s.workers| && Numbered(s) && ViewIsCurrent(s)
    ensures Numbered(ApplyWorker(s, w, a)) && ViewIsCurrent(ApplyWorker(s, w, a))
  {
  }

  lemma StepKeepsConn(s: State, a: Action, c: Conn)
    requires Numbered(s) && CountsAgree(s) && ConnInv(s, c)
    ensures ConnInv(Apply(s, a), c)
  {
    if a.Coordinate? {
      CoordKeepsConn(s, a.step, c);
    } else if a.Work? && a.worker < |s.workers| {
      WorkerKeepsConn(s, a.worker, a.job, c);
    }
  }

  lemma StepKeepsCounts(s: State, a: Action)
    requires Numbered(s) && CountsAgree(s) && ViewIsCurrent(s)
    ensures Numbered(Apply(s, a)) && CountsAgree(Apply(s, a)) && ViewIsCurrent(Apply(s, a))
  {
    if a.Coordinate? {
      CoordKeepsCounts(s, a.step);
    } else if a.Work? && a.worker < |s.workers| {
      WorkerKeepsCounts(s, a.worker, a.job);
      WorkerKeepsView(s, a.worker, a.job);
    }
  }

  lemma StepKeepsInv(s: State, a: Action)
    requires Inv(s)
    ensures Inv(Apply(s, a))
  {
    StepKeepsCounts(s, a);
    var t := Apply(s, a);
    forall c: Conn ensures ConnInv(t, c) { StepKeepsConn(s, a, c); }
  }

  lemma InitInv(capacity: nat, workers: nat)
    ensures Inv(Init(capacity, workers))
  {
    var s := Init(capacity, workers);
    IdleCrew(s.workers);
    forall c: Conn ensures ConnInv(s, c) { NothingHeld(s.workers, c); }
  }

  lemma {:induction false} RunKeepsInv(capacity: nat, workers: nat, run: seq<Action>)
    ensures Inv(Exec(capacity, workers, run))
  {
    if run == [] {
      InitInv(capacity, workers);
    } else {
      RunKeepsInv(capacity, workers, run[..|run| - 1]);
      StepKeepsInv(Exec(capacity, workers, run[..|run| - 1]), run[|run| - 1]);
    }
  }

  // The theorems.

  /** Neither channel ever blocks: while slices remain to be handed over there is room for
      one, and a worker with a report to make always finds room for it. */
  lemma ChannelsNeverBlock(capacity: nat, workers: nat, run: seq<Action>)
    ensures var s := Exec(capacity, workers, run);
      && (s.coord.Handing? && s.coord.rest != [] ==> |s.batches| < |s.workers|)
      && ((exists i :: 0 <= i < |s.workers| && s.workers[i].Reporting?) ==> s.reports < |s.workers|)
  {
    RunKeepsInv(capacity, workers, run);
    var s := Exec(capacity, workers, run);
    IdleCrew(s.workers);
    if i :| 0 <= i < |s.workers| && s.workers[i].Reporting? {
      assert s.workers[i].Weight() == 1;
    }
  }

  /** When the coordinator is about to put another message into the shared view, no slice
      of the previous one is queued, being sent or unreported; and whatever is being sent
      is sent with the message it was handed over for. */
  lemma ViewIsNeverShared(capacity: nat, workers: nat, run: seq<Action>)
    ensures var s := Exec(capacity, workers, run);
      && ViewIsCurrent(s)
      && (s.coord.Idle? ==>
            s.batches == [] && s.reports == 0 &&
            forall i :: 0 <= i < |s.workers| ==> s.workers[i].Ready? || s.workers[i].Gone?)
  {
    RunKeepsInv(capacity, workers, run);
    var s := Exec(capacity, workers, run);
    if s.coord.Idle? {
      IdleCrew(s.workers);
      forall i | 0 <= i < |s.workers| ensures s.workers[i].Ready? || s.workers[i].Gone? {
        assert s.workers[i].Weight() == 0;
      }
    }
  }

  /** Every session is offered broadcasts in the order they were accepted, each at most
      once and only those taken while it was registered. */
  lemma OfferedInOrder(capacity: nat, workers: nat, run: seq<Action>, c: Conn)
    ensures var s := Exec(capacity, workers, run);
      && Increasing(OfferedTo(s, c))
      && |s.snapshots| == s.next <= s.accepted
      && (forall m :: m in OfferedTo(s, c) ==> m < s.next && c in s.snapshots[m])
  {
    RunKeepsInv(capacity, workers, run);
    assert ConnInv(Exec(capacity, workers, run), c);
  }

  /** Until cancellation, once a message is done every session of its snapshot has been
      offered it: those offered a finished message are exactly those registered. */
  lemma FinishedReachesAll(capacity: nat, workers: nat, run: seq<Action>, m: nat, c: Conn)
    requires var s := Exec(capacity, workers, run);
      && m < s.next && !s.cancelled && (m < s.prepared || s.coord.Idle?)
    ensures var s := Exec(capacity, workers, run);
      && |s.snapshots| == s.next
      && (m in OfferedTo(s, c) <==> c in s.snapshots[m])
  {
    RunKeepsInv(capacity, workers, run);
    var s := Exec(capacity, workers, run);
    assert ConnInv(s, c);
    if s.coord.Idle? { NothingDue(s, c); }
  }

  // Every fan-out ends.

  /** A message is accepted exactly while the run is not cancelled and the queue has room, and
      no more than the capacity ever waits. */
  lemma AcceptedExactly(capacity: nat, workers: nat, run: seq<Action>)
    ensures var s := Exec(capacity, workers, run);
      && s.capacity == capacity && |s.workers| == workers
      && s.next <= s.accepted <= s.next + capacity
      && Apply(s, Accept) == if !s.cancelled && s.accepted < s.next + capacity then s.(accepted := s.accepted + 1) else s
  {
    RunKeepsInv(capacity, workers, run);
    SizesStay(capacity, workers, run);
  }

  lemma SizesStep(s: State, a: Action)
    ensures Apply(s, a).capacity == s.capacity && |Apply(s, a).workers| == |s.workers|
  {
  }

  lemma {:induction false} SizesStay(capacity: nat, workers: nat, run: seq<Action>)
    ensures Exec(capacity, workers, run).capacity == capacity && |Exec(capacity, workers, run).workers| == workers
  {
    if run != [] {
      SizesStay(capacity, workers, run[..|run| - 1]);
      SizesStep(Exec(capacity, workers, run[..|run| - 1]), run[|run| - 1]);
    }
  }

  /** A new run is idle with all workers ready. Once cancelled it takes nothing more: the
      coordinator gives up, workers skip what they hold and leave. */
  lemma CancelExactly(capacity: nat, workers: nat, s: State, w: nat)
    requires w < |s.workers|
    ensures var i := Exec(capacity, workers, []);
      && !i.cancelled && i.coord.Idle? && i.accepted == i.next == 0 && i.offered == map[]
      && |i.workers| == workers && forall k :: 0 <= k < workers ==> i.workers[k].Ready?
    ensures Apply(s, Cancel) == s.(cancelled := true)
    ensures Apply(s, Coordinate(GiveUp)) == if s.cancelled then s.(coord := Ended) else s
    ensures s.cancelled && s.workers[w].Busy? ==> Apply(s, Action.Work(w, Skip)) == s.(workers := s.workers[w := Reporting])
    ensures s.cancelled && s.workers[w].Ready? ==> Apply(s, Action.Work(w, Leave)) == s.(workers := s.workers[w := Gone])
    ensures !s.cancelled ==> Apply(s, Action.Work(w, Skip)) == s && Apply(s, Action.Work(w, Leave)) == s
  {
  }

  /** Whatever the batching loop makes of a snapshot can be handed out. */
  lemma SlicesCanStart(sessions: seq<Conn>, slices: seq<seq<Conn>>, workers: nat)
    requires forall i, j :: 0 <= i < j < |sessions| ==> sessions[i] != sessions[j]
    requires Concat(slices) == sessions && |slices| <= workers
    ensures ValidSlices(slices, workers)
  {
  }

  /** An idle coordinator takes the oldest message accepted and hands its slices out. */
  lemma StartsExactly(s: State, slices: seq<seq<Conn>>)
    requires s.coord.Idle? && ValidSlices(slices, |s.workers|)
    ensures var t := Apply(s, Coordinate(Start(slices)));
      if s.next == s.accepted then t == s
      else
        && t.prepared == s.next && t.next == s.next + 1 && t.coord == Handing(slices) && t.owed == 0
        && t.snapshots == s.snapshots + [Concat(slices)]
  {
  }

  function SliceWork(slices: seq<seq<Conn>>): nat {
    if slices == [] then 0 else |slices[0]| + 5 + SliceWork(slices[1..])
  }

  function BatchWork(batches: seq<Batch>): nat {
    if batches == [] then 0 else |batches[0].todo| + 4 + BatchWork(batches[1..])
  }

  function Load(k: Worker): nat {
    match k
    case Busy(batch) => |batch.todo| + 3
    case Reporting => 2
    case _ => 0
  }

  function CrewWork(workers: seq<Worker>): nat {
    if workers == [] then 0 else Load(workers[0]) + CrewWork(workers[1..])
  }

  /** How many steps the fan-out still takes: one for each session, and five for each slice on
      its way from the coordinator to a worker and back. */
  function Work(s: State): nat {
    SliceWork(Rest(s.coord)) + (if s.coord.Handing? then 1 else 0) + BatchWork(s.batches) + CrewWork(s.workers) + s.reports
  }

  lemma {:induction false} BatchWorkSnoc(batches: seq<Batch>, b: Batch)
    ensures BatchWork(batches + [b]) == BatchWork(batches) + |b.todo| + 4
  {
    if batches == [] {
      assert batches + [b] == [b];
    } else {
      assert (batches + [b])[1..] == batches[1..] + [b];
      BatchWorkSnoc(batches[1..], b);
    }
  }

  lemma {:induction false} CrewWorkUpdate(workers: seq<Worker>, w: nat, k: Worker)
    requires w < |workers|
    ensures CrewWork(workers[w := k]) == CrewWork(workers) - Load(workers[w]) + Load(k)
  {
    if w == 0 {
      assert workers[w := k][1..] == workers[1..];
    } else {
      assert workers[w := k][1..] == workers[1..][w - 1 := k];
      CrewWorkUpdate(workers[1..], w - 1, k);
    }
  }

  /** A step of the coordinator or of a worker within a fan-out, cancellation aside. */
  predicate Working(a: Action) {
    match a
    case Coordinate(step) => step.HandOver? || step.Collect?
    case Work(_, job) => job.Take? || job.Offer? || job.Report?
    case _ => false
  }

  lemma CrewWorkGoesDown(s: State, w: nat, job: WorkerStep)
    requires w < |s.workers| && (job.Take? || job.Offer? || job.Report?) && ApplyWorker(s, w, job) != s
    ensures Work(s) == Work(ApplyWorker(s, w, job)) + 1
  {
    CrewWorkUpdate(s.workers, w, ApplyWorker(s, w, job).workers[w]);
  }

  lemma CoordWorkGoesDown(s: State, step: CoordStep)
    requires (step.HandOver? || step.Collect?) && ApplyCoord(s, step) != s
    ensures Work(s) == Work(ApplyCoord(s, step)) + 1
  {
    if step.HandOver? && s.coord.rest != [] {
      BatchWorkSnoc(s.batches, Batch(s.prepared, s.coord.rest[0]));
    }
  }

  /** Each such step that does anything at all is one step less to take. */
  lemma WorkGoesDown(s: State, a: Action)
    requires Working(a) && Apply(s, a) != s
    ensures Work(s) == Work(Apply(s, a)) + 1
  {
    if a.Work? {
      CrewWorkGoesDown(s, a.worker, a.job);
    } else {
      CoordWorkGoesDown(s, a.step);
    }
  }

  lemma CollectorFinds(s: State) returns (a: Action)
    requires CountsAgree(s) && ViewIsCurrent(s) && !s.cancelled && s.coord.Collecting?
    ensures Working(a) && Apply(s, a) != s
  {
    IdleCrew(s.workers);
    if s.reports > 0 {
      a := Coordinate(Collect);
    } else if Engaged(s.workers) > 0 {
      var i :| 0 <= i < |s.workers| && s.workers[i].Weight() != 0;
      a := Action.Work(i, if s.workers[i].Busy? then Offer else Report);
      var t := Apply(s, a);
      assert t.workers[i] != s.workers[i];
    } else {
      assert s.workers[0].Weight() == 0;
      a := Action.Work(0, Take);
      var t := Apply(s, a);
      assert |t.batches| < |s.batches|;
    }
  }

  /** No fan-out gets stuck: in every run that is not cancelled, a message being fanned out
      always has a next step, which leaves one step less. So it is done after exactly as
      many steps as Work says, whichever they are. */
  lemma FanOutNeverStalls(capacity: nat, workers: nat, run: seq<Action>) returns (a: Action)
    requires !Exec(capacity, workers, run).cancelled && !Exec(capacity, workers, run).coord.Idle?
    ensures Working(a)
    ensures Work(Exec(capacity, workers, run)) == Work(Exec(capacity, workers, run + [a])) + 1
  {
    RunKeepsInv(capacity, workers, run);
    var s := Exec(capacity, workers, run);
    if s.coord.Handing? {
      a := Coordinate(HandOver);
      assert Apply(s, a).coord != s.coord;
    } else {
      a := CollectorFinds(s);
    }
    WorkGoesDown(s, a);
    assert (run + [a])[..|run|] == run;
  }

  /** When there is nothing left to do the coordinator is idle, and only then. */
  lemma DoneMeansIdle(capacity: nat, workers: nat, run: seq<Action>)
    requires !Exec(capacity, workers, run).cancelled
    ensures Work(Exec(capacity, workers, run)) == 0 <==> Exec(capacity, workers, run).coord.Idle?
  {
    RunKeepsInv(capacity, workers, run);
    var s := Exec(capacity, workers, run);
    if s.coord.Idle? {
      NoLoad(s.workers);
    } else {
      var a := FanOutNeverStalls(capacity, workers, run);
    }
  }

  lemma {:induction false} NoLoad(workers: seq<Worker>)
    requires Engaged(workers) == 0
    ensures CrewWork(workers) == 0
  {
    if workers != [] { NoLoad(workers[1..]); }
  }
}
