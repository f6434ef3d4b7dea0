/**
 Reordering: which bursts of consecutive numbers are delivered once and in order, depending
 on the order of their arrival and on when the start message comes.
 */
module SeqQueueDelivery {
  import opened Collections
  import opened SeqQueue
  import SeqQueueRuns

  // ---------- slots and numbers ----------

  /** The slot of the i-th number after a start, the first one being `first`; they go round and round. */
  function Place(size: nat, first: nat, i: nat): (r: nat)
    requires first < size
    ensures r < size
  {
    if i == 0 then first else Wrap(size, Place(size, first, i - 1) + 1)
  }

  lemma {:induction false} PlaceIsMod(size: nat, first: nat, i: nat)
    requires first < size
    ensures Place(size, first, i) == (first + i) % size
  {
    if i == 0 {
      SeqQueueRuns.SmallMod(first, size);
    } else {
      PlaceIsMod(size, first, i - 1);
      SeqQueueRuns.WrapIsMod(size, first + i - 1);
    }
  }

  /** How many slots one slot lies ahead of another. */
  function Ahead(size: nat, from: nat, pos: nat): (r: nat)
    requires from < size && pos < size
    ensures r < size
  {
    if pos >= from then pos - from else pos + size - from
  }

  /** Numbers less than a lap apart are as far apart as their slots. */
  lemma {:induction false} PlaceAhead(size: nat, first: nat, i: nat, d: nat)
    requires first < size && d < size
    ensures Ahead(size, Place(size, first, i), Place(size, first, i + d)) == d
    decreases d
  {
    if d > 0 {
      PlaceAhead(size, first, i, d - 1);
    }
  }

  function Upto(n: nat): (r: set<nat>)
    ensures forall i: nat :: i in r <==> i < n
  {
    if n == 0 then {} else Upto(n - 1) + {n - 1}
  }

  lemma {:induction false} UptoSize(n: nat)
    ensures |Upto(n)| == n
  {
    if n > 0 {
      UptoSize(n - 1);
      assert Upto(n) == Upto(n - 1) + {n - 1};
    }
  }

  lemma SubsetSize(a: set<nat>, b: set<nat>)
    requires a <= b
    ensures |a| <= |b| && (|a| == |b| ==> a == b)
  {
    assert b == a + (b - a);
    assert |b| == |a| + |b - a|;
  }

  /** What a burst consists of: the handlers of consecutive numbers; only the last may stop the queue. */
  datatype Burst = Burst(first: nat, handlers: seq<Handler>) {
    ghost predicate Fits(size: nat) {
      && first < size
      && (forall i :: 0 <= i < |handlers| - 1 ==> !handlers[i].stops)
    }

    function Calls(size: nat, n: nat): (r: seq<Event>)
      requires first < size && n <= |handlers|
      ensures |r| == n
    {
      seq(n, i requires 0 <= i < n => Delivered(Place(size, first, i), handlers[i]))
    }

    /** What a slot holds when `arrived` have been pushed and the first `done` delivered. */
    ghost function Slot(size: nat, arrived: set<nat>, done: nat, pos: nat): (r: Option<Handler>)
      requires first < size && pos < size
    {
      var i := done + Ahead(size, Place(size, first, done), pos);
      if i in arrived && i < |handlers| then Some(handlers[i]) else None
    }
  }

  /** The slots hold exactly what has arrived and is not delivered. */
  ghost predicate Holds(s: State, b: Burst, arrived: set<nat>, done: nat) {
    b.first < |s.slots| && forall pos :: 0 <= pos < |s.slots| ==> s.slots[pos] == b.Slot(|s.slots|, arrived, done, pos)
  }

  /**
   A queue that has delivered the first `done` of a burst and holds the rest of those that
   arrived, none of them a whole lap ahead.
   */
  ghost predicate Progress(s: State, b: Burst, trace: seq<Event>, arrived: set<nat>, done: nat) {
    var size, k := |s.slots|, |b.handlers|;
    && b.first < size && done <= k
    && Upto(done) <= arrived <= Upto(k) && arrived <= Upto(done + size)
    && s.waiting + done == |arrived|
    && Holds(s, b, arrived, done)
    && s.trace == trace + b.Calls(size, done)
  }

  /** The queue is open and awaits the number after those delivered; a final stop has closed it. */
  ghost predicate Awaiting(s: State, b: Burst, done: nat)
    requires b.first < |s.slots| && done <= |b.handlers|
  {
    && Wrap(|s.slots|, s.lo) == Place(|s.slots|, b.first, done)
    && s.locked == (done == |b.handlers| && done > 0 && b.handlers[done - 1].stops)
  }

  /** Seen from the next slot, all others are one closer, and the slot itself is a lap away. */
  lemma AheadNext(size: nat, from: nat, pos: nat)
    requires from < size && pos < size
    ensures Ahead(size, Wrap(size, from + 1), pos) == if pos == from then size - 1 else Ahead(size, from, pos) - 1
  {
  }

  lemma SlotNext(b: Burst, size: nat, arrived: set<nat>, done: nat, pos: nat)
    requires b.first < size && pos < size && arrived <= Upto(done + size)
    ensures b.Slot(size, arrived, done + 1, pos) ==
            if pos == Place(size, b.first, done) then None else b.Slot(size, arrived, done, pos)
  {
    AheadNext(size, Place(size, b.first, done), pos);
  }

  lemma SlotDue(b: Burst, size: nat, arrived: set<nat>, done: nat)
    requires b.first < size
    ensures b.Slot(size, arrived, done, Place(size, b.first, done)) ==
            if done in arrived && done < |b.handlers| then Some(b.handlers[done]) else None
  {
    var pos := Place(size, b.first, done);
    assert Ahead(size, pos, pos) == 0;
  }

  lemma DeliverHolds(s: State, b: Burst, arrived: set<nat>, done: nat)
    requires Holds(s, b, arrived, done) && arrived <= Upto(done + |s.slots|)
    requires s.waiting > 0 && done in arrived && done < |b.handlers|
    ensures var pos := Place(|s.slots|, b.first, done);
      s.slots[pos] == Some(b.handlers[done]) && Holds(Deliver(s, pos), b, arrived, done + 1)
  {
    var size, pos := |s.slots|, Place(|s.slots|, b.first, done);
    SlotDue(b, size, arrived, done);
    forall p | 0 <= p < size
      ensures Deliver(s, pos).slots[p] == b.Slot(size, arrived, done + 1, p)
    {
      SlotNext(b, size, arrived, done, p);
    }
  }

  lemma CallsNext(size: nat, b: Burst, trace: seq<Event>, done: nat)
    requires b.first < size && done < |b.handlers|
    ensures trace + b.Calls(size, done) + [Delivered(Place(size, b.first, done), b.handlers[done])] ==
            trace + b.Calls(size, done + 1)
  {
    assert b.Calls(size, done + 1) ==
           b.Calls(size, done) + [Delivered(Place(size, b.first, done), b.handlers[done])];
  }

  lemma DeliverProgress(s: State, b: Burst, trace: seq<Event>, arrived: set<nat>, done: nat)
    requires b.Fits(|s.slots|) && Progress(s, b, trace, arrived, done) && Awaiting(s, b, done)
    requires s.waiting > 0 && done in arrived
    ensures var pos := Place(|s.slots|, b.first, done);
      && s.slots[pos] == Some(b.handlers[done])
      && Progress(Deliver(s, pos), b, trace, arrived, done + 1)
      && Awaiting(Deliver(s, pos), b, done + 1)
  {
    DeliverHolds(s, b, arrived, done);
    CallsNext(|s.slots|, b, trace, done);
  }

  // ---------- who waits for whom ----------

  /** How many of the first k numbers are there without a gap. */
  function Ready(arrived: set<nat>, k: nat, from: nat := 0): (r: nat)
    requires from <= k
    ensures from <= r <= k
    ensures r == k || r !in arrived
    ensures forall i :: from <= i < r ==> i in arrived
    decreases k - from
  {
    if from < k && from in arrived then Ready(arrived, k, from + 1) else from
  }

  /** Fewer wait for a missing number than may. */
  predicate Roomy(arrived: set<nat>, k: nat, maxWaiting: int) {
    |arrived| - Ready(arrived, k) < Max(1, maxWaiting)
  }

  lemma ReadyIs(arrived: set<nat>, k: nat, done: nat)
    requires done <= k && Upto(done) <= arrived <= Upto(k) && done !in arrived
    ensures Ready(arrived, k) == done
  {
    assert forall i :: 0 <= i < done ==> i in Upto(done);
  }

  /** Since that trace something was skipped. */
  ghost predicate Lost(s: State, trace: seq<Event>) {
    exists i :: |trace| <= i < |s.trace| && s.trace[i].Skipped?
  }

  /** The queue is open and awaits the first number that has not arrived. */
  ghost predicate Open(s: State, b: Burst, trace: seq<Event>, arrived: set<nat>) {
    var done := Ready(arrived, |b.handlers|);
    Progress(s, b, trace, arrived, done) && Awaiting(s, b, done)
  }

  lemma CrowdedSkips(maxWaiting: int, s: State, trace: seq<Event>, pos: nat)
    requires s.waiting >= Max(1, maxWaiting) && |trace| <= |s.trace|
    requires pos == Wrap(|s.slots|, s.lo) && SlotAt(s.slots, pos) == None
    ensures Lost(Consume(maxWaiting, s), trace)
  {
    var later := SeqQueueRuns.ConsumeInOrder(maxWaiting, Skip(s, pos));
    assert Consume(maxWaiting, s).trace[|s.trace|] == Skipped(pos);
  }

  /** What is there and due is delivered. */
  lemma ConsumeDue(maxWaiting: int, s: State, b: Burst, trace: seq<Event>, arrived: set<nat>, done: nat)
    requires b.Fits(|s.slots|) && Progress(s, b, trace, arrived, done) && Awaiting(s, b, done) && done in arrived
    ensures s.waiting > 0
    ensures var pos := Place(|s.slots|, b.first, done);
      && s.slots[pos] == Some(b.handlers[done])
      && Progress(Deliver(s, pos), b, trace, arrived, done + 1) && Awaiting(Deliver(s, pos), b, done + 1)
      && Consume(maxWaiting, s) == Consume(maxWaiting, Deliver(s, pos))
  {
    UptoSize(done);
    SubsetSize(Upto(done) + {done}, arrived);
    DeliverProgress(s, b, trace, arrived, done);
  }

  /** A missing number is awaited, or skipped if too many wait. */
  lemma ConsumeMissing(maxWaiting: int, s: State, b: Burst, trace: seq<Event>, arrived: set<nat>, done: nat)
    requires b.Fits(|s.slots|) && Progress(s, b, trace, arrived, done) && Awaiting(s, b, done) && done !in arrived
    ensures done == Ready(arrived, |b.handlers|)
    ensures var r := Consume(maxWaiting, s);
      if Roomy(arrived, |b.handlers|, maxWaiting) then Progress(r, b, trace, arrived, done) && Awaiting(r, b, done)
      else Lost(r, trace)
  {
    var pos := Place(|s.slots|, b.first, done);
    ReadyIs(arrived, |b.handlers|, done);
    SlotDue(b, |s.slots|, arrived, done);
    if !Roomy(arrived, |b.handlers|, maxWaiting) {
      CrowdedSkips(maxWaiting, s, trace, pos);
    }
  }

  /** Consuming delivers the burst up to the first missing number, which is skipped iff too many wait. */
  lemma {:induction false} ConsumeProgress(
    maxWaiting: int, s: State, b: Burst, trace: seq<Event>, arrived: set<nat>, done: nat)
    requires b.Fits(|s.slots|) && Progress(s, b, trace, arrived, done) && Awaiting(s, b, done)
    ensures var r := Consume(maxWaiting, s);
      if Roomy(arrived, |b.handlers|, maxWaiting) then Open(r, b, trace, arrived) else Lost(r, trace)
    decreases s.waiting
  {
    if done in arrived {
      ConsumeDue(maxWaiting, s, b, trace, arrived, done);
      ConsumeProgress(maxWaiting, Deliver(s, Place(|s.slots|, b.first, done)), b, trace, arrived, done + 1);
    } else {
      ConsumeMissing(maxWaiting, s, b, trace, arrived, done);
    }
  }

  /** The i-th of the burst is stored and waits. */
  function Filled(s: State, b: Burst, i: nat): (r: State)
    requires b.first < |s.slots| && i < |b.handlers|
  {
    var pos := Place(|s.slots|, b.first, i);
    s.(slots := s.slots[pos := Some(b.handlers[i])], waiting := s.waiting + 1)
  }

  lemma FillHolds(s: State, b: Burst, arrived: set<nat>, done: nat, i: nat)
    requires Holds(s, b, arrived, done) && done <= i < done + |s.slots| && i < |b.handlers|
    ensures Holds(Filled(s, b, i), b, arrived + {i}, done)
  {
    var size := |s.slots|;
    PlaceAhead(size, b.first, done, i - done);
    forall p | 0 <= p < size
      ensures Filled(s, b, i).slots[p] == b.Slot(size, arrived + {i}, done, p)
    {
      assert s.slots[p] == b.Slot(size, arrived, done, p);
    }
  }

  /** A number of the burst arrives for the first time. */
  lemma PushProgress(s: State, b: Burst, trace: seq<Event>, arrived: set<nat>, done: nat, i: nat)
    requires Progress(s, b, trace, arrived, done)
    requires i < |b.handlers| && i !in arrived && i < done + |s.slots|
    ensures done <= i && Progress(Filled(s, b, i), b, trace, arrived + {i}, done)
  {
    FillHolds(s, b, arrived, done, i);
  }

  // ---------- one arrival ----------

  /** Nothing was delivered yet, the queue being closed. */
  ghost predicate Closed(s: State, b: Burst, trace: seq<Event>, arrived: set<nat>) {
    Progress(s, b, trace, arrived, 0) && s.locked
  }

  function Arrival(size: nat, b: Burst, i: nat): (r: Op)
    requires b.first < size && i < |b.handlers|
  {
    Push(Place(size, b.first, i), b.handlers[i])
  }

  lemma ClosedPush(maxWaiting: int, s: State, b: Burst, trace: seq<Event>, arrived: set<nat>, i: nat)
    requires Closed(s, b, trace, arrived)
    requires i < |b.handlers| && i !in arrived && i < |s.slots|
    ensures Closed(Step(maxWaiting, s, Arrival(|s.slots|, b, i)), b, trace, arrived + {i})
  {
    PushProgress(s, b, trace, arrived, 0, i);
  }

  lemma StartOpens(maxWaiting: int, s: State, seqNo: nat, b: Burst, trace: seq<Event>, arrived: set<nat>)
    requires b.Fits(|s.slots|) && Closed(s, b, trace, arrived)
    requires b.first == Wrap(|s.slots|, seqNo + 1)
    ensures var r := Step(maxWaiting, s, Start(seqNo));
      if Roomy(arrived, |b.handlers|, maxWaiting) then Open(r, b, trace, arrived) else Lost(r, trace)
  {
    ConsumeProgress(maxWaiting, s.(locked := false, lo := seqNo + 1), b, trace, arrived, 0);
  }

  /** Before all are delivered no final stop has closed the queue. */
  lemma FilledAwaits(maxWaiting: int, s: State, b: Burst, i: nat, done: nat)
    requires b.first < |s.slots| && i < |b.handlers| && done <= i && Awaiting(s, b, done)
    ensures Awaiting(Filled(s, b, i), b, done)
    ensures Step(maxWaiting, s, Arrival(|s.slots|, b, i)) == Consume(maxWaiting, Filled(s, b, i))
  {
  }

  lemma OpenPush(maxWaiting: int, s: State, b: Burst, trace: seq<Event>, arrived: set<nat>, i: nat)
    requires b.Fits(|s.slots|) && Open(s, b, trace, arrived)
    requires i < |b.handlers| && i !in arrived && i < Ready(arrived, |b.handlers|) + |s.slots|
    ensures var r := Step(maxWaiting, s, Arrival(|s.slots|, b, i));
      if Roomy(arrived + {i}, |b.handlers|, maxWaiting) then Open(r, b, trace, arrived + {i}) else Lost(r, trace)
  {
    var done := Ready(arrived, |b.handlers|);
    PushProgress(s, b, trace, arrived, done, i);
    FilledAwaits(maxWaiting, s, b, i, done);
    ConsumeProgress(maxWaiting, Filled(s, b, i), b, trace, arrived + {i}, done);
  }

  lemma LostPush(maxWaiting: int, s: State, trace: seq<Event>, op: Op)
    requires Lost(s, trace) && !op.Start?
    ensures Lost(Step(maxWaiting, s, op), trace)
  {
    var i :| |trace| <= i < |s.trace| && s.trace[i].Skipped?;
    var events := SeqQueueRuns.StepInOrder(maxWaiting, s, op);
    assert Step(maxWaiting, s, op).trace[i] == s.trace[i];
  }

  // ---------- whole bursts ----------

  function Elements(order: seq<nat>): (r: set<nat>) {
    if order == [] then {} else Elements(order[..|order| - 1]) + {order[|order| - 1]}
  }

  lemma {:induction false} ElementsBound(order: seq<nat>, k: nat)
    requires forall i :: 0 <= i < |order| ==> order[i] < k
    ensures Elements(order) <= Upto(k)
  {
    if order != [] {
      ElementsBound(order[..|order| - 1], k);
    }
  }

  lemma {:induction false} NotAmong(order: seq<nat>, x: nat)
    requires forall i :: 0 <= i < |order| ==> order[i] != x
    ensures x !in Elements(order)
  {
    if order != [] {
      NotAmong(order[..|order| - 1], x);
    }
  }

  ghost predicate Permutation(order: seq<nat>, k: nat) {
    && |order| == k
    && (forall i :: 0 <= i < k ==> order[i] < k)
    && Distinct(order)
  }

  lemma {:induction false} ElementsSize(order: seq<nat>)
    requires Distinct(order)
    ensures |Elements(order)| == |order|
  {
    if order != [] {
      var n := |order| - 1;
      ElementsSize(order[..n]);
      NotAmong(order[..n], order[n]);
    }
  }

  lemma NextElement(order: seq<nat>, n: nat)
    requires Distinct(order) && n < |order|
    ensures Elements(order[..n + 1]) == Elements(order[..n]) + {order[n]} && order[n] !in Elements(order[..n])
  {
    assert order[..n + 1][..n] == order[..n];
    NotAmong(order[..n], order[n]);
  }

  lemma AllArrived(order: seq<nat>)
    requires Permutation(order, |order|)
    ensures Elements(order) == Upto(|order|)
  {
    ElementsSize(order);
    UptoSize(|order|);
    ElementsBound(order, |order|);
    SubsetSize(Elements(order), Upto(|order|));
  }

  function Pushes(size: nat, b: Burst, order: seq<nat>): (r: seq<Op>)
    requires b.first < size
    requires forall i :: 0 <= i < |order| ==> order[i] < |b.handlers|
    ensures |r| == |order|
    ensures forall j :: 0 <= j < |r| ==> r[j] == Arrival(size, b, order[j])
  {
    seq(|order|, j requires 0 <= j < |order| => Arrival(size, b, order[j]))
  }

  /** Of the first n arrivals, how many are there without a gap. */
  function ReadyAfter(order: seq<nat>, n: nat): (r: nat)
    requires n <= |order|
  {
    Ready(Elements(order[..n]), |order|)
  }

  /** Of the first n arrivals fewer wait for a missing number than may. */
  predicate Calm(order: seq<nat>, n: nat, maxWaiting: int)
    requires n <= |order|
  {
    n - ReadyAfter(order, n) < Max(1, maxWaiting)
  }

  ghost predicate CalmUpto(order: seq<nat>, at: nat, n: nat, maxWaiting: int)
    requires n <= |order|
  {
    forall m :: at <= m <= n ==> Calm(order, m, maxWaiting)
  }

  /** From the start on, fewer numbers than may ever wait for a missing one. */
  ghost predicate Patient(order: seq<nat>, at: nat, maxWaiting: int) {
    CalmUpto(order, at, |order|, maxWaiting)
  }

  /** No number arrives a whole lap ahead of the awaited one, which before the start is the first. */
  ghost predicate WithinLap(order: seq<nat>, at: nat, size: nat) {
    forall n :: 0 <= n < |order| ==> order[n] < size + if n < at then 0 else ReadyAfter(order, n)
  }

  lemma CalmIsRoomy(order: seq<nat>, n: nat, maxWaiting: int)
    requires Distinct(order) && n <= |order|
    ensures Calm(order, n, maxWaiting) <==> Roomy(Elements(order[..n]), |order|, maxWaiting)
  {
    ElementsSize(order[..n]);
  }

  lemma RunSnoc(maxWaiting: int, s: State, ops: seq<Op>, op: Op)
    ensures Run(maxWaiting, s, ops + [op]) == Step(maxWaiting, Run(maxWaiting, s, ops), op)
  {
    assert (ops + [op])[..|ops|] == ops;
  }

  lemma RunParts(maxWaiting: int, s: State, a: seq<Op>, op: Op, b: seq<Op>)
    ensures Run(maxWaiting, s, a + [op] + b) == Run(maxWaiting, Step(maxWaiting, Run(maxWaiting, s, a), op), b)
  {
    SeqQueueRuns.RunAppend(maxWaiting, s, a + [op], b);
    assert (a + [op])[..|a|] == a;
  }

  /** A closed queue with nothing in it. */
  ghost predicate Idle(s: State) {
    s.locked && s.waiting == 0 && forall pos :: 0 <= pos < |s.slots| ==> s.slots[pos] == None
  }

  /** The calls up to the n-th arrival, the start having come after `at` of them. */
  function Schedule(size: nat, seqNo: nat, b: Burst, order: seq<nat>, at: nat, n: nat): (r: seq<Op>)
    requires b.first < size && at <= n <= |order|
    requires forall i :: 0 <= i < |order| ==> order[i] < |b.handlers|
  {
    var pushes := Pushes(size, b, order);
    pushes[..at] + [Start(seqNo)] + pushes[at..n]
  }

  lemma ScheduleNext(size: nat, seqNo: nat, b: Burst, order: seq<nat>, at: nat, n: nat)
    requires b.first < size && at < n <= |order|
    requires forall i :: 0 <= i < |order| ==> order[i] < |b.handlers|
    ensures Schedule(size, seqNo, b, order, at, n) ==
            Schedule(size, seqNo, b, order, at, n - 1) + [Arrival(size, b, order[n - 1])]
  {
    var pushes := Pushes(size, b, order);
    assert pushes[at..n] == pushes[at..n - 1] + [pushes[n - 1]];
  }

  lemma OnlyCalls(r: State, trace: seq<Event>, b: Burst, n: nat)
    requires b.first < |r.slots| && n <= |b.handlers| && r.trace == trace + b.Calls(|r.slots|, n)
    ensures !Lost(r, trace)
  {
    var calls := b.Calls(|r.slots|, n);
    forall i | |trace| <= i < |r.trace|
      ensures !r.trace[i].Skipped?
    {
      assert r.trace[i] == calls[i - |trace|];
    }
  }

  /** As long as all was calm nothing is skipped, and the queue is as far as it can be. */
  ghost predicate Expected(s: State, b: Burst, trace: seq<Event>, arrived: set<nat>, calm: bool) {
    Open(s, b, trace, arrived) == calm && Lost(s, trace) == !calm
  }

  lemma OpenOrLost(s: State, b: Burst, trace: seq<Event>, arrived: set<nat>, calm: bool)
    requires if calm then Open(s, b, trace, arrived) else Lost(s, trace)
    ensures Expected(s, b, trace, arrived, calm)
  {
    if Open(s, b, trace, arrived) {
      OnlyCalls(s, trace, b, Ready(arrived, |b.handlers|));
    }
  }

  lemma Arrive(
    maxWaiting: int, s: State, b: Burst, trace: seq<Event>, arrived: set<nat>, i: nat, calm: bool, still: bool)
    requires b.Fits(|s.slots|) && i < |b.handlers| && i !in arrived && i < Ready(arrived, |b.handlers|) + |s.slots|
    requires still == (calm && Roomy(arrived + {i}, |b.handlers|, maxWaiting))
    requires Expected(s, b, trace, arrived, calm)
    ensures Expected(Step(maxWaiting, s, Arrival(|s.slots|, b, i)), b, trace, arrived + {i}, still)
  {
    var op := Arrival(|s.slots|, b, i);
    if calm {
      OpenPush(maxWaiting, s, b, trace, arrived, i);
    } else {
      LostPush(maxWaiting, s, trace, op);
    }
    OpenOrLost(Step(maxWaiting, s, op), b, trace, arrived + {i}, still);
  }

  /** A burst that comes to an idle queue, with the start after `at` of its numbers. */
  datatype Setting = Setting(maxWaiting: int, queue: State, seqNo: nat, burst: Burst, order: seq<nat>, at: nat) {
    ghost predicate Valid() {
      && Idle(queue) && burst.Fits(|queue.slots|) && burst.first == Wrap(|queue.slots|, seqNo + 1)
      && Permutation(order, |burst.handlers|) && at <= |order| && WithinLap(order, at, |queue.slots|)
    }

    ghost function Before(n: nat): (r: State)
      requires Valid() && n <= at
    {
      Run(maxWaiting, queue, Pushes(|queue.slots|, burst, order)[..n])
    }

    ghost function After(n: nat): (r: State)
      requires Valid() && at <= n <= |order|
    {
      Run(maxWaiting, queue, Schedule(|queue.slots|, seqNo, burst, order, at, n))
    }
  }

  type Session = c: Setting | c.Valid()
    witness Setting(1, State(0, 0, [None], true, []), 0, Burst(0, []), [], 0)

  lemma BeforeNext(c: Session, n: nat)
    requires 0 < n <= c.at
    ensures c.Before(n) == Step(c.maxWaiting, c.Before(n - 1), Arrival(|c.queue.slots|, c.burst, c.order[n - 1]))
  {
    var pushes := Pushes(|c.queue.slots|, c.burst, c.order);
    assert pushes[..n] == pushes[..n - 1] + [pushes[n - 1]];
    RunSnoc(c.maxWaiting, c.queue, pushes[..n - 1], pushes[n - 1]);
  }

  lemma AfterNext(c: Session, n: nat)
    requires c.at < n <= |c.order|
    ensures c.After(n) == Step(c.maxWaiting, c.After(n - 1), Arrival(|c.queue.slots|, c.burst, c.order[n - 1]))
  {
    var size := |c.queue.slots|;
    ScheduleNext(size, c.seqNo, c.burst, c.order, c.at, n);
    RunSnoc(c.maxWaiting, c.queue, Schedule(size, c.seqNo, c.burst, c.order, c.at, n - 1),
            Arrival(size, c.burst, c.order[n - 1]));
  }

  lemma AfterFirst(c: Session)
    ensures c.After(c.at) == Step(c.maxWaiting, c.Before(c.at), Start(c.seqNo))
  {
    var size := |c.queue.slots|;
    var pushes := Pushes(size, c.burst, c.order);
    assert Schedule(size, c.seqNo, c.burst, c.order, c.at, c.at) == pushes[..c.at] + [Start(c.seqNo)];
    RunSnoc(c.maxWaiting, c.queue, pushes[..c.at], Start(c.seqNo));
  }

  lemma EarlyArrival(c: Session, s: State, n: nat)
    requires |s.slots| == |c.queue.slots| && n < c.at
    ensures Closed(s, c.burst, c.queue.trace, Elements(c.order[..n])) ==>
            Closed(Step(c.maxWaiting, s, Arrival(|s.slots|, c.burst, c.order[n])), c.burst, c.queue.trace,
                   Elements(c.order[..n + 1]))
  {
    if Closed(s, c.burst, c.queue.trace, Elements(c.order[..n])) {
      NextElement(c.order, n);
      ClosedPush(c.maxWaiting, s, c.burst, c.queue.trace, Elements(c.order[..n]), c.order[n]);
    }
  }

  /** After n arrivals before the start. */
  lemma {:induction false} BeforeStart(c: Session, n: nat)
    requires n <= c.at
    ensures Closed(c.Before(n), c.burst, c.queue.trace, Elements(c.order[..n]))
  {
    if n == 0 {
      NothingYet(c);
    } else {
      BeforeStart(c, n - 1);
      BeforeNext(c, n);
      EarlyArrival(c, c.Before(n - 1), n - 1);
    }
  }

  lemma NothingYet(c: Session)
    ensures Closed(c.Before(0), c.burst, c.queue.trace, Elements(c.order[..0]))
  {
    assert c.Before(0) == c.queue && Elements(c.order[..0]) == {};
    assert c.queue.trace + c.burst.Calls(|c.queue.slots|, 0) == c.queue.trace;
  }

  lemma AtStart(c: Session)
    ensures Expected(c.After(c.at), c.burst, c.queue.trace, Elements(c.order[..c.at]),
                     Calm(c.order, c.at, c.maxWaiting))
  {
    BeforeStart(c, c.at);
    AfterFirst(c);
    CalmIsRoomy(c.order, c.at, c.maxWaiting);
    StartOpens(c.maxWaiting, c.Before(c.at), c.seqNo, c.burst, c.queue.trace, Elements(c.order[..c.at]));
    OpenOrLost(c.After(c.at), c.burst, c.queue.trace, Elements(c.order[..c.at]), Calm(c.order, c.at, c.maxWaiting));
  }

  lemma CalmNext(order: seq<nat>, at: nat, n: nat, maxWaiting: int)
    requires at < n <= |order|
    ensures CalmUpto(order, at, n, maxWaiting) <==>
            CalmUpto(order, at, n - 1, maxWaiting) && Calm(order, n, maxWaiting)
  {
  }

  /** The n-th arrival is new, and within the lap. */
  lemma NewAndNear(c: Session, n: nat)
    requires c.at <= n < |c.order|
    ensures var i, arrived := c.order[n], Elements(c.order[..n]);
      && i < |c.burst.handlers| == |c.order| && i !in arrived
      && i < Ready(arrived, |c.order|) + |c.queue.slots|
      && Elements(c.order[..n + 1]) == arrived + {i}
  {
    NextElement(c.order, n);
    assert c.order[n] < |c.queue.slots| + ReadyAfter(c.order, n);
  }

  /** One more arrival leaves a queue as it should be, if it was so before. */
  lemma NextArrival(c: Session, s: State, r: State, n: nat, calm: bool, still: bool)
    requires |s.slots| == |c.queue.slots| && c.at < n <= |c.order|
    requires r == Step(c.maxWaiting, s, Arrival(|s.slots|, c.burst, c.order[n - 1]))
    requires still == (calm && Calm(c.order, n, c.maxWaiting))
    requires Expected(s, c.burst, c.queue.trace, Elements(c.order[..n - 1]), calm)
    ensures Expected(r, c.burst, c.queue.trace, Elements(c.order[..n]), still)
  {
    NewAndNear(c, n - 1);
    CalmIsRoomy(c.order, n, c.maxWaiting);
    Arrive(c.maxWaiting, s, c.burst, c.queue.trace, Elements(c.order[..n - 1]), c.order[n - 1], calm, still);
  }

  /** After n arrivals, from the start on. */
  lemma {:induction false} AfterStart(c: Session, n: nat)
    requires c.at <= n <= |c.order|
    ensures Expected(c.After(n), c.burst, c.queue.trace, Elements(c.order[..n]),
                     CalmUpto(c.order, c.at, n, c.maxWaiting))
    decreases n
  {
    if n == c.at {
      AtStart(c);
    } else {
      AfterStart(c, n - 1);
      AfterNext(c, n);
      CalmNext(c.order, c.at, n, c.maxWaiting);
      NextArrival(c, c.After(n - 1), c.After(n), n, CalmUpto(c.order, c.at, n - 1, c.maxWaiting),
                  CalmUpto(c.order, c.at, n, c.maxWaiting));
    }
  }

  lemma Finished(s: State, b: Burst, trace: seq<Event>, arrived: set<nat>)
    requires Open(s, b, trace, arrived) && arrived == Upto(|b.handlers|)
    ensures s.trace == trace + b.Calls(|s.slots|, |b.handlers|)
    ensures s.waiting == 0 && forall pos :: 0 <= pos < |s.slots| ==> s.slots[pos] == None
    ensures s.locked == (b.handlers != [] && b.handlers[|b.handlers| - 1].stops)
  {
    UptoSize(|b.handlers|);
    assert Ready(arrived, |b.handlers|) == |b.handlers|;
  }

  /**
   The handlers of consecutive numbers after seqNo, however many, are pushed in any order in
   which no number comes a whole lap ahead of the awaited one, with the start at any point
   among the pushes. Each is called exactly once, in sequence order, iff nothing is skipped,
   iff from the start on fewer than max(1, maxWaiting) numbers ever wait for a missing one; and
   then the queue is empty again.
   */
  lemma DeliveredIff(maxWaiting: int, s: State, seqNo: nat, b: Burst, order: seq<nat>, at: nat)
    requires Idle(s) && b.Fits(|s.slots|)
    requires b.first == Wrap(|s.slots|, seqNo + 1)
    requires Permutation(order, |b.handlers|) && at <= |order| && WithinLap(order, at, |s.slots|)
    ensures var k, r := |b.handlers|, Run(maxWaiting, s, Schedule(|s.slots|, seqNo, b, order, at, |order|));
      && (Patient(order, at, maxWaiting) <==> r.trace == s.trace + b.Calls(|s.slots|, k))
      && (Patient(order, at, maxWaiting) <==> !Lost(r, s.trace))
      && (Patient(order, at, maxWaiting) ==>
            && r.waiting == 0 && (forall pos :: 0 <= pos < |r.slots| ==> r.slots[pos] == None)
            && r.locked == (k > 0 && b.handlers[k - 1].stops))
  {
    AfterStart(Setting(maxWaiting, s, seqNo, b, order, at), |order|);
    var r := Run(maxWaiting, s, Schedule(|s.slots|, seqNo, b, order, at, |order|));
    if Patient(order, at, maxWaiting) {
      AllArrived(order);
      assert order[..|order|] == order;
      Finished(r, b, s.trace, Upto(|b.handlers|));
    } else if r.trace == s.trace + b.Calls(|s.slots|, |b.handlers|) {
      OnlyCalls(r, s.trace, b, |b.handlers|);
      assert false;
    }
  }

  lemma {:induction false} PushesAccepted(size: nat, b: Burst, order: seq<nat>, at: nat, n: nat, seqNo: nat)
    requires b.first < size && at <= n <= |order|
    requires forall i :: 0 <= i < |order| ==> order[i] < |b.handlers|
    ensures SeqQueueRuns.Accepted(size, Pushes(size, b, order)[..at], SeqQueueRuns.ANY) == at
    ensures SeqQueueRuns.Accepted(size, Schedule(size, seqNo, b, order, at, n), SeqQueueRuns.ANY) == n
    decreases n
  {
    var pushes, start := Pushes(size, b, order), Op.Start(seqNo);
    if at < n {
      PushesAccepted(size, b, order, at, n - 1, seqNo);
      ScheduleNext(size, seqNo, b, order, at, n);
      AcceptedSnoc(size, Schedule(size, seqNo, b, order, at, n - 1), Arrival(size, b, order[n - 1]));
    } else {
      if at > 0 {
        PushesAccepted(size, b, order, at - 1, at - 1, seqNo);
        assert pushes[..at] == pushes[..at - 1] + [pushes[at - 1]];
        AcceptedSnoc(size, pushes[..at - 1], pushes[at - 1]);
      }
      assert Schedule(size, seqNo, b, order, at, at) == pushes[..at] + [start];
      AcceptedSnoc(size, pushes[..at], start);
    }
  }

  lemma AcceptedSnoc(size: nat, ops: seq<Op>, op: Op)
    ensures SeqQueueRuns.Accepted(size, ops + [op], SeqQueueRuns.ANY) ==
            SeqQueueRuns.Accepted(size, ops, SeqQueueRuns.ANY) + if SeqQueueRuns.Accepts(size, op) then 1 else 0
  {
    assert (ops + [op])[..|ops|] == ops;
  }

  /** How many of the handlers were called since a state. */
  function CalledSince(s: State, r: State): (n: int) {
    SeqQueueRuns.Called(r.trace, SeqQueueRuns.ANY) - SeqQueueRuns.Called(s.trace, SeqQueueRuns.ANY)
  }

  function SkippedSince(s: State, r: State): (n: int) {
    SeqQueueRuns.Skips(r.trace) - SeqQueueRuns.Skips(s.trace)
  }

  /**
   When all numbers have arrived, the handlers that were not called are exactly as many as
   still wait and were skipped: every skip leaves a handler behind, waiting or not.
   */
  lemma Uncalled(maxWaiting: int, s: State, seqNo: nat, b: Burst, order: seq<nat>, at: nat)
    requires Idle(s) && b.first < |s.slots| && Permutation(order, |b.handlers|) && at <= |order|
    ensures var r := Run(maxWaiting, s, Schedule(|s.slots|, seqNo, b, order, at, |order|));
      |b.handlers| - CalledSince(s, r) == r.waiting + SkippedSince(s, r)
  {
    var ops := Schedule(|s.slots|, seqNo, b, order, at, |order|);
    PushesAccepted(|s.slots|, b, order, at, |order|, seqNo);
    SeqQueueRuns.RunCounts(maxWaiting, s, ops);
  }

  /** So a burst of at most maxWaiting numbers, or of one, is delivered in order however it arrives. */
  lemma BurstDelivered(maxWaiting: int, s: State, seqNo: nat, b: Burst, order: seq<nat>, at: nat)
    requires Idle(s) && b.Fits(|s.slots|) && |b.handlers| <= |s.slots| && |b.handlers| <= Max(1, maxWaiting)
    requires b.first == Wrap(|s.slots|, seqNo + 1)
    requires Permutation(order, |b.handlers|) && at <= |order|
    ensures var k, r := |b.handlers|, Run(maxWaiting, s, Schedule(|s.slots|, seqNo, b, order, at, |order|));
      && r.trace == s.trace + b.Calls(|s.slots|, k)
      && r.waiting == 0 && (forall pos :: 0 <= pos < |r.slots| ==> r.slots[pos] == None)
      && r.locked == (k > 0 && b.handlers[k - 1].stops)
  {
    ShortPatient(order, at, maxWaiting);
    DeliveredIff(maxWaiting, s, seqNo, b, order, at);
  }

  lemma ShortPatient(order: seq<nat>, at: nat, maxWaiting: int)
    requires Permutation(order, |order|) && |order| <= Max(1, maxWaiting)
    ensures Patient(order, at, maxWaiting)
  {
    AllArrived(order);
    assert order[..|order|] == order;
    assert ReadyAfter(order, |order|) == |order|;
  }

  // ---------- bursts that do not fit ----------

  /** The first number last, the others in sequence. */
  function FirstLast(k: nat): (r: seq<nat>)
    ensures |r| == k && forall j :: 0 <= j < k ==> r[j] == if j + 1 < k then j + 1 else 0
  {
    seq(k, j => if j + 1 < k then j + 1 else 0)
  }

  /** An open queue that has called nothing yet and waits for the first number. */
  ghost predicate Blocked(s: State, first: nat, trace: seq<Event>, waiting: nat) {
    && first < |s.slots| && Wrap(|s.slots|, s.lo) == first && s.slots[first] == None
    && !s.locked && s.waiting == waiting && s.trace == trace
  }

  lemma {:induction false} RunGrows(maxWaiting: int, s: State, ops: seq<Op>)
    requires forall i :: 0 <= i < |ops| ==> ops[i].Push?
    ensures s.trace <= Run(maxWaiting, s, ops).trace
  {
    if ops != [] {
      RunGrows(maxWaiting, s, ops[..|ops| - 1]);
      var _ := SeqQueueRuns.StepInOrder(maxWaiting, Run(maxWaiting, s, ops[..|ops| - 1]), ops[|ops| - 1]);
    }
  }

  /** Once as many wait as may, the missing first number is skipped. */
  lemma BlockedPush(maxWaiting: int, s: State, first: nat, trace: seq<Event>, waiting: nat, seqNo: nat, h: Handler)
    requires Blocked(s, first, trace, waiting) && seqNo < |s.slots| && seqNo != first
    ensures var r := Step(maxWaiting, s, Push(seqNo, h));
      if waiting + 1 < maxWaiting then Blocked(r, first, trace, waiting + 1)
      else trace + [Skipped(first)] <= r.trace
  {
    var pushed := s.(slots := s.slots[seqNo := Some(h)], waiting := s.waiting + 1);
    if waiting + 1 >= maxWaiting {
      var _ := SeqQueueRuns.ConsumeInOrder(maxWaiting, Skip(pushed, first));
    }
  }

  lemma {:induction false} BlockedPushes(maxWaiting: int, s: State, b: Burst, trace: seq<Event>, n: nat)
    requires Blocked(s, b.first, trace, 0)
    requires n < |b.handlers| <= |s.slots| && n < Max(1, maxWaiting)
    ensures Blocked(Run(maxWaiting, s, Pushes(|s.slots|, b, FirstLast(|b.handlers|))[..n]), b.first, trace, n)
  {
    if n > 0 {
      var k := |b.handlers|;
      var pushes := Pushes(|s.slots|, b, FirstLast(k));
      BlockedPushes(maxWaiting, s, b, trace, n - 1);
      assert pushes[..n][..n - 1] == pushes[..n - 1];
      PlaceAhead(|s.slots|, b.first, 0, n);
      BlockedPush(maxWaiting, Run(maxWaiting, s, pushes[..n - 1]), b.first, trace, n - 1,
                  Place(|s.slots|, b.first, n), b.handlers[n]);
    }
  }

  /**
   The bound is sharp: of a longer burst that still fits the slots, an arrival with the
   first number last makes the queue skip that number before it calls anything.
   */
  lemma LongBurstSkips(maxWaiting: int, s: State, seqNo: nat, b: Burst)
    requires Idle(s) && b.first == Wrap(|s.slots|, seqNo + 1)
    requires Max(1, maxWaiting) < |b.handlers| <= |s.slots|
    ensures Permutation(FirstLast(|b.handlers|), |b.handlers|)
    ensures var pushes := Pushes(|s.slots|, b, FirstLast(|b.handlers|));
      s.trace + [Skipped(b.first)] <= Run(maxWaiting, s, [Start(seqNo)] + pushes).trace
  {
    var size := |s.slots|;
    var pushes, ready := Pushes(size, b, FirstLast(|b.handlers|)), s.(locked := false, lo := seqNo + 1);
    BlockedSkips(maxWaiting, ready, b, s.trace);
    SeqQueueRuns.RunAppend(maxWaiting, s, [Start(seqNo)], pushes);
    assert [Start(seqNo)][..0] == [];
    assert Run(maxWaiting, s, [Start(seqNo)]) == ready;
  }

  lemma SplitAt<T>(s: seq<T>, i: nat)
    requires i < |s|
    ensures s == s[..i] + [s[i]] + s[i + 1..]
  {
  }

  lemma PrefixTransitive<T>(a: seq<T>, b: seq<T>, c: seq<T>)
    requires a <= b <= c
    ensures a <= c
  {
  }

  lemma SkippedLater(maxWaiting: int, s: State, before: seq<Event>, ops: seq<Op>)
    requires before <= s.trace && forall i :: 0 <= i < |ops| ==> ops[i].Push?
    ensures before <= Run(maxWaiting, s, ops).trace
  {
    RunGrows(maxWaiting, s, ops);
    PrefixTransitive(before, s.trace, Run(maxWaiting, s, ops).trace);
  }

  /** The push that fills the room skips the first number. */
  lemma LastStraw(maxWaiting: int, s: State, b: Burst, trace: seq<Event>) returns (n: nat)
    requires Blocked(s, b.first, trace, 0) && Max(1, maxWaiting) < |b.handlers| <= |s.slots|
    ensures n < |b.handlers|
    ensures var pushes := Pushes(|s.slots|, b, FirstLast(|b.handlers|));
      trace + [Skipped(b.first)] <= Step(maxWaiting, Run(maxWaiting, s, pushes[..n]), pushes[n]).trace
  {
    n := Max(1, maxWaiting) - 1;
    var pushes := Pushes(|s.slots|, b, FirstLast(|b.handlers|));
    BlockedPushes(maxWaiting, s, b, trace, n);
    PlaceAhead(|s.slots|, b.first, 0, n + 1);
    BlockedPush(maxWaiting, Run(maxWaiting, s, pushes[..n]), b.first, trace, n,
                Place(|s.slots|, b.first, n + 1), b.handlers[n + 1]);
  }

  lemma SkipStays(maxWaiting: int, s: State, ops: seq<Op>, n: nat, before: seq<Event>)
    requires n < |ops| && forall i :: 0 <= i < |ops| ==> ops[i].Push?
    requires before <= Step(maxWaiting, Run(maxWaiting, s, ops[..n]), ops[n]).trace
    ensures before <= Run(maxWaiting, s, ops).trace
  {
    var later := ops[n + 1..];
    SkippedLater(maxWaiting, Step(maxWaiting, Run(maxWaiting, s, ops[..n]), ops[n]), before, later);
    SplitAt(ops, n);
    RunParts(maxWaiting, s, ops[..n], ops[n], later);
  }

  lemma BlockedSkips(maxWaiting: int, s: State, b: Burst, trace: seq<Event>)
    requires Blocked(s, b.first, trace, 0) && Max(1, maxWaiting) < |b.handlers| <= |s.slots|
    ensures trace + [Skipped(b.first)] <=
            Run(maxWaiting, s, Pushes(|s.slots|, b, FirstLast(|b.handlers|))).trace
  {
    var n := LastStraw(maxWaiting, s, b, trace);
    SkipStays(maxWaiting, s, Pushes(|s.slots|, b, FirstLast(|b.handlers|)), n, trace + [Skipped(b.first)]);
  }
}
