/** What holds of a sequence queue over every run of starts, stops and pushes. */
module SeqQueueRuns {
  import opened Collections
  import opened SeqQueue

  // ---------- no handler is lost or called twice ----------

  /** Which handlers, under which numbers, are counted. */
  type Which = (nat, Handler) -> bool

  const ANY: Which := (pos, h) => true

  /** Whether a slot's handler counts. */
  function One(pos: nat, slot: Option<Handler>, which: Which): (r: nat) {
    if slot.Some? && which(pos, slot.value) then 1 else 0
  }

  /** How many slots hold a handler that counts. */
  function Held(slots: seq<Option<Handler>>, which: Which): (r: nat) {
    if slots == [] then 0
    else
      var last := |slots| - 1;
      Held(slots[..last], which) + One(last, slots[last], which)
  }

  /** How often such a handler was called. */
  function Called(trace: seq<Event>, which: Which): (r: nat) {
    if trace == [] then 0
    else
      var e := trace[|trace| - 1];
      Called(trace[..|trace| - 1], which) + if e.Delivered? then One(e.pos, Some(e.handler), which) else 0
  }

  function Skips(trace: seq<Event>): (r: nat) {
    if trace == [] then 0
    else Skips(trace[..|trace| - 1]) + if trace[|trace| - 1].Skipped? then 1 else 0
  }

  predicate Accepts(size: nat, op: Op) {
    op.Push? && op.seqNo < size
  }

  /** How often one was pushed under a number within the queue's size. */
  function Accepted(size: nat, ops: seq<Op>, which: Which): (r: nat) {
    if ops == [] then 0
    else
      var op := ops[|ops| - 1];
      Accepted(size, ops[..|ops| - 1], which) +
      if Accepts(size, op) then One(op.seqNo, Some(op.handler), which) else 0
  }

  /** How often a later push under the same number replaced one before it was called. */
  function Overwritten(size: nat, maxWaiting: int, ops: seq<Op>, which: Which): (r: nat) {
    if ops == [] then 0
    else
      var earlier, op := ops[..|ops| - 1], ops[|ops| - 1];
      Overwritten(size, maxWaiting, earlier, which) +
      if Accepts(size, op) then One(op.seqNo, Run(maxWaiting, Initial(size), earlier).slots[op.seqNo], which) else 0
  }

  lemma {:induction false} HeldUpdate(slots: seq<Option<Handler>>, i: nat, slot: Option<Handler>, which: Which)
    requires i < |slots|
    ensures Held(slots[i := slot], which) + One(i, slots[i], which) == Held(slots, which) + One(i, slot, which)
  {
    var n := |slots| - 1;
    if i < n {
      HeldUpdate(slots[..n], i, slot, which);
      assert slots[i := slot][..n] == slots[..n][i := slot];
    } else {
      assert slots[i := slot][..n] == slots[..n];
    }
  }

  lemma TraceWith(trace: seq<Event>, e: Event, which: Which)
    ensures Called(trace + [e], which) ==
            Called(trace, which) + if e.Delivered? then One(e.pos, Some(e.handler), which) else 0
    ensures Skips(trace + [e]) == Skips(trace) + if e.Skipped? then 1 else 0
  {
    assert (trace + [e])[..|trace|] == trace;
  }

  lemma DeliverMoves(s: State, pos: nat, which: Which)
    requires pos < |s.slots| && s.slots[pos].Some? && s.waiting > 0
    ensures var r := Deliver(s, pos);
      Held(r.slots, which) + Called(r.trace, which) == Held(s.slots, which) + Called(s.trace, which)
  {
    HeldUpdate(s.slots, pos, None, which);
    TraceWith(s.trace, Delivered(pos, s.slots[pos].value), which);
  }

  /** Consuming moves handlers from their slots to the trace. */
  lemma {:induction false} ConsumeMoves(maxWaiting: int, s: State, which: Which)
    ensures var r := Consume(maxWaiting, s);
      Held(r.slots, which) + Called(r.trace, which) == Held(s.slots, which) + Called(s.trace, which)
    decreases s.waiting
  {
    if s.waiting != 0 {
      var pos := Wrap(|s.slots|, s.lo);
      if SlotAt(s.slots, pos).Some? {
        DeliverMoves(s, pos, which);
        ConsumeMoves(maxWaiting, Deliver(s, pos), which);
      } else if s.waiting >= maxWaiting {
        TraceWith(s.trace, Skipped(pos), which);
        ConsumeMoves(maxWaiting, Skip(s, pos), which);
      }
    }
  }

  /** Every event accounts for one that waited. */
  lemma {:induction false} ConsumeCounts(maxWaiting: int, s: State)
    ensures var r := Consume(maxWaiting, s);
      r.waiting + Called(r.trace, ANY) + Skips(r.trace) == s.waiting + Called(s.trace, ANY) + Skips(s.trace)
    decreases s.waiting
  {
    if s.waiting != 0 {
      var pos := Wrap(|s.slots|, s.lo);
      if SlotAt(s.slots, pos).Some? {
        TraceWith(s.trace, Delivered(pos, s.slots[pos].value), ANY);
        ConsumeCounts(maxWaiting, Deliver(s, pos));
      } else if s.waiting >= maxWaiting {
        TraceWith(s.trace, Skipped(pos), ANY);
        ConsumeCounts(maxWaiting, Skip(s, pos));
      }
    }
  }

  lemma HeldInitial(size: nat, which: Which)
    ensures Held(Initial(size).slots, which) == 0
  {
    if size > 0 {
      HeldInitial(size - 1, which);
      assert Initial(size).slots[..size - 1] == Initial(size - 1).slots;
    }
  }

  /** One call moves handlers around, takes at most one in, and replaces at most one. */
  lemma StepMoves(maxWaiting: int, s: State, op: Op, which: Which)
    ensures var r := Step(maxWaiting, s, op);
      var (seqNo, pushed, replaced) :=
        if Accepts(|s.slots|, op) then (op.seqNo, Some(op.handler), s.slots[op.seqNo]) else (0, None, None);
      Held(r.slots, which) + Called(r.trace, which) + One(seqNo, replaced, which) ==
      Held(s.slots, which) + Called(s.trace, which) + One(seqNo, pushed, which)
  {
    match op
    case Start(seqNo) => ConsumeMoves(maxWaiting, s.(locked := false, lo := seqNo + 1), which);
    case Stop =>
    case Push(seqNo, handler) =>
      if seqNo < |s.slots| {
        HeldUpdate(s.slots, seqNo, Some(handler), which);
        ConsumeMoves(maxWaiting, s.(slots := s.slots[seqNo := Some(handler)], waiting := s.waiting + 1), which);
      }
  }

  lemma StepCounts(maxWaiting: int, s: State, op: Op)
    ensures var r := Step(maxWaiting, s, op);
      r.waiting + Called(r.trace, ANY) + Skips(r.trace) ==
      s.waiting + Called(s.trace, ANY) + Skips(s.trace) + if Accepts(|s.slots|, op) then 1 else 0
  {
    match op
    case Start(seqNo) => ConsumeCounts(maxWaiting, s.(locked := false, lo := seqNo + 1));
    case Stop =>
    case Push(seqNo, handler) =>
      if seqNo < |s.slots| {
        ConsumeCounts(maxWaiting, s.(slots := s.slots[seqNo := Some(handler)], waiting := s.waiting + 1));
      }
  }

  /**
   Every accepted handler was called under its number, was overwritten or still sits in its
   slot, as often as it was pushed; and what waits is what was accepted, less what was called
   and skipped.
   */
  lemma {:induction false} Accounting(size: nat, maxWaiting: int, ops: seq<Op>, which: Which)
    ensures var s := Run(maxWaiting, Initial(size), ops);
      && Accepted(size, ops, which) ==
         Called(s.trace, which) + Overwritten(size, maxWaiting, ops, which) + Held(s.slots, which)
      && s.waiting == Accepted(size, ops, ANY) - Called(s.trace, ANY) - Skips(s.trace)
  {
    if ops == [] {
      HeldInitial(size, which);
    } else {
      var earlier := ops[..|ops| - 1];
      Accounting(size, maxWaiting, earlier, which);
      StepMoves(maxWaiting, Run(maxWaiting, Initial(size), earlier), ops[|ops| - 1], which);
      StepCounts(maxWaiting, Run(maxWaiting, Initial(size), earlier), ops[|ops| - 1]);
    }
  }

  /** The occupied slots number what waits plus what was skipped less what was overwritten. */
  lemma OccupiedSlots(size: nat, maxWaiting: int, ops: seq<Op>)
    ensures var s := Run(maxWaiting, Initial(size), ops);
      Held(s.slots, ANY) == s.waiting + Skips(s.trace) - Overwritten(size, maxWaiting, ops, ANY)
  {
    Accounting(size, maxWaiting, ops, ANY);
  }

  lemma {:induction false} RunCounts(maxWaiting: int, s: State, ops: seq<Op>)
    ensures var r := Run(maxWaiting, s, ops);
      r.waiting + Called(r.trace, ANY) + Skips(r.trace) ==
      s.waiting + Called(s.trace, ANY) + Skips(s.trace) + Accepted(|s.slots|, ops, ANY)
  {
    if ops != [] {
      RunCounts(maxWaiting, s, ops[..|ops| - 1]);
      StepCounts(maxWaiting, Run(maxWaiting, s, ops[..|ops| - 1]), ops[|ops| - 1]);
    }
  }

  lemma {:induction false} NoneHeld(slots: seq<Option<Handler>>)
    ensures Held(slots, ANY) == 0 <==> forall pos :: 0 <= pos < |slots| ==> slots[pos] == None
  {
    if slots != [] {
      NoneHeld(slots[..|slots| - 1]);
    }
  }

  /** A queue in which nothing waits is empty iff every skip is made up for by an overwriting. */
  lemma IdleIsEmptyIff(size: nat, maxWaiting: int, ops: seq<Op>)
    requires Run(maxWaiting, Initial(size), ops).waiting == 0
    ensures var s := Run(maxWaiting, Initial(size), ops);
      (forall pos :: 0 <= pos < size ==> s.slots[pos] == None) <==>
      Skips(s.trace) == Overwritten(size, maxWaiting, ops, ANY)
  {
    OccupiedSlots(size, maxWaiting, ops);
    NoneHeld(Run(maxWaiting, Initial(size), ops).slots);
  }

  /**
   Indeed a handler can be due and stay uncalled: of 5 slots, with 2 allowed to wait, the
   numbers 1 and 2 arrive and 0 is skipped; then nothing waits, and 2 is not called, even if
   its handler is to stop the queue.
   */
  lemma DueButUncalled(h: Handler, last: Handler)
    requires !h.stops
    ensures var s := Run(2, Initial(5), [Start(4), Push(1, h), Push(2, last)]);
      && s.waiting == 0 && !s.locked
      && s.trace == [Skipped(0), Delivered(1, h)] && s.slots[Wrap(5, s.lo)] == Some(last)
  {
    var a, b, c := Op.Start(4), Push(1, h), Push(2, last);
    assert [a, b, c][..2] == [a, b] && [a, b][..1] == [a] && [a][..0] == [];
    assert Run(2, Initial(5), []) == Initial(5);
    var s1 := Run(2, Initial(5), [a]);
    assert s1 == Step(2, Initial(5), a);
    assert s1 == State(5, 0, Initial(5).slots, false, []);
    var s2 := Run(2, Initial(5), [a, b]);
    assert s2 == State(0, 1, s1.slots[1 := Some(h)], false, []);
    var m := s2.(slots := s2.slots[2 := Some(last)], waiting := 2);
    assert Step(2, s2, c) == Consume(2, m);
    var n := Skip(m, 0);
    assert Consume(2, m) == Consume(2, n);
    assert Consume(2, n) == Consume(2, Deliver(n, 1)) == Deliver(n, 1);
  }

  lemma {:induction false} CalledOnce(trace: seq<Event>, i: nat, which: Which)
    requires i < |trace| && trace[i].Delivered? && which(trace[i].pos, trace[i].handler)
    ensures Called(trace, which) > 0
  {
    if i < |trace| - 1 {
      CalledOnce(trace[..|trace| - 1], i, which);
    }
  }

  lemma {:induction false} AcceptedPush(size: nat, ops: seq<Op>, which: Which) returns (j: nat)
    requires Accepted(size, ops, which) > 0
    ensures j < |ops| && Accepts(size, ops[j]) && which(ops[j].seqNo, ops[j].handler)
  {
    var n := |ops| - 1;
    if Accepts(size, ops[n]) && which(ops[n].seqNo, ops[n].handler) {
      j := n;
    } else {
      j := AcceptedPush(size, ops[..n], which);
    }
  }

  /** A handler is called under no number but one it was pushed under. */
  lemma CalledAsPushed(size: nat, maxWaiting: int, ops: seq<Op>, i: nat)
    requires var trace := Run(maxWaiting, Initial(size), ops).trace; i < |trace| && trace[i].Delivered?
    ensures var e := Run(maxWaiting, Initial(size), ops).trace[i]; Push(e.pos, e.handler) in ops
  {
    var e := Run(maxWaiting, Initial(size), ops).trace[i];
    var which: Which := (pos, h) => pos == e.pos && h == e.handler;
    Accounting(size, maxWaiting, ops, which);
    CalledOnce(Run(maxWaiting, Initial(size), ops).trace, i, which);
    var j := AcceptedPush(size, ops, which);
    assert ops[j] == Push(e.pos, e.handler);
  }

  // ---------- when it stops consuming ----------

  /** An open queue either has nothing waiting, or awaits a number and has room for more. */
  ghost predicate Settled(maxWaiting: int, s: State) {
    !s.locked ==>
      s.waiting == 0 || (s.waiting < maxWaiting && SlotAt(s.slots, Wrap(|s.slots|, s.lo)) == None)
  }

  lemma {:induction false} ConsumeSettles(maxWaiting: int, s: State)
    ensures var r := Consume(maxWaiting, s);
      r.waiting == 0 || (r.waiting < maxWaiting && SlotAt(r.slots, Wrap(|r.slots|, r.lo)) == None)
    decreases s.waiting
  {
    if s.waiting != 0 {
      var pos := Wrap(|s.slots|, s.lo);
      if SlotAt(s.slots, pos).Some? {
        ConsumeSettles(maxWaiting, Deliver(s, pos));
      } else if s.waiting >= maxWaiting {
        ConsumeSettles(maxWaiting, Skip(s, pos));
      }
    }
  }

  lemma StepSettles(maxWaiting: int, s: State, op: Op)
    requires Settled(maxWaiting, s)
    ensures Settled(maxWaiting, Step(maxWaiting, s, op))
  {
    match op
    case Start(seqNo) =>
      ConsumeSettles(maxWaiting, s.(locked := false, lo := seqNo + 1));
    case Stop =>
    case Push(seqNo, handler) =>
      if seqNo < |s.slots| {
        ConsumeSettles(maxWaiting, s.(slots := s.slots[seqNo := Some(handler)], waiting := s.waiting + 1));
      }
  }

  /** In every run an open queue that tolerates waiting holds back fewer than maxWaiting. */
  lemma {:induction false} AlwaysSettled(size: nat, maxWaiting: int, ops: seq<Op>)
    ensures var s := Run(maxWaiting, Initial(size), ops);
      Settled(maxWaiting, s) && (!s.locked && maxWaiting >= 1 ==> s.waiting < maxWaiting)
  {
    if ops != [] {
      var earlier := ops[..|ops| - 1];
      AlwaysSettled(size, maxWaiting, earlier);
      StepSettles(maxWaiting, Run(maxWaiting, Initial(size), earlier), ops[|ops| - 1]);
    }
  }

  // ---------- a closed queue ----------

  /** Without a start a closed queue stays closed, and calls and skips nothing. */
  lemma {:induction false} ClosedIsSilent(maxWaiting: int, s: State, ops: seq<Op>)
    requires s.locked && forall i :: 0 <= i < |ops| ==> !ops[i].Start?
    ensures var r := Run(maxWaiting, s, ops); r.locked && r.trace == s.trace
  {
    if ops != [] {
      ClosedIsSilent(maxWaiting, s, ops[..|ops| - 1]);
    }
  }

  /** In every run: what came before a stop is all, until the next start; and a new queue waits for its first. */
  lemma OpenOnlyBetween(size: nat, maxWaiting: int, before: seq<Op>, after: seq<Op>)
    requires forall i :: 0 <= i < |after| ==> !after[i].Start?
    ensures Run(maxWaiting, Initial(size), before + [Stop] + after).trace ==
            Run(maxWaiting, Initial(size), before).trace
    ensures Run(maxWaiting, Initial(size), after).trace == []
  {
    var s := Run(maxWaiting, Initial(size), before);
    assert (before + [Stop])[..|before|] == before;
    RunAppend(maxWaiting, Initial(size), before + [Stop], after);
    ClosedIsSilent(maxWaiting, Step(maxWaiting, s, Stop), after);
    ClosedIsSilent(maxWaiting, Initial(size), after);
  }

  lemma {:induction false} RunAppend(maxWaiting: int, s: State, a: seq<Op>, b: seq<Op>)
    ensures Run(maxWaiting, s, a + b) == Run(maxWaiting, Run(maxWaiting, s, a), b)
  {
    if b == [] {
      assert a + b == a;
    } else {
      RunAppend(maxWaiting, s, a, b[..|b| - 1]);
      assert (a + b)[..|a + b| - 1] == a + b[..|b| - 1];
    }
  }

  /** A handler that stops the queue while it consumes does not cut short what is being consumed. */
  lemma {:induction false} StopComesAfter(maxWaiting: int, s: State)
    ensures Consume(maxWaiting, s.(locked := true)) == Consume(maxWaiting, s).(locked := true)
    decreases s.waiting
  {
    if s.waiting != 0 {
      var pos := Wrap(|s.slots|, s.lo);
      if SlotAt(s.slots, pos).Some? {
        assert Deliver(s.(locked := true), pos) == Deliver(s, pos).(locked := true);
        StopComesAfter(maxWaiting, Deliver(s, pos));
      } else if s.waiting >= maxWaiting {
        assert Skip(s.(locked := true), pos) == Skip(s, pos).(locked := true);
        StopComesAfter(maxWaiting, Skip(s, pos));
      }
    }
  }

  /** Two handlers that are due together are both called, even if the first stops the queue. */
  lemma BothCalled(h: Handler, last: Handler)
    requires h.stops
    ensures var s := Run(4, Initial(5), [Push(1, last), Push(0, h), Start(4)]);
      s.trace == [Delivered(0, h), Delivered(1, last)] && s.locked
  {
    var a, b, c := Push(1, last), Push(0, h), Op.Start(4);
    assert [a, b, c][..2] == [a, b] && [a, b][..1] == [a] && [a][..0] == [];
    assert Run(4, Initial(5), []) == Initial(5);
    var s1 := Run(4, Initial(5), [a]);
    assert s1 == Step(4, Initial(5), a);
    var s2 := Run(4, Initial(5), [a, b]);
    assert s2 == Step(4, s1, b);
    assert s2.slots == Initial(5).slots[1 := Some(last)][0 := Some(h)] && s2.waiting == 2 && s2.trace == [];
    var m := s2.(locked := false, lo := 5);
    var n := Deliver(m, 0);
    assert Consume(4, m) == Consume(4, n);
    assert Consume(4, n) == Consume(4, Deliver(n, 1)) == Deliver(n, 1);
  }

  // ---------- the order of events ----------

  /** The events visit the slots one after the other, beginning at `from`. */
  ghost predicate InOrder(size: nat, from: nat, events: seq<Event>) {
    && (events != [] ==> events[0].pos == Wrap(size, from))
    && (forall i, j {:trigger events[i], events[j]} :: 0 <= i && j == i + 1 && j < |events| ==>
          events[j].pos == Wrap(size, events[i].pos + 1))
  }

  /** Where the next event of a session will be. */
  function After(size: nat, from: nat, events: seq<Event>): (r: nat) {
    if events == [] then Wrap(size, from) else Wrap(size, events[|events| - 1].pos + 1)
  }

  lemma InOrderAppend(size: nat, from: nat, a: seq<Event>, b: seq<Event>)
    requires InOrder(size, from, a) && InOrder(size, After(size, from, a), b)
    ensures InOrder(size, from, a + b) && After(size, from, a + b) == After(size, After(size, from, a), b)
  {
  }

  lemma InOrderCons(size: nat, from: nat, e: Event, later: seq<Event>)
    requires e.pos == Wrap(size, from) && InOrder(size, e.pos + 1, later)
    ensures InOrder(size, from, [e] + later)
    ensures After(size, from, [e] + later) == After(size, e.pos + 1, later)
  {
    var all := [e] + later;
    forall i, j | 0 <= i && j == i + 1 && j < |all|
      ensures all[j].pos == Wrap(size, all[i].pos + 1)
    {
      assert all[j] == later[j - 1] && (i > 0 ==> all[i] == later[i - 1]);
    }
  }

  lemma {:induction false} ConsumeInOrder(maxWaiting: int, s: State) returns (events: seq<Event>)
    ensures var r := Consume(maxWaiting, s);
      && r.trace == s.trace + events
      && InOrder(|s.slots|, s.lo, events)
      && Wrap(|s.slots|, r.lo) == After(|s.slots|, s.lo, events)
    decreases s.waiting
  {
    events := [];
    if s.waiting != 0 {
      var pos := Wrap(|s.slots|, s.lo);
      if SlotAt(s.slots, pos).Some? {
        var later := ConsumeInOrder(maxWaiting, Deliver(s, pos));
        InOrderCons(|s.slots|, s.lo, Delivered(pos, s.slots[pos].value), later);
        events := [Delivered(pos, s.slots[pos].value)] + later;
      } else if s.waiting >= maxWaiting {
        var later := ConsumeInOrder(maxWaiting, Skip(s, pos));
        InOrderCons(|s.slots|, s.lo, Skipped(pos), later);
        events := [Skipped(pos)] + later;
      }
    }
  }

  lemma StepInOrder(maxWaiting: int, s: State, op: Op) returns (events: seq<Event>)
    requires !op.Start?
    ensures var r := Step(maxWaiting, s, op);
      && r.trace == s.trace + events
      && InOrder(|s.slots|, s.lo, events)
      && Wrap(|s.slots|, r.lo) == After(|s.slots|, s.lo, events)
  {
    events := [];
    if op.Push? && op.seqNo < |s.slots| && !s.locked {
      var slots := s.slots[op.seqNo := Some(op.handler)];
      events := ConsumeInOrder(maxWaiting, s.(slots := slots, waiting := s.waiting + 1));
    }
  }

  /** From a start on, until the next one, deliveries and skips go round the slots without a gap. */
  lemma {:induction false} SessionInOrder(maxWaiting: int, s: State, seqNo: nat, ops: seq<Op>)
    returns (events: seq<Event>)
    requires forall i :: 0 <= i < |ops| ==> !ops[i].Start?
    ensures var r := Run(maxWaiting, s, [Start(seqNo)] + ops);
      && r.trace == s.trace + events
      && InOrder(|s.slots|, seqNo + 1, events)
      && Wrap(|s.slots|, r.lo) == After(|s.slots|, seqNo + 1, events)
  {
    var all := [Start(seqNo)] + ops;
    if ops == [] {
      assert all[..0] == [];
      events := ConsumeInOrder(maxWaiting, s.(locked := false, lo := seqNo + 1));
    } else {
      var size, earlier := |s.slots|, ops[..|ops| - 1];
      assert all[..|all| - 1] == [Start(seqNo)] + earlier;
      var before := SessionInOrder(maxWaiting, s, seqNo, earlier);
      var m := Run(maxWaiting, s, [Start(seqNo)] + earlier);
      var more := StepInOrder(maxWaiting, m, ops[|ops| - 1]);
      InOrderFrom(size, m.lo, After(size, seqNo + 1, before), more);
      InOrderAppend(size, seqNo + 1, before, more);
      events := before + more;
      assert s.trace + before + more == s.trace + events;
    }
  }

  lemma InOrderFrom(size: nat, lo: nat, from: nat, events: seq<Event>)
    requires InOrder(size, lo, events) && Wrap(size, lo) == from
    ensures InOrder(size, from, events) && After(size, from, events) == After(size, lo, events)
  {
  }

  /** So within a session the numbers of two events differ by their distance, modulo the size. */
  lemma {:induction false} Distance(size: nat, from: nat, events: seq<Event>, i: nat, j: nat)
    requires size > 0 && InOrder(size, from, events) && i <= j < |events|
    ensures events[i].pos < size && events[j].pos == (events[i].pos + (j - i)) % size
    decreases j
  {
    var pos, n := events[i].pos, events[i].pos + (j - i);
    if j == i {
      assert i > 0 ==> pos == Wrap(size, events[i - 1].pos + 1);
      SmallMod(pos, size);
    } else {
      Distance(size, from, events, i, j - 1);
      WrapIsMod(size, n - 1);
      assert events[j].pos == Wrap(size, events[j - 1].pos + 1);
    }
  }

  lemma SmallMod(n: nat, m: nat)
    requires n < m
    ensures n % m == n
  {
  }

  lemma WrapIsMod(size: nat, n: nat)
    requires size > 0
    ensures Wrap(size, n % size + 1) == (n + 1) % size
  {
    var q, r := n / size, n % size;
    assert n == q * size + r;
    if r + 1 == size {
      assert (q + 1) * size == q * size + size;
      ModUnique(n + 1, size, q + 1, 0);
    } else {
      ModUnique(n + 1, size, q, r + 1);
    }
  }

  lemma TimesLess(a: nat, b: nat, m: nat)
    requires a < b
    ensures a * m + m <= b * m
  {
    assert b * m == (a + 1) * m + (b - a - 1) * m;
  }

  lemma ModUnique(n: nat, m: nat, q: nat, r: nat)
    requires n == q * m + r && r < m
    ensures n % m == r
  {
    var q', r' := n / m, n % m;
    if q' < q {
      TimesLess(q', q, m);
    } else if q < q' {
      TimesLess(q, q', m);
    }
  }
}
