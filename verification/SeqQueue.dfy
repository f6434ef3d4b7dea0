/**
 A wrapping reorder buffer. Handlers arrive under sequence numbers in any order and
 are called in sequence order; when too many wait, a missing number is skipped.
 */
module SeqQueue {
  import opened Collections

  /** A queued callback. The one of a closing message stops the queue when it is called. */
  datatype Handler = Handler(id: nat, stops: bool)

  datatype Event = Delivered(pos: nat, handler: Handler) | Skipped(pos: nat)

  datatype State = State(
    lo: nat, waiting: nat, slots: seq<Option<Handler>>, locked: bool, trace: seq<Event>)

  datatype Op = Start(seqNo: nat) | Stop | Push(seqNo: nat, handler: Handler)

  /** Past the last slot the queue starts over. */
  function Wrap(size: nat, lo: nat): (r: nat) {
    if lo >= size then 0 else lo
  }

  /** Reading a slot that does not exist gives nothing. */
  function SlotAt(slots: seq<Option<Handler>>, pos: nat): (r: Option<Handler>) {
    if pos < |slots| then slots[pos] else None
  }

  function Deliver(s: State, pos: nat): (r: State)
    requires pos < |s.slots| && s.slots[pos].Some? && s.waiting > 0
  {
    var h := s.slots[pos].value;
    State(pos + 1, s.waiting - 1, s.slots[pos := None], s.locked || h.stops, s.trace + [Delivered(pos, h)])
  }

  function Skip(s: State, pos: nat): (r: State)
    requires s.waiting > 0
  {
    s.(lo := pos + 1, waiting := s.waiting - 1, trace := s.trace + [Skipped(pos)])
  }

  /** Calls what is due and skips what is overdue, until nothing waits or the next number is awaited. */
  function Consume(maxWaiting: int, s: State): (r: State)
    ensures |r.slots| == |s.slots|
    decreases s.waiting
  {
    if s.waiting == 0 then s
    else
      var pos := Wrap(|s.slots|, s.lo);
      if SlotAt(s.slots, pos).Some? then Consume(maxWaiting, Deliver(s, pos))
      else if s.waiting >= maxWaiting then Consume(maxWaiting, Skip(s, pos))
      else s.(lo := pos)
  }

  function ConsumeUnlessLocked(maxWaiting: int, s: State): (r: State)
    ensures |r.slots| == |s.slots|
  {
    if s.locked then s else Consume(maxWaiting, s)
  }

  function Step(maxWaiting: int, s: State, op: Op): (r: State)
    ensures |r.slots| == |s.slots|
  {
    match op
    case Start(seqNo) => ConsumeUnlessLocked(maxWaiting, s.(locked := false, lo := seqNo + 1))
    case Stop => s.(locked := true)
    case Push(seqNo, handler) =>
      if seqNo >= |s.slots| then s
      else ConsumeUnlessLocked(maxWaiting, s.(slots := s.slots[seqNo := Some(handler)], waiting := s.waiting + 1))
  }

  function Initial(size: nat): (r: State) {
    State(0, 0, seq(size, _ => None), true, [])
  }

  /** The state after a history of calls. */
  function Run(maxWaiting: int, s: State, ops: seq<Op>): (r: State)
    ensures |r.slots| == |s.slots|
  {
    if ops == [] then s
    else Step(maxWaiting, Run(maxWaiting, s, ops[..|ops| - 1]), ops[|ops| - 1])
  }

  class SeqQueue {
    const size: nat
    const maxWaiting: int
    const list: array<Option<Handler>>
    var lo: nat
    var waiting: nat
    var locked: bool
    ghost var trace: seq<Event>  // what was called and what was skipped

    ghost predicate Valid()
      reads this
    {
      list.Length == size
    }

    ghost function Abs(): (r: State)
      reads this, list
    {
      State(lo, waiting, list[..], locked, trace)
    }

    constructor (size: nat, maxWaiting: int)
      ensures Valid() && fresh(list) && Abs() == Initial(size)
      ensures this.size == size && this.maxWaiting == maxWaiting
    {
      this.size, this.maxWaiting := size, maxWaiting;
      list := new Option<Handler>[size](_ => None);
      lo, waiting, locked, trace := 0, 0, true, [];
      new;
      assert list[..] == Initial(size).slots;
    }

    method Start(seqNo: nat)
      requires Valid()
      modifies this, list
      ensures Valid() && Abs() == Step(maxWaiting, old(Abs()), Op.Start(seqNo))
    {
      locked := false;
      // MaybeConsume wraps the value if necessary.
      lo := seqNo + 1;
      MaybeConsume();
    }

    method Stop()
      requires Valid()
      modifies this, list
      ensures Valid() && Abs() == Step(maxWaiting, old(Abs()), Op.Stop)
    {
      locked := true;
      MaybeConsume();
    }

    method Push(seqNo: nat, handler: Handler)
      requires Valid()
      modifies this, list
      ensures Valid() && Abs() == Step(maxWaiting, old(Abs()), Op.Push(seqNo, handler))
    {
      if seqNo >= size {
        return;
      }
      list[seqNo] := Some(handler);
      waiting := waiting + 1;
      MaybeConsume();
    }

    /** Calls a handler, which may stop the queue. */
    method Call(pos: nat, handler: Handler)
      modifies `locked, `trace
      ensures locked == (old(locked) || handler.stops)
      ensures trace == old(trace) + [Delivered(pos, handler)]
    {
      trace := trace + [Delivered(pos, handler)];
      if handler.stops {
        locked := true;
      }
    }

    method MaybeConsume()
      requires Valid()
      modifies this, list
      ensures Valid() && Abs() == ConsumeUnlessLocked(maxWaiting, old(Abs()))
    {
      if locked {
        return;
      }
      ghost var end := Consume(maxWaiting, Abs());
      while waiting != 0
        invariant Valid()
        invariant Consume(maxWaiting, Abs()) == end
        decreases waiting
      {
        ghost var before := Abs();
        if lo >= size {
          lo := 0;
        }
        var handler := if lo < size then list[lo] else None;
        assert handler == SlotAt(before.slots, Wrap(size, before.lo));
        if handler.Some? {
          list[lo] := None;
          assert list[..] == before.slots[lo := None];
          Call(lo, handler.value);
          lo := lo + 1;
          waiting := waiting - 1;
          assert Abs() == Deliver(before, lo - 1);
        } else if waiting >= maxWaiting {
          trace := trace + [Skipped(lo)];
          lo := lo + 1;
          waiting := waiting - 1;
          assert Abs() == Skip(before, lo - 1);
        } else {
          break;
        }
      }
    }
  }
}
