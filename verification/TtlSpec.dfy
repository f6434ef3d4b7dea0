/**
 What one call on a TTLSet does to the set's abstract state.

 The entries are kept in `order`, the order of their last bumps. The list that
 starts at `head` and ends at `tail` holds only the suffix order[start..]; the
 entries of order[..start] are strays: still in the mapping, but on chains that
 `head` does not reach.
 */
module TtlSpec {
  import opened Collections

  datatype Entry = Entry(value: string, time: int)

  datatype Event = Inserted(value: string) | Dropped(value: string)

  datatype Snapshot = Snapshot(order: seq<Entry>, start: nat, timer: Option<int>, events: seq<Event>)

  type State = s: Snapshot | s.start <= |s.order| witness EMPTY

  const EMPTY := Snapshot([], 0, None, [])

  /** One call; `now` is what Date.now() answers during it. */
  datatype Op =
    | Bump(value: string, time: int, now: int, flags: int)
    | Drop(value: string, flags: int)
    | Check(now: int)
    | Stop

  /** The first position of a value at or after `from`, or -1. */
  function FindEntry(order: seq<Entry>, value: string, from: nat := 0): (i: int)
    requires from <= |order|
    ensures i == -1 || (from <= i < |order| && order[i].value == value)
    decreases |order| - from
  {
    if from == |order| then -1
    else if order[from].value == value then from
    else FindEntry(order, value, from + 1)
  }

  /** A value that occurs is found, no later than where it occurs. */
  lemma {:induction false} FindFirst(order: seq<Entry>, from: nat, k: nat)
    requires from <= k < |order|
    ensures from <= FindEntry(order, order[k].value, from) <= k
    decreases k - from
  {
    if order[from].value != order[k].value {
      FindFirst(order, from + 1, k);
    }
  }

  /** Flags are tested on their lowest bit only; an omitted argument is 0. */
  predicate Silent(flags: int) {
    flags % 2 == 1
  }

  /** A missing (zero) time means the current time. */
  function EffectiveTime(time: int, now: int): (r: int) {
    if time != 0 then time else now
  }

  /** When a check scheduled at `now` for a head bumped at `headTime` is due. */
  function Due(ttl: int, now: int, headTime: int): (r: int) {
    now + Max(0, ttl - (now - headTime))
  }

  function Schedule(ttl: int, s: State, now: int): (r: State) {
    s.(timer := if s.start == |s.order| then None else Some(Due(ttl, now, s.order[s.start].time)))
  }

  /** Takes the entry at position i out of the order; the live suffix shrinks or shifts. */
  function Unlink(s: State, i: nat): (r: State)
    requires i < |s.order|
  {
    s.(order := RemoveAt(s.order, i), start := if i < s.start then s.start - 1 else s.start)
  }

  /** The first half of a bump: a known value is unlinked, a new one announced. */
  function Loosened(s: State, value: string, flags: int): (r: State) {
    var i := FindEntry(s.order, value);
    if i >= 0 then Unlink(s, i)
    else if Silent(flags) then s
    else s.(events := s.events + [Inserted(value)])
  }

  /** The second half: the entry comes last, behind the tail or as a whole head-to-tail list of its own. */
  function Attached(s: State, value: string, time: int, alone: bool): (r: State) {
    s.(order := s.order + [Entry(value, time)], start := if alone then |s.order| else s.start)
  }

  /** A bump before its check is scheduled: a known value, having no predecessor left, ends up alone. */
  function Bumped(s: State, value: string, time: int, flags: int): (r: State) {
    Attached(Loosened(s, value, flags), value, time, FindEntry(s.order, value) >= 0)
  }

  function BumpStep(ttl: int, s: State, value: string, time: int, now: int, flags: int): (r: State) {
    Schedule(ttl, Bumped(s, value, EffectiveTime(time, now), flags), now)
  }

  /** The entry at position i leaves the set. */
  function DropAt(s: State, i: nat, flags: int): (r: State)
    requires i < |s.order|
  {
    Unlink(s, i).(events := if Silent(flags) then s.events else s.events + [Dropped(s.order[i].value)])
  }

  function DropStep(s: State, value: string, flags: int): (r: State) {
    var i := FindEntry(s.order, value);
    if i >= 0 then DropAt(s, i, flags) else s
  }

  predicate HeadExpired(ttl: int, s: State, now: int) {
    s.start < |s.order| && now - s.order[s.start].time > ttl
  }

  /** Drops expired heads one after the other, as the loop of a check does. */
  function Expire(ttl: int, s: State, now: int): (r: State)
    decreases |s.order|
  {
    if HeadExpired(ttl, s, now) then Expire(ttl, DropAt(s, s.start, 0), now) else s
  }

  function CheckStep(ttl: int, s: State, now: int): (r: State) {
    Schedule(ttl, Expire(ttl, s, now), now)
  }

  function Step(ttl: int, s: State, op: Op): (r: State) {
    match op
    case Bump(value, time, now, flags) => BumpStep(ttl, s, value, time, now, flags)
    case Drop(value, flags) => DropStep(s, value, flags)
    case Check(now) => CheckStep(ttl, s, now)
    case Stop => s.(timer := None)
  }

  /** The state after a whole history of calls on a new set. */
  function Run(ttl: int, ops: seq<Op>): (r: State) {
    if ops == [] then EMPTY
    else Step(ttl, Run(ttl, ops[..|ops| - 1]), ops[|ops| - 1])
  }
}
