/** The TTL set itself: an intrusive doubly linked list and a hash index. */
module TtlSet {
  import opened Collections
  import opened TtlSpec

  class TtlItem {
    const value: string
    var time: int
    var prev: TtlItem?
    var next: TtlItem?

    constructor (value: string, time: int, prev: TtlItem?, next: TtlItem?)
      ensures this.value == value && this.time == time && this.prev == prev && this.next == next
    {
      this.value, this.time, this.prev, this.next := value, time, prev, next;
    }
  }

  ghost function AsSet(x: TtlItem?): (r: set<TtlItem>) {
    if x == null then {} else {x}
  }

  /** The neighbour that item i of a row of chains has on its left; joined[i] says whether i is tied to i - 1. */
  ghost function PrevOf(items: seq<TtlItem>, joined: seq<bool>, i: nat): (r: TtlItem?)
    requires i < |items| == |joined|
  {
    if i > 0 && joined[i] then items[i - 1] else null
  }

  ghost function NextOf(items: seq<TtlItem>, joined: seq<bool>, i: nat): (r: TtlItem?)
    requires i < |items| == |joined|
  {
    if i + 1 < |items| && joined[i + 1] then items[i + 1] else null
  }

  /** The two ends of the last chain, items[start..]. */
  ghost function First(items: seq<TtlItem>, start: nat): (r: TtlItem?) {
    if start < |items| then items[start] else null
  }

  ghost function Last(items: seq<TtlItem>, start: nat): (r: TtlItem?) {
    if start < |items| then items[|items| - 1] else null
  }

  ghost predicate Within(items: seq<TtlItem>, repr: set<TtlItem>) {
    forall i :: 0 <= i < |items| ==> items[i] in repr
  }

  /** The row splits into chains: neighbours are linked to each other both ways or not at all. */
  ghost predicate Tied(items: seq<TtlItem>, joined: seq<bool>, repr: set<TtlItem>)
    requires |items| == |joined| && Within(items, repr)
    reads repr`prev, repr`next
  {
    && (|joined| > 0 ==> !joined[0])
    && (forall i {:trigger items[i].prev} :: 0 <= i < |items| ==> items[i].prev == PrevOf(items, joined, i))
    && (forall i {:trigger items[i].next} :: 0 <= i < |items| ==> items[i].next == NextOf(items, joined, i))
  }

  /** items[start..] is one chain, the last one. */
  ghost predicate LastChain(joined: seq<bool>, start: nat) {
    forall i :: start <= i < |joined| ==> (joined[i] <==> i > start)
  }

  /** The ties of the row without item i. */
  ghost function JoinedWithout(joined: seq<bool>, i: nat): (r: seq<bool>)
    requires i < |joined|
    ensures |r| == |joined| - 1
    ensures forall j :: 0 <= j < |r| ==> r[j] == (joined[if j < i then j else j + 1] && (j == i ==> joined[i]))
  {
    seq(|joined| - 1, j requires 0 <= j < |joined| - 1 => joined[if j < i then j else j + 1] && (j == i ==> joined[i]))
  }

  /** How the ties of a row change when item i leaves it. */
  lemma NeighboursWithout(items: seq<TtlItem>, joined: seq<bool>, i: nat, j: nat)
    requires i < |items| == |joined| && j < |items| - 1
    requires !joined[0]
    ensures var rest, ties := RemoveAt(items, i), JoinedWithout(joined, i);
      && PrevOf(rest, ties, j) ==
         (if j < i then PrevOf(items, joined, j)
          else if j > i then PrevOf(items, joined, j + 1)
          else if joined[i + 1] then PrevOf(items, joined, i) else null)
      && NextOf(rest, ties, j) ==
         (if j + 1 < i then NextOf(items, joined, j)
          else if j >= i then NextOf(items, joined, j + 1)
          else if joined[i] then NextOf(items, joined, i) else null)
  {
  }

  /** Detaching item i leaves the row without it tied exactly as before. */
  lemma TiedWithout(items: seq<TtlItem>, joined: seq<bool>, repr: set<TtlItem>, i: nat)
    requires i < |items| == |joined| && !joined[0] && Within(items, repr)
    requires forall k {:trigger items[k].prev} {:trigger items[k].next} :: 0 <= k < |items| && k != i ==>
      && items[k].prev == (if k == i + 1 && joined[k] then PrevOf(items, joined, i) else PrevOf(items, joined, k))
      && items[k].next == (if k + 1 == i && joined[i] then NextOf(items, joined, i) else NextOf(items, joined, k))
    ensures Within(RemoveAt(items, i), repr)
    ensures Tied(RemoveAt(items, i), JoinedWithout(joined, i), repr)
  {
    var rest, ties := RemoveAt(items, i), JoinedWithout(joined, i);
    forall j | 0 <= j < |rest|
      ensures rest[j].prev == PrevOf(rest, ties, j) && rest[j].next == NextOf(rest, ties, j)
    {
      NeighboursWithout(items, joined, i, j);
      assert rest[j] == items[if j < i then j else j + 1];
    }
  }

  lemma EndsWithout(items: seq<TtlItem>, joined: seq<bool>, start: nat, i: nat)
    requires start <= |items| == |joined| && i < |items| && LastChain(joined, start)
    ensures var rest, first := RemoveAt(items, i), if i < start then start - 1 else start;
      && LastChain(JoinedWithout(joined, i), first)
      && First(rest, first) == (if i == start then NextOf(items, joined, i) else First(items, start))
      && Last(rest, first) ==
         (if i >= start && i == |items| - 1 then PrevOf(items, joined, i) else Last(items, start))
  {
    var ties := JoinedWithout(joined, i);
    assert forall j :: 0 <= j < |ties| && j != i ==> ties[j] == joined[if j < i then j else j + 1];
  }

  /** Hanging a loose item behind the row extends the row by one item. */
  lemma TiedWith(items: seq<TtlItem>, joined: seq<bool>, repr: set<TtlItem>, item: TtlItem)
    requires |items| == |joined| && Within(items + [item], repr) && (|joined| > 0 ==> !joined[0])
    requires forall k {:trigger items[k].prev} :: 0 <= k < |items| ==> items[k].prev == PrevOf(items, joined, k)
    requires forall k {:trigger items[k].next} :: 0 <= k < |items| - 1 ==> items[k].next == NextOf(items, joined, k)
    requires item.next == null && (item.prev != null ==> |items| > 0 && item.prev == items[|items| - 1])
    requires |items| > 0 ==> items[|items| - 1].next == if item.prev != null then item else null
    ensures Tied(items + [item], joined + [item.prev != null], repr)
  {
    var row, ties := items + [item], joined + [item.prev != null];
    forall k | 0 <= k < |items|
      ensures row[k].prev == PrevOf(row, ties, k) && row[k].next == NextOf(row, ties, k)
    {
      assert row[k] == items[k];
    }
  }

  ghost predicate Numbered(items: seq<TtlItem>, place: map<string, nat>) {
    forall i {:trigger items[i].value} :: 0 <= i < |items| ==> items[i].value in place && place[items[i].value] == i
  }

  /** The mapping's values are the items of the row, each under its own value and at its own place. */
  ghost predicate Indexed(items: seq<TtlItem>, mapping: map<string, TtlItem>, place: map<string, nat>) {
    && Numbered(items, place)
    && (forall i {:trigger items[i].value} :: 0 <= i < |items| ==>
          items[i].value in mapping && mapping[items[i].value] == items[i])
    && (forall k {:trigger k in mapping} :: k in mapping ==>
          && mapping[k].value == k
          && k in place && place[k] < |items| && items[place[k]] == mapping[k])
    && (forall k :: k in place ==> k in mapping)
  }

  ghost function PlaceWithout(place: map<string, nat>, value: string): (r: map<string, nat>)
    requires value in place
  {
    map k | k in place && k != value :: if place[k] <= place[value] then place[k] else place[k] - 1
  }

  /** Neither item i nor its neighbours occur a second time. */
  lemma NumberedApart(items: seq<TtlItem>, place: map<string, nat>, i: nat)
    requires Numbered(items, place)
    ensures forall j, k ::
      0 <= j < |items| && Max(0, i - 1) <= k <= i + 1 && k < |items| && j != k ==> items[j] != items[k]
  {
    forall j, k | 0 <= j < |items| && 0 <= k < |items| && j != k
      ensures items[j] != items[k]
    {
      assert place[items[k].value] == k && place[items[j].value] == j;
    }
  }

  /** There are as many keys as places. */
  lemma {:induction false} IndexSize(items: seq<TtlItem>, mapping: map<string, TtlItem>, place: map<string, nat>)
    requires Indexed(items, mapping, place)
    ensures |mapping| == |items|
  {
    if items != [] {
      var n := |items| - 1;
      var value := items[n].value;
      IndexedWithout(items, mapping, place, value);
      assert RemoveAt(items, n) == items[..n];
      IndexSize(items[..n], mapping - {value}, PlaceWithout(place, value));
      assert (mapping - {value}).Keys == mapping.Keys - {value};
      assert |mapping| == |mapping.Keys|;
    } else {
      assert mapping == map[];
    }
  }

  lemma IndexedWithout(items: seq<TtlItem>, mapping: map<string, TtlItem>, place: map<string, nat>, value: string)
    requires Indexed(items, mapping, place) && value in mapping
    ensures Indexed(RemoveAt(items, place[value]), mapping - {value}, PlaceWithout(place, value))
  {
  }

  lemma IndexedWith(items: seq<TtlItem>, mapping: map<string, TtlItem>, place: map<string, nat>, item: TtlItem)
    requires Indexed(items, mapping, place) && item.value !in mapping
    ensures Indexed(items + [item], mapping[item.value := item], place[item.value := |items|])
  {
  }

  ghost predicate Mirrors(items: seq<TtlItem>, order: seq<Entry>, repr: set<TtlItem>)
    requires Within(items, repr)
    reads repr`time
  {
    && |items| == |order|
    && (forall i {:trigger order[i]} {:trigger items[i].time} :: 0 <= i < |items| ==>
          order[i] == Entry(items[i].value, items[i].time))
  }

  lemma MirrorsWithout(items: seq<TtlItem>, order: seq<Entry>, repr: set<TtlItem>, i: nat)
    requires Within(items, repr) && Mirrors(items, order, repr) && i < |items|
    ensures Within(RemoveAt(items, i), repr) && Mirrors(RemoveAt(items, i), RemoveAt(order, i), repr)
  {
  }

  lemma MirrorsWith(items: seq<TtlItem>, order: seq<Entry>, repr: set<TtlItem>, item: TtlItem)
    requires Within(items, repr) && Mirrors(items, order, repr) && item in repr
    ensures Within(items + [item], repr) && Mirrors(items + [item], order + [Entry(item.value, item.time)], repr)
  {
  }

  /** A search of the order finds a value exactly where the mapping has it. */
  lemma FindMapped(items: seq<TtlItem>, mapping: map<string, TtlItem>, place: map<string, nat>,
                   order: seq<Entry>, repr: set<TtlItem>, value: string)
    requires Indexed(items, mapping, place) && Within(items, repr) && Mirrors(items, order, repr)
    ensures FindEntry(order, value) == if value in mapping then place[value] else -1
  {
    var i := FindEntry(order, value);
    if i >= 0 {
      assert items[i].value == value;
    }
    if value in mapping {
      FindFirst(order, 0, place[value]);
    }
  }

  class TtlSet {
    const ttl: int
    var head: TtlItem?
    var tail: TtlItem?
    var mapping: map<string, TtlItem>
    var timer: Option<int>
    var events: seq<Event>

    ghost var repr: set<TtlItem>      // every item made so far
    ghost var items: seq<TtlItem>     // every mapped item, in the order of the last bumps
    ghost var place: map<string, nat> // where each value stands in `items`
    ghost var joined: seq<bool>       // joined[i]: items i - 1 and i are linked to each other
    ghost var start: nat              // where the chain between head and tail begins
    ghost var state: State            // what the set means

    /** The items hang on chains, and the last chain is the one between `head` and `tail`. */
    ghost predicate Linked()
      reads `head, `tail, `items, `joined, `start, `repr, repr`prev, repr`next
    {
      && start <= |items| == |joined|
      && Within(items, repr)
      && Tied(items, joined, repr)
      && LastChain(joined, start)
      && head == First(items, start) && tail == Last(items, start)
    }

    ghost predicate Represents()
      reads `timer, `events, `items, `start, `state, `repr, repr`time
    {
      && Within(items, repr) && Mirrors(items, state.order, repr)
      && state.start == start && state.timer == timer && state.events == events
    }

    ghost predicate Valid()
      reads this, repr
    {
      Linked() && Indexed(items, mapping, place) && Represents()
    }

    /**
     The mapped items hang on disjoint chains without cycles: links agree in both directions
     and lead one place on. `head` and `tail` are both null or the two ends of one chain, the
     one from place `start` on; no link leads from it to the strays before it, or back.
     */
    lemma Chains()
      requires Valid()
      ensures forall k :: k in mapping ==>
        var x := mapping[k];
        && x.value == k
        && (x.next != null ==> x.next.prev == x && Follows(x, x.next) && (Live(x) <==> Live(x.next)))
        && (x.prev != null ==> x.prev.next == x && Follows(x.prev, x) && (Live(x) <==> Live(x.prev)))
        && (Live(x) ==> (x.prev == null <==> x == head) && (x.next == null <==> x == tail))
      ensures head == null <==> tail == null
      ensures head == null ==> forall k :: k in mapping ==> !Live(mapping[k])
      ensures head != null ==> Live(head) && Live(tail) && head.prev == null && tail.next == null
      ensures head != null ==> start == place[head.value] && place[tail.value] == |mapping| - 1
    {
      forall k | k in mapping
        ensures var x := mapping[k];
          && x.value == k
          && (x.next != null ==> x.next.prev == x && Follows(x, x.next) && (Live(x) <==> Live(x.next)))
          && (x.prev != null ==> x.prev.next == x && Follows(x.prev, x) && (Live(x) <==> Live(x.prev)))
          && (Live(x) ==> (x.prev == null <==> x == head) && (x.next == null <==> x == tail))
      {
        LinksAt(place[k]);
      }
      if start < |items| {
        LinksAt(start);
        LinksAt(|items| - 1);
      }
      IndexSize(items, mapping, place);
    }

    /** The item stands on the last chain. */
    ghost predicate Live(x: TtlItem)
      reads this
    {
      x.value in mapping && mapping[x.value] == x && x.value in place && start <= place[x.value]
    }

    lemma LinksAt(i: nat)
      requires Valid() && i < |items|
      ensures var x := items[i];
        && x.value in mapping && mapping[x.value] == x && x.value in place && place[x.value] == i
        && (x.next != null ==> x.next.prev == x && Follows(x, x.next) && (Live(x) <==> Live(x.next)))
        && (x.prev != null ==> x.prev.next == x && Follows(x.prev, x) && (Live(x) <==> Live(x.prev)))
        && (i >= start ==> (x.prev == null <==> i == start) && (x.next == null <==> i == |items| - 1))
    {
      assert items[i].prev == PrevOf(items, joined, i) && items[i].next == NextOf(items, joined, i);
      if i > 0 && items[i].prev != null {
        assert items[i - 1].next == NextOf(items, joined, i - 1);
        assert items[i - 1].value in mapping;
      }
      if i + 1 < |items| && items[i].next != null {
        assert items[i + 1].prev == PrevOf(items, joined, i + 1);
        assert items[i + 1].value in mapping;
      }
    }

    /** Two mapped items, the second standing right behind the first. */
    ghost predicate Follows(x: TtlItem, y: TtlItem)
      reads this
    {
      && x.value in mapping && mapping[x.value] == x && x.value in place
      && y.value in mapping && mapping[y.value] == y && y.value in place
      && place[y.value] == place[x.value] + 1
    }

    constructor (ttl: int)
      ensures Valid() && fresh(repr) && state == EMPTY && this.ttl == ttl
    {
      this.ttl := ttl;
      head, tail, mapping, timer, events := null, null, map[], None, [];
      repr, items, place, joined, start := {}, [], map[], [], 0;
      state := EMPTY;
    }

    /** The pointer surgery of a removal. */
    method Detach(item: TtlItem)
      requires item.prev != item && item.next != item && (item.prev == item.next ==> item.prev == null)
      modifies this`head, this`tail, item`prev, item`next, AsSet(item.prev)`next, AsSet(item.next)`prev
      ensures item.prev == null && item.next == null
      ensures old(item.prev) != null ==> old(item.prev).next == old(item.next)
      ensures old(item.next) != null ==> old(item.next).prev == old(item.prev)
      ensures head == if item == old(head) then old(item.next) else old(head)
      ensures tail == if item == old(tail) then old(item.prev) else old(tail)
    {
      if item.prev != null {
        item.prev.next := item.next;
      }
      if item.next != null {
        item.next.prev := item.prev;
      }
      if item == head {
        head := item.next;
      }
      if item == tail {
        tail := item.prev;
      }
      item.next, item.prev := null, null;
    }

    /** Takes an item off its chain. It ends up linked to nothing; it is still mapped. */
    method Remove(item: TtlItem)
      requires Valid() && item.value in mapping && mapping[item.value] == item
      modifies this`head, this`tail, this`items, this`place, this`joined, this`start, this`state, repr`prev, repr`next
      ensures Linked() && Indexed(items, mapping - {item.value}, place) && Represents()
      ensures 0 <= FindEntry(old(state).order, item.value)
      ensures state == Unlink(old(state), FindEntry(old(state).order, item.value))
      ensures item.prev == null && item.next == null
    {
      ghost var i := place[item.value];
      assert FindEntry(state.order, item.value) == i by {
        FindMapped(items, mapping, place, state.order, repr, item.value);
      }
      MirrorsWithout(items, state.order, repr, i);
      Displace(item, i);
      state := Unlink(state, i);
    }

    method Displace(item: TtlItem, ghost i: nat)
      requires Linked() && Indexed(items, mapping, place)
      requires item.value in mapping && mapping[item.value] == item && i == place[item.value]
      modifies this`head, this`tail, this`items, this`place, this`joined, this`start, repr`prev, repr`next
      ensures Linked() && Indexed(items, mapping - {item.value}, place)
      ensures items == RemoveAt(old(items), i)
      ensures start == if i < old(start) then old(start) - 1 else old(start)
      ensures item.prev == null && item.next == null
    {
      IndexedWithout(items, mapping, place, item.value);
      Unhook(item, i);
      place := PlaceWithout(place, item.value);
    }

    method Unhook(item: TtlItem, ghost i: nat)
      requires Linked() && Numbered(items, place) && i < |items| && items[i] == item
      modifies this`head, this`tail, this`items, this`joined, this`start, repr`prev, repr`next
      ensures Linked()
      ensures items == RemoveAt(old(items), i)
      ensures start == if i < old(start) then old(start) - 1 else old(start)
      ensures item.prev == null && item.next == null
    {
      ghost var row, ties, first := items, joined, start;
      assert item.prev == PrevOf(row, ties, i) && item.next == NextOf(row, ties, i);
      NumberedApart(row, place, i);
      Detach(item);
      EndsWithout(row, ties, first, i);
      TiedWithout(row, ties, repr, i);
      items, joined := RemoveAt(row, i), JoinedWithout(ties, i);
      start := if i < first then first - 1 else first;
    }

    /** Hangs a loose item at the end: behind `tail` if its `prev` says so, else as a chain of its own. */
    method Append(item: TtlItem)
      requires Linked() && Indexed(items, mapping - {item.value}, place)
      requires item.value in mapping && mapping[item.value] == item
      requires item in repr && item.next == null && (item.prev == null || item.prev == tail)
      modifies this`head, this`tail, this`items, this`place, this`joined, this`start, repr`next
      ensures Linked() && Indexed(items, mapping, place)
      ensures items == old(items) + [item]
      ensures start == if item.prev == null then |old(items)| else old(start)
    {
      IndexedWith(items, mapping - {item.value}, place, item);
      assert mapping == (mapping - {item.value})[item.value := item];
      Hook(item);
      place := place[item.value := |items| - 1];
    }

    method Hook(item: TtlItem)
      requires Linked() && Numbered(items, place) && item.value !in place
      requires item in repr && item.next == null && (item.prev == null || item.prev == tail)
      modifies this`head, this`tail, this`items, this`joined, this`start, repr`next
      ensures Linked()
      ensures items == old(items) + [item]
      ensures start == if item.prev == null then |old(items)| else old(start)
    {
      NumberedApart(items, place, |items|);
      tail := item;
      if item.prev != null {
        item.prev.next := item;
      } else {
        head := item;
      }
      TiedWith(items, joined, repr, item);
      start := if item.prev == null then |items| else start;
      items, joined := items + [item], joined + [item.prev != null];
    }

    /** What listeners are told, unless the call is a silent one. */
    method Emit(event: Event, flags: int)
      requires Represents()
      modifies this`events, this`state
      ensures Represents() && state == old(state).(events := events)
      ensures events == if flags % 2 == 1 then old(events) else old(events) + [event]
    {
      if !Silent(flags) {
        events := events + [event];
      }
      state := state.(events := events);
    }

    method Create(value: string, prev: TtlItem?, flags: int) returns (item: TtlItem)
      requires Represents()
      modifies this`mapping, this`events, this`repr, this`state
      ensures Represents() && state == old(state).(events := events)
      ensures events == if flags % 2 == 1 then old(events) else old(events) + [Inserted(value)]
      ensures fresh(item) && item.value == value && item.prev == prev && item.next == null
      ensures repr == old(repr) + {item} && mapping == old(mapping)[value := item]
    {
      item := new TtlItem(value, 0, prev, null);
      mapping, repr := mapping[value := item], repr + {item};
      Emit(Inserted(value), flags);
    }

    method ScheduleCheck(now: int)
      requires Valid()
      modifies this`timer, this`state
      ensures Valid() && state == Schedule(ttl, old(state), now)
    {
      timer := None;
      if head != null {
        timer := Some(now + Max(0, ttl - (now - head.time)));
      }
      state := Schedule(ttl, state, now);
    }

    /** The item to bump: the known one, unlinked, or a new one that follows the tail. */
    method Obtain(value: string, flags: int) returns (item: TtlItem)
      requires Valid()
      modifies this, repr`prev, repr`next
      ensures Linked() && Indexed(items, mapping - {value}, place) && Represents()
      ensures state == Loosened(old(state), value, flags)
      ensures value in mapping && mapping[value] == item && item.value == value
      ensures item in repr && old(repr) <= repr && fresh(repr - old(repr))
      ensures item.next == null && item.prev == if FindEntry(old(state).order, value) >= 0 then null else tail
    {
      assert value in mapping <==> FindEntry(state.order, value) >= 0 by {
        FindMapped(items, mapping, place, state.order, repr, value);
      }
      if value in mapping {
        item := mapping[value];
        Remove(item);
      } else {
        item := Create(value, tail, flags);
        assert mapping - {value} == old(mapping);
      }
    }

    method Bump(value: string, time: int, now: int, flags: int)
      requires Valid()
      modifies this, repr
      ensures Valid() && state == BumpStep(ttl, old(state), value, time, now, flags)
      ensures old(repr) <= repr && fresh(repr - old(repr))
    {
      var item := Obtain(value, flags);
      Attach(item, EffectiveTime(time, now));
      ScheduleCheck(now);
    }

    method Attach(item: TtlItem, time: int)
      requires Linked() && Indexed(items, mapping - {item.value}, place) && Represents()
      requires item.value in mapping && mapping[item.value] == item
      requires item in repr && item.next == null && (item.prev == null || item.prev == tail)
      modifies this`head, this`tail, this`items, this`place, this`joined, this`start, this`state, repr`next, item`time
      ensures Valid()
      ensures state == Attached(old(state), item.value, time, item.prev == null)
    {
      item.time := time;
      MirrorsWith(items, state.order, repr, item);
      Append(item);
      state := Attached(state, item.value, time, item.prev == null);
    }

    method Delete(item: TtlItem)
      requires Valid() && item.value in mapping && mapping[item.value] == item
      modifies this`head, this`tail, this`items, this`place, this`joined, this`start, this`mapping
      modifies this`state, repr`prev, repr`next
      ensures Valid()
      ensures 0 <= FindEntry(old(state).order, item.value)
      ensures state == Unlink(old(state), FindEntry(old(state).order, item.value))
    {
      Remove(item);
      mapping := mapping - {item.value};
    }

    method DropItem(item: TtlItem, flags: int)
      requires Valid() && item.value in mapping && mapping[item.value] == item
      modifies this`head, this`tail, this`items, this`place, this`joined, this`start, this`mapping, this`events
      modifies this`state, repr`prev, repr`next
      ensures Valid() && state == DropStep(old(state), item.value, flags)
      ensures |items| < |old(items)|
    {
      Delete(item);
      Emit(Dropped(item.value), flags);
    }

    method Drop(value: string, flags: int)
      requires Valid()
      modifies this, repr
      ensures Valid() && repr == old(repr) && state == DropStep(old(state), value, flags)
    {
      FindMapped(items, mapping, place, state.order, repr, value);
      if value in mapping {
        DropItem(mapping[value], flags);
      }
    }

    /** The timer's callback: expired items leave from the head until a live one is met. */
    method Check(now: int)
      requires Valid()
      modifies this, repr
      ensures Valid() && repr == old(repr) && state == CheckStep(ttl, old(state), now)
    {
      while head != null
        invariant Valid()
        invariant repr == old(repr)
        invariant Expire(ttl, state, now) == Expire(ttl, old(state), now)
        decreases |items|
      {
        if now - head.time > ttl {
          FindMapped(items, mapping, place, state.order, repr, head.value);
          DropItem(head, 0);
        } else {
          break;
        }
      }
      ScheduleCheck(now);
    }

    method Stop()
      requires Valid()
      modifies this`timer, this`state
      ensures Valid() && state == old(state).(timer := None)
    {
      timer := None;
      state := state.(timer := None);
    }
  }
}
