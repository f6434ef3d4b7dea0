/**
 What every history of calls does to a TTL set: in which order its entries stand,
 which of them the head-to-tail list still holds, what a check finds, and when the
 next check comes.
 */
module TtlHistory {
  import opened Collections
  import opened TtlSpec

  // ---------- histories ----------

  predicate Known(s: State, value: string) {
    FindEntry(s.order, value) >= 0
  }

  /** The last call that bumps the value, or -1. */
  function LastBump(ops: seq<Op>, value: string): (j: int)
    ensures -1 <= j < |ops|
    ensures j >= 0 ==> ops[j].Bump? && ops[j].value == value
  {
    if ops == [] then -1
    else
      var op := ops[|ops| - 1];
      if op.Bump? && op.value == value then |ops| - 1 else LastBump(ops[..|ops| - 1], value)
  }

  /** Call j bumps a value that is in the set already. */
  predicate IsRebump(ttl: int, ops: seq<Op>, j: nat)
    requires j < |ops|
  {
    ops[j].Bump? && Known(Run(ttl, ops[..j]), ops[j].value)
  }

  /** The last re-bump of any value, or -1. */
  function LastRebump(ttl: int, ops: seq<Op>): (j: int)
    ensures -1 <= j < |ops|
  {
    if ops == [] then -1
    else if IsRebump(ttl, ops, |ops| - 1) then |ops| - 1
    else LastRebump(ttl, ops[..|ops| - 1])
  }

  // ---------- who is on the list ----------

  /** The time that a bump gives its entry: the caller's, or if that is missing (zero) the clock's. */
  function BumpTime(op: Op): (time: int)
    requires op.Bump?
  {
    if op.time == 0 then op.now else op.time
  }

  /** The call whose bump an entry shows, or -1 if its time is not that bump's time. */
  function BumpedAt(ops: seq<Op>, e: Entry): (j: int)
    ensures -1 <= j < |ops|
  {
    var j := LastBump(ops, e.value);
    if j >= 0 && e.time == BumpTime(ops[j]) then j else -1
  }

  ghost function Bumps(ops: seq<Op>, order: seq<Entry>): (r: seq<int>)
    ensures |r| == |order|
    ensures forall i :: 0 <= i < |order| ==> r[i] == BumpedAt(ops, order[i])
  {
    seq(|order|, i requires 0 <= i < |order| => BumpedAt(ops, order[i]))
  }

  /** Positions rise, and exactly those from `start` on are not before the re-bump. */
  ghost predicate Ranked(bumps: seq<int>, start: nat, rebump: int) {
    && (forall i :: 0 <= i < |bumps| ==> bumps[i] >= 0)
    && (forall i, j :: 0 <= i < j < |bumps| ==> bumps[i] < bumps[j])
    && (forall i :: 0 <= i < |bumps| ==> (i >= start <==> rebump <= bumps[i]))
  }

  /**
   Entries stand in the order of their last bumps and carry those bumps' times. An
   entry is on the head-to-tail list iff no value was re-bumped since its last bump.
   */
  ghost predicate Explained(ttl: int, ops: seq<Op>, s: State) {
    Ranked(Bumps(ops, s.order), s.start, LastRebump(ttl, ops))
  }

  lemma ExplainedWithout(ttl: int, ops: seq<Op>, s: State, i: nat)
    requires i < |s.order| && Explained(ttl, ops, s)
    ensures Explained(ttl, ops, Unlink(s, i))
  {
    assert Bumps(ops, RemoveAt(s.order, i)) == RemoveAt(Bumps(ops, s.order), i);
  }

  lemma {:induction false} ExplainedExpire(ttl: int, ops: seq<Op>, s: State, now: int)
    requires Explained(ttl, ops, s)
    ensures Explained(ttl, ops, Expire(ttl, s, now))
    decreases |s.order|
  {
    if HeadExpired(ttl, s, now) {
      ExplainedWithout(ttl, ops, s, s.start);
      ExplainedExpire(ttl, ops, DropAt(s, s.start, 0), now);
    }
  }

  lemma {:induction false} Histories(ttl: int, ops: seq<Op>)
    ensures Explained(ttl, ops, Run(ttl, ops))
  {
    if ops != [] {
      var earlier, op := ops[..|ops| - 1], ops[|ops| - 1];
      var s := Run(ttl, earlier);
      Histories(ttl, earlier);
      match op
      case Bump(value, time, now, flags) =>
        ExplainedBump(ttl, earlier, op);
        assert earlier + [op] == ops;
      case Drop(value, flags) =>
        SameExplained(ttl, ops, s);
        if Known(s, value) {
          ExplainedWithout(ttl, ops, s, FindEntry(s.order, value));
        }
      case Check(now) =>
        SameExplained(ttl, ops, s);
        ExplainedExpire(ttl, ops, s, now);
      case Stop =>
        SameExplained(ttl, ops, s);
    }
  }

  /** A call that bumps nothing changes no entry's explanation. */
  lemma SameExplained(ttl: int, ops: seq<Op>, s: State)
    requires ops != [] && !ops[|ops| - 1].Bump?
    requires Explained(ttl, ops[..|ops| - 1], s)
    ensures Explained(ttl, ops, s)
  {
    assert Bumps(ops, s.order) == Bumps(ops[..|ops| - 1], s.order);
  }

  /** Different last bumps, hence no value twice. */
  lemma ValuesDistinct(ttl: int, ops: seq<Op>, s: State)
    requires Explained(ttl, ops, s)
    ensures forall i, j :: 0 <= i < j < |s.order| ==> s.order[i].value != s.order[j].value
  {
    forall i, j | 0 <= i < j < |s.order|
      ensures s.order[i].value != s.order[j].value
    {
      assert Bumps(ops, s.order)[i] < Bumps(ops, s.order)[j];
    }
  }

  lemma LooseWithout(ttl: int, ops: seq<Op>, s: State, value: string, flags: int)
    requires Explained(ttl, ops, s)
    ensures var loose := Loosened(s, value, flags);
      && Explained(ttl, ops, loose)
      && forall i :: 0 <= i < |loose.order| ==> loose.order[i].value != value
  {
    var known := FindEntry(s.order, value);
    if known >= 0 {
      ExplainedWithout(ttl, ops, s, known);
      ValuesDistinct(ttl, ops, s);
    } else {
      forall i | 0 <= i < |s.order|
        ensures s.order[i].value != value
      {
        FindFirst(s.order, 0, i);
      }
    }
  }

  /** A new bump n comes last; a re-bump leaves only itself on the list. */
  lemma RankedWith(bumps: seq<int>, start: nat, rebump: int, n: nat, known: bool)
    requires Ranked(bumps, start, rebump) && start <= |bumps| && rebump < n
    requires forall i :: 0 <= i < |bumps| ==> bumps[i] < n
    ensures Ranked(bumps + [n], if known then |bumps| else start, if known then n else rebump)
  {
  }

  lemma BumpsWith(earlier: seq<Op>, op: Op, order: seq<Entry>)
    requires op.Bump? && forall i :: 0 <= i < |order| ==> order[i].value != op.value
    ensures Bumps(earlier + [op], order + [Entry(op.value, BumpTime(op))]) ==
            Bumps(earlier, order) + [|earlier|]
  {
    assert (earlier + [op])[..|earlier|] == earlier;
  }

  lemma ExplainedBump(ttl: int, earlier: seq<Op>, op: Op)
    requires op.Bump? && Explained(ttl, earlier, Run(ttl, earlier))
    ensures Explained(ttl, earlier + [op], Step(ttl, Run(ttl, earlier), op))
  {
    var s := Run(ttl, earlier);
    var loose, known := Loosened(s, op.value, op.flags), FindEntry(s.order, op.value) >= 0;
    LooseWithout(ttl, earlier, s, op.value, op.flags);
    BumpsWith(earlier, op, loose.order);
    RankedWith(Bumps(earlier, loose.order), loose.start, LastRebump(ttl, earlier), |earlier|, known);
    assert (earlier + [op])[..|earlier|] == earlier;
    assert LastRebump(ttl, earlier + [op]) == if known then |earlier| else LastRebump(ttl, earlier);
  }

  // ---------- one list or strays ----------

  /** After every call of the history the head-to-tail list is the whole set. */
  predicate AlwaysOneList(ttl: int, ops: seq<Op>) {
    Run(ttl, ops).start == 0 && (ops != [] ==> AlwaysOneList(ttl, ops[..|ops| - 1]))
  }

  /** No call re-bumps a value while the set holds another one. */
  predicate NoCrowdedRebump(ttl: int, ops: seq<Op>) {
    ops != [] ==>
      && NoCrowdedRebump(ttl, ops[..|ops| - 1])
      && (IsRebump(ttl, ops, |ops| - 1) ==> |Run(ttl, ops[..|ops| - 1]).order| == 1)
  }

  lemma {:induction false} OneListIffNoCrowdedRebump(ttl: int, ops: seq<Op>)
    ensures AlwaysOneList(ttl, ops) <==> NoCrowdedRebump(ttl, ops)
  {
    if ops != [] {
      var earlier := ops[..|ops| - 1];
      OneListIffNoCrowdedRebump(ttl, earlier);
      if Run(ttl, earlier).start == 0 {
        ListAfter(ttl, Run(ttl, earlier), ops[|ops| - 1]);
      }
    }
  }

  lemma ListAfter(ttl: int, s: State, op: Op)
    requires s.start == 0
    ensures Step(ttl, s, op).start == 0 <==> !(op.Bump? && Known(s, op.value) && |s.order| != 1)
  {
    if op.Check? {
      ExpireClosed(ttl, s, op.now);
    }
  }

  // ---------- what a check does ----------

  predicate Expired(ttl: int, e: Entry, now: int) {
    now - e.time > ttl
  }

  /** How many entries from position `from` on are expired without a gap. */
  function ExpiredRun(ttl: int, order: seq<Entry>, from: nat, now: int): (k: nat)
    requires from <= |order|
    ensures from + k <= |order|
    decreases |order| - from
  {
    if from < |order| && now - order[from].time > ttl then 1 + ExpiredRun(ttl, order, from + 1, now) else 0
  }

  /** The order without the k entries from position `from` on. */
  function Cut(order: seq<Entry>, from: nat, k: nat): (r: seq<Entry>)
    requires from + k <= |order|
    ensures |r| == |order| - k
    ensures forall i :: 0 <= i < |r| ==> r[i] == order[if i < from then i else i + k]
  {
    seq(|order| - k, i requires 0 <= i < |order| - k => order[if i < from then i else i + k])
  }

  function DropEvents(order: seq<Entry>, from: nat, k: nat): (r: seq<Event>)
    requires from + k <= |order|
    ensures |r| == k
    ensures forall i :: 0 <= i < k ==> r[i] == Dropped(order[from + i].value)
  {
    seq(k, i requires 0 <= i < k => Dropped(order[from + i].value))
  }

  /** A check drops exactly the longest expired prefix of the list, in order, one event each. */
  lemma {:induction false} ExpireClosed(ttl: int, s: State, now: int)
    ensures var k := ExpiredRun(ttl, s.order, s.start, now);
      Expire(ttl, s, now) ==
        s.(order := Cut(s.order, s.start, k), events := s.events + DropEvents(s.order, s.start, k))
    decreases |s.order|
  {
    var k := ExpiredRun(ttl, s.order, s.start, now);
    if HeadExpired(ttl, s, now) {
      var d := DropAt(s, s.start, 0);
      assert Expire(ttl, s, now) == Expire(ttl, d, now);
      ExpireClosed(ttl, d, now);
      ExpiredRunShift(ttl, s.order, s.start, s.start, now);
      OneMoreCut(s.order, s.start, k, s.events);
    } else {
      NothingCut(s.order, s.start, s.events);
    }
  }

  lemma OneMoreCut(order: seq<Entry>, from: nat, k: nat, events: seq<Event>)
    requires 0 < k && from + k <= |order|
    ensures Cut(RemoveAt(order, from), from, k - 1) == Cut(order, from, k)
    ensures events + [Dropped(order[from].value)] + DropEvents(RemoveAt(order, from), from, k - 1) ==
            events + DropEvents(order, from, k)
  {
  }

  lemma NothingCut(order: seq<Entry>, from: nat, events: seq<Event>)
    requires from <= |order|
    ensures Cut(order, from, 0) == order && events + DropEvents(order, from, 0) == events
  {
  }

  /** Removing an entry before the run does not change the run. */
  lemma {:induction false} ExpiredRunShift(ttl: int, order: seq<Entry>, i: nat, from: nat, now: int)
    requires i <= from < |order|
    ensures ExpiredRun(ttl, RemoveAt(order, i), from, now) == ExpiredRun(ttl, order, from + 1, now)
    decreases |order| - from
  {
    if from + 1 < |order| {
      ExpiredRunShift(ttl, order, i, from + 1, now);
    }
  }

  lemma {:induction false} ExpiredRunMaximal(ttl: int, order: seq<Entry>, from: nat, now: int)
    requires from <= |order|
    ensures var k := ExpiredRun(ttl, order, from, now);
      && (forall i :: from <= i < from + k ==> now - order[i].time > ttl)
      && (from + k < |order| ==> now - order[from + k].time <= ttl)
    decreases |order| - from
  {
    if from < |order| && now - order[from].time > ttl {
      ExpiredRunMaximal(ttl, order, from + 1, now);
    }
  }

  // ---------- who is in the set ----------

  /** An entry with the value occurs somewhere. */
  lemma KnownIffOccurs(s: State, value: string)
    ensures Known(s, value) <==> exists i :: 0 <= i < |s.order| && s.order[i].value == value
  {
    if i :| 0 <= i < |s.order| && s.order[i].value == value {
      FindFirst(s.order, 0, i);
    }
  }

  /** A call adds, removes and keeps exactly the values it should, on the list or among the strays. */
  lemma MembersAfter(ttl: int, ops: seq<Op>, op: Op, w: string)
    ensures var s, i := Run(ttl, ops), FindEntry(Run(ttl, ops).order, w);
      Known(Run(ttl, ops + [op]), w) <==>
        match op
        case Bump(value, _, _, _) => w == value || i >= 0
        case Drop(value, _) => w != value && i >= 0
        case Check(now) => i >= 0 && !(s.start <= i < s.start + ExpiredRun(ttl, s.order, s.start, now))
        case Stop => i >= 0
  {
    var s := Run(ttl, ops);
    RunExtended(ttl, ops, op);
    Histories(ttl, ops);
    ValuesDistinct(ttl, ops, s);
    match op
    case Bump(_, _, _, _) => BumpMembers(ttl, s, op, w);
    case Drop(value, flags) => DropMembers(s, value, flags, w);
    case Check(now) => CheckMembers(ttl, s, now, w);
    case Stop =>
  }

  lemma CheckMembers(ttl: int, s: State, now: int, w: string)
    requires forall i, j :: 0 <= i < j < |s.order| ==> s.order[i].value != s.order[j].value
    ensures var i := FindEntry(s.order, w);
      Known(CheckStep(ttl, s, now), w) <==>
        i >= 0 && !(s.start <= i < s.start + ExpiredRun(ttl, s.order, s.start, now))
  {
    var k := ExpiredRun(ttl, s.order, s.start, now);
    CutMembers(s.order, s.start, k, w);
    ExpireClosed(ttl, s, now);
  }

  lemma CutMembers(order: seq<Entry>, from: nat, k: nat, w: string)
    requires from + k <= |order|
    requires forall i, j :: 0 <= i < j < |order| ==> order[i].value != order[j].value
    ensures FindEntry(Cut(order, from, k), w) >= 0 <==>
            FindEntry(order, w) >= 0 && !(from <= FindEntry(order, w) < from + k)
  {
    var rest, i := Cut(order, from, k), FindEntry(order, w);
    if i >= 0 && !(from <= i < from + k) {
      FindFirst(rest, 0, if i < from then i else i - k);
    }
    var j := FindEntry(rest, w);
    if j >= 0 {
      FindFirst(order, 0, if j < from then j else j + k);
    }
  }

  lemma DropMembers(s: State, value: string, flags: int, w: string)
    requires forall i, j :: 0 <= i < j < |s.order| ==> s.order[i].value != s.order[j].value
    ensures Known(DropStep(s, value, flags), w) <==> w != value && Known(s, w)
  {
    var r, d, i := DropStep(s, value, flags), FindEntry(s.order, value), FindEntry(s.order, w);
    KnownIffOccurs(s, w);
    KnownIffOccurs(r, w);
    if d >= 0 {
      if w != value && i >= 0 {
        assert r.order[if i < d then i else i - 1].value == w;
      }
      if j :| 0 <= j < |r.order| && r.order[j].value == w {
        assert s.order[if j < d then j else j + 1].value == w;
      }
    }
  }

  lemma BumpMembers(ttl: int, s: State, op: Op, w: string)
    requires op.Bump?
    requires forall i, j :: 0 <= i < j < |s.order| ==> s.order[i].value != s.order[j].value
    ensures Known(Step(ttl, s, op), w) <==> w == op.value || Known(s, w)
  {
    var r, d := Step(ttl, s, op), DropStep(s, op.value, op.flags);
    DropMembers(s, op.value, op.flags, w);
    assert r.order == d.order + [Entry(op.value, BumpTime(op))];
    KnownIffOccurs(d, w);
    KnownIffOccurs(r, w);
    assert r.order[|d.order|].value == op.value;
    if i :| 0 <= i < |d.order| && d.order[i].value == w {
      assert r.order[i].value == w;
    }
  }

  // ---------- what listeners are told ----------

  /** The values of k entries from position `from` on, each announced as dropped. */
  function Farewells(order: seq<Entry>, from: nat, k: nat): (r: seq<Event>)
    requires from + k <= |order|
  {
    if k == 0 then [] else Farewells(order, from, k - 1) + [Dropped(order[from + k - 1].value)]
  }

  /**
   What one call announces: a bump its value, if it is new; a drop its value, if it is there;
   both only if the lowest bit of the flags is 0; and a check every value that it removes.
   */
  function Announcement(ttl: int, s: State, op: Op): (r: seq<Event>) {
    match op
    case Bump(value, _, _, flags) => if !Known(s, value) && flags % 2 == 0 then [Inserted(value)] else []
    case Drop(value, flags) => if Known(s, value) && flags % 2 == 0 then [Dropped(value)] else []
    case Check(now) => Farewells(s.order, s.start, ExpiredRun(ttl, s.order, s.start, now))
    case Stop => []
  }

  function Announcements(ttl: int, ops: seq<Op>): (r: seq<Event>) {
    if ops == [] then []
    else
      var earlier := ops[..|ops| - 1];
      Announcements(ttl, earlier) + Announcement(ttl, Run(ttl, earlier), ops[|ops| - 1])
  }

  lemma {:induction false} FarewellsAre(order: seq<Entry>, from: nat, k: nat)
    requires from + k <= |order|
    ensures Farewells(order, from, k) == DropEvents(order, from, k)
  {
    if k > 0 {
      FarewellsAre(order, from, k - 1);
      assert DropEvents(order, from, k) == DropEvents(order, from, k - 1) + [Dropped(order[from + k - 1].value)];
    }
  }

  lemma StepAnnounces(ttl: int, s: State, op: Op)
    ensures Step(ttl, s, op).events == s.events + Announcement(ttl, s, op)
  {
    match op
    case Bump(_, _, _, _) =>
    case Drop(_, _) =>
    case Check(now) =>
      ExpireClosed(ttl, s, now);
      FarewellsAre(s.order, s.start, ExpiredRun(ttl, s.order, s.start, now));
    case Stop =>
  }

  /** In every run listeners are told exactly this, in this order. */
  lemma {:induction false} EventsOfRun(ttl: int, ops: seq<Op>)
    ensures Run(ttl, ops).events == Announcements(ttl, ops)
  {
    if ops != [] {
      EventsOfRun(ttl, ops[..|ops| - 1]);
      StepAnnounces(ttl, Run(ttl, ops[..|ops| - 1]), ops[|ops| - 1]);
    }
  }

  // ---------- clocks that do not run backwards ----------

  /** Bump times never decrease along the history. */
  ghost predicate Monotone(ops: seq<Op>) {
    forall i, j :: 0 <= i < j < |ops| && ops[i].Bump? && ops[j].Bump? ==>
      BumpTime(ops[i]) <= BumpTime(ops[j])
  }

  ghost predicate Sorted(order: seq<Entry>) {
    forall i, j :: 0 <= i <= j < |order| ==> order[i].time <= order[j].time
  }

  lemma SortedByTime(ttl: int, ops: seq<Op>)
    requires Monotone(ops)
    ensures Sorted(Run(ttl, ops).order)
  {
    Histories(ttl, ops);
    var order := Run(ttl, ops).order;
    forall i, j | 0 <= i < j < |order|
      ensures order[i].time <= order[j].time
    {
      var a, b := Bumps(ops, order)[i], Bumps(ops, order)[j];
      assert 0 <= a < b && ops[a].Bump? && ops[b].Bump?;
      assert BumpTime(ops[a]) <= BumpTime(ops[b]);
    }
  }

  ghost predicate NoneExpired(ttl: int, order: seq<Entry>, from: nat, to: nat, now: int)
    requires to <= |order|
  {
    forall i :: from <= i < to ==> !Expired(ttl, order[i], now)
  }

  /** No expired entry of the list stands behind one that has not expired. */
  ghost predicate Unblocked(ttl: int, s: State, now: int) {
    forall i, j :: s.start <= i < j < |s.order| && Expired(ttl, s.order[j], now) ==> Expired(ttl, s.order[i], now)
  }

  /**
   In every state: a check leaves no expired entry on the list iff none stands behind an
   unexpired one; and none in the set iff, besides, no stray has expired.
   */
  lemma CheckFindsAllIff(ttl: int, s: State, now: int)
    ensures var r := CheckStep(ttl, s, now);
      && r.start == s.start <= |r.order|
      && (NoneExpired(ttl, r.order, r.start, |r.order|, now) <==> Unblocked(ttl, s, now))
      && (NoneExpired(ttl, r.order, 0, |r.order|, now) <==>
          NoneExpired(ttl, s.order, 0, s.start, now) && Unblocked(ttl, s, now))
  {
    var k := ExpiredRun(ttl, s.order, s.start, now);
    ExpiredRunMaximal(ttl, s.order, s.start, now);
    CutUnblocked(ttl, s, k, now);
    CutStrays(ttl, s.order, s.start, k, now);
    CheckCuts(ttl, s, now);
  }

  lemma CheckCuts(ttl: int, s: State, now: int)
    ensures var r := CheckStep(ttl, s, now);
      r.start == s.start && r.order == Cut(s.order, s.start, ExpiredRun(ttl, s.order, s.start, now))
  {
    ExpireClosed(ttl, s, now);
  }

  /** What follows the longest expired prefix is free of expired entries iff nothing was blocked. */
  lemma CutUnblocked(ttl: int, s: State, k: nat, now: int)
    requires s.start + k <= |s.order|
    requires forall i :: s.start <= i < s.start + k ==> Expired(ttl, s.order[i], now)
    requires s.start + k < |s.order| ==> !Expired(ttl, s.order[s.start + k], now)
    ensures var rest := Cut(s.order, s.start, k);
      NoneExpired(ttl, rest, s.start, |rest|, now) <==> Unblocked(ttl, s, now)
  {
    var rest := Cut(s.order, s.start, k);
    assert forall i :: s.start <= i < |rest| ==> rest[i] == s.order[i + k];
    if NoneExpired(ttl, rest, s.start, |rest|, now) {
      forall j | s.start + k <= j < |s.order|
        ensures !Expired(ttl, s.order[j], now)
      {
        assert rest[j - k] == s.order[j];
      }
    }
  }

  lemma CutStrays(ttl: int, order: seq<Entry>, from: nat, k: nat, now: int)
    requires from + k <= |order|
    ensures var rest := Cut(order, from, k);
      NoneExpired(ttl, rest, 0, |rest|, now) <==>
      NoneExpired(ttl, order, 0, from, now) && NoneExpired(ttl, rest, from, |rest|, now)
  {
    var rest := Cut(order, from, k);
    assert forall i :: 0 <= i < from ==> rest[i] == order[i];
  }

  /** So with bump times that never decrease the list is cleared, and only strays can be left over. */
  lemma CheckFindsAllButStrays(ttl: int, ops: seq<Op>, now: int)
    requires Monotone(ops)
    ensures var s, r := Run(ttl, ops), Step(ttl, Run(ttl, ops), Check(now));
      && r.start <= |r.order|
      && NoneExpired(ttl, r.order, r.start, |r.order|, now)
      && (NoneExpired(ttl, r.order, 0, |r.order|, now) <==> NoneExpired(ttl, s.order, 0, s.start, now))
  {
    SortedByTime(ttl, ops);
    SortedUnblocked(ttl, Run(ttl, ops), now);
    CheckFindsAllIff(ttl, Run(ttl, ops), now);
  }

  lemma SortedUnblocked(ttl: int, s: State, now: int)
    requires Sorted(s.order)
    ensures Unblocked(ttl, s, now)
  {
  }

  /** A caller may bump y with an old time: then y expires behind x, and the check does not reach it. */
  lemma BlockedEntrySurvives(ttl: nat, x: string, y: string, now: int)
    requires x != y && now > ttl + 1
    ensures var ops := [Bump(x, now, now, 0), Bump(y, now - ttl - 1, now, 0)];
      && Step(ttl, Run(ttl, ops), Check(now)).order == [Entry(x, now), Entry(y, now - ttl - 1)]
      && Step(ttl, Run(ttl, ops), Check(now)).start == 0
      && Expired(ttl, Entry(y, now - ttl - 1), now)
  {
    var a, b := Bump(x, now, now, 0), Bump(y, now - ttl - 1, now, 0);
    TwoBumps(ttl, a, b);
    var s2 := Run(ttl, [a, b]);
    assert Expire(ttl, s2, now) == s2;
  }

  // ---------- strays ----------

  /** The entry is in the set, but not on the list. */
  ghost predicate Stray(s: State, e: Entry) {
    exists i :: 0 <= i < s.start && s.order[i] == e
  }

  /** Only a bump or a drop of its own value moves a stray. */
  predicate Passes(op: Op, value: string) {
    (op.Bump? || op.Drop?) ==> op.value != value
  }

  lemma StrayWithout(s: State, i: nat, e: Entry)
    requires Stray(s, e) && i < |s.order| && s.order[i].value != e.value
    ensures Stray(Unlink(s, i), e)
  {
    var k :| 0 <= k < s.start && s.order[k] == e;
    assert RemoveAt(s.order, i)[if k < i then k else k - 1] == e;
  }

  lemma StrayStep(ttl: int, s: State, op: Op, e: Entry)
    requires Stray(s, e) && Passes(op, e.value)
    ensures Stray(Step(ttl, s, op), e)
  {
    var k :| 0 <= k < s.start && s.order[k] == e;
    match op
    case Bump(value, time, now, flags) =>
      var i, loose := FindEntry(s.order, value), Loosened(s, value, flags);
      if i >= 0 {
        StrayWithout(s, i, e);
      }
      assert Stray(loose, e);
      var j :| 0 <= j < loose.start && loose.order[j] == e;
      assert Step(ttl, s, op).order[j] == e;
    case Drop(value, flags) =>
      var i := FindEntry(s.order, value);
      if i >= 0 {
        StrayWithout(s, i, e);
        var j :| 0 <= j < Unlink(s, i).start && Unlink(s, i).order[j] == e;
        assert DropStep(s, value, flags).order[j] == e;
      }
    case Check(now) =>
      ExpireClosed(ttl, s, now);
      assert Step(ttl, s, op).order[k] == e;
    case Stop =>
      assert Step(ttl, s, op).order[k] == e;
  }

  lemma StrayNext(ttl: int, ops: seq<Op>, op: Op, e: Entry)
    requires Stray(Run(ttl, ops), e) && Passes(op, e.value)
    ensures Stray(Run(ttl, ops + [op]), e)
  {
    RunExtended(ttl, ops, op);
    StrayStep(ttl, Run(ttl, ops), op, e);
  }

  /**
   A stray stays in the set with its old time, off the list, however many checks there are and
   whatever else happens, until its own value is bumped or dropped.
   */
  lemma {:induction false} StrayStays(ttl: int, a: seq<Op>, b: seq<Op>, e: Entry)
    requires Stray(Run(ttl, a), e)
    requires forall i :: 0 <= i < |b| ==> Passes(b[i], e.value)
    ensures Stray(Run(ttl, a + b), e)
  {
    if b == [] {
      assert a + b == a;
    } else {
      var init := b[..|b| - 1];
      StrayStays(ttl, a, init, e);
      assert a + b == a + init + [b[|b| - 1]];
      StrayNext(ttl, a + init, b[|b| - 1], e);
    }
  }

  /** Two different values, bumped one after the other on a new set. */
  lemma TwoBumps(ttl: int, a: Op, b: Op)
    requires a.Bump? && b.Bump? && a.value != b.value
    ensures Run(ttl, [a, b]).order == [Entry(a.value, BumpTime(a)), Entry(b.value, BumpTime(b))]
    ensures Run(ttl, [a, b]).start == 0
  {
    OneBump(ttl, a);
    RunExtended(ttl, [a], b);
    assert [a] + [b] == [a, b];
    OneEntry(Entry(a.value, BumpTime(a)), b.value);
    NewBump(ttl, Run(ttl, [a]), b);
  }

  lemma OneBump(ttl: int, a: Op)
    requires a.Bump?
    ensures Run(ttl, [a]).order == [Entry(a.value, BumpTime(a))] && Run(ttl, [a]).start == 0
  {
    RunExtended(ttl, [], a);
    assert [] + [a] == [a];
    NewBump(ttl, EMPTY, a);
  }

  /** A new value comes last, on the list. */
  lemma NewBump(ttl: int, s: State, op: Op)
    requires op.Bump? && !Known(s, op.value)
    ensures Step(ttl, s, op).order == s.order + [Entry(op.value, BumpTime(op))] && Step(ttl, s, op).start == s.start
  {
  }

  lemma OneEntry(e: Entry, value: string)
    requires e.value != value
    ensures FindEntry([e], value) == -1
  {
    assert FindEntry([e], value) == FindEntry([e], value, 1);
  }

  /** After x and then twice y, a check that finds y expired still leaves the older x in the set. */
  lemma ExpiredStraySurvives(ttl: int, x: string, y: string, now: int)
    requires x != y && now - 3 > ttl
    ensures var ops := [Bump(x, 1, 1, 0), Bump(y, 2, 2, 0), Bump(y, 3, 3, 0)];
      && Monotone(ops)
      && Step(ttl, Run(ttl, ops), Check(now)).order == [Entry(x, 1)]
      && Expired(ttl, Entry(x, 1), now)
  {
    var a, b, b' := Bump(x, 1, 1, 0), Bump(y, 2, 2, 0), Bump(y, 3, 3, 0);
    TwoBumps(ttl, a, b);
    RunExtended(ttl, [a, b], b');
    assert [a, b] + [b'] == [a, b, b'];
    var s2 := Run(ttl, [a, b]);
    assert FindEntry(s2.order, y) == FindEntry(s2.order, y, 1) == 1;
    var s3 := Run(ttl, [a, b, b']);
    assert s3.order == [Entry(x, 1), Entry(y, 3)] && s3.start == 1;
    var s4 := DropAt(s3, 1, 0);
    assert s4.order == [Entry(x, 1)] && s4.start == 1;
    assert Expire(ttl, s3, now) == s4;
  }

  lemma RunExtended(ttl: int, ops: seq<Op>, op: Op)
    ensures Run(ttl, ops + [op]) == Step(ttl, Run(ttl, ops), op)
  {
    assert (ops + [op])[..|ops|] == ops;
  }

  // ---------- the timer ----------

  /** The time of the last call that schedules a check. */
  function LastScheduling(ops: seq<Op>): (r: int) {
    if ops == [] then 0 else SchedulingTime(LastScheduling(ops[..|ops| - 1]), ops[|ops| - 1])
  }

  function SchedulingTime(last: int, op: Op): (r: int) {
    match op
    case Bump(_, _, now, _) => now
    case Check(now) => now
    case _ => last
  }

  /** The last call that sets or clears the timer, or -1. */
  function LastTimerCall(ops: seq<Op>): (j: int)
    ensures -1 <= j < |ops|
    ensures j >= 0 ==> !ops[j].Drop?
  {
    if ops == [] then -1
    else if ops[|ops| - 1].Drop? then LastTimerCall(ops[..|ops| - 1])
    else |ops| - 1
  }

  /** When the check after a call at this time is due: as the head expires, or if that is past, at once. */
  function NextCheck(ttl: int, s: State, now: int): (r: Option<int>) {
    if s.start == |s.order| then None
    else
      var expiry := s.order[s.start].time + ttl;
      if expiry < now then Some(now) else Some(expiry)
  }

  /**
   In every run the timer is exactly what the last bump, check or stop left: a check when the
   head of that moment expires, or at once if it had; none for an empty list or after a stop.
   */
  lemma {:induction false} TimerOfRun(ttl: int, ops: seq<Op>)
    ensures var j := LastTimerCall(ops);
      Run(ttl, ops).timer ==
        if j < 0 || ops[j].Stop? then None else NextCheck(ttl, Run(ttl, ops[..j + 1]), ops[j].now)
  {
    if ops != [] {
      var n := |ops| - 1;
      if ops[n].Drop? {
        var j := LastTimerCall(ops[..n]);
        TimerOfRun(ttl, ops[..n]);
        DropLeavesTimer(ttl, Run(ttl, ops[..n]), ops[n]);
        if j >= 0 {
          assert ops[..n][..j + 1] == ops[..j + 1];
        }
      } else {
        TimerAfter(ttl, Run(ttl, ops[..n]), ops[n]);
        assert ops[..n + 1] == ops;
      }
    }
  }

  lemma DropLeavesTimer(ttl: int, s: State, op: Op)
    requires op.Drop?
    ensures Step(ttl, s, op).timer == s.timer
  {
  }

  lemma TimerAfter(ttl: int, s: State, op: Op)
    requires !op.Drop?
    ensures Step(ttl, s, op).timer == if op.Stop? then None else NextCheck(ttl, Step(ttl, s, op), op.now)
  {
  }

  /** A non-empty list has a check pending, due when its head expires or, if that is past, at once. */
  ghost predicate Covered(ttl: int, s: State, last: int) {
    s.start < |s.order| ==>
      && s.timer.Some?
      && s.timer.value <= Max(last, s.order[s.start].time + ttl)
  }

  lemma Scheduled(ttl: int, s: State, now: int)
    ensures Covered(ttl, Schedule(ttl, s, now), now)
  {
  }

  lemma CoveredStep(ttl: int, s: State, last: int, op: Op)
    requires Covered(ttl, s, last) && Sorted(s.order) && op != Stop
    ensures Covered(ttl, Step(ttl, s, op), SchedulingTime(last, op))
  {
    match op
    case Bump(value, time, now, flags) => Scheduled(ttl, Bumped(s, value, EffectiveTime(time, now), flags), now);
    case Check(now) => Scheduled(ttl, Expire(ttl, s, now), now);
    case Drop(value, flags) =>
  }

  /** As long as a set is not stopped, no entry of its list waits longer for a check than it must. */
  lemma {:induction false} CheckAlwaysPending(ttl: int, ops: seq<Op>)
    requires Monotone(ops) && forall i :: 0 <= i < |ops| ==> ops[i] != Stop
    ensures Covered(ttl, Run(ttl, ops), LastScheduling(ops))
  {
    if ops != [] {
      var earlier := ops[..|ops| - 1];
      CheckAlwaysPending(ttl, earlier);
      SortedByTime(ttl, earlier);
      CoveredStep(ttl, Run(ttl, earlier), LastScheduling(earlier), ops[|ops| - 1]);
    }
  }
}
