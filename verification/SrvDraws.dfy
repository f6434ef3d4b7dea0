/**
 Which record a draw yields. The records of one priority stand by falling weight, equal ones
 in their given order; each draw, scaled to the weights still there, falls into the interval
 of one of them, and that one comes next.
 */
module SrvDraws {
  import opened Collections
  import opened Srv
  import opened SrvLaws

  // ---------- how the records stand ----------

  /** The records of a priority and a weight, in their order. */
  function Filter(s: seq<Record>, priority: nat, weight: nat): (r: seq<Record>) {
    if s == [] then []
    else
      var x := s[|s| - 1];
      Filter(s[..|s| - 1], priority, weight) + if x.priority == priority && x.weight == weight then [x] else []
  }

  ghost predicate Falling(s: seq<Record>) {
    forall i, j :: 0 <= i < j < |s| ==> s[i].weight >= s[j].weight
  }

  /**
   One list per priority, the priorities rising; in each the weights fall; and records that
   agree in both stand as they were given.
   */
  ghost predicate Arranged(standings: seq<seq<Record>>, records: seq<Record>) {
    && Ladder(standings)
    && (forall g :: 0 <= g < |standings| ==> Falling(standings[g]))
    && (forall p: nat, w: nat :: Filter(Flatten(standings), p, w) == Filter(records, p, w))
  }

  lemma FilterSnoc(s: seq<Record>, x: Record, p: nat, w: nat)
    ensures Filter(s + [x], p, w) == Filter(s, p, w) + if x.priority == p && x.weight == w then [x] else []
  {
    assert (s + [x])[..|s|] == s;
  }

  lemma {:induction false} FilterAppend(a: seq<Record>, b: seq<Record>, p: nat, w: nat)
    ensures Filter(a + b, p, w) == Filter(a, p, w) + Filter(b, p, w)
  {
    if b == [] {
      assert a + b == a;
    } else {
      FilterAppend(a, b[..|b| - 1], p, w);
      assert (a + b)[..|a + b| - 1] == a + b[..|b| - 1];
    }
  }

  /** Two records that differ in priority or weight may change places. */
  lemma SwapFilter(s: seq<Record>, x: Record, y: Record, p: nat, w: nat)
    requires x.priority != y.priority || x.weight != y.weight
    ensures Filter(s + [x] + [y], p, w) == Filter(s + [y] + [x], p, w)
  {
    FilterSnoc(s + [x], y, p, w);
    FilterSnoc(s, x, p, w);
    FilterSnoc(s + [y], x, p, w);
    FilterSnoc(s, y, p, w);
  }

  lemma InsertFilterStep(init: seq<Record>, last: Record, mid: seq<Record>, x: Record, p: nat, w: nat)
    requires Filter(mid, p, w) == Filter(init + [x], p, w)
    requires x.priority != last.priority || x.weight != last.weight
    ensures Filter(mid + [last], p, w) == Filter(init + [last] + [x], p, w)
  {
    FilterSnoc(mid, last, p, w);
    FilterSnoc(init + [x], last, p, w);
    SwapFilter(init, x, last, p, w);
  }

  lemma InsertCases(key: Key, s: seq<Record>, x: Record)
    ensures var n := |s| - 1;
      if s != [] && Before(key, x, s[n]) then
        Insert(key, s, x) == Insert(key, s[..n], x) + [s[n]] && s == s[..n] + [s[n]]
      else Insert(key, s, x) == s + [x]
  {
  }

  lemma {:induction false} InsertFilter(key: Key, s: seq<Record>, x: Record, p: nat, w: nat)
    ensures Filter(Insert(key, s, x), p, w) == Filter(s + [x], p, w)
  {
    var n := |s| - 1;
    InsertCases(key, s, x);
    if s != [] && Before(key, x, s[n]) {
      InsertFilter(key, s[..n], x, p, w);
      InsertFilterStep(s[..n], s[n], Insert(key, s[..n], x), x, p, w);
    }
  }

  lemma {:induction false} SortFilter(key: Key, s: seq<Record>, p: nat, w: nat)
    ensures Filter(StableSort(key, s), p, w) == Filter(s, p, w)
  {
    if s != [] {
      var init, last := s[..|s| - 1], s[|s| - 1];
      SortFilter(key, init, p, w);
      InsertFilter(key, StableSort(key, init), last, p, w);
      FilterSnoc(StableSort(key, init), last, p, w);
    }
  }

  function Standings(groups: seq<seq<Record>>): (r: seq<seq<Record>>)
    ensures |r| == |groups|
    ensures forall g :: 0 <= g < |r| ==> r[g] == StableSort(Weight, groups[g])
  {
    seq(|groups|, g requires 0 <= g < |groups| => StableSort(Weight, groups[g]))
  }

  lemma {:induction false} StandingsFilter(groups: seq<seq<Record>>, p: nat, w: nat)
    ensures Filter(Flatten(Standings(groups)), p, w) == Filter(Flatten(groups), p, w)
  {
    if groups != [] {
      var n := |groups| - 1;
      StandingsFilter(groups[..n], p, w);
      assert Standings(groups)[..n] == Standings(groups[..n]);
      FilterAppend(Flatten(Standings(groups[..n])), StableSort(Weight, groups[n]), p, w);
      FilterAppend(Flatten(groups[..n]), groups[n], p, w);
      SortFilter(Weight, groups[n], p, w);
    }
  }

  lemma SortedGroup(group: seq<Record>, priority: nat)
    requires Uniform(group, priority)
    ensures Uniform(StableSort(Weight, group), priority) && Falling(StableSort(Weight, group))
  {
    var r := StableSort(Weight, group);
    Sorts(Weight, group);
    forall i | 0 <= i < |r|
      ensures r[i].priority == priority
    {
      MembersAgree(r, group, i);
    }
    forall i, j | 0 <= i < j < |r|
      ensures r[i].weight >= r[j].weight
    {
      assert !Before(Weight, r[j], r[i]);
    }
  }

  lemma StandingsArranged(groups: seq<seq<Record>>)
    requires Ladder(groups)
    ensures Ladder(Standings(groups)) && forall g :: 0 <= g < |groups| ==> Falling(Standings(groups)[g])
  {
    forall g | 0 <= g < |groups|
      ensures Uniform(Standings(groups)[g], groups[g][0].priority) && Falling(Standings(groups)[g])
    {
      SortedGroup(groups[g], groups[g][0].priority);
    }
  }

  // ---------- what the draws yield ----------

  /** The weights of the first n records. */
  function WeightBefore(s: seq<Record>, n: nat): (sum: nat)
    requires n <= |s|
  {
    if n == 0 then 0 else WeightBefore(s, n - 1) + s[n - 1].weight
  }

  /** A number in the interval of record i. */
  predicate Hits(s: seq<Record>, x: real, i: nat) {
    i < |s| && WeightBefore(s, i) as real <= x < (WeightBefore(s, i) + s[i].weight) as real
  }

  /** A draw, scaled to a sum of weights. */
  function Scale(draw: Draw, sum: nat): (x: real) {
    draw * sum as real
  }

  /**
   The order that the draws from the n-th on yield: each, scaled to all weights still there,
   hits the next record; when only records without weight are left, no more come.
   */
  ghost predicate Drawn(s: seq<Record>, draws: nat -> Draw, n: nat, order: seq<Record>)
    decreases |order|, 1
  {
    if order == [] then WeightBefore(s, |s|) == 0
    else exists i: nat :: DrawnFirst(s, draws, n, order, i)
  }

  /** The n-th draw hits record i, which is the first of the order. */
  ghost predicate DrawnFirst(s: seq<Record>, draws: nat -> Draw, n: nat, order: seq<Record>, i: nat)
    requires order != []
    decreases |order|, 0
  {
    && Hits(s, Scale(draws(n), WeightBefore(s, |s|)), i)
    && s[i] == order[0]
    && Drawn(RemoveAt(s, i), draws, n + 1, order[1..])
  }

  /** The lists one after the other; each takes one draw more than it yields records. */
  ghost predicate AllDrawn(standings: seq<seq<Record>>, draws: nat -> Draw, n: nat, parts: seq<seq<Record>>)
    decreases standings
  {
    if standings == [] then parts == []
    else
      && parts != []
      && Drawn(standings[0], draws, n, parts[0])
      && AllDrawn(standings[1..], draws, n + |parts[0]| + 1, parts[1..])
  }

  lemma {:induction false} WeightIsTotal(s: seq<Record>, n: nat)
    requires n <= |s|
    ensures WeightBefore(s, n) == Total(s[..n])
  {
    if n > 0 {
      WeightIsTotal(s, n - 1);
      TotalNext(s, n - 1);
    } else {
      assert s[..0] == [];
    }
  }

  lemma AllWeight(s: seq<Record>)
    ensures WeightBefore(s, |s|) == Total(s)
  {
    WeightIsTotal(s, |s|);
    assert s[..|s|] == s;
  }

  /** What is selected is hit. */
  lemma SelectHits(s: seq<Record>, x: real)
    requires 0.0 <= x < Total(s) as real
    ensures Hits(s, x, Select(s, x)) && s[Select(s, x)].weight > 0
  {
    var i := Select(s, x);
    SelectsPositive(s, x);
    SelectTiles(s, x, i);
    WeightIsTotal(s, i);
  }

  lemma PartOf(q: real, x: real)
    requires 0.0 <= q < 1.0 && x > 0.0
    ensures 0.0 <= q * x < x
  {
    assert q * x + (1.0 - q) * x == x;
  }

  lemma ScaleBelow(q: Draw, sum: nat)
    requires sum > 0
    ensures 0.0 <= Scale(q, sum) < sum as real
  {
    PartOf(q, sum as real);
  }

  lemma ScaledIs(draws: nat -> Draw, n: nat, sum: nat)
    ensures Scaled(draws)(n, sum) == Scale(draws(n), sum)
  {
  }

  /** The first draw hits a record that has weight. */
  lemma FirstHit(s: seq<Record>, sum: nat, draws: nat -> Draw, n: nat) returns (i: nat)
    requires sum == Total(s) > 0
    ensures Hits(s, Scale(draws(n), WeightBefore(s, |s|)), i) && s[i].weight > 0
    ensures Select(s, Scaled(draws)(n, sum)) == i
  {
    AllWeight(s);
    var x := Scale(draws(n), WeightBefore(s, |s|));
    ScaledIs(draws, n, sum);
    ScaleBelow(draws(n), sum);
    SelectHits(s, x);
    i := Select(s, x);
  }

  /** The first record drawn, and then the others. */
  lemma DrawnThen(s: seq<Record>, sum: nat, draws: nat -> Draw, n: nat, i: nat)
    requires Hits(s, Scale(draws(n), WeightBefore(s, |s|)), i) && Select(s, Scaled(draws)(n, sum)) == i
    requires Drawn(RemoveAt(s, i), draws, n + 1, Picked(RemoveAt(s, i), sum - s[i].weight, draws, n + 1).0)
    ensures Drawn(s, draws, n, Picked(s, sum, draws, n).0)
    ensures Picked(s, sum, draws, n).1 == Picked(RemoveAt(s, i), sum - s[i].weight, draws, n + 1).1
    ensures |Picked(s, sum, draws, n).0| == 1 + |Picked(RemoveAt(s, i), sum - s[i].weight, draws, n + 1).0|
  {
    PickSome(s, sum, Scaled(draws), n, i);
    var rest, order := Picked(RemoveAt(s, i), sum - s[i].weight, draws, n + 1).0, Picked(s, sum, draws, n).0;
    assert order == [s[i]] + rest && order[1..] == rest;
    assert DrawnFirst(s, draws, n, order, i);
  }

  lemma NoneDrawn(s: seq<Record>, sum: nat, draws: nat -> Draw, n: nat)
    requires sum == Total(s) == 0
    ensures Drawn(s, draws, n, Picked(s, sum, draws, n).0)
    ensures Picked(s, sum, draws, n).1 == n + 1 && Picked(s, sum, draws, n).0 == []
  {
    AllWeight(s);
    assert Scaled(draws)(n, 0) == 0.0;
    PickNone(s, sum, Scaled(draws), n);
  }

  lemma {:induction false} PickDrawn(s: seq<Record>, sum: nat, draws: nat -> Draw, n: nat)
    requires sum == Total(s)
    ensures Drawn(s, draws, n, Picked(s, sum, draws, n).0)
    ensures Picked(s, sum, draws, n).1 == n + |Picked(s, sum, draws, n).0| + 1
    decreases |s|
  {
    if sum == 0 {
      NoneDrawn(s, sum, draws, n);
    } else {
      var i := FirstHit(s, sum, draws, n);
      TotalWithout(s, i);
      PickDrawn(RemoveAt(s, i), sum - s[i].weight, draws, n + 1);
      DrawnThen(s, sum, draws, n, i);
    }
  }

  lemma GroupDrawn(group: seq<Record>, draws: nat -> Draw, n: nat)
    ensures var r := ShuffleWeighted(group, Scaled(draws), n);
      Drawn(StableSort(Weight, group), draws, n, r.0) && r.1 == n + |r.0| + 1
  {
    Sorts(Weight, group);
    PickDrawn(StableSort(Weight, group), Total(group), draws, n);
  }

  /** The parts for all groups, given those for all but the first. */
  lemma PartInFront(groups: seq<seq<Record>>, draws: nat -> Draw, n: nat, rest: seq<seq<Record>>)
    returns (parts: seq<seq<Record>>)
    requires groups != []
    requires var first := ShuffleWeighted(groups[0], Scaled(draws), n);
      AllDrawn(Standings(groups[1..]), draws, first.1, rest) && Shuffled(groups[1..], draws, first.1) == Flatten(rest)
    ensures AllDrawn(Standings(groups), draws, n, parts) && Shuffled(groups, draws, n) == Flatten(parts)
  {
    var first := ShuffleWeighted(groups[0], Scaled(draws), n);
    GroupDrawn(groups[0], draws, n);
    parts := [first.0] + rest;
    FlatMapFirst(groups, Scaled(draws), n);
    FlattenFront(parts);
    assert parts[1..] == rest && Standings(groups)[1..] == Standings(groups[1..]);
  }

  lemma {:induction false} GroupsDrawn(groups: seq<seq<Record>>, draws: nat -> Draw, n: nat)
    returns (parts: seq<seq<Record>>)
    ensures AllDrawn(Standings(groups), draws, n, parts) && Shuffled(groups, draws, n) == Flatten(parts)
    decreases groups
  {
    if groups == [] {
      parts := [];
    } else {
      var rest := GroupsDrawn(groups[1..], draws, ShuffleWeighted(groups[0], Scaled(draws), n).1);
      parts := PartInFront(groups, draws, n, rest);
    }
  }

  /** For every sequence of draws the sort yields what the draws hit, priority by priority. */
  lemma SortFollowsDraws(records: seq<Record>, draws: nat -> Draw)
    returns (standings: seq<seq<Record>>, parts: seq<seq<Record>>)
    ensures Arranged(standings, records) && AllDrawn(standings, draws, 0, parts)
    ensures Sort(records, draws) == Flatten(parts)
  {
    var sorted := StableSort(Priority, records);
    var groups := Grouped(sorted);
    Sorts(Priority, records);
    GroupsOf(sorted);
    StandingsArranged(groups);
    standings := Standings(groups);
    forall p: nat, w: nat
      ensures Filter(Flatten(standings), p, w) == Filter(records, p, w)
    {
      StandingsFilter(groups, p, w);
      SortFilter(Priority, records, p, w);
    }
    parts := GroupsDrawn(groups, draws, 0);
  }

  // ---------- when nothing is left to chance ----------

  ghost predicate Zero(draws: nat -> Draw) {
    forall n: nat :: draws(n) == 0.0
  }

  /** In a list of falling weights 0 hits the first record. */
  lemma ZeroHitsFirst(s: seq<Record>, i: nat)
    requires Hits(s, 0.0, i) && Falling(s)
    ensures i == 0 && s[0].weight > 0
  {
  }

  lemma PositiveTail(s: seq<Record>)
    requires s != [] && s[0].weight > 0
    ensures RemoveAt(s, 0) == s[1..] && Positive(s) == [s[0]] + Positive(s[1..])
  {
    assert s == [s[0]] + s[1..];
    PositiveAppend([s[0]], s[1..]);
    One(s[0]);
  }

  lemma ZeroDrawnFirst(s: seq<Record>, draws: nat -> Draw, n: nat, order: seq<Record>)
    requires order != [] && Drawn(s, draws, n, order) && Zero(draws) && Falling(s)
    ensures s != [] && s[0] == order[0] && s[0].weight > 0 && Drawn(s[1..], draws, n + 1, order[1..])
  {
    var i: nat :| DrawnFirst(s, draws, n, order, i);
    ZeroTimes(draws(n), WeightBefore(s, |s|));
    ZeroHitsFirst(s, i);
    PositiveTail(s);
  }

  lemma {:induction false} ZeroDrawn(s: seq<Record>, draws: nat -> Draw, n: nat, order: seq<Record>)
    requires Drawn(s, draws, n, order) && Zero(draws) && Falling(s)
    ensures order == Positive(s)
    decreases |order|
  {
    if order == [] {
      AllWeight(s);
      NothingPositive(s);
    } else {
      ZeroDrawnFirst(s, draws, n, order);
      ZeroDrawn(s[1..], draws, n + 1, order[1..]);
      PositiveTail(s);
      assert order == [order[0]] + order[1..];
    }
  }

  lemma ZeroTimes(q: Draw, sum: nat)
    requires q == 0.0
    ensures Scale(q, sum) == 0.0
  {
  }

  lemma {:induction false} ZeroAllDrawn(
    standings: seq<seq<Record>>, draws: nat -> Draw, n: nat, parts: seq<seq<Record>>)
    requires AllDrawn(standings, draws, n, parts) && Zero(draws)
    requires forall g :: 0 <= g < |standings| ==> Falling(standings[g])
    ensures Flatten(parts) == Positive(Flatten(standings))
    decreases standings
  {
    if standings != [] {
      ZeroDrawn(standings[0], draws, n, parts[0]);
      ZeroAllDrawn(standings[1..], draws, n + |parts[0]| + 1, parts[1..]);
      FlattenFront(parts);
      FlattenFront(standings);
      PositiveAppend(standings[0], Flatten(standings[1..]));
    }
  }

  lemma {:induction false} PositiveFilter(s: seq<Record>, p: nat, w: nat)
    ensures Filter(Positive(s), p, w) == if w > 0 then Filter(s, p, w) else []
  {
    if s != [] {
      var init, last := s[..|s| - 1], s[|s| - 1];
      PositiveFilter(init, p, w);
      FilterSnoc(Positive(init), last, p, w);
      assert Positive(init) + [] == Positive(init);
    }
  }

  /** By rising priority, then by falling weight. */
  ghost predicate Ordered(s: seq<Record>) {
    forall i, j :: 0 <= i < j < |s| ==>
      s[i].priority < s[j].priority || (s[i].priority == s[j].priority && s[i].weight >= s[j].weight)
  }

  lemma OrderedAppend(a: seq<Record>, b: seq<Record>)
    requires Ordered(a) && Ordered(b)
    requires forall i, j :: 0 <= i < |a| && 0 <= j < |b| ==> a[i].priority < b[j].priority
    ensures Ordered(a + b)
  {
  }

  lemma {:induction false} LadderOrdered(standings: seq<seq<Record>>)
    requires Ladder(standings) && forall g :: 0 <= g < |standings| ==> Falling(standings[g])
    ensures Ordered(Flatten(standings))
    decreases standings
  {
    if standings != [] {
      LadderTail(standings);
      LadderOrdered(standings[1..]);
      FlattenFront(standings);
      LadderRises(standings);
      OrderedAppend(standings[0], Flatten(standings[1..]));
    }
  }

  lemma {:induction false} PositiveOrdered(s: seq<Record>)
    requires Ordered(s)
    ensures Ordered(Positive(s))
  {
    if s != [] {
      var init, last := s[..|s| - 1], s[|s| - 1];
      PositiveOrdered(init);
      PositiveMembers(init);
    }
  }

  /**
   With all draws 0 the sort yields the records of positive weight by rising priority, then by
   falling weight, then in their given order.
   */
  lemma ZeroDrawsSort(records: seq<Record>, draws: nat -> Draw)
    requires Zero(draws)
    ensures Ordered(Sort(records, draws))
    ensures forall p: nat, w: nat ::
      Filter(Sort(records, draws), p, w) == if w > 0 then Filter(records, p, w) else []
  {
    var standings, parts := SortFollowsDraws(records, draws);
    ZeroAllDrawn(standings, draws, 0, parts);
    LadderOrdered(standings);
    PositiveOrdered(Flatten(standings));
    forall p: nat, w: nat
      ensures Filter(Sort(records, draws), p, w) == if w > 0 then Filter(records, p, w) else []
    {
      PositiveFilter(Flatten(standings), p, w);
    }
  }
}
