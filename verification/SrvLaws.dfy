/** What the ordering of service records guarantees for every sequence of draws, and what trying them does. */
module SrvLaws {
  import opened Collections
  import opened Srv

  // ---------- sorting ----------

  /** The records that neither come before x nor after it, in their order. */
  function Alike(key: Key, s: seq<Record>, x: Record): (r: seq<Record>) {
    if s == [] then []
    else
      var y := s[|s| - 1];
      Alike(key, s[..|s| - 1], x) + if Before(key, x, y) || Before(key, y, x) then [] else [y]
  }

  /** What does not come after any record does not come after the inserted one either, and vice versa. */
  lemma {:induction false} InsertBound(key: Key, s: seq<Record>, x: Record, z: Record)
    requires !Before(key, z, x) && forall i :: 0 <= i < |s| ==> !Before(key, z, s[i])
    ensures forall i :: 0 <= i <= |s| ==> !Before(key, z, Insert(key, s, x)[i])
  {
    if s != [] && Before(key, x, s[|s| - 1]) {
      InsertBound(key, s[..|s| - 1], x, z);
    }
  }

  lemma {:induction false} InsertSorted(key: Key, s: seq<Record>, x: Record)
    requires SortedBy(key, s)
    ensures SortedBy(key, Insert(key, s, x))
  {
    if s != [] && Before(key, x, s[|s| - 1]) {
      var init, last := s[..|s| - 1], s[|s| - 1];
      InsertSorted(key, init, x);
      InsertBound(key, init, x, last);
    }
  }

  lemma {:induction false} InsertMultiset(key: Key, s: seq<Record>, x: Record)
    ensures multiset(Insert(key, s, x)) == multiset(s) + multiset{x}
  {
    if s != [] && Before(key, x, s[|s| - 1]) {
      var init, last := s[..|s| - 1], s[|s| - 1];
      InsertMultiset(key, init, x);
      assert s == init + [last];
    }
  }

  lemma {:induction false} InsertTotal(key: Key, s: seq<Record>, x: Record)
    ensures Total(Insert(key, s, x)) == Total(s) + x.weight
  {
    if s != [] && Before(key, x, s[|s| - 1]) {
      InsertTotal(key, s[..|s| - 1], x);
      TotalSnoc(Insert(key, s[..|s| - 1], x), s[|s| - 1]);
    } else {
      TotalSnoc(s, x);
    }
  }

  lemma TotalSnoc(s: seq<Record>, x: Record)
    ensures Total(s + [x]) == Total(s) + x.weight
  {
    assert (s + [x])[..|s|] == s;
  }

  lemma {:induction false} InsertAlike(key: Key, s: seq<Record>, x: Record, z: Record)
    ensures Alike(key, Insert(key, s, x), z) == Alike(key, s + [x], z)
  {
    assert (s + [x])[..|s|] == s;
    if s != [] && Before(key, x, s[|s| - 1]) {
      var init, last := s[..|s| - 1], s[|s| - 1];
      InsertAlike(key, init, x, z);
      assert (init + [x])[..|init|] == init;
      assert (Insert(key, init, x) + [last])[..|s|] == Insert(key, init, x);
    }
  }

  lemma {:induction false} SortAlike(key: Key, s: seq<Record>, z: Record)
    ensures Alike(key, StableSort(key, s), z) == Alike(key, s, z)
  {
    if s != [] {
      var sorted := StableSort(key, s[..|s| - 1]);
      SortAlike(key, s[..|s| - 1], z);
      InsertAlike(key, sorted, s[|s| - 1], z);
      assert (sorted + [s[|s| - 1]])[..|sorted|] == sorted;
    }
  }

  lemma {:induction false} SortKeepsAll(key: Key, s: seq<Record>)
    ensures multiset(StableSort(key, s)) == multiset(s)
  {
    if s != [] {
      var init, last := s[..|s| - 1], s[|s| - 1];
      SortKeepsAll(key, init);
      InsertMultiset(key, StableSort(key, init), last);
      assert s == init + [last];
    }
  }

  lemma {:induction false} SortKeepsTotal(key: Key, s: seq<Record>)
    ensures Total(StableSort(key, s)) == Total(s)
  {
    if s != [] {
      SortKeepsTotal(key, s[..|s| - 1]);
      InsertTotal(key, StableSort(key, s[..|s| - 1]), s[|s| - 1]);
    }
  }

  lemma {:induction false} SortSorts(key: Key, s: seq<Record>)
    ensures SortedBy(key, StableSort(key, s))
  {
    if s != [] {
      SortSorts(key, s[..|s| - 1]);
      InsertSorted(key, StableSort(key, s[..|s| - 1]), s[|s| - 1]);
    }
  }

  /** The sort orders the records, keeps them all, and leaves those it cannot tell apart in their order. */
  lemma Sorts(key: Key, s: seq<Record>)
    ensures SortedBy(key, StableSort(key, s))
    ensures multiset(StableSort(key, s)) == multiset(s) && Total(StableSort(key, s)) == Total(s)
    ensures forall z :: Alike(key, StableSort(key, s), z) == Alike(key, s, z)
  {
    SortSorts(key, s);
    SortKeepsAll(key, s);
    SortKeepsTotal(key, s);
    forall z
      ensures Alike(key, StableSort(key, s), z) == Alike(key, s, z)
    {
      SortAlike(key, s, z);
    }
  }

  // ---------- groups ----------

  function Flatten(groups: seq<seq<Record>>): (r: seq<Record>) {
    if groups == [] then [] else Flatten(groups[..|groups| - 1]) + groups[|groups| - 1]
  }

  ghost predicate Uniform(group: seq<Record>, priority: nat) {
    group != [] && forall i :: 0 <= i < |group| ==> group[i].priority == priority
  }

  /** Non-empty groups of one priority each, the priorities rising from group to group. */
  ghost predicate Ladder(groups: seq<seq<Record>>) {
    && (forall g :: 0 <= g < |groups| ==> groups[g] != [] && Uniform(groups[g], groups[g][0].priority))
    && (forall g, h :: 0 <= g < h < |groups| ==>
          groups[g] != [] && groups[h] != [] && groups[g][0].priority < groups[h][0].priority)
  }

  /** A record that does not come before the last one extends the ladder. */
  lemma AddKeeps(groups: seq<seq<Record>>, x: Record)
    requires Ladder(groups)
    requires groups != [] ==> groups[|groups| - 1][0].priority <= x.priority
    ensures Ladder(AddToGroups(groups, x))
  {
  }

  lemma AddFlattens(groups: seq<seq<Record>>, x: Record)
    requires forall g :: 0 <= g < |groups| ==> groups[g] != []
    ensures Flatten(AddToGroups(groups, x)) == Flatten(groups) + [x]
  {
    if groups == [] {
      assert Flatten([[x]][..0]) == [];
    } else {
      var n := |groups| - 1;
      var last := groups[n];
      if last[0].priority != x.priority {
        assert (groups + [[x]])[..n + 1] == groups;
      } else {
        assert (groups[..n] + [last + [x]])[..n] == groups[..n];
        assert Flatten(groups[..n]) + (last + [x]) == Flatten(groups[..n]) + last + [x];
      }
    }
  }

  lemma LastPriority(groups: seq<seq<Record>>)
    requires Ladder(groups) && groups != []
    ensures var s, last := Flatten(groups), groups[|groups| - 1];
      s != [] && last != [] && last[0].priority == s[|s| - 1].priority
  {
    var s, last := Flatten(groups), groups[|groups| - 1];
    assert s[|s| - 1] == last[|last| - 1];
  }

  /** Grouping a sorted list cuts it where the priority changes. */
  lemma {:induction false} GroupsOf(s: seq<Record>)
    requires SortedBy(Priority, s)
    ensures Ladder(Grouped(s)) && Flatten(Grouped(s)) == s
  {
    if s != [] {
      var groups, x := Grouped(s[..|s| - 1]), s[|s| - 1];
      GroupsOf(s[..|s| - 1]);
      if groups != [] {
        LastPriority(groups);
      }
      AddKeeps(groups, x);
      AddFlattens(groups, x);
    }
  }

  // ---------- one choice ----------

  lemma {:induction false} TotalGrows(s: seq<Record>, i: nat, j: nat)
    requires i <= j <= |s|
    ensures Total(s[..i]) <= Total(s[..j])
    decreases j
  {
    if i < j {
      TotalGrows(s, i, j - 1);
      assert s[..j][..j - 1] == s[..j - 1];
    }
  }

  lemma TotalNext(s: seq<Record>, i: nat)
    requires i < |s|
    ensures Total(s[..i + 1]) == Total(s[..i]) + s[i].weight
  {
    assert s[..i + 1][..i] == s[..i];
  }

  lemma {:induction false} SelectBounds(s: seq<Record>, drawn: real, from: nat, counter: nat)
    requires from <= |s| && counter == Total(s[..from]) && counter as real <= drawn
    ensures var i := Select(s, drawn, from, counter);
      Total(s[..i]) as real <= drawn && (i < |s| ==> drawn < Total(s[..i + 1]) as real)
    decreases |s| - from
  {
    if from < |s| {
      TotalNext(s, from);
      if drawn >= (counter + s[from].weight) as real {
        SelectBounds(s, drawn, from + 1, counter + s[from].weight);
      }
    }
  }

  /**
   The numbers that select record i are exactly the interval from the running total before it
   to the one after it, which is as long as its weight: the intervals tile [0, sum).
   */
  lemma SelectTiles(s: seq<Record>, drawn: real, i: nat)
    requires 0.0 <= drawn && i < |s|
    ensures Select(s, drawn) == i <==> Total(s[..i]) as real <= drawn < Total(s[..i]) as real + s[i].weight as real
    ensures Select(s, drawn) == |s| <==> drawn >= Total(s) as real
  {
    assert s[..0] == [] && s[..|s|] == s;
    SelectBounds(s, drawn, 0, 0);
    TotalNext(s, i);
    var j := Select(s, drawn);
    if i < j {
      TotalGrows(s, i + 1, j);
    } else if j < i {
      TotalGrows(s, j + 1, i);
    }
    if j < |s| {
      TotalGrows(s, j + 1, |s|);
    }
  }

  // ---------- one group ----------

  function Positive(s: seq<Record>): (r: seq<Record>)
    ensures |r| <= |s|
  {
    if s == [] then []
    else Positive(s[..|s| - 1]) + if s[|s| - 1].weight > 0 then [s[|s| - 1]] else []
  }

  lemma {:induction false} PositiveAppend(a: seq<Record>, b: seq<Record>)
    ensures Positive(a + b) == Positive(a) + Positive(b)
  {
    if b == [] {
      assert a + b == a;
    } else {
      PositiveAppend(a, b[..|b| - 1]);
      assert (a + b)[..|a + b| - 1] == a + b[..|b| - 1];
    }
  }

  lemma {:induction false} TotalAppend(a: seq<Record>, b: seq<Record>)
    ensures Total(a + b) == Total(a) + Total(b)
  {
    if b == [] {
      assert a + b == a;
    } else {
      TotalAppend(a, b[..|b| - 1]);
      assert (a + b)[..|a + b| - 1] == a + b[..|b| - 1];
    }
  }

  lemma One(x: Record)
    ensures Total([x]) == x.weight && Positive([x]) == if x.weight > 0 then [x] else []
  {
    assert [x][..0] == [];
  }

  lemma TotalWithout(s: seq<Record>, i: nat)
    requires i < |s|
    ensures Total(RemoveAt(s, i)) == Total(s) - s[i].weight
  {
    var a, x, b := s[..i], s[i], s[i + 1..];
    RemoveAtParts(s, i);
    One(x);
    TotalAppend(a, [x] + b);
    TotalAppend([x], b);
    TotalAppend(a, b);
  }

  lemma PositiveWithout(s: seq<Record>, i: nat)
    requires i < |s| && s[i].weight > 0
    ensures multiset(Positive(s)) == multiset(Positive(RemoveAt(s, i))) + multiset{s[i]}
  {
    var a, x, b := s[..i], s[i], s[i + 1..];
    RemoveAtParts(s, i);
    One(x);
    PositiveAppend(a, [x] + b);
    PositiveAppend([x], b);
    PositiveAppend(a, b);
    Middle(Positive(a), x, Positive(b));
  }

  lemma Middle(a: seq<Record>, x: Record, b: seq<Record>)
    ensures multiset(a + ([x] + b)) == multiset(a + b) + multiset{x}
    ensures multiset([x] + b) == multiset(b) + multiset{x}
  {
  }

  lemma {:induction false} NothingPositive(s: seq<Record>)
    ensures Total(s) == 0 <==> Positive(s) == []
  {
    if s != [] {
      NothingPositive(s[..|s| - 1]);
    }
  }

  /** Scaled numbers are at least 0 and below the sum, if that is positive. */
  ghost predicate InRange(random: Source) {
    forall n, sum :: sum >= 0 ==>
      && 0.0 <= random(n, sum)
      && (if sum > 0 then random(n, sum) < sum as real else random(n, sum) == 0.0)
  }

  lemma ScaledInRange(draws: nat -> Draw)
    ensures InRange(Scaled(draws))
  {
  }

  /** A number below the total selects a record of positive weight. */
  lemma SelectsPositive(s: seq<Record>, drawn: real)
    requires 0.0 <= drawn
    ensures var i := Select(s, drawn);
      if drawn < Total(s) as real then i < |s| && s[i].weight > 0 else i == |s|
  {
    var i := Select(s, drawn);
    if i < |s| {
      SelectTiles(s, drawn, i);
    } else if s != [] {
      SelectTiles(s, drawn, 0);
    }
  }

  /** One record is picked, then the others. */
  lemma PickSome(s: seq<Record>, sum: int, random: Source, n: nat, i: nat)
    requires i < |s| && Select(s, random(n, sum)) == i
    ensures var rest := Pick(RemoveAt(s, i), sum - s[i].weight, random, n + 1);
      Pick(s, sum, random, n).0 == [s[i]] + rest.0 && Pick(s, sum, random, n).1 == rest.1
  {
  }

  lemma PickedOne(s: seq<Record>, i: nat, rest: seq<Record>)
    requires i < |s| && s[i].weight > 0 && multiset(rest) == multiset(Positive(RemoveAt(s, i)))
    ensures multiset([s[i]] + rest) == multiset(Positive(s))
  {
    PositiveWithout(s, i);
    Middle([], s[i], rest);
  }

  lemma PickNone(s: seq<Record>, sum: int, random: Source, n: nat)
    requires Total(s) == sum == 0 && random(n, sum) == 0.0
    ensures Pick(s, sum, random, n).0 == [] && Pick(s, sum, random, n).1 == n + 1
  {
    SelectsPositive(s, 0.0);
  }

  lemma FirstThenRest(s: seq<Record>, sum: int, random: Source, n: nat, i: nat)
    requires i < |s| && s[i].weight > 0 && Select(s, random(n, sum)) == i
    requires var rest := RemoveAt(s, i);
      multiset(Pick(rest, sum - s[i].weight, random, n + 1).0) == multiset(Positive(rest))
    ensures multiset(Pick(s, sum, random, n).0) == multiset(Positive(s))
  {
    PickSome(s, sum, random, n, i);
    PickedOne(s, i, Pick(RemoveAt(s, i), sum - s[i].weight, random, n + 1).0);
  }

  /** Whatever is drawn, picking delivers each record of positive weight once and no other. */
  lemma {:induction false} PicksPositive(s: seq<Record>, sum: int, random: Source, n: nat)
    requires InRange(random) && sum == Total(s)
    ensures multiset(Pick(s, sum, random, n).0) == multiset(Positive(s))
    decreases |s|
  {
    NothingPositive(s);
    if sum > 0 {
      var i := Select(s, random(n, sum));
      SelectsPositive(s, random(n, sum));
      TotalWithout(s, i);
      PicksPositive(RemoveAt(s, i), sum - s[i].weight, random, n + 1);
      FirstThenRest(s, sum, random, n, i);
    } else {
      PickNone(s, sum, random, n);
    }
  }

  lemma {:induction false} PickLocal(s: seq<Record>, sum: int, f: Source, g: Source, n: nat)
    requires forall m, t :: m >= n ==> f(m, t) == g(m, t)
    ensures Pick(s, sum, f, n) == Pick(s, sum, g, n)
    decreases |s|
  {
    assert f(n, sum) == g(n, sum);
    var i := Select(s, f(n, sum));
    if i < |s| {
      PickLocal(RemoveAt(s, i), sum - s[i].weight, f, g, n + 1);
    }
  }

  /** The share of b that a is. */
  lemma Share(a: nat, b: nat) returns (q: Draw)
    requires a < b
    ensures q * b as real == a as real
  {
    var x, y := a as real, b as real;
    assert 0.0 <= x / y < 1.0;
    q := x / y;
  }

  /** A first draw followed by those of another sequence. */
  function Prepend(n: nat, q: Draw, later: nat -> Draw): (r: nat -> Draw) {
    (m: nat) => if m == n then q else later(m)
  }

  /** The running total before record i selects it. */
  lemma SelectsAtTotal(s: seq<Record>, i: nat)
    requires i < |s| && s[i].weight > 0
    ensures Total(s[..i]) < Total(s) && Select(s, Total(s[..i]) as real) == i
  {
    TotalNext(s, i);
    TotalGrows(s, i + 1, |s|);
    assert s[..|s|] == s;
    SelectTiles(s, Total(s[..i]) as real, i);
  }

  lemma ScaledPrepend(n: nat, q: Draw, later: nat -> Draw, sum: int, x: real)
    requires q * sum as real == x
    ensures Scaled(Prepend(n, q, later))(n, sum) == x
    ensures forall m, t :: m >= n + 1 ==> Scaled(Prepend(n, q, later))(m, t) == Scaled(later)(m, t)
  {
    var draws := Prepend(n, q, later);
    assert draws(n) == q;
    forall m: nat, t: int | m >= n + 1
      ensures Scaled(draws)(m, t) == Scaled(later)(m, t)
    {
      assert draws(m) == later(m);
    }
  }

  /** Picking record i and then going on with other numbers. */
  lemma PickFirst(s: seq<Record>, i: nat, sum: int, random: Source, later: Source, n: nat)
    requires i < |s| && Select(s, random(n, sum)) == i
    requires forall m, t :: m >= n + 1 ==> random(m, t) == later(m, t)
    ensures var rest := Pick(RemoveAt(s, i), sum - s[i].weight, later, n + 1);
      Pick(s, sum, random, n).0 == [s[i]] + rest.0 && Pick(s, sum, random, n).1 == rest.1
  {
    PickLocal(RemoveAt(s, i), sum - s[i].weight, random, later, n + 1);
  }

  lemma OrderWithout(s: seq<Record>, order: seq<Record>, i: nat)
    requires order != [] && i < |s| && s[i] == order[0] && s[i].weight > 0
    requires multiset(order) == multiset(Positive(s))
    ensures multiset(order[1..]) == multiset(Positive(RemoveAt(s, i)))
  {
    PositiveWithout(s, i);
    HeadAndTail(order);
    CancelOne(multiset(order[1..]), multiset(Positive(RemoveAt(s, i))), s[i]);
  }

  lemma HeadAndTail(s: seq<Record>)
    requires s != []
    ensures multiset(s) == multiset(s[1..]) + multiset{s[0]}
  {
    assert s == [s[0]] + s[1..];
  }

  lemma CancelOne(a: multiset<Record>, b: multiset<Record>, x: Record)
    requires a + multiset{x} == b + multiset{x}
    ensures a == b
  {
    assert a == a + multiset{x} - multiset{x};
    assert b == b + multiset{x} - multiset{x};
  }

  lemma FirstDrawn(sum: nat, x: nat, n: nat, later: nat -> Draw) returns (q: Draw)
    requires x < sum
    ensures var random := Scaled(Prepend(n, q, later));
      && random(n, sum) == x as real
      && forall m, t :: m >= n + 1 ==> random(m, t) == Scaled(later)(m, t)
  {
    q := Share(x, sum);
    ScaledPrepend(n, q, later, sum, x as real);
  }

  /** What is picked with these draws, from the n-th on, and how many draws are used up then. */
  function Picked(s: seq<Record>, sum: int, draws: nat -> Draw, n: nat): (r: (seq<Record>, nat)) {
    Pick(s, sum, Scaled(draws), n)
  }

  ghost predicate Picks(s: seq<Record>, sum: int, draws: nat -> Draw, n: nat, order: seq<Record>) {
    Picked(s, sum, draws, n).0 == order && Picked(s, sum, draws, n).1 == n + |order| + 1
  }

  ghost predicate AgreeFrom(n: nat, f: nat -> Draw, g: nat -> Draw) {
    forall m: nat :: m >= n ==> f(m) == g(m)
  }

  lemma NoneLeft(s: seq<Record>, sum: int, n: nat, draws: nat -> Draw)
    requires sum == Total(s) && multiset(Positive(s)) == multiset{}
    ensures Picks(s, sum, draws, n, [])
  {
    assert |multiset(Positive(s))| == |Positive(s)|;
    NothingPositive(s);
    assert Scaled(draws)(n, 0) == 0.0;
    PickNone(s, sum, Scaled(draws), n);
  }

  lemma FirstPicked(s: seq<Record>, sum: int, i: nat, n: nat, later: nat -> Draw) returns (q: Draw)
    requires i < |s| && s[i].weight > 0 && sum == Total(s)
    ensures var rest, all :=
        Picked(RemoveAt(s, i), sum - s[i].weight, later, n + 1), Picked(s, sum, Prepend(n, q, later), n);
      all.0 == [s[i]] + rest.0 && all.1 == rest.1
  {
    SelectsAtTotal(s, i);
    q := FirstDrawn(sum, Total(s[..i]), n, later);
    PickFirst(s, i, sum, Scaled(Prepend(n, q, later)), Scaled(later), n);
  }

  /** Picking the first of an order, if the rest of it can be picked from the rest. */
  lemma OrderInFront(
    s: seq<Record>, sum: int, i: nat, order: seq<Record>, n: nat, rest: nat -> Draw, later: nat -> Draw)
    returns (draws: nat -> Draw)
    requires i < |s| && s[i].weight > 0 && order != [] && s[i] == order[0] && sum == Total(s)
    requires Picks(RemoveAt(s, i), sum - s[i].weight, rest, n + 1, order[1..])
    requires AgreeFrom(n + 1 + |order[1..]| + 1, rest, later)
    ensures Picks(s, sum, draws, n, order) && AgreeFrom(n + |order| + 1, draws, later)
  {
    var q := FirstPicked(s, sum, i, n, rest);
    draws := Prepend(n, q, rest);
    assert [s[i]] + order[1..] == order;
  }

  /** An order's first record and the rest of it. */
  lemma SplitFirst(s: seq<Record>, order: seq<Record>) returns (i: nat)
    requires order != [] && multiset(order) == multiset(Positive(s))
    ensures i < |s| && s[i] == order[0] && s[i].weight > 0
    ensures multiset(order[1..]) == multiset(Positive(RemoveAt(s, i)))
    ensures Total(RemoveAt(s, i)) == Total(s) - s[i].weight
  {
    i := FirstOf(s, order);
    OrderWithout(s, order, i);
    TotalWithout(s, i);
  }

  /** Every order of the records of positive weight is picked for some draws, whatever comes after them. */
  lemma {:induction false} AnyOrder(s: seq<Record>, sum: int, order: seq<Record>, n: nat, later: nat -> Draw)
    returns (draws: nat -> Draw)
    requires sum == Total(s) && multiset(order) == multiset(Positive(s))
    ensures Picks(s, sum, draws, n, order) && AgreeFrom(n + |order| + 1, draws, later)
    decreases |order|
  {
    if order == [] {
      draws := later;
      NoneLeft(s, sum, n, later);
    } else {
      var i := SplitFirst(s, order);
      var rest := AnyOrder(RemoveAt(s, i), sum - s[i].weight, order[1..], n + 1, later);
      draws := OrderInFront(s, sum, i, order, n, rest, later);
    }
  }

  lemma FirstOf(s: seq<Record>, order: seq<Record>) returns (i: nat)
    requires order != [] && multiset(order) == multiset(Positive(s))
    ensures i < |s| && s[i] == order[0] && s[i].weight > 0
  {
    assert order[0] in multiset(order);
    PositiveMembers(s);
    assert order[0] in Positive(s);
    i :| i < |s| && s[i] == order[0];
  }

  lemma {:induction false} PositiveMembers(s: seq<Record>)
    ensures forall x :: x in Positive(s) <==> x in s && x.weight > 0
  {
    if s != [] {
      PositiveMembers(s[..|s| - 1]);
      assert s == s[..|s| - 1] + [s[|s| - 1]];
    }
  }

  lemma LastCounts(s: seq<Record>, x: Record)
    requires s != []
    ensures multiset(s)[x] == multiset(s[..|s| - 1])[x] + if s[|s| - 1] == x then 1 else 0
  {
    assert s == s[..|s| - 1] + [s[|s| - 1]];
  }

  lemma {:induction false} PositiveMultiset(s: seq<Record>, x: Record)
    ensures multiset(Positive(s))[x] == if x.weight > 0 then multiset(s)[x] else 0
  {
    if s != [] {
      PositiveMultiset(s[..|s| - 1], x);
      LastCounts(s, x);
    }
  }

  lemma PositiveSame(a: seq<Record>, b: seq<Record>)
    requires multiset(a) == multiset(b)
    ensures multiset(Positive(a)) == multiset(Positive(b))
  {
    forall x
      ensures multiset(Positive(a))[x] == multiset(Positive(b))[x]
    {
      PositiveMultiset(a, x);
      PositiveMultiset(b, x);
    }
  }

  lemma ShuffleKeeps(s: seq<Record>, random: Source, n: nat)
    requires InRange(random)
    ensures multiset(ShuffleWeighted(s, random, n).0) == multiset(Positive(s))
  {
    var sorted := StableSort(Weight, s);
    Sorts(Weight, s);
    PicksPositive(sorted, Total(s), random, n);
    PositiveSame(sorted, s);
  }

  // ---------- the whole order ----------

  lemma {:induction false} FlattenFront(groups: seq<seq<Record>>)
    requires groups != []
    ensures Flatten(groups) == groups[0] + Flatten(groups[1..])
  {
    var n := |groups| - 1;
    if n > 0 {
      FlattenFront(groups[..n]);
      assert groups[..n][1..] == groups[1..][..n - 1];
    } else {
      assert groups[..0] == [] && groups[1..] == [];
    }
  }

  ghost predicate ByPriority(s: seq<Record>) {
    forall i, j :: 0 <= i < j < |s| ==> s[i].priority <= s[j].priority
  }

  /** Every record of a shuffled ladder has at least the priority of the first group. */
  lemma {:induction false} ShuffleLadder(groups: seq<seq<Record>>, random: Source, n: nat)
    requires InRange(random) && Ladder(groups)
    ensures var r := FlatMapShuffle(groups, random, n).0;
      && multiset(r) == multiset(Positive(Flatten(groups)))
      && ByPriority(r)
      && (groups != [] ==> forall i :: 0 <= i < |r| ==> groups[0][0].priority <= r[i].priority)
    decreases groups
  {
    if groups != [] {
      var (first, m) := ShuffleWeighted(groups[0], random, n);
      var rest := FlatMapShuffle(groups[1..], random, m).0;
      ShuffleKeeps(groups[0], random, n);
      FirstGroup(groups[0], first);
      ShuffleLadder(groups[1..], random, m);
      FlattenFront(groups);
      PositiveAppend(groups[0], Flatten(groups[1..]));
      assert FlatMapShuffle(groups, random, n).0 == first + rest;
      JoinByPriority(first, rest, groups[0][0].priority);
    }
  }

  lemma JoinByPriority(a: seq<Record>, b: seq<Record>, priority: nat)
    requires forall i :: 0 <= i < |a| ==> a[i].priority == priority
    requires ByPriority(b) && forall i :: 0 <= i < |b| ==> priority <= b[i].priority
    ensures ByPriority(a + b) && forall i :: 0 <= i < |a + b| ==> priority <= (a + b)[i].priority
  {
  }

  lemma FirstGroup(group: seq<Record>, shuffled: seq<Record>)
    requires group != [] && Uniform(group, group[0].priority) && multiset(shuffled) == multiset(Positive(group))
    ensures forall i :: 0 <= i < |shuffled| ==> shuffled[i].priority == group[0].priority
  {
    PositiveMembers(group);
    forall i | 0 <= i < |shuffled|
      ensures shuffled[i].priority == group[0].priority
    {
      assert shuffled[i] in multiset(shuffled);
      assert shuffled[i] in Positive(group);
    }
  }

  /**
   For every sequence of draws, sorting returns exactly the records of positive weight, each
   as often as it was given, in an order of non-decreasing priority.
   */
  lemma SortOrders(records: seq<Record>, draws: nat -> Draw)
    ensures multiset(Sort(records, draws)) == multiset(Positive(records))
    ensures ByPriority(Sort(records, draws))
  {
    var sorted := StableSort(Priority, records);
    ScaledInRange(draws);
    Sorts(Priority, records);
    GroupsOf(sorted);
    ShuffleLadder(Grouped(sorted), Scaled(draws), 0);
    PositiveSame(sorted, records);
  }

  /** Where the records of the first priority end. */
  lemma {:induction false} FirstStretch(order: seq<Record>, priority: nat) returns (k: nat)
    requires ByPriority(order) && forall i :: 0 <= i < |order| ==> priority <= order[i].priority
    ensures k <= |order|
    ensures forall i :: 0 <= i < k ==> order[i].priority == priority
    ensures forall i :: k <= i < |order| ==> priority < order[i].priority
  {
    if order == [] || order[|order| - 1].priority == priority {
      k := |order|;
    } else {
      k := FirstStretch(order[..|order| - 1], priority);
    }
  }

  lemma {:induction false} LadderRises(groups: seq<seq<Record>>)
    requires Ladder(groups) && groups != []
    ensures forall x :: x in Flatten(groups[1..]) ==> groups[0][0].priority < x.priority
  {
    if |groups| > 1 {
      var n := |groups| - 1;
      LadderRises(groups[..n]);
      assert groups[1..][..n - 1] == groups[..n][1..];
      forall x | x in groups[n]
        ensures groups[0][0].priority < x.priority
      {
        assert x.priority == groups[n][0].priority;
      }
    }
  }

  ghost predicate AllOf(s: seq<Record>, priority: nat) {
    forall i :: 0 <= i < |s| ==> s[i].priority == priority
  }

  ghost predicate AllAbove(s: seq<Record>, priority: nat) {
    forall i :: 0 <= i < |s| ==> priority < s[i].priority
  }

  /** Two lists that agree together and share no priority agree part by part. */
  lemma PartsAgree(a: seq<Record>, b: seq<Record>, c: seq<Record>, d: seq<Record>, priority: nat)
    requires multiset(a) + multiset(b) == multiset(c) + multiset(d)
    requires AllOf(a, priority) && AllOf(c, priority) && AllAbove(b, priority) && AllAbove(d, priority)
    ensures multiset(a) == multiset(c) && multiset(b) == multiset(d)
  {
    forall x
      ensures multiset(a)[x] == multiset(c)[x] && multiset(b)[x] == multiset(d)[x]
    {
      var whole := multiset(a) + multiset(b);
      assert whole[x] == multiset(a)[x] + multiset(b)[x];
      assert whole[x] == multiset(c)[x] + multiset(d)[x];
      if x.priority == priority {
        assert x !in multiset(b) && x !in multiset(d);
      } else {
        assert x !in multiset(a) && x !in multiset(c);
      }
    }
  }

  lemma MembersAgree(a: seq<Record>, b: seq<Record>, i: nat)
    requires multiset(a) == multiset(b) && i < |a|
    ensures a[i] in b
  {
    assert a[i] in multiset(a);
  }

  /** Which priorities the groups' records of positive weight have. */
  lemma PositiveParts(groups: seq<seq<Record>>)
    requires Ladder(groups) && groups != []
    ensures AllOf(Positive(groups[0]), groups[0][0].priority)
    ensures AllAbove(Positive(Flatten(groups[1..])), groups[0][0].priority)
    ensures Positive(Flatten(groups)) == Positive(groups[0]) + Positive(Flatten(groups[1..]))
  {
    FlattenFront(groups);
    LadderRises(groups);
    PositiveAppend(groups[0], Flatten(groups[1..]));
    PositiveMembers(groups[0]);
    PositiveMembers(Flatten(groups[1..]));
  }

  /** The part of an order that belongs to the records of the first priority. */
  lemma SplitOrder(first: seq<Record>, rest: seq<Record>, order: seq<Record>, priority: nat)
    returns (front: seq<Record>, back: seq<Record>)
    requires AllOf(first, priority) && AllAbove(rest, priority) && ByPriority(order)
    requires multiset(order) == multiset(first + rest)
    ensures order == front + back && ByPriority(back)
    ensures multiset(front) == multiset(first) && multiset(back) == multiset(rest)
  {
    forall i | 0 <= i < |order|
      ensures priority <= order[i].priority
    {
      MembersAgree(order, first + rest, i);
    }
    var k := FirstStretch(order, priority);
    front, back := order[..k], order[k..];
    assert order == front + back;
    PartsAgree(front, back, first, rest, priority);
  }

  /** An order of a ladder's records is one of the first group's and one of the others'. */
  lemma FrontAndBack(groups: seq<seq<Record>>, order: seq<Record>) returns (front: seq<Record>, back: seq<Record>)
    requires Ladder(groups) && groups != [] && ByPriority(order)
    requires multiset(order) == multiset(Positive(Flatten(groups)))
    ensures order == front + back && ByPriority(back) && Ladder(groups[1..])
    ensures multiset(front) == multiset(Positive(groups[0]))
    ensures multiset(back) == multiset(Positive(Flatten(groups[1..])))
  {
    PositiveParts(groups);
    LadderTail(groups);
    front, back := SplitOrder(Positive(groups[0]), Positive(Flatten(groups[1..])), order, groups[0][0].priority);
  }

  lemma LadderTail(groups: seq<seq<Record>>)
    requires Ladder(groups) && groups != []
    ensures Ladder(groups[1..])
  {
  }

  lemma {:induction false} ShuffleLocal(groups: seq<seq<Record>>, f: Source, g: Source, n: nat)
    requires forall m, t :: m >= n ==> f(m, t) == g(m, t)
    ensures FlatMapShuffle(groups, f, n).0 == FlatMapShuffle(groups, g, n).0
    decreases groups
  {
    if groups != [] {
      var sorted := StableSort(Weight, groups[0]);
      PickLocal(sorted, Total(groups[0]), f, g, n);
      PickForward(sorted, Total(groups[0]), f, n);
      ShuffleLocal(groups[1..], f, g, ShuffleWeighted(groups[0], f, n).1);
    }
  }

  lemma {:induction false} PickForward(s: seq<Record>, sum: int, random: Source, n: nat)
    ensures Pick(s, sum, random, n).1 > n
    decreases |s|
  {
    var i := Select(s, random(n, sum));
    if i < |s| {
      PickForward(RemoveAt(s, i), sum - s[i].weight, random, n + 1);
    }
  }

  lemma ScaledAgree(f: nat -> Draw, g: nat -> Draw, n: nat)
    requires forall m: nat :: m >= n ==> f(m) == g(m)
    ensures forall m, t :: m >= n ==> Scaled(f)(m, t) == Scaled(g)(m, t)
  {
  }

  lemma ShuffleAny(group: seq<Record>, order: seq<Record>, n: nat, later: nat -> Draw)
    returns (draws: nat -> Draw)
    requires multiset(order) == multiset(Positive(group))
    ensures ShuffleWeighted(group, Scaled(draws), n).0 == order
    ensures ShuffleWeighted(group, Scaled(draws), n).1 == n + |order| + 1
    ensures forall m, t :: m > n + |order| ==> Scaled(draws)(m, t) == Scaled(later)(m, t)
  {
    var sorted := StableSort(Weight, group);
    Sorts(Weight, group);
    PositiveSame(sorted, group);
    draws := AnyOrder(sorted, Total(group), order, n, later);
    ScaledAgree(draws, later, n + |order| + 1);
  }

  lemma FlatMapFirst(groups: seq<seq<Record>>, random: Source, n: nat)
    requires groups != []
    ensures var first := ShuffleWeighted(groups[0], random, n);
      FlatMapShuffle(groups, random, n).0 == first.0 + FlatMapShuffle(groups[1..], random, first.1).0
  {
  }

  /** The order that shuffling the groups gives with these draws, from the n-th on. */
  function Shuffled(groups: seq<seq<Record>>, draws: nat -> Draw, n: nat): (r: seq<Record>) {
    FlatMapShuffle(groups, Scaled(draws), n).0
  }

  /** Draws for the first group in front of draws for the others. */
  lemma GroupInFront(groups: seq<seq<Record>>, front: seq<Record>, n: nat, later: nat -> Draw)
    returns (draws: nat -> Draw)
    requires groups != [] && multiset(front) == multiset(Positive(groups[0]))
    ensures Shuffled(groups, draws, n) == front + Shuffled(groups[1..], later, n + |front| + 1)
  {
    draws := ShuffleAny(groups[0], front, n, later);
    ShuffleLocal(groups[1..], Scaled(draws), Scaled(later), n + |front| + 1);
    FlatMapFirst(groups, Scaled(draws), n);
  }

  /** The order is made of parts that are orders of the groups' records. */
  ghost predicate MadeOf(groups: seq<seq<Record>>, parts: seq<seq<Record>>, order: seq<Record>)
    decreases groups
  {
    if groups == [] then parts == [] && order == []
    else
      && parts != [] && parts[0] <= order
      && multiset(parts[0]) == multiset(Positive(groups[0]))
      && MadeOf(groups[1..], parts[1..], order[|parts[0]|..])
  }

  lemma {:induction false} PartsOf(groups: seq<seq<Record>>, order: seq<Record>) returns (parts: seq<seq<Record>>)
    requires Ladder(groups) && ByPriority(order)
    requires multiset(order) == multiset(Positive(Flatten(groups)))
    ensures MadeOf(groups, parts, order)
    decreases groups
  {
    if groups == [] {
      parts := [];
      assert |multiset(order)| == |order|;
    } else {
      var front, back := FrontAndBack(groups, order);
      var rest := PartsOf(groups[1..], back);
      parts := [front] + rest;
      assert parts[1..] == rest && order[|front|..] == back;
    }
  }

  lemma NoGroups(n: nat) returns (draws: nat -> Draw)
    ensures Shuffled([], draws, n) == []
  {
    draws := m => 0.0;
  }

  lemma {:induction false} DrawsFor(groups: seq<seq<Record>>, parts: seq<seq<Record>>, order: seq<Record>, n: nat)
    returns (draws: nat -> Draw)
    requires MadeOf(groups, parts, order)
    ensures Shuffled(groups, draws, n) == order
    decreases groups
  {
    if groups == [] {
      draws := NoGroups(n);
    } else {
      var front := parts[0];
      var later := DrawsFor(groups[1..], parts[1..], order[|front|..], n + |front| + 1);
      draws := GroupInFront(groups, front, n, later);
      assert order == front + order[|front|..];
    }
  }

  /** Conversely every such order of them is what sorting returns for some draws. */
  lemma SortReaches(records: seq<Record>, order: seq<Record>) returns (draws: nat -> Draw)
    requires multiset(order) == multiset(Positive(records)) && ByPriority(order)
    ensures Sort(records, draws) == order
  {
    var sorted := StableSort(Priority, records);
    Sorts(Priority, records);
    GroupsOf(sorted);
    PositiveSame(sorted, records);
    var parts := PartsOf(Grouped(sorted), order);
    draws := DrawsFor(Grouped(sorted), parts, order, 0);
    assert Shuffled(Grouped(sorted), draws, 0) == Sort(records, draws);
  }

  /** So no record is lost iff none has weight zero, although zero weights are legal. */
  lemma SortKeepsAllIff(records: seq<Record>, draws: nat -> Draw)
    ensures multiset(Sort(records, draws)) == multiset(records) <==>
            forall i :: 0 <= i < |records| ==> records[i].weight > 0
  {
    SortOrders(records, draws);
    PositiveMembers(records);
    if i :| 0 <= i < |records| && records[i].weight == 0 {
      assert records[i] in multiset(records);
      assert records[i] !in multiset(Positive(records));
    } else {
      AllPositive(records);
    }
  }

  lemma {:induction false} AllPositive(s: seq<Record>)
    requires forall i :: 0 <= i < |s| ==> s[i].weight > 0
    ensures Positive(s) == s
  {
    if s != [] {
      AllPositive(s[..|s| - 1]);
    }
  }

  // ---------- trying ----------

  /** Some records were called in order, all but perhaps the last in vain; only a success ended it early. */
  ghost predicate TriedInOrder(records: seq<Record>, works: (nat, Record) -> bool, calls: seq<Record>) {
    && calls <= records
    && (forall i :: 0 <= i < |calls| - 1 ==> !works(i, calls[i]))
    && (|calls| < |records| ==> calls != [] && works(|calls| - 1, calls[|calls| - 1]))
  }

  ghost predicate AllFail(records: seq<Record>, works: (nat, Record) -> bool, from: nat) {
    forall k :: from <= k < |records| ==> !works(k, records[k])
  }

  lemma {:induction false} Tries(records: seq<Record>, works: (nat, Record) -> bool, i: nat)
    requires i <= |records| && forall k :: 0 <= k < i ==> !works(k, records[k])
    ensures var o := Next(records, works, i);
      && TriedInOrder(records, works, records[..i] + o.calls)
      && o.rejected == (i == |records|)
      && (o.rejected || o.unhandled) == AllFail(records, works, i)
    decreases |records| - i
  {
    if i < |records| && !works(i, records[i]) {
      Tries(records, works, i + 1);
      assert records[..i] + ([records[i]] + Next(records, works, i + 1).calls) ==
             records[..i + 1] + Next(records, works, i + 1).calls;
    }
  }

  /**
   Trying calls the records in order up to the first success. The caller is told of a total
   failure only if there was no record at all: otherwise the failure is left unhandled.
   */
  lemma AttemptTries(records: seq<Record>, works: (nat, Record) -> bool)
    ensures var o, failed := Attempt(records, works), AllFail(records, works, 0);
      && TriedInOrder(records, works, o.calls)
      && o.rejected == (records == [])
      && o.unhandled == (failed && records != [])
  {
    Tries(records, works, 0);
    assert records[..0] + Attempt(records, works).calls == Attempt(records, works).calls;
  }

  /**
   A record is tried only after every usable record of a lower priority number was tried, as
   often as it was given, and every call so far has failed.
   */
  lemma LowerFirst(records: seq<Record>, draws: nat -> Draw, works: (nat, Record) -> bool, x: Record, j: nat)
    ensures var calls := Attempt(Sort(records, draws), works).calls;
      j < |calls| ==>
        && (forall i :: 0 <= i < j ==> !works(i, calls[i]))
        && (x.weight > 0 && x.priority < calls[j].priority ==> multiset(calls[..j])[x] == multiset(records)[x])
  {
    var sorted := Sort(records, draws);
    SortOrders(records, draws);
    AttemptTries(sorted, works);
    PositiveMultiset(records, x);
    var calls := Attempt(sorted, works).calls;
    if j < |calls| && x.priority < calls[j].priority {
      AllBefore(sorted, calls, x, j);
    }
  }

  lemma AllBefore(sorted: seq<Record>, calls: seq<Record>, x: Record, j: nat)
    requires calls <= sorted && ByPriority(sorted) && j < |calls| && x.priority < calls[j].priority
    ensures multiset(calls[..j])[x] == multiset(sorted)[x]
  {
    assert calls[..j] == sorted[..j] && calls[j] == sorted[j];
    assert sorted == sorted[..j] + sorted[j..];
    assert x !in sorted[j..];
    assert x !in multiset(sorted[j..]);
  }
}
