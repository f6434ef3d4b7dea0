/**
 Ordering service records by priority and, within a priority, by weighted chance, and
 trying them in that order (RFC 2782, "The format of the SRV RR").
 */
module Srv {
  import opened Collections

  datatype Record = Record(name: string, port: nat, priority: nat, weight: nat)

  /** A random draw is at least 0 and less than 1. */
  type Draw = r: real | 0.0 <= r < 1.0

  // ---------- stable sorting, as the built-in sort does it ----------

  /** An order on records: by rising priority, or by falling weight. */
  datatype Key = Priority | Weight

  predicate Before(key: Key, a: Record, b: Record) {
    match key
    case Priority => a.priority < b.priority
    case Weight => a.weight > b.weight
  }

  ghost predicate SortedBy(key: Key, s: seq<Record>) {
    forall i, j :: 0 <= i < j < |s| ==> !Before(key, s[j], s[i])
  }

  /** Puts a record behind those that do not come after it. */
  function Insert(key: Key, s: seq<Record>, x: Record): (r: seq<Record>)
    ensures |r| == |s| + 1
  {
    if s == [] || !Before(key, x, s[|s| - 1]) then s + [x]
    else Insert(key, s[..|s| - 1], x) + [s[|s| - 1]]
  }

  function StableSort(key: Key, s: seq<Record>): (r: seq<Record>)
    ensures |r| == |s|
  {
    if s == [] then [] else Insert(key, StableSort(key, s[..|s| - 1]), s[|s| - 1])
  }

  // ---------- grouping ----------

  /** The groups with one more record: in the last group if the priorities agree, else in a new one. */
  function AddToGroups(groups: seq<seq<Record>>, x: Record): (r: seq<seq<Record>>) {
    if groups == [] then [[x]]
    else
      var last := groups[|groups| - 1];
      if last == [] || last[0].priority != x.priority then groups + [[x]]
      else groups[..|groups| - 1] + [last + [x]]
  }

  function Grouped(s: seq<Record>): (r: seq<seq<Record>>) {
    if s == [] then [] else AddToGroups(Grouped(s[..|s| - 1]), s[|s| - 1])
  }

  method GroupByPriority(records: seq<Record>) returns (groups: seq<seq<Record>>)
    ensures groups == Grouped(StableSort(Priority, records))
  {
    var sorted := StableSort(Priority, records);
    groups := [];
    for i := 0 to |sorted|
      invariant groups == Grouped(sorted[..i])
    {
      var record := sorted[i];
      assert sorted[..i + 1][..i] == sorted[..i];
      if |groups| > 0 {
        var last := groups[|groups| - 1];
        if |last| == 0 || last[0].priority != record.priority {
          groups := groups + [[record]];
        } else {
          groups := groups[|groups| - 1 := last + [record]];
        }
      } else {
        groups := [[record]];
      }
    }
    assert sorted[..|sorted|] == sorted;
  }

  // ---------- weighted choice ----------

  function Total(s: seq<Record>): (r: nat) {
    if s == [] then 0 else Total(s[..|s| - 1]) + s[|s| - 1].weight
  }

  /** The first position at which the counter of weights exceeds the drawn number, or the length. */
  function Select(s: seq<Record>, drawn: real, from: nat := 0, counter: nat := 0): (i: nat)
    requires from <= |s|
    ensures from <= i <= |s|
    decreases |s| - from
  {
    if from == |s| then from
    else
      var next := counter + s[from].weight;
      if drawn < next as real then from else Select(s, drawn, from + 1, next)
  }

  /** The n-th random number, scaled to a sum of weights. */
  type Source = (nat, int) -> real

  function Scaled(draws: nat -> Draw): (r: Source) {
    (n: nat, sum: int) => draws(n) * sum as real
  }

  /** Picks one record after the other; `n` counts the draws used so far. */
  function Pick(s: seq<Record>, sum: int, random: Source, n: nat): (r: (seq<Record>, nat))
    decreases |s|
  {
    var i := Select(s, random(n, sum));
    if i == |s| then ([], n + 1)
    else
      var (rest, n') := Pick(RemoveAt(s, i), sum - s[i].weight, random, n + 1);
      ([s[i]] + rest, n')
  }

  function ShuffleWeighted(s: seq<Record>, random: Source, n: nat): (r: (seq<Record>, nat)) {
    Pick(StableSort(Weight, s), Total(s), random, n)
  }

  function FlatMapShuffle(groups: seq<seq<Record>>, random: Source, n: nat): (r: (seq<Record>, nat))
    decreases groups
  {
    if groups == [] then ([], n)
    else
      var (first, n') := ShuffleWeighted(groups[0], random, n);
      var (rest, n'') := FlatMapShuffle(groups[1..], random, n');
      (first + rest, n'')
  }

  function Sort(records: seq<Record>, draws: nat -> Draw): (r: seq<Record>) {
    FlatMapShuffle(Grouped(StableSort(Priority, records)), Scaled(draws), 0).0
  }

  method PickRecords(records: seq<Record>, sum: int, random: Source, n: nat) returns (r: seq<Record>, used: nat)
    ensures (r, used) == Pick(records, sum, random, n)
    decreases |records|
  {
    var rand := random(n, sum);
    var counter := 0;
    for i := 0 to |records|
      invariant counter >= 0
      invariant Select(records, rand) == Select(records, rand, i, counter)
    {
      counter := counter + records[i].weight;
      if rand < counter as real {
        var picked := records[i];
        assert Select(records, rand) == i;
        r, used := PickRecords(RemoveAt(records, i), sum - picked.weight, random, n + 1);
        r := [picked] + r;
        return;
      }
    }
    return [], n + 1;
  }

  // ---------- trying one record after the other ----------

  /** What the caller's promise becomes, and whether a rejection is left that nobody handles. */
  datatype Outcome = Outcome(calls: seq<Record>, rejected: bool, unhandled: bool)

  /**
   The i-th try; `works` says whether that call succeeds. A failure starts the next try but
   does not wait for it.
   */
  function Next(records: seq<Record>, works: (nat, Record) -> bool, i: nat): (r: Outcome)
    decreases |records| - i
  {
    if i >= |records| then Outcome([], true, false)
    else if works(i, records[i]) then Outcome([records[i]], false, false)
    else
      var later := Next(records, works, i + 1);
      Outcome([records[i]] + later.calls, false, later.rejected || later.unhandled)
  }

  function Attempt(records: seq<Record>, works: (nat, Record) -> bool): (r: Outcome) {
    Next(records, works, 0)
  }
}
