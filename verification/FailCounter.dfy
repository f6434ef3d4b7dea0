/** Counts failures in a sliding window of time and reports when there are too many. */
module FailCounter {
  /** The counter's memory without the leading entries that are too old. */
  function DropOld(values: seq<int>, now: int, time: int): (r: seq<int>) {
    if values != [] && now - values[0] >= time then DropOld(values[1..], now, time) else values
  }

  class FailCounter {
    const threshold: int
    const time: int
    var values: seq<int>
    var reported: nat  // how often the limit was reported as exceeded

    constructor (threshold: int, time: int)
      ensures this.threshold == threshold && this.time == time && values == [] && reported == 0
    {
      this.threshold, this.time, values, reported := threshold, time, [], 0;
    }

    method Inc(now: int)
      modifies this
      ensures values == DropOld(old(values), now, time) + [now]
      ensures reported == old(reported) + if |values| > threshold then 1 else 0
    {
      while |values| > 0
        invariant DropOld(values, now, time) == DropOld(old(values), now, time)
        invariant reported == old(reported)
        decreases |values|
      {
        if now - values[0] >= time {
          values := values[1..];
        } else {
          break;
        }
      }
      values := values + [now];
      if |values| > threshold {
        reported := reported + 1;
      }
    }
  }

  // ---------- histories ----------

  /** The memory after calls at the given times. */
  function Values(times: seq<int>, time: int): (r: seq<int>) {
    if times == [] then []
    else
      var now := times[|times| - 1];
      DropOld(Values(times[..|times| - 1], time), now, time) + [now]
  }

  function Reports(times: seq<int>, threshold: int, time: int): (r: nat) {
    if times == [] then 0
    else Reports(times[..|times| - 1], threshold, time) + if |Values(times, time)| > threshold then 1 else 0
  }

  /** All the calls so far that are younger than the window, in order. */
  function Window(times: seq<int>, now: int, time: int): (r: seq<int>) {
    if times == [] then []
    else
      var last := times[|times| - 1];
      Window(times[..|times| - 1], now, time) + if now - last < time then [last] else []
  }

  ghost predicate Rising(times: seq<int>) {
    forall i, j :: 0 <= i <= j < |times| ==> times[i] <= times[j]
  }

  lemma {:induction false} WindowAppend(a: seq<int>, b: seq<int>, now: int, time: int)
    ensures Window(a + b, now, time) == Window(a, now, time) + Window(b, now, time)
  {
    if b == [] {
      assert a + b == a;
    } else {
      WindowAppend(a, b[..|b| - 1], now, time);
      assert (a + b)[..|a + b| - 1] == a + b[..|b| - 1];
    }
  }

  /** In a sorted memory the entries to keep are exactly those behind the leading old ones. */
  lemma {:induction false} DropOldIsWindow(values: seq<int>, now: int, time: int)
    requires Rising(values)
    ensures DropOld(values, now, time) == Window(values, now, time)
  {
    if values != [] {
      var x, rest := values[0], values[1..];
      assert values == [x] + rest;
      WindowAppend([x], rest, now, time);
      assert [x][..0] == [];
      if now - x >= time {
        DropOldIsWindow(rest, now, time);
      } else {
        AllYoung(values, now, time);
      }
    }
  }

  lemma {:induction false} AllYoung(values: seq<int>, now: int, time: int)
    requires forall i :: 0 <= i < |values| ==> now - values[i] < time
    ensures Window(values, now, time) == values
  {
    if values != [] {
      AllYoung(values[..|values| - 1], now, time);
    }
  }

  /** What is too old once is too old ever after. */
  lemma {:induction false} WindowTwice(times: seq<int>, earlier: int, now: int, time: int)
    requires earlier <= now
    ensures Window(Window(times, earlier, time), now, time) == Window(times, now, time)
  {
    if times != [] {
      var init, last := times[..|times| - 1], times[|times| - 1];
      WindowTwice(init, earlier, now, time);
      WindowAppend(Window(init, earlier, time), if earlier - last < time then [last] else [], now, time);
      assert [last][..0] == [];
    }
  }

  /** Cutting to a window keeps the order. */
  lemma {:induction false} WindowRising(times: seq<int>, now: int, time: int, last: int)
    requires Rising(times + [last])
    ensures Rising(Window(times, now, time) + [last])
  {
    if times != [] {
      var init, x := times[..|times| - 1], times[|times| - 1];
      assert forall i :: 0 <= i < |times| ==> (times + [last])[i] == times[i];
      assert (times + [last])[|times|] == last;
      assert init + [x] == times;
      WindowRising(init, now, time, x);
      RisingOn(Window(init, now, time), x, last);
      assert Window(init, now, time) + [] == Window(init, now, time);
    }
  }

  lemma RisingOn(s: seq<int>, x: int, y: int)
    requires Rising(s + [x]) && x <= y
    ensures Rising(s + [x] + [y]) && Rising(s + [y])
  {
    var t, u, v := s + [x], s + [x] + [y], s + [y];
    forall i | 0 <= i < |s|
      ensures t[i] <= x
    {
      assert t[i] <= t[|s|];
    }
    forall i, j | 0 <= i <= j < |u|
      ensures u[i] <= u[j]
    {
      assert j < |t| ==> t[i] <= t[j];
    }
    forall i, j | 0 <= i <= j < |v|
      ensures v[i] <= v[j]
    {
      if j < |s| {
        assert t[i] <= t[j];
      } else if i < |s| {
        assert v[i] == t[i] && v[j] == y;
      }
    }
  }

  /**
   With a clock that does not run backwards, the memory after a call is the whole history cut
   to the window, although old entries were thrown away call by call, and the call itself.
   */
  lemma {:induction false} MemoryIsWindow(times: seq<int>, time: int)
    requires Rising(times) && times != []
    ensures var now := times[|times| - 1];
      Values(times, time) == Window(times[..|times| - 1], now, time) + [now]
  {
    var init, now := times[..|times| - 1], times[|times| - 1];
    if init != [] {
      var before, earlier := init[..|init| - 1], init[|init| - 1];
      assert init == before + [earlier];
      MemoryIsWindow(init, time);
      var kept := Window(before, earlier, time);
      WindowRising(before, earlier, time, earlier);
      DropOldIsWindow(kept + [earlier], now, time);
      WindowTwice(before, earlier, now, time);
      WindowAppend(kept, [earlier], now, time);
      WindowAppend(before, [earlier], now, time);
    }
  }

  /** So a report is made at a call exactly if more than the threshold of calls fall into the window. */
  lemma ReportsExactly(times: seq<int>, threshold: int, time: int)
    requires Rising(times) && times != [] && time > 0
    ensures var init, now := times[..|times| - 1], times[|times| - 1];
      && Values(times, time) == Window(times, now, time)
      && (Reports(times, threshold, time) == Reports(init, threshold, time) + 1 <==>
          |Window(times, now, time)| > threshold)
  {
    MemoryIsWindow(times, time);
  }
}
