/**
 A queue of states to pass through. Pushing a state that is queued already cuts the
 queue back to it, so that the detour is forgotten.
 */
module StateQueue {
  import opened Collections

  /** The first position of x, or -1. */
  function Find<S(==)>(q: seq<S>, x: S, from: nat := 0): (i: int)
    requires from <= |q|
    ensures i == -1 || (from <= i < |q| && q[i] == x)
    ensures forall k :: from <= k < (if i < 0 then |q| else i) ==> q[k] != x
    decreases |q| - from
  {
    if from == |q| then -1 else if q[from] == x then from else Find(q, x, from + 1)
  }

  function Pushed<S(==)>(q: seq<S>, x: S): (r: seq<S>) {
    var i := Find(q, x);
    if i >= 0 then q[..i + 1] else q + [x]
  }

  class StateQueue<S(==)> {
    var queue: seq<S>

    constructor ()
      ensures queue == []
    {
      queue := [];
    }

    method Next() returns (state: Option<S>)
      modifies this
      ensures state == if old(queue) == [] then None else Some(old(queue)[0])
      ensures queue == if old(queue) == [] then [] else old(queue)[1..]
    {
      if |queue| == 0 {
        return None;
      }
      state := Some(queue[0]);
      queue := queue[1..];
    }

    method Empty() returns (empty: bool)
      ensures empty == (queue == [])
    {
      empty := |queue| == 0;
    }

    method Push(state: S)
      modifies this
      ensures queue == Pushed(old(queue), state)
    {
      var found := false;
      var i, l := 0, |queue|;
      while i < l
        invariant 0 <= i <= l == |queue| && queue == old(queue) && !found
        invariant Find(queue, state) == Find(queue, state, i)
      {
        if queue[i] == state {
          queue := queue[..i + 1];
          found := true;
          break;
        }
        i := i + 1;
      }
      if !found {
        queue := queue + [state];
      }
    }
  }

  // ---------- runs ----------

  datatype Op<S> = Push(state: S) | Next

  /** What was taken so far, and what is still queued. */
  datatype World<S> = World(taken: seq<S>, queue: seq<S>)

  function Run<S(==)>(ops: seq<Op<S>>): (r: World<S>) {
    if ops == [] then World([], [])
    else
      var w := Run(ops[..|ops| - 1]);
      match ops[|ops| - 1]
      case Push(state) => World(w.taken, Pushed(w.queue, state))
      case Next => if w.queue == [] then w else World(w.taken + [w.queue[0]], w.queue[1..])
  }

  function Pushes<S>(ops: seq<Op<S>>): (r: seq<S>) {
    if ops == [] then []
    else Pushes(ops[..|ops| - 1]) + if ops[|ops| - 1].Push? then [ops[|ops| - 1].state] else []
  }

  /** b was pushed right after a at some time. */
  ghost predicate InSuccession<S>(pushes: seq<S>, a: S, b: S) {
    exists j, k {:trigger pushes[j], pushes[k]} ::
      0 <= j && k == j + 1 && k < |pushes| && pushes[j] == a && pushes[k] == b
  }

  ghost predicate Walk<S>(w: seq<S>, pushes: seq<S>) {
    && (forall i, k {:trigger w[i], w[k]} :: 0 <= i && k == i + 1 && k < |w| ==> InSuccession(pushes, w[i], w[k]))
    && (pushes != [] ==> w != [] && w[|w| - 1] == pushes[|pushes| - 1])
    && (pushes == [] ==> w == [])
  }

  lemma SuccessionGrows<S>(pushes: seq<S>, x: S, a: S, b: S)
    requires InSuccession(pushes, a, b)
    ensures InSuccession(pushes + [x], a, b)
  {
    var j, k :| 0 <= j && k == j + 1 && k < |pushes| && pushes[j] == a && pushes[k] == b;
    assert (pushes + [x])[j] == a && (pushes + [x])[k] == b;
  }

  lemma WalkCut<S>(w: seq<S>, pushes: seq<S>, n: nat, x: S)
    requires Walk(w, pushes) && 0 < n <= |w| && w[n - 1] == x
    ensures Walk(w[..n], pushes + [x])
  {
    forall i, k | 0 <= i && k == i + 1 && k < n
      ensures InSuccession(pushes + [x], w[..n][i], w[..n][k])
    {
      SuccessionGrows(pushes, x, w[i], w[k]);
    }
  }

  lemma WalkOn<S>(w: seq<S>, pushes: seq<S>, x: S)
    requires Walk(w, pushes)
    ensures Walk(w + [x], pushes + [x])
  {
    var v, p := w + [x], pushes + [x];
    forall i, k | 0 <= i && k == i + 1 && k < |v|
      ensures InSuccession(p, v[i], v[k])
    {
      if k < |w| {
        SuccessionGrows(pushes, x, w[i], w[k]);
      } else {
        assert p[|pushes| - 1] == v[i] && p[|pushes|] == v[k];
      }
    }
  }

  lemma PushKeepsDistinct<S>(q: seq<S>, x: S)
    requires Distinct(q)
    ensures Distinct(Pushed(q, x))
  {
  }

  lemma PushWalks<S>(taken: seq<S>, q: seq<S>, pushes: seq<S>, x: S)
    requires Walk(taken + q, pushes)
    ensures Walk(taken + Pushed(q, x), pushes + [x])
  {
    var i := Find(q, x);
    if i >= 0 {
      WalkCut(taken + q, pushes, |taken| + i + 1, x);
      assert (taken + q)[..|taken| + i + 1] == taken + q[..i + 1];
    } else {
      WalkOn(taken + q, pushes, x);
      assert taken + q + [x] == taken + (q + [x]);
    }
  }

  lemma NextMoves<S>(taken: seq<S>, q: seq<S>)
    requires q != []
    ensures taken + [q[0]] + q[1..] == taken + q
    ensures Distinct(q) ==> Distinct(q[1..])
  {
  }

  /**
   The states taken, followed by the queue, form a walk: each step was pushed as such a step,
   and the walk ends at the last pushed state. The queue never holds a state twice.
   */
  lemma {:induction false} AlwaysWalk<S>(ops: seq<Op<S>>)
    ensures Walk(Run(ops).taken + Run(ops).queue, Pushes(ops))
    ensures Distinct(Run(ops).queue)
  {
    if ops != [] {
      var earlier := ops[..|ops| - 1];
      var w := Run(earlier);
      AlwaysWalk(earlier);
      match ops[|ops| - 1]
      case Push(x) =>
        PushKeepsDistinct(w.queue, x);
        PushWalks(w.taken, w.queue, Pushes(earlier), x);
      case Next =>
        assert Pushes(ops) == Pushes(earlier);
        if w.queue != [] {
          NextMoves(w.taken, w.queue);
        }
    }
  }

  /** Pushes along the edges of a graph always leave a simple path of the graph in the queue. */
  lemma SimplePath<S(!new)>(ops: seq<Op<S>>, edge: (S, S) -> bool)
    requires forall a, b :: InSuccession(Pushes(ops), a, b) ==> edge(a, b)
    ensures var q := Run(ops).queue;
      Distinct(q) && forall i :: 0 <= i < |q| - 1 ==> edge(q[i], q[i + 1])
  {
    AlwaysWalk(ops);
    var w := Run(ops);
    var v := w.taken + w.queue;
    forall i | 0 <= i < |w.queue| - 1
      ensures edge(w.queue[i], w.queue[i + 1])
    {
      var n := |w.taken| + i;
      assert v[n] == w.queue[i] && v[n + 1] == w.queue[i + 1];
      assert InSuccession(Pushes(ops), v[n], v[n + 1]);
    }
  }

  // ---------- loop erasure ----------

  /** The last position of x. */
  function LastIndex<S(==)>(w: seq<S>, x: S): (i: nat)
    requires x in w
    ensures i < |w| && w[i] == x
    ensures forall k :: i < k < |w| ==> w[k] != x
  {
    if w[|w| - 1] == x then |w| - 1 else LastIndex(w[..|w| - 1], x)
  }

  /** What comes after the last visit to the first state. */
  function AfterFirst<S(==)>(w: seq<S>): (r: seq<S>)
    requires w != []
    ensures |r| < |w|
  {
    w[LastIndex(w, w[0]) + 1..]
  }

  /** Keep the first state, go on after its last visit. */
  function LoopErased<S(==)>(w: seq<S>): (r: seq<S>)
    decreases |w|
  {
    if w == [] then [] else [w[0]] + LoopErased(AfterFirst(w))
  }

  function PushAll<S(==)>(w: seq<S>): (r: seq<S>) {
    if w == [] then [] else Pushed(PushAll(w[..|w| - 1]), w[|w| - 1])
  }

  lemma {:induction false} FindShift<S>(a: S, q: seq<S>, x: S, from: nat)
    requires from <= |q|
    ensures Find([a] + q, x, from + 1) == (if Find(q, x, from) < 0 then -1 else Find(q, x, from) + 1)
    decreases |q| - from
  {
    if from < |q| && q[from] != x {
      FindShift(a, q, x, from + 1);
    }
  }

  lemma PushedCons<S>(a: S, q: seq<S>, x: S)
    ensures Pushed([a] + q, x) == if a == x then [a] else [a] + Pushed(q, x)
  {
    if a != x {
      FindShift(a, q, x, 0);
    }
  }

  lemma AfterFirstSnoc<S>(w: seq<S>, x: S)
    requires w != []
    ensures AfterFirst(w + [x]) == if w[0] == x then [] else AfterFirst(w) + [x]
  {
    var v := w + [x];
    assert v[..|w|] == w && v[0] == w[0];
    assert LastIndex(v, w[0]) == if w[0] == x then |w| else LastIndex(w, w[0]);
  }

  lemma {:induction false} ErasedSnoc<S>(w: seq<S>, x: S)
    ensures LoopErased(w + [x]) == Pushed(LoopErased(w), x)
    decreases |w|
  {
    if w == [] {
      assert w + [x] == [x] && AfterFirst([x]) == [];
      assert Pushed([], x) == [x];
    } else {
      AfterFirstSnoc(w, x);
      PushedCons(w[0], LoopErased(AfterFirst(w)), x);
      if w[0] != x {
        ErasedSnoc(AfterFirst(w), x);
      }
    }
  }

  /** Pushing a whole walk onto an empty queue leaves its loop erasure. */
  lemma {:induction false} PushAllErasesLoops<S>(w: seq<S>)
    ensures PushAll(w) == LoopErased(w)
  {
    if w != [] {
      PushAllErasesLoops(w[..|w| - 1]);
      ErasedSnoc(w[..|w| - 1], w[|w| - 1]);
      assert w == w[..|w| - 1] + [w[|w| - 1]];
    }
  }
}
