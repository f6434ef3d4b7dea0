/**
 A concurrency limiter. Calls beyond the limit wait in a queue; every completion makes
 room for the next. A handler that throws never completes, and keeps its place for good.
 */
module Limiter {
  import opened Collections

  datatype Call = Call(id: nat, throws: bool)

  datatype State = State(queue: seq<Call>, running: nat, started: seq<Call>)

  datatype Op = Submit(call: Call) | Done

  /** Starts what may start; an exception ends the loop. */
  function MaybeNext(limit: int, s: State): (r: State)
    decreases |s.queue|
  {
    if s.running < limit && s.queue != [] then
      var call := s.queue[0];
      var next := State(s.queue[1..], s.running + 1, s.started + [call]);
      if call.throws then next else MaybeNext(limit, next)
    else s
  }

  function Step(limit: int, s: State, op: Op): (r: State) {
    match op
    case Submit(call) => MaybeNext(limit, s.(queue := s.queue + [call]))
    case Done => MaybeNext(limit, s.(running := Max(0, s.running - 1)))
  }

  function Run(limit: int, ops: seq<Op>): (r: State) {
    if ops == [] then State([], 0, []) else Step(limit, Run(limit, ops[..|ops| - 1]), ops[|ops| - 1])
  }

  class Limiter {
    const limit: int
    var queue: seq<Call>
    var running: nat
    ghost var started: seq<Call>  // the calls handed to the handler, in order

    ghost function Abs(): (r: State)
      reads this
    {
      State(queue, running, started)
    }

    constructor (limit: int)
      ensures this.limit == limit && Abs() == State([], 0, [])
    {
      this.limit := limit;
      queue, running, started := [], 0, [];
    }

    method StartNext()
      modifies this
      ensures Abs() == MaybeNext(limit, old(Abs()))
    {
      while running < limit && |queue| > 0
        invariant MaybeNext(limit, Abs()) == MaybeNext(limit, old(Abs()))
        decreases |queue|
      {
        running := running + 1;
        var call := queue[0];
        queue := queue[1..];
        started := started + [call];
        if call.throws {
          return;
        }
      }
    }

    /** A started call that did not throw has completed. */
    method Complete()
      requires running > 0
      modifies this
      ensures Abs() == Step(limit, old(Abs()), Done)
    {
      running := running - 1;
      StartNext();
    }

    method Invoke(call: Call)
      modifies this
      ensures Abs() == Step(limit, old(Abs()), Submit(call))
    {
      queue := queue + [call];
      StartNext();
    }
  }

  // ---------- runs ----------

  function Submitted(ops: seq<Op>): (r: seq<Call>) {
    if ops == [] then []
    else Submitted(ops[..|ops| - 1]) + if ops[|ops| - 1].Submit? then [ops[|ops| - 1].call] else []
  }

  function Completions(ops: seq<Op>): (r: nat) {
    if ops == [] then 0 else Completions(ops[..|ops| - 1]) + if ops[|ops| - 1].Done? then 1 else 0
  }

  function Thrown(calls: seq<Call>): (n: nat)
    ensures n <= |calls|
  {
    if calls == [] then 0 else Thrown(calls[..|calls| - 1]) + if calls[|calls| - 1].throws then 1 else 0
  }

  /** Only a call that was started, did not throw and has not completed yet can complete. */
  predicate Possible(limit: int, ops: seq<Op>) {
    ops != [] ==>
      var earlier := ops[..|ops| - 1];
      && Possible(limit, earlier)
      && (ops[|ops| - 1].Done? ==>
            Completions(earlier) < |Run(limit, earlier).started| - Thrown(Run(limit, earlier).started))
  }

  lemma ThrownSnoc(calls: seq<Call>, call: Call)
    ensures Thrown(calls + [call]) == Thrown(calls) + if call.throws then 1 else 0
  {
    assert (calls + [call])[..|calls|] == calls;
  }

  lemma {:induction false} NextKeeps(limit: int, s: State)
    ensures var r := MaybeNext(limit, s);
      && r.started + r.queue == s.started + s.queue
      && s.started <= r.started
      && r.running - |r.started| == s.running - |s.started|
      && (s.running <= Max(0, limit) ==> r.running <= Max(0, limit))
      && (r.queue == [] || r.running >= limit || Thrown(r.started) > Thrown(s.started))
      && Thrown(r.started) >= Thrown(s.started)
    decreases |s.queue|
  {
    if s.running < limit && s.queue != [] {
      var call := s.queue[0];
      var next := State(s.queue[1..], s.running + 1, s.started + [call]);
      ThrownSnoc(s.started, call);
      assert s.started + [call] + s.queue[1..] == s.started + s.queue;
      if !call.throws {
        NextKeeps(limit, next);
      }
    }
  }

  /** What holds of a limiter that was given `submitted` and has seen so many completions. */
  ghost predicate Fair(limit: int, s: State, submitted: seq<Call>, completions: nat) {
    && s.started + s.queue == submitted
    && s.running <= Max(0, limit)
    && s.running == |s.started| - completions
    && s.running >= Thrown(s.started)
  }

  lemma {:induction false} NextRunning(limit: int, s: State)
    requires s.running >= Thrown(s.started)
    ensures MaybeNext(limit, s).running >= Thrown(MaybeNext(limit, s).started)
    decreases |s.queue|
  {
    if s.running < limit && s.queue != [] {
      ThrownSnoc(s.started, s.queue[0]);
      if !s.queue[0].throws {
        NextRunning(limit, State(s.queue[1..], s.running + 1, s.started + [s.queue[0]]));
      }
    }
  }

  lemma SubmitFair(limit: int, s: State, submitted: seq<Call>, completions: nat, call: Call)
    requires Fair(limit, s, submitted, completions)
    ensures Fair(limit, Step(limit, s, Submit(call)), submitted + [call], completions)
  {
    var t := s.(queue := s.queue + [call]);
    assert t.started + t.queue == s.started + s.queue + [call];
    NextKeeps(limit, t);
    NextRunning(limit, t);
  }

  lemma DoneFair(limit: int, s: State, submitted: seq<Call>, completions: nat)
    requires Fair(limit, s, submitted, completions) && completions < |s.started| - Thrown(s.started)
    ensures Fair(limit, Step(limit, s, Done), submitted, completions + 1)
  {
    var t := s.(running := s.running - 1);
    NextKeeps(limit, t);
    NextRunning(limit, t);
  }

  /**
   Calls start in the order of their submission, each once; never more than the limit run;
   and those that count as running are the ones started and not completed, among them every
   one that threw.
   */
  lemma {:induction false} AlwaysFair(limit: int, ops: seq<Op>)
    requires Possible(limit, ops)
    ensures Fair(limit, Run(limit, ops), Submitted(ops), Completions(ops))
  {
    if ops != [] {
      var earlier := ops[..|ops| - 1];
      var s := Run(limit, earlier);
      AlwaysFair(limit, earlier);
      match ops[|ops| - 1]
      case Submit(call) => SubmitFair(limit, s, Submitted(earlier), Completions(earlier), call);
      case Done => DoneFair(limit, s, Submitted(earlier), Completions(earlier));
    }
  }

  /**
   In every run, also if handlers throw, no call waits while there is room: after each event
   the queue is empty or as many run as may.
   */
  lemma {:induction false} NoIdlePlace(limit: int, ops: seq<Op>)
    requires Possible(limit, ops)
    ensures Run(limit, ops).queue == [] || Run(limit, ops).running >= limit
  {
    if ops != [] {
      var earlier := ops[..|ops| - 1];
      var s := Run(limit, earlier);
      NoIdlePlace(limit, earlier);
      AlwaysFair(limit, earlier);
      match ops[|ops| - 1]
      case Submit(call) => OneStarts(limit, s.(queue := s.queue + [call]));
      case Done => OneStarts(limit, s.(running := s.running - 1));
    }
  }

  /** With room for one more, or for one call only, one start leaves no idle place. */
  lemma OneStarts(limit: int, s: State)
    requires s.running >= limit - 1 || |s.queue| <= 1
    ensures MaybeNext(limit, s).queue == [] || MaybeNext(limit, s).running >= limit
  {
    if s.running < limit && s.queue != [] {
      var call := s.queue[0];
      NextKeeps(limit, State(s.queue[1..], s.running + 1, s.started + [call]));
    }
  }

  // ---------- when it is jammed ----------

  /** Whatever may still happen, no call is ever started again. */
  ghost predicate Stuck(limit: int, ops: seq<Op>) {
    forall more :: Possible(limit, ops + more) ==> Run(limit, ops + more).started == Run(limit, ops).started
  }

  lemma Extended(limit: int, ops: seq<Op>, op: Op)
    ensures Run(limit, ops + [op]) == Step(limit, Run(limit, ops), op)
    ensures Submitted(ops + [op]) == Submitted(ops) + if op.Submit? then [op.call] else []
    ensures Completions(ops + [op]) == Completions(ops) + if op.Done? then 1 else 0
    ensures Possible(limit, ops + [op]) <==>
            && Possible(limit, ops)
            && (op.Done? ==> Completions(ops) < |Run(limit, ops).started| - Thrown(Run(limit, ops).started))
  {
    assert (ops + [op])[..|ops|] == ops;
  }

  lemma {:induction false} StaysJammed(limit: int, ops: seq<Op>, more: seq<Op>)
    requires Possible(limit, ops + more) && Thrown(Run(limit, ops).started) >= limit
    ensures Run(limit, ops + more).started == Run(limit, ops).started
  {
    if more == [] {
      assert ops + more == ops;
    } else {
      var earlier := ops + more[..|more| - 1];
      assert ops + more == earlier + [more[|more| - 1]];
      Extended(limit, earlier, more[|more| - 1]);
      StaysJammed(limit, ops, more[..|more| - 1]);
      AlwaysFair(limit, earlier);
    }
  }

  /** With room and a waiting call, a call starts. */
  lemma Starts(limit: int, s: State)
    requires s.running < limit && s.queue != []
    ensures |s.started| < |MaybeNext(limit, s).started|
  {
    var call := s.queue[0];
    NextKeeps(limit, State(s.queue[1..], s.running + 1, s.started + [call]));
  }

  /** While fewer have thrown than may run, one more submission and perhaps a completion start a call. */
  lemma Restarts(limit: int, ops: seq<Op>) returns (more: seq<Op>)
    requires Possible(limit, ops) && Thrown(Run(limit, ops).started) < limit
    ensures Possible(limit, ops + more) && |Run(limit, ops).started| < |Run(limit, ops + more).started|
  {
    var s, call := Run(limit, ops), Call(0, false);
    var submit, waiting := Submit(call), s.(queue := s.queue + [call]);
    AlwaysFair(limit, ops);
    Extended(limit, ops, submit);
    if s.running < limit {
      more := [submit];
      Starts(limit, waiting);
    } else {
      more := [submit, Done];
      var m := ops + [submit];
      assert Run(limit, m) == waiting;
      Extended(limit, m, Done);
      assert ops + more == m + [Done];
      Starts(limit, waiting.(running := s.running - 1));
    }
  }

  /** Nothing ever starts again iff as many handlers have thrown as may run. */
  lemma JammedIff(limit: int, ops: seq<Op>)
    requires Possible(limit, ops)
    ensures Thrown(Run(limit, ops).started) >= limit <==> Stuck(limit, ops)
  {
    if Thrown(Run(limit, ops).started) >= limit {
      forall more | Possible(limit, ops + more)
        ensures Run(limit, ops + more).started == Run(limit, ops).started
      {
        StaysJammed(limit, ops, more);
      }
    } else {
      var more := Restarts(limit, ops);
      assert Possible(limit, ops + more);
    }
  }
}
