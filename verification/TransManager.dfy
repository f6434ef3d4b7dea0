/**
 Request-and-reply transactions, many at a time. Each subscribes to a response channel of
 its own, listens there and arms a timer; the first reply or the timer settles it.
 */
module TransManager {
  datatype Outcome = Resolved | Rejected | TimedOut

  datatype Settlement = Settlement(channel: string, outcome: Outcome)

  /** `settled` lists every call that resolves or rejects a promise, in order. */
  datatype State = State(
    subscriptions: multiset<string>, listeners: set<string>, timers: set<string>, settled: seq<Settlement>)

  /** A reply may come on any channel, at any time and repeatedly; a timer fires only while it is armed. */
  datatype Op = Begin(channel: string) | Reply(channel: string, success: bool) | Timeout(channel: string)

  const EMPTY := State(multiset{}, {}, {}, [])

  function Settle(s: State, channel: string, outcome: Outcome): (r: State) {
    State(s.subscriptions - multiset{channel}, s.listeners - {channel}, s.timers - {channel},
          s.settled + [Settlement(channel, outcome)])
  }

  function Step(s: State, op: Op): (r: State) {
    match op
    case Begin(channel) =>
      s.(subscriptions := s.subscriptions + multiset{channel},
         timers := s.timers + {channel}, listeners := s.listeners + {channel})
    case Reply(channel, success) =>
      if channel in s.listeners then Settle(s, channel, if success then Resolved else Rejected) else s
    case Timeout(channel) =>
      if channel in s.timers then Settle(s, channel, TimedOut) else s
  }

  function Run(ops: seq<Op>): (r: State) {
    if ops == [] then EMPTY else Step(Run(ops[..|ops| - 1]), ops[|ops| - 1])
  }

  class Transactions {
    var subscriptions: multiset<string>
    var listeners: set<string>
    var timers: set<string>
    var settled: seq<Settlement>

    ghost function Abs(): (r: State)
      reads this
    {
      State(subscriptions, listeners, timers, settled)
    }

    constructor ()
      ensures Abs() == EMPTY
    {
      subscriptions, listeners, timers, settled := multiset{}, {}, {}, [];
    }

    method RunTransaction(channel: string)
      modifies this
      ensures Abs() == Step(old(Abs()), Begin(channel))
    {
      subscriptions := subscriptions + multiset{channel};
      timers := timers + {channel};
      listeners := listeners + {channel};
    }

    method HandleReply(channel: string, success: bool)
      modifies this
      ensures Abs() == Step(old(Abs()), Reply(channel, success))
    {
      if channel in listeners {
        timers := timers - {channel};
        subscriptions := subscriptions - multiset{channel};
        listeners := listeners - {channel};
        if success {
          settled := settled + [Settlement(channel, Resolved)];
        } else {
          settled := settled + [Settlement(channel, Rejected)];
        }
      }
    }

    method HandleTimeout(channel: string)
      modifies this
      ensures Abs() == Step(old(Abs()), Timeout(channel))
    {
      if channel in timers {
        timers := timers - {channel};
        listeners := listeners - {channel};
        subscriptions := subscriptions - multiset{channel};
        settled := settled + [Settlement(channel, TimedOut)];
      }
    }
  }

  // ---------- one transaction by itself ----------

  datatype Fate = Unborn | Pending | Done(outcome: Outcome)

  function FateStep(fate: Fate, op: Op): (r: Fate) {
    match op
    case Begin(_) => if fate == Unborn then Pending else fate
    case Reply(_, success) => if fate == Pending then Done(if success then Resolved else Rejected) else fate
    case Timeout(_) => if fate == Pending then Done(TimedOut) else fate
  }

  /** What becomes of a transaction, judged by the events on its own channel alone. */
  function FateOf(ops: seq<Op>, channel: string): (r: Fate) {
    if ops == [] then Unborn
    else
      var fate, op := FateOf(ops[..|ops| - 1], channel), ops[|ops| - 1];
      if op.channel == channel then FateStep(fate, op) else fate
  }

  /** Response channels are unique: none is used for a second transaction. */
  predicate Unique(ops: seq<Op>) {
    ops != [] ==>
      var earlier, op := ops[..|ops| - 1], ops[|ops| - 1];
      Unique(earlier) && (op.Begin? ==> FateOf(earlier, op.channel) == Unborn)
  }

  /** The outcomes announced for a channel, in order. */
  function OutcomesOf(settled: seq<Settlement>, channel: string): (r: seq<Outcome>) {
    if settled == [] then []
    else
      var last := settled[|settled| - 1];
      OutcomesOf(settled[..|settled| - 1], channel) + if last.channel == channel then [last.outcome] else []
  }

  /** The state holds for the channel exactly what a transaction of that fate has. */
  ghost predicate Matches(s: State, channel: string, fate: Fate) {
    && (channel in s.listeners <==> fate == Pending)
    && (channel in s.timers <==> fate == Pending)
    && s.subscriptions[channel] == (if fate == Pending then 1 else 0)
    && OutcomesOf(s.settled, channel) == (if fate.Done? then [fate.outcome] else [])
  }

  lemma OutcomesSnoc(settled: seq<Settlement>, x: Settlement, channel: string)
    ensures OutcomesOf(settled + [x], channel) ==
      OutcomesOf(settled, channel) + if x.channel == channel then [x.outcome] else []
  {
    assert (settled + [x])[..|settled|] == settled;
  }

  lemma StepMatches(s: State, channel: string, fate: Fate, op: Op)
    requires Matches(s, channel, fate) && (op.Begin? && op.channel == channel ==> fate == Unborn)
    ensures Matches(Step(s, op), channel, if op.channel == channel then FateStep(fate, op) else fate)
  {
    match op
    case Begin(_) =>
    case Reply(c, success) => OutcomesSnoc(s.settled, Settlement(c, if success then Resolved else Rejected), channel);
    case Timeout(c) => OutcomesSnoc(s.settled, Settlement(c, TimedOut), channel);
  }

  /**
   In every interleaving of any number of transactions with unique response channels, each
   fares as if it were alone: while it is pending it has its listener, its one subscription
   and its timer; otherwise it has none of them; and it settles once, as its own first reply
   or its timer decides, or not at all.
   */
  lemma {:induction false} Isolated(ops: seq<Op>, channel: string)
    requires Unique(ops)
    ensures Matches(Run(ops), channel, FateOf(ops, channel))
  {
    if ops != [] {
      var earlier := ops[..|ops| - 1];
      Isolated(earlier, channel);
      StepMatches(Run(earlier), channel, FateOf(earlier, channel), ops[|ops| - 1]);
    }
  }

  /** The events on one channel. */
  function Only(ops: seq<Op>, channel: string): (r: seq<Op>) {
    if ops == [] then []
    else Only(ops[..|ops| - 1], channel) + if ops[|ops| - 1].channel == channel then [ops[|ops| - 1]] else []
  }

  lemma Snoc(ops: seq<Op>, op: Op, channel: string)
    ensures FateOf(ops + [op], channel) ==
      if op.channel == channel then FateStep(FateOf(ops, channel), op) else FateOf(ops, channel)
    ensures Unique(ops + [op]) <==> Unique(ops) && (op.Begin? ==> FateOf(ops, op.channel) == Unborn)
  {
    assert (ops + [op])[..|ops|] == ops;
  }

  lemma {:induction false} OnlyKeeps(ops: seq<Op>, channel: string)
    ensures FateOf(ops, channel) == FateOf(Only(ops, channel), channel)
    ensures Unique(ops) ==> Unique(Only(ops, channel))
  {
    if ops != [] {
      var earlier, op := ops[..|ops| - 1], ops[|ops| - 1];
      OnlyKeeps(earlier, channel);
      if op.channel == channel {
        assert Only(ops, channel) == Only(earlier, channel) + [op];
        Snoc(Only(earlier, channel), op, channel);
      } else {
        assert Only(ops, channel) == Only(earlier, channel);
      }
    }
  }

  /** So the events of other transactions, wherever they come in between, make no difference. */
  lemma OthersDoNotMatter(ops: seq<Op>, channel: string)
    requires Unique(ops)
    ensures Unique(Only(ops, channel))
    ensures OutcomesOf(Run(ops).settled, channel) == OutcomesOf(Run(Only(ops, channel)).settled, channel)
    ensures channel in Run(ops).listeners <==> channel in Run(Only(ops, channel)).listeners
  {
    OnlyKeeps(ops, channel);
    Isolated(ops, channel);
    Isolated(Only(ops, channel), channel);
  }
}
