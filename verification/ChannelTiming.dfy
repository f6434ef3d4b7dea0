/** When a channel expires, if timers fire when they are due. */
module ChannelTiming {
  import opened Collections
  import opened ChannelManager
  import opened ChannelRuns
  import opened ChannelHistory

  /** Timers are punctual: time does not pass a pending timer's due time, and it fires exactly then. */
  ghost predicate Punctual(w: World, e: Event) {
    && Allowed(w, e)
    && (forall t :: t in w.s.pending ==> e.now <= w.s.pending[t].due)
    && (e.op.Fire? && e.op.timer in w.s.pending ==> e.now == w.s.pending[e.op.timer].due)
  }

  ghost predicate PunctualRun(w: World, events: seq<Event>) {
    events != [] ==>
      PunctualRun(w, events[..|events| - 1]) && Punctual(Run(w, events[..|events| - 1]), events[|events| - 1])
  }

  /** No pending timer is overdue. */
  ghost predicate OnTime(s: State, clock: int) {
    forall t :: t in s.pending ==> clock <= s.pending[t].due
  }

  lemma CheckOnTime(s: State, id: string, now: int)
    requires OnTime(s, now)
    ensures OnTime(CheckStep(s, id, now), now)
  {
  }

  lemma StepOnTime(w: World, e: Event)
    requires OnTime(w.s, w.clock) && Punctual(w, e)
    ensures OnTime(Next(w, e).s, e.now)
  {
    match e.op
    case Register(id, timeout, alias) => CheckOnTime(Added(w.s, id, timeout, alias, e.now), id, e.now);
    case Fire(t) =>
      if t in w.s.pending {
        CheckOnTime(w.s.(pending := w.s.pending - {t}), w.s.pending[t].id, e.now);
      }
    case _ =>
  }

  lemma {:induction false} PunctualKeeps(w: World, events: seq<Event>)
    requires Sound(w.s, w.clock) && OnTime(w.s, w.clock) && PunctualRun(w, events)
    ensures Sound(Run(w, events).s, Run(w, events).clock) && OnTime(Run(w, events).s, Run(w, events).clock)
  {
    if events != [] {
      var earlier := events[..|events| - 1];
      PunctualKeeps(w, earlier);
      StepKeeps(Run(w, earlier), events[|events| - 1]);
      StepOnTime(Run(w, earlier), events[|events| - 1]);
    }
  }

  lemma {:induction false} PunctualIsDisciplined(w: World, events: seq<Event>)
    requires PunctualRun(w, events)
    ensures Disciplined(w, events)
  {
    if events != [] {
      PunctualIsDisciplined(w, events[..|events| - 1]);
    }
  }

  /**
   No channel is stored after the time at which, by the calls that reached it, it is to expire;
   except one registered with the infinite timeout.
   */
  lemma NeverOverdue(start: int, events: seq<Event>, key: string) returns (j: nat)
    requires PunctualRun(World(EMPTY, start), events)
    requires key in Run(World(EMPTY, start), events).s.keys
    ensures var w := Run(World(EMPTY, start), events);
      && Stored(w.s, key) && MadeBy(start, events, w.s.keys[key], j)
      && var c := At(w.s, key);
        c.initial != 1 ==> w.clock <= Expiry(events, j, c.id, c.alias)
  {
    var w := Run(World(EMPTY, start), events);
    PunctualKeeps(World(EMPTY, start), events);
    PunctualIsDisciplined(World(EMPTY, start), events);
    assert Live(w.s, w.s.keys[key]) && Timed(w.s, key, w.clock);
    j := FromHistory(start, events, w.s.keys[key]);
  }

  /**
   A firing timer turns s into r: at the deadline both keys go with one announcement; before
   it, the timer comes back at the deadline or, if that is too far away, as late as a timer may.
   */
  ghost predicate Exactly(s: State, r: State, t: nat, now: int, deadline: int)
    requires t in s.pending
  {
    var id := s.pending[t].id;
    && Stored(s, id)
    && now <= deadline
    && if now == deadline then
         && r.expired == s.expired + [id]
         && r.keys == s.keys - {id} - (if At(s, id).alias != "" then {At(s, id).alias} else {})
         && r.pending == s.pending - {t}
       else
         && r.expired == s.expired && r.keys == s.keys
         && r.chans == s.chans[s.keys[id] := At(s, id).(timer := Some(s.nextTimer))]
         && r.pending == (s.pending - {t})[s.nextTimer := Timer(Min(deadline, now + 0x7FFF_FFFF), id)]
  }

  lemma FireExact(w: World, t: nat, now: int)
    requires Sound(w.s, w.clock) && OnTime(w.s, w.clock) && Punctual(w, Event(Fire(t), now))
    requires t in w.s.pending
    ensures Stored(w.s, w.s.pending[t].id)
    ensures Exactly(w.s, Next(w, Event(Fire(t), now)).s, t, now, Deadline(At(w.s, w.s.pending[t].id)))
  {
    var id := w.s.pending[t].id;
    assert Mine(w.s, t) && Timed(w.s, id, w.clock);
    FireDue(w.s, t, w.clock, now);
    var m := w.s.(pending := w.s.pending - {t});
    assert At(m, id) == At(w.s, id);
    assert m.pending - {t} == m.pending;
  }

  lemma PunctualFire(start: int, events: seq<Event>, t: nat, now: int)
    requires PunctualRun(World(EMPTY, start), events)
    requires Punctual(Run(World(EMPTY, start), events), Event(Fire(t), now))
    requires t in Run(World(EMPTY, start), events).s.pending
    ensures var w := Run(World(EMPTY, start), events);
      && Stored(w.s, w.s.pending[t].id)
      && Exactly(w.s, Next(w, Event(Fire(t), now)).s, t, now, Deadline(At(w.s, w.s.pending[t].id)))
  {
    PunctualKeeps(World(EMPTY, start), events);
    FireExact(Run(World(EMPTY, start), events), t, now);
  }

  lemma TimerHistory(start: int, events: seq<Event>, t: nat) returns (j: nat)
    requires PunctualRun(World(EMPTY, start), events) && t in Run(World(EMPTY, start), events).s.pending
    ensures var s := Run(World(EMPTY, start), events).s;
      && Stored(s, s.pending[t].id) && MadeBy(start, events, s.keys[s.pending[t].id], j)
  {
    var w := Run(World(EMPTY, start), events);
    PunctualIsDisciplined(World(EMPTY, start), events);
    AlwaysSound(start, events);
    assert Mine(w.s, t) && Live(w.s, w.s.keys[w.s.pending[t].id]);
    j := FromHistory(start, events, w.s.keys[w.s.pending[t].id]);
  }

  /**
   In every punctual run a channel expires exactly when, by the calls that reached it, it has
   been inactive for its timeout; and no timer is lost before.
   */
  lemma FiresExactly(start: int, events: seq<Event>, t: nat, now: int) returns (j: nat)
    requires PunctualRun(World(EMPTY, start), events)
    requires Punctual(Run(World(EMPTY, start), events), Event(Fire(t), now))
    requires t in Run(World(EMPTY, start), events).s.pending
    ensures var w := Run(World(EMPTY, start), events);
      && Stored(w.s, w.s.pending[t].id) && MadeBy(start, events, w.s.keys[w.s.pending[t].id], j)
      && var c := At(w.s, w.s.pending[t].id);
        Exactly(w.s, Next(w, Event(Fire(t), now)).s, t, now, Expiry(events, j, c.id, c.alias))
  {
    PunctualFire(start, events, t, now);
    j := TimerHistory(start, events, t);
  }

  // ---------- how often a channel is checked ----------

  /** How many timers of the longest delay a stretch of time takes. */
  function Stretches(rest: int): (n: nat)
    ensures n == 0 <==> rest <= 0
    decreases rest
  {
    if rest <= 0 then 0 else 1 + Stretches(rest - MAX_DELAY)
  }

  /** The re-arms to come before the check at the deadline. */
  function RearmsLeft(s: State, c: nat): (r: nat)
    requires c < |s.chans| && s.chans[c].timer.Some? && s.chans[c].timer.value in s.pending
  {
    Stretches(Deadline(s.chans[c]) - s.pending[s.chans[c].timer.value].due)
  }

  predicate Touches(s: State, op: Op, c: nat) {
    match op
    case Keepalive(id) => id in s.keys && s.keys[id] == c
    case UpdateTimeout(id, _) => id in s.keys && s.keys[id] == c
    case Unregister(id) => id in s.keys && s.keys[id] == c
    case _ => false
  }

  predicate Ticking(s: State, c: nat) {
    Live(s, c) && s.chans[c].timer.Some? && s.chans[c].timer.value in s.pending
  }

  /** The channel stays live through the events, and none of them is about it but its own timers. */
  predicate Quiet(w: World, events: seq<Event>, c: nat) {
    && Ticking(Run(w, events).s, c)
    && (events != [] ==>
          && Quiet(w, events[..|events| - 1], c)
          && !Touches(Run(w, events[..|events| - 1]).s, events[|events| - 1].op, c))
  }

  predicate ItsTimer(s: State, op: Op, c: nat) {
    op.Fire? && c < |s.chans| && s.chans[c].timer == Some(op.timer) && op.timer in s.pending
  }

  /** How often the channel's own timer fires. */
  function Rearms(w: World, events: seq<Event>, c: nat): (r: nat) {
    if events == [] then 0
    else
      var earlier, op := events[..|events| - 1], events[|events| - 1].op;
      Rearms(w, earlier, c) + if ItsTimer(Run(w, earlier).s, op, c) then 1 else 0
  }

  lemma RearmCounts(w: World, t: nat, now: int, c: nat)
    requires Sound(w.s, w.clock) && OnTime(w.s, w.clock) && Punctual(w, Event(Fire(t), now))
    requires ItsTimer(w.s, Fire(t), c) && Live(w.s, c) && Ticking(Next(w, Event(Fire(t), now)).s, c)
    ensures RearmsLeft(w.s, c) == 1 + RearmsLeft(Next(w, Event(Fire(t), now)).s, c)
  {
    assert Mine(w.s, t) && Timed(w.s, w.s.chans[c].id, w.clock);
    FireExact(w, t, now);
  }

  lemma OthersLeaveAlone(w: World, e: Event, c: nat)
    requires Sound(w.s, w.clock) && Allowed(w, e)
    requires Ticking(w.s, c) && !Touches(w.s, e.op, c) && !ItsTimer(w.s, e.op, c)
    ensures var r := Next(w, e).s;
      && c < |r.chans| && r.chans[c] == w.s.chans[c]
      && (r.chans[c].timer.value in r.pending ==>
            r.pending[r.chans[c].timer.value] == w.s.pending[w.s.chans[c].timer.value])
  {
    var s, r := w.s, Next(w, e).s;
    assert Timed(s, s.chans[c].id, w.clock);
    match e.op
    case Fire(t) =>
      if t in s.pending {
        assert Mine(s, t) && Live(s, s.keys[s.pending[t].id]);
      }
    case _ =>
  }

  lemma OneEvent(w: World, e: Event, c: nat)
    requires Sound(w.s, w.clock) && OnTime(w.s, w.clock) && Punctual(w, e) && !Touches(w.s, e.op, c)
    requires Ticking(w.s, c) && Ticking(Next(w, e).s, c)
    ensures RearmsLeft(w.s, c) == RearmsLeft(Next(w, e).s, c) + if ItsTimer(w.s, e.op, c) then 1 else 0
  {
    if ItsTimer(w.s, e.op, c) {
      RearmCounts(w, e.op.timer, e.now, c);
    } else {
      OthersLeaveAlone(w, e, c);
    }
  }

  /**
   A channel left alone is re-armed a fixed number of times: over any stretch of a punctual
   run its timer fires exactly as often as the re-arms still to come have become fewer.
   */
  lemma {:induction false} Countdown(w: World, events: seq<Event>, c: nat)
    requires Sound(w.s, w.clock) && OnTime(w.s, w.clock) && PunctualRun(w, events) && Quiet(w, events, c)
    ensures Ticking(w.s, c) && RearmsLeft(w.s, c) == Rearms(w, events, c) + RearmsLeft(Run(w, events).s, c)
  {
    if events != [] {
      var earlier := events[..|events| - 1];
      Countdown(w, earlier, c);
      PunctualKeeps(w, earlier);
      OneEvent(Run(w, earlier), events[|events| - 1], c);
    }
  }
}
