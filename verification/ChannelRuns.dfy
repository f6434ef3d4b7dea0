/**
 What holds of the channel manager over every run that registers under free ids,
 unregisters by id and shortens no timeout below its timer: who owns a key, and when a
 channel expires.
 */
module ChannelRuns {
  import opened Collections
  import opened ChannelManager

  datatype Event = Event(op: Op, now: int)

  /** A state together with the time of the last event. */
  datatype World = World(s: State, clock: int)

  function Next(w: World, e: Event): (r: World) {
    World(Step(w.s, e.op, e.now), e.now)
  }

  function Run(w: World, events: seq<Event>): (r: World) {
    if events == [] then w else Next(Run(w, events[..|events| - 1]), events[|events| - 1])
  }

  /**
   Ids are free, channels are unregistered by id, timeouts do not shrink more than their timers
   allow, and time does not run backwards.
   */
  predicate Allowed(w: World, e: Event) {
    && w.clock <= e.now
    && match e.op
       case Register(id, _, alias) => Free(w.s, id) || (alias != "" && alias in w.s.keys)
       case Unregister(id) => Stored(w.s, id) ==> At(w.s, id).id == id
       case UpdateTimeout(id, timeout) => timeout >= 0 || Affordable(w.s, id, timeout)
       case _ => true
  }

  predicate Disciplined(w: World, events: seq<Event>) {
    events != [] ==>
      Disciplined(w, events[..|events| - 1]) && Allowed(Run(w, events[..|events| - 1]), events[|events| - 1])
  }

  // ---------- who owns a key ----------

  /** The channel is stored under its id and, if it has one, under its alias. */
  predicate Live(s: State, c: nat) {
    && c < |s.chans|
    && s.chans[c].id in s.keys && s.keys[s.chans[c].id] == c
    && (s.chans[c].alias != "" ==> s.chans[c].alias in s.keys && s.keys[s.chans[c].alias] == c)
  }

  /** Every key leads to a live channel that goes by that name. */
  ghost predicate Owned(s: State) {
    forall k :: k in s.keys ==> Live(s, s.keys[k]) && Named(s, k)
  }

  predicate Named(s: State, k: string)
    requires Stored(s, k)
  {
    k == At(s, k).id || (At(s, k).alias != "" && k == At(s, k).alias)
  }

  function Deadline(c: Chan): (r: int) {
    c.lastActivity + c.timeout
  }

  /** A live channel's timer, unless its timeout is the infinite one, is pending and not due after the deadline. */
  predicate Timed(s: State, k: string, clock: int)
    requires Stored(s, k)
  {
    var c := At(s, k);
    && c.lastActivity <= clock
    && (c.timer.None? <==> c.initial == 1)
    && (c.timer.Some? ==>
          && c.initial > 1 && c.timeout > 1
          && c.timer.value in s.pending
          && s.pending[c.timer.value].id == c.id
          && s.pending[c.timer.value].due <= Deadline(c))
  }

  /** Every pending timer is the timer of the live channel it will check. */
  predicate Mine(s: State, t: nat)
    requires t in s.pending
  {
    && t < s.nextTimer
    && s.pending[t].id in s.keys
    && Stored(s, s.pending[t].id)
    && At(s, s.pending[t].id).timer == Some(t)
    && At(s, s.pending[t].id).id == s.pending[t].id
  }

  ghost predicate Sound(s: State, clock: int) {
    && Owned(s)
    && (forall k :: k in s.keys ==> Timed(s, k, clock))
    && (forall t :: t in s.pending ==> Mine(s, t))
  }

  lemma UnregisterKeeps(s: State, id: string, clock: int)
    requires Sound(s, clock) && Stored(s, id) && At(s, id).id == id
    ensures Sound(UnregisterStep(s, id), clock)
    ensures var c := At(s, id); UnregisterStep(s, id).keys == s.keys - {id} - (if c.alias != "" then {c.alias} else {})
  {
    var r, c := UnregisterStep(s, id), s.keys[id];
    forall k | k in r.keys
      ensures r.keys[k] != c && Live(r, r.keys[k]) && Timed(r, k, clock)
    {
      assert Live(s, s.keys[k]) && Named(s, k) && Timed(s, k, clock);
    }
    forall t | t in r.pending
      ensures Mine(r, t)
    {
      assert Mine(s, t);
    }
  }

  /** Unregistering by a mere alias strands the channel under its id: only the id will do. */
  lemma UnregisterByIdOnly(s: State, key: string, clock: int)
    requires Sound(s, clock) && Stored(s, key)
    ensures Sound(UnregisterStep(s, key), clock) <==> key == At(s, key).id
  {
    var r, c := UnregisterStep(s, key), At(s, key);
    if key == c.id {
      UnregisterKeeps(s, key, clock);
    } else {
      assert Live(s, s.keys[key]) && Named(s, key);
      assert c.id in r.keys && !Live(r, r.keys[c.id]);
    }
  }

  /** A live channel is about to be checked: its timer has just fired, or it is new. */
  ghost predicate Due(s: State, id: string, now: int) {
    && Owned(s)
    && Stored(s, id) && At(s, id).id == id && At(s, id).lastActivity <= now
    && (if At(s, id).initial > 1 then At(s, id).timeout > 1
        else At(s, id).timeout == At(s, id).initial && At(s, id).lastActivity == now && At(s, id).timer == None)
    && (At(s, id).timer.Some? ==> At(s, id).timer.value !in s.pending)
    && (forall t :: t in s.pending ==> Mine(s, t) && s.pending[t].id != id)
    && (forall k :: k in s.keys && s.keys[k] != s.keys[id] ==> Timed(s, k, now))
  }

  lemma ExpireKeeps(s: State, id: string, now: int)
    requires Due(s, id, now)
    ensures Sound(TimedOut(s, id), now)
  {
    var r := TimedOut(s, id);
    forall k | k in r.keys
      ensures Live(r, r.keys[k]) && Named(r, k) && Timed(r, k, now)
    {
      assert Live(s, s.keys[k]) && Named(s, k);
      assert Live(s, s.keys[id]) && s.keys[k] != s.keys[id];
      assert Timed(s, k, now);
    }
    forall t | t in r.pending
      ensures Mine(r, t)
    {
      assert Mine(s, t) && Live(s, s.keys[s.pending[t].id]) && Live(s, s.keys[id]);
    }
  }

  lemma ArmKeeps(s: State, id: string, now: int, due: int)
    requires Due(s, id, now) && At(s, id).initial > 1 && due <= Deadline(At(s, id))
    ensures Sound(Armed(s, id, due), now)
  {
    var r, c := Armed(s, id, due), s.keys[id];
    forall k | k in r.keys
      ensures Live(r, r.keys[k]) && Named(r, k) && Timed(r, k, now)
    {
      assert Live(s, s.keys[k]) && Named(s, k);
      if s.keys[k] != c {
        assert Timed(s, k, now);
        assert At(r, k) == At(s, k);
      }
    }
    forall t | t in r.pending
      ensures Mine(r, t)
    {
      if t in s.pending {
        assert Mine(s, t);
        assert Live(s, s.keys[s.pending[t].id]);
      }
    }
  }

  lemma UnarmedKeeps(s: State, id: string, now: int)
    requires Due(s, id, now) && At(s, id).initial == 1
    ensures Sound(s, now)
  {
    forall k | k in s.keys
      ensures Timed(s, k, now)
    {
      if s.keys[k] == s.keys[id] {
        assert At(s, k) == At(s, id);
      }
    }
  }

  lemma CheckKeeps(s: State, id: string, now: int)
    requires Due(s, id, now)
    ensures Sound(CheckStep(s, id, now), now)
  {
    var c, r := At(s, id), CheckStep(s, id, now);
    if now - c.lastActivity >= c.timeout {
      ExpireKeeps(s, id, now);
      assert r == TimedOut(s, id);
    } else if c.timeout > 1 {
      ArmKeeps(s, id, now, CheckTime(c, now));
      assert r == Armed(s, id, CheckTime(c, now));
    } else {
      UnarmedKeeps(s, id, now);
      assert r == s;
    }
  }

  /** Nothing is stored under the id, or a channel of that id only, which no timer will ever check. */
  predicate Free(s: State, id: string) {
    Stored(s, id) ==>
      && At(s, id).id == id
      && (At(s, id).alias == "" || At(s, id).alias == id)
      && At(s, id).timer == None
  }

  lemma AddedOwned(s: State, id: string, timeout: int, alias: string, clock: int, now: int)
    requires Sound(s, clock) && clock <= now && Free(s, id) && (alias == "" || alias !in s.keys)
    ensures var a := Added(s, id, timeout, alias, now);
      Owned(a) && forall k :: k in a.keys && a.keys[k] != |s.chans| ==> Timed(a, k, now)
  {
    var a := Added(s, id, timeout, alias, now);
    forall k | k in a.keys
      ensures Live(a, a.keys[k]) && Named(a, k)
      ensures a.keys[k] != |s.chans| ==> Timed(a, k, now)
    {
      if k in s.keys && a.keys[k] != |s.chans| {
        assert Live(s, s.keys[k]) && Named(s, k) && Timed(s, k, clock);
      }
    }
  }

  lemma AddedDue(s: State, id: string, timeout: int, alias: string, clock: int, now: int)
    requires Sound(s, clock) && clock <= now && Free(s, id) && (alias == "" || alias !in s.keys)
    ensures Due(Added(s, id, timeout, alias, now), id, now)
  {
    var a := Added(s, id, timeout, alias, now);
    AddedOwned(s, id, timeout, alias, clock, now);
    forall t | t in a.pending
      ensures Mine(a, t) && a.pending[t].id != id
    {
      assert Mine(s, t);
    }
  }

  /** An overwritten channel leaves its other name behind. */
  lemma NameLeft(s: State, id: string, timeout: int, alias: string, now: int, name: string)
    requires Stored(s, id) && Named(s, id) && (alias == "" || alias !in s.keys)
    requires name != id && name in s.keys && s.keys[name] == s.keys[id]
    requires name == At(s, id).id || (At(s, id).alias == name && name != "")
    ensures !Owned(RegisterStep(s, id, timeout, alias, now).0)
  {
    var r := RegisterStep(s, id, timeout, alias, now).0;
    assert name in r.keys && r.keys[name] == s.keys[id];
    assert !Live(r, r.keys[name]);
  }

  /** Or its timer. */
  lemma TimerLeft(s: State, id: string, timeout: int, alias: string, now: int, t: nat)
    requires Stored(s, id) && (alias == "" || alias !in s.keys)
    requires t in s.pending && t < s.nextTimer && s.pending[t].id == id
    ensures var r := RegisterStep(s, id, timeout, alias, now).0; t in r.pending && !Mine(r, t)
  {
  }

  lemma OverwritingBreaks(s: State, id: string, timeout: int, alias: string, clock: int, now: int)
    requires Sound(s, clock) && clock <= now && !Free(s, id) && (alias == "" || alias !in s.keys)
    ensures !Sound(RegisterStep(s, id, timeout, alias, now).0, now)
  {
    var c := At(s, id);
    assert Live(s, s.keys[id]) && Named(s, id) && Timed(s, id, clock);
    if c.id != id {
      NameLeft(s, id, timeout, alias, now, c.id);
    } else if c.timer.Some? {
      assert Mine(s, c.timer.value);
      TimerLeft(s, id, timeout, alias, now, c.timer.value);
    } else {
      NameLeft(s, id, timeout, alias, now, c.alias);
    }
  }

  /** Registering keeps the manager sound iff it fails or the id is free. */
  lemma RegisterSoundIff(s: State, id: string, timeout: int, alias: string, clock: int, now: int)
    requires Sound(s, clock) && clock <= now
    ensures Sound(RegisterStep(s, id, timeout, alias, now).0, now) <==>
            (alias != "" && alias in s.keys) || Free(s, id)
  {
    if alias != "" && alias in s.keys {
      Later(s, clock, now);
    } else if Free(s, id) {
      AddedDue(s, id, timeout, alias, clock, now);
      CheckKeeps(Added(s, id, timeout, alias, now), id, now);
    } else {
      OverwritingBreaks(s, id, timeout, alias, clock, now);
    }
  }

  lemma Later(s: State, clock: int, now: int)
    requires Sound(s, clock) && clock <= now
    ensures Sound(s, now)
  {
    forall k | k in s.keys
      ensures Timed(s, k, now)
    {
      assert Timed(s, k, clock);
    }
  }

  /** A new timeout or activity harms no channel if its timer, if it has one, is still not due too late. */
  lemma UpdateKeeps(s: State, key: string, c: Chan, clock: int, now: int)
    requires Sound(s, clock) && clock <= now && Stored(s, key)
    requires c == At(s, key).(timeout := c.timeout, lastActivity := c.lastActivity)
    requires c.lastActivity <= now
    requires c.timer.Some? && c.timer.value in s.pending ==>
               c.timeout > 1 && s.pending[c.timer.value].due <= Deadline(c)
    ensures Sound(Update(s, key, c), now)
  {
    var r := Update(s, key, c);
    forall k | k in r.keys
      ensures Live(r, r.keys[k]) && Named(r, k) && Timed(r, k, now)
    {
      assert Live(s, s.keys[k]) && Named(s, k) && Timed(s, k, clock);
      assert At(r, k) == if s.keys[k] == s.keys[key] then c else At(s, k);
    }
    forall t | t in r.pending
      ensures Mine(r, t)
    {
      assert Mine(s, t);
    }
  }

  lemma FireDue(s: State, t: nat, clock: int, now: int)
    requires Sound(s, clock) && clock <= now && t in s.pending
    ensures Due(s.(pending := s.pending - {t}), s.pending[t].id, now)
  {
    var m, id := s.(pending := s.pending - {t}), s.pending[t].id;
    assert Mine(s, t) && Timed(s, id, clock);
    forall k | k in m.keys
      ensures Live(m, m.keys[k]) && Named(m, k)
      ensures s.keys[k] != s.keys[id] ==> Timed(m, k, now)
    {
      assert Live(s, s.keys[k]) && Named(s, k) && Timed(s, k, clock);
    }
    forall u | u in m.pending
      ensures Mine(m, u) && m.pending[u].id != id
    {
      assert Mine(s, u);
    }
  }

  lemma FireKeeps(s: State, t: nat, clock: int, now: int)
    requires Sound(s, clock) && clock <= now
    ensures Sound(FireStep(s, t, now), now)
  {
    if t in s.pending {
      FireDue(s, t, clock, now);
      CheckKeeps(s.(pending := s.pending - {t}), s.pending[t].id, now);
    } else {
      Later(s, clock, now);
    }
  }

  lemma UnregisterAnyKeeps(s: State, id: string, clock: int, now: int)
    requires Sound(s, clock) && clock <= now && (Stored(s, id) ==> At(s, id).id == id)
    ensures Sound(UnregisterStep(s, id), now)
  {
    Later(s, clock, now);
    if Stored(s, id) {
      UnregisterKeeps(s, id, now);
    }
  }

  lemma KeepaliveKeeps(s: State, id: string, clock: int, now: int)
    requires Sound(s, clock) && clock <= now
    ensures Sound(Step(s, Keepalive(id), now), now)
  {
    if Stored(s, id) {
      assert Timed(s, id, clock);
      UpdateKeeps(s, id, At(s, id).(lastActivity := now), clock, now);
    } else {
      Later(s, clock, now);
    }
  }

  /** The channel has no timer, or its new timeout is finite and no shorter than its timer waits. */
  predicate Affordable(s: State, id: string, extra: int) {
    Stored(s, id) && At(s, id).timer.Some? && At(s, id).timer.value in s.pending ==>
      && At(s, id).timeout + extra > 1
      && s.pending[At(s, id).timer.value].due <= Deadline(At(s, id)) + extra
  }

  /** Changing a timeout, also to a shorter one, keeps the manager sound iff it is affordable. */
  lemma ExtendSoundIff(s: State, id: string, extra: int, clock: int, now: int)
    requires Sound(s, clock) && clock <= now
    ensures Sound(Step(s, UpdateTimeout(id, extra), now), now) <==> Affordable(s, id, extra)
    ensures extra >= 0 ==> Affordable(s, id, extra)
  {
    if Stored(s, id) {
      assert Timed(s, id, clock);
      var c := At(s, id).(timeout := At(s, id).timeout + extra);
      var r := Update(s, id, c);
      assert Step(s, UpdateTimeout(id, extra), now) == r && At(r, id) == c;
      if Affordable(s, id, extra) {
        UpdateKeeps(s, id, c, clock, now);
      } else {
        assert !Timed(r, id, now);
      }
    } else {
      Later(s, clock, now);
    }
  }

  /**
   What a timer left behind does: a channel with a timeout is registered again under its id,
   now with the infinite timeout, and the old timer makes the new channel expire.
   */
  lemma StaleTimerExpires(id: string, timeout: int, start: int, again: int)
    requires 1 < timeout <= MAX_DELAY && start <= again < start + timeout
    ensures var s := Run(World(EMPTY, start), [
        Event(Register(id, timeout, ""), start), Event(Register(id, 1, ""), again),
        Event(Fire(0), start + timeout)]).s;
      s.expired == [id] && id !in s.keys && |s.chans| == 2 && s.chans[1].initial == 1
  {
    var e1, e2 := Event(Register(id, timeout, ""), start), Event(Register(id, 1, ""), again);
    var e3 := Event(Fire(0), start + timeout);
    assert [e1, e2, e3][..2] == [e1, e2] && [e1, e2][..1] == [e1] && [e1][..0] == [];
    var w := World(EMPTY, start);
    assert Run(w, []) == w;
    var s1 := Run(w, [e1]).s;
    assert s1 == Next(w, e1).s;
    assert s1.pending == map[0 := Timer(start + timeout, id)] && s1.keys == map[id := 0] && s1.nextTimer == 1;
    var s2 := Run(w, [e1, e2]).s;
    assert s2.pending == s1.pending && s2.keys == map[id := 1] && s2.expired == [];
    assert s2.chans[1] == Chan(id, 1, "", 1, again, None);
  }

  lemma StepKeeps(w: World, e: Event)
    requires Sound(w.s, w.clock) && Allowed(w, e)
    ensures Sound(Next(w, e).s, e.now)
  {
    match e.op
    case Register(id, timeout, alias) => RegisterSoundIff(w.s, id, timeout, alias, w.clock, e.now);
    case Unregister(id) => UnregisterAnyKeeps(w.s, id, w.clock, e.now);
    case Keepalive(id) => KeepaliveKeeps(w.s, id, w.clock, e.now);
    case UpdateTimeout(id, timeout) => ExtendSoundIff(w.s, id, timeout, w.clock, e.now);
    case Fire(t) => FireKeeps(w.s, t, w.clock, e.now);
  }

  /**
   In every such run each key leads to a live channel that goes by it, so that a channel's id
   and alias come and go together; and no channel's timer is due after its deadline.
   */
  lemma {:induction false} AlwaysSound(start: int, events: seq<Event>)
    requires Disciplined(World(EMPTY, start), events)
    ensures var w := Run(World(EMPTY, start), events);
      Sound(w.s, w.clock)
  {
    if events != [] {
      var earlier := events[..|events| - 1];
      AlwaysSound(start, earlier);
      StepKeeps(Run(World(EMPTY, start), earlier), events[|events| - 1]);
    }
  }
}
