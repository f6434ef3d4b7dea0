/**
 What a channel's state says about its past: when it was last active and how long it may be
 inactive follow from the calls that reached it, under its id or its alias. And which keys
 every call adds, removes and keeps.
 */
module ChannelHistory {
  import opened Collections
  import opened ChannelManager
  import opened ChannelRuns

  // ---------- activity and timeout ----------

  predicate Names(key: string, id: string, alias: string) {
    key == id || (alias != "" && key == alias)
  }

  /** The time of the last keepalive under one of the names since call j, or of that call. */
  function LastActive(events: seq<Event>, j: nat, id: string, alias: string): (time: int)
    requires j < |events|
  {
    var e := events[|events| - 1];
    if |events| == j + 1 then e.now
    else if e.op.Keepalive? && Names(e.op.id, id, alias) then e.now
    else LastActive(events[..|events| - 1], j, id, alias)
  }

  /** The timeout given in call j and all extensions since, under one of the names. */
  function TotalTimeout(events: seq<Event>, j: nat, id: string, alias: string): (timeout: int)
    requires j < |events| && events[j].op.Register?
  {
    var e := events[|events| - 1];
    if |events| == j + 1 then e.op.timeout
    else
      TotalTimeout(events[..|events| - 1], j, id, alias) +
      if e.op.UpdateTimeout? && Names(e.op.id, id, alias) then e.op.timeout else 0
  }

  /** When a channel that call j made is to expire, judged by the calls alone. */
  function Expiry(events: seq<Event>, j: nat, id: string, alias: string): (time: int)
    requires j < |events| && events[j].op.Register?
  {
    LastActive(events, j, id, alias) + TotalTimeout(events, j, id, alias)
  }

  /** Call j made channel c, and its activity and timeout are those of the calls. */
  ghost predicate MadeBy(start: int, events: seq<Event>, c: nat, j: nat) {
    var s := Run(World(EMPTY, start), events).s;
    && c < |s.chans| && j < |events|
    && events[j].op == Register(s.chans[c].id, s.chans[c].initial, s.chans[c].alias)
    && |Run(World(EMPTY, start), events[..j]).s.chans| == c
    && s.chans[c].lastActivity == LastActive(events, j, s.chans[c].id, s.chans[c].alias)
    && s.chans[c].timeout == TotalTimeout(events, j, s.chans[c].id, s.chans[c].alias)
  }

  /** What one event does to the activity and the timeout of a channel. */
  ghost predicate Follows(a: Chan, b: Chan, e: Event) {
    && b.id == a.id && b.alias == a.alias && b.initial == a.initial
    && b.lastActivity == (if e.op.Keepalive? && Names(e.op.id, a.id, a.alias) then e.now else a.lastActivity)
    && b.timeout == a.timeout + (if e.op.UpdateTimeout? && Names(e.op.id, a.id, a.alias) then e.op.timeout else 0)
  }

  /** A key leads to a live channel iff it is one of its names. */
  lemma Reaches(s: State, clock: int, k: string, c: nat)
    requires Sound(s, clock) && Live(s, c)
    ensures Names(k, s.chans[c].id, s.chans[c].alias) <==> k in s.keys && s.keys[k] == c
  {
    if k in s.keys {
      assert Live(s, s.keys[k]) && Named(s, k);
    }
  }

  lemma StaysLive(w: World, e: Event, c: nat)
    requires c < |w.s.chans| && Live(Next(w, e).s, c)
    requires Next(w, e).s.chans[c].id == w.s.chans[c].id && Next(w, e).s.chans[c].alias == w.s.chans[c].alias
    ensures Live(w.s, c)
  {
  }

  lemma SameNames(w: World, e: Event, c: nat)
    requires c < |w.s.chans|
    ensures var r := Next(w, e).s;
      c < |r.chans| && r.chans[c].id == w.s.chans[c].id && r.chans[c].alias == w.s.chans[c].alias
  {
  }

  lemma OldFields(w: World, e: Event, c: nat)
    requires Sound(w.s, w.clock) && Live(w.s, c) && c < |Next(w, e).s.chans|
    ensures Follows(w.s.chans[c], Next(w, e).s.chans[c], e)
  {
    match e.op
    case Keepalive(id) => Reaches(w.s, w.clock, id, c);
    case UpdateTimeout(id, _) => Reaches(w.s, w.clock, id, c);
    case _ =>
  }

  lemma NewFields(w: World, e: Event, c: nat)
    requires |w.s.chans| <= c < |Next(w, e).s.chans|
    ensures var b := Next(w, e).s.chans[c];
      && c == |w.s.chans| && e.op == Register(b.id, b.initial, b.alias)
      && b.lastActivity == e.now && b.timeout == b.initial
  {
  }

  lemma StillMadeBy(start: int, events: seq<Event>, c: nat, j: nat)
    requires events != [] && MadeBy(start, events[..|events| - 1], c, j)
    requires var n, w := |events| - 1, World(EMPTY, start);
      c < |Run(w, events).s.chans| && Follows(Run(w, events[..n]).s.chans[c], Run(w, events).s.chans[c], events[n])
    ensures MadeBy(start, events, c, j)
  {
    assert events[..|events| - 1][..j] == events[..j];
  }

  /**
   In every disciplined run a live channel's activity is the time of the last keepalive that
   reached it, or of its registration, and its timeout the registered one and all extensions.
   */
  lemma {:induction false} FromHistory(start: int, events: seq<Event>, c: nat) returns (j: nat)
    requires Disciplined(World(EMPTY, start), events) && Live(Run(World(EMPTY, start), events).s, c)
    ensures MadeBy(start, events, c, j)
  {
    var n := |events| - 1;
    var earlier, e := events[..n], events[n];
    var w := Run(World(EMPTY, start), earlier);
    AlwaysSound(start, earlier);
    if c < |w.s.chans| {
      SameNames(w, e, c);
      StaysLive(w, e, c);
      OldFields(w, e, c);
      j := FromHistory(start, earlier, c);
      StillMadeBy(start, events, c, j);
    } else {
      NewFields(w, e, c);
      j := n;
    }
  }

  // ---------- which keys there are ----------

  /** Whether a registration is answered with success. */
  predicate AliasFree(s: State, alias: string) {
    alias == "" || alias !in s.keys
  }

  /** Whether a firing timer finds its channel inactive for too long. */
  predicate Overdue(s: State, t: nat, now: int) {
    && t in s.pending && Stored(s, s.pending[t].id)
    && now >= At(s, s.pending[t].id).lastActivity + At(s, s.pending[t].id).timeout
  }

  /**
   Which keys every call adds, removes and keeps, what it announces, and when a registration
   succeeds: a new channel gets its names unless its timeout leaves it no time; unregistering
   and expiring take both names; nothing else touches a key.
   */
  lemma KeysAfter(s: State, op: Op, now: int, k: string)
    requires forall key :: key in s.keys ==> s.keys[key] < |s.chans|
    ensures op.Register? ==> (RegisterStep(s, op.id, op.timeout, op.alias, now).1 <==> AliasFree(s, op.alias))
    ensures k in Step(s, op, now).keys <==>
      match op
      case Register(id, timeout, alias) =>
        if !AliasFree(s, alias) then k in s.keys
        else if timeout <= 0 then k in s.keys && !Names(k, id, alias)
        else k in s.keys || Names(k, id, alias)
      case Unregister(id) => k in s.keys && !(id in s.keys && Names(k, id, At(s, id).alias))
      case Fire(t) =>
        k in s.keys && !(Overdue(s, t, now) && Names(k, s.pending[t].id, At(s, s.pending[t].id).alias))
      case _ => k in s.keys
    ensures k in Step(s, op, now).keys ==>
      Step(s, op, now).keys[k] ==
        if op.Register? && AliasFree(s, op.alias) && Names(k, op.id, op.alias) then |s.chans| else s.keys[k]
    ensures Step(s, op, now).expired ==
      s.expired +
        match op
        case Register(id, timeout, alias) => if AliasFree(s, alias) && timeout <= 0 then [id] else []
        case Fire(t) => if Overdue(s, t, now) then [s.pending[t].id] else []
        case _ => []
  {
    match op
    case Register(id, timeout, alias) =>
      if AliasFree(s, alias) {
        var a := Added(s, id, timeout, alias, now);
        assert At(a, id).lastActivity == now && At(a, id).alias == alias;
      }
    case _ =>
  }
}
