/**
 Keep-alive channels. A channel is stored under its id and, if it has one, under its
 alias; a chain of timers finds out when it has been inactive for too long.
 */
module ChannelManager {
  import opened Collections

  /** The longest delay a timer takes. */
  const MAX_DELAY := 0x7FFF_FFFF

  /** An empty alias is none. */
  datatype Chan = Chan(
    id: string,        // what it was registered under
    initial: int,      // the timeout it was registered with
    alias: string,
    timeout: int,
    lastActivity: int,
    timer: Option<nat>)

  /** A pending timer will check the channel stored under `id`. */
  datatype Timer = Timer(due: int, id: string)

  /** Keys lead to channels, which are never forgotten here; `expired` lists the timeouts announced. */
  datatype State = State(
    keys: map<string, nat>, chans: seq<Chan>, pending: map<nat, Timer>, nextTimer: nat, expired: seq<string>)

  datatype Op =
    | Register(id: string, timeout: int, alias: string)
    | Unregister(id: string)
    | Keepalive(id: string)
    | UpdateTimeout(id: string, timeout: int)
    | Fire(timer: nat)

  const EMPTY := State(map[], [], map[], 0, [])

  /** Whatever is stored under the key, if anything. */
  predicate Stored(s: State, key: string) {
    key in s.keys && s.keys[key] < |s.chans|
  }

  function At(s: State, key: string): (r: Chan)
    requires Stored(s, key)
  {
    s.chans[s.keys[key]]
  }

  function Update(s: State, key: string, c: Chan): (r: State)
    requires Stored(s, key)
  {
    s.(chans := s.chans[s.keys[key] := c])
  }

  function UnregisterStep(s: State, id: string): (r: State) {
    if !Stored(s, id) then s
    else
      var c := At(s, id);
      s.(keys := s.keys - {id} - (if c.alias != "" then {c.alias} else {}),
         pending := if c.timer.Some? then s.pending - {c.timer.value} else s.pending)
  }

  /** When a channel that is still active will be checked again. */
  function CheckTime(c: Chan, now: int): (r: int) {
    now + Min(c.timeout - (now - c.lastActivity), MAX_DELAY)
  }

  /** The channel with a new timer. */
  function Armed(s: State, id: string, due: int): (r: State)
    requires Stored(s, id)
  {
    Update(s, id, At(s, id).(timer := Some(s.nextTimer))).(
      pending := s.pending[s.nextTimer := Timer(due, id)],
      nextTimer := s.nextTimer + 1)
  }

  function TimedOut(s: State, id: string): (r: State) {
    UnregisterStep(s, id).(expired := s.expired + [id])
  }

  function CheckStep(s: State, id: string, now: int): (r: State) {
    if !Stored(s, id) then s
    else if now - At(s, id).lastActivity >= At(s, id).timeout then TimedOut(s, id)
    else if At(s, id).timeout > 1 then Armed(s, id, CheckTime(At(s, id), now))
    else s
  }

  /** The channel just made, stored under its keys but not yet checked. */
  function Added(s: State, id: string, timeout: int, alias: string, now: int): (r: State) {
    s.(keys := (if alias != "" then s.keys[alias := |s.chans|] else s.keys)[id := |s.chans|],
       chans := s.chans + [Chan(id, timeout, alias, timeout, now, None)])
  }

  /** Fails, changing nothing, if the alias is taken. */
  function RegisterStep(s: State, id: string, timeout: int, alias: string, now: int): (r: (State, bool)) {
    if alias != "" && alias in s.keys then (s, false)
    else (CheckStep(Added(s, id, timeout, alias, now), id, now), true)
  }

  function FireStep(s: State, timer: nat, now: int): (r: State) {
    if timer !in s.pending then s
    else CheckStep(s.(pending := s.pending - {timer}), s.pending[timer].id, now)
  }

  function Step(s: State, op: Op, now: int): (r: State) {
    match op
    case Register(id, timeout, alias) => RegisterStep(s, id, timeout, alias, now).0
    case Unregister(id) => UnregisterStep(s, id)
    case Keepalive(id) => if Stored(s, id) then Update(s, id, At(s, id).(lastActivity := now)) else s
    case UpdateTimeout(id, timeout) =>
      if Stored(s, id) then Update(s, id, At(s, id).(timeout := At(s, id).timeout + timeout)) else s
    case Fire(timer) => FireStep(s, timer, now)
  }

  // ---------- the classes ----------

  class Channel {
    ghost const number: nat
    ghost const id: string
    ghost const initial: int
    const alias: string
    var timeout: int
    var lastActivity: int
    var timer: Option<nat>

    constructor (ghost number: nat, ghost id: string, timeout: int, alias: string, lastActivity: int)
      ensures this.number == number && Value() == Chan(id, timeout, alias, timeout, lastActivity, None)
    {
      this.number, this.id, this.initial := number, id, timeout;
      this.timeout, this.alias, this.lastActivity, this.timer := timeout, alias, lastActivity, None;
    }

    ghost function Value(): (r: Chan)
      reads this
    {
      Chan(id, initial, alias, timeout, lastActivity, timer)
    }
  }

  class ChannelManager {
    var channels: map<string, Channel>
    var pending: map<nat, Timer>
    var nextTimer: nat
    var expired: seq<string>

    ghost var objects: seq<Channel>  // every channel made so far
    ghost var repr: set<Channel>
    ghost var state: State

    ghost predicate Mirrors()
      reads `objects, `repr, `state, repr
    {
      && |objects| == |state.chans|
      && (forall i :: 0 <= i < |objects| ==> objects[i] in repr && objects[i].number == i)
      && (forall i {:trigger state.chans[i]} :: 0 <= i < |objects| ==> objects[i].Value() == state.chans[i])
    }

    ghost predicate Valid()
      reads this, repr
    {
      && Mirrors()
      && channels.Keys == state.keys.Keys
      && (forall k :: k in channels ==> state.keys[k] < |objects| && channels[k] == objects[state.keys[k]])
      && pending == state.pending && nextTimer == state.nextTimer && expired == state.expired
    }

    constructor ()
      ensures Valid() && fresh(repr) && state == EMPTY
    {
      channels, pending, nextTimer, expired := map[], map[], 0, [];
      objects, repr, state := [], {}, EMPTY;
    }

    method Register(id: string, timeout: int, alias: string, now: int) returns (ok: bool)
      requires Valid()
      modifies this, repr
      ensures Valid() && fresh(repr - old(repr))
      ensures (state, ok) == RegisterStep(old(state), id, timeout, alias, now)
    {
      if alias != "" && alias in channels {
        return false;
      }
      Add(id, timeout, alias, now);
      Check(id, now);
      return true;
    }

    /** Stores a new channel under its id and its alias, the id winning where they agree. */
    method Add(id: string, timeout: int, alias: string, now: int)
      requires Valid()
      modifies `channels, `objects, `repr, `state
      ensures Valid() && fresh(repr - old(repr))
      ensures state == Added(old(state), id, timeout, alias, now)
    {
      var channel := new Channel(|objects|, id, timeout, alias, now);
      if alias != "" {
        channels := channels[alias := channel];
      }
      channels := channels[id := channel];
      objects, repr := objects + [channel], repr + {channel};
      state := Added(state, id, timeout, alias, now);
    }

    method Unregister(id: string)
      requires Valid()
      modifies `channels, `pending, `state
      ensures Valid() && state == UnregisterStep(old(state), id)
    {
      if id in channels {
        var channel := channels[id];
        channels := channels - {id};
        if channel.timer.Some? {
          pending := pending - {channel.timer.value};
        }
        if channel.alias != "" {
          channels := channels - {channel.alias};
        }
        state := UnregisterStep(state, id);
      }
    }

    method Keepalive(id: string, now: int)
      requires Valid()
      modifies `state, repr
      ensures Valid() && state == Step(old(state), Op.Keepalive(id), now)
    {
      if id in channels {
        channels[id].lastActivity := now;
        state := Step(state, Op.Keepalive(id), now);
      }
    }

    method UpdateTimeout(id: string, timeout: int)
      requires Valid()
      modifies `state, repr
      ensures Valid() && forall now :: state == Step(old(state), Op.UpdateTimeout(id, timeout), now)
    {
      if id in channels {
        channels[id].timeout := channels[id].timeout + timeout;
        state := Step(state, Op.UpdateTimeout(id, timeout), 0);
      }
    }

    method GetTimeout(id: string) returns (timeout: Option<int>)
      requires Valid()
      ensures timeout == if Stored(state, id) then Some(At(state, id).timeout) else None
    {
      timeout := if id in channels then Some(channels[id].timeout) else None;
    }

    method Check(id: string, now: int)
      requires Valid()
      modifies `channels, `pending, `nextTimer, `expired, `state, repr
      ensures Valid() && state == CheckStep(old(state), id, now)
    {
      if id !in channels {
        return;
      }
      var channel := channels[id];
      var inactivePeriod := now - channel.lastActivity;
      if inactivePeriod >= channel.timeout {
        Unregister(id);
        expired := expired + [id];
        state := state.(expired := expired);
      } else if channel.timeout > 1 {
        SetTimer(channel, id, now + Min(channel.timeout - inactivePeriod, MAX_DELAY));
      }
    }

    method SetTimer(channel: Channel, id: string, due: int)
      requires Valid() && id in channels && channels[id] == channel
      modifies `pending, `nextTimer, `state, channel`timer
      ensures Valid() && state == Armed(old(state), id, due)
    {
      pending := pending[nextTimer := Timer(due, id)];
      channel.timer := Some(nextTimer);
      nextTimer := nextTimer + 1;
      state := Armed(state, id, due);
    }

    /** A pending timer's callback runs. */
    method Fire(timer: nat, now: int)
      requires Valid()
      modifies `channels, `pending, `nextTimer, `expired, `state, repr
      ensures Valid() && state == FireStep(old(state), timer, now)
    {
      if timer in pending {
        var id := pending[timer].id;
        pending := pending - {timer};
        state := state.(pending := pending);
        Check(id, now);
      }
    }
  }
}
