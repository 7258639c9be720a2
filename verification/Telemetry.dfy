// The telemetry hub: events on a bus, a heartbeat counter, and the ready snapshot it remembers and
// repeats for late clients. The client's ring buffer is a bounded FIFO over the bus.
module Telemetry {
  import opened Basics
  import opened Adapter
  import opened Power

  // What clients are shown of a radio; frequencies in micro-MHz.
  datatype View = View(status: string, powerDbm: Option<int>, frequency: Option<int>)

  datatype Item = Item(id: string, model: string, view: View)

  datatype Snapshot = Snapshot(activeRadioId: Option<string>, radios: seq<Item>)

  datatype Event =
    | Ready(snapshot: Snapshot)
    | State(radioId: string, view: View, channelIndex: Option<int>)
    | ChannelChanged(radioId: string, frequency: int, index: int)
    | PowerChanged(radioId: string, powerDbm: Option<int>)
    | Heartbeat

  // common::to_string on a radio status.
  function StatusText(s: Status): string {
    match s
    case Offline => "offline"
    case Discovering => "discovering"
    case Ready => "ready"
    case Busy => "busy"
    case Recovering => "recovering"
  }

  function NormalizeStatus(status: string): string {
    if status == "ready" || status == "discovering" || status == "busy" then "online"
    else if status == "recovering" then "recovering"
    else "offline"
  }

  function PowerDbmJson(w: Watts): Option<int> {
    match w
    case NotPositive => None
    case Dbm(level) => Some(Round(level))
  }

  function PositiveOnly(n: int): Option<int> {
    if n > 0 then Some(n) else None
  }

  const REEMIT_PERIOD: nat := 12
  const TICK_MODULUS: nat := 0x1_0000_0000_0000_0000

  datatype Hub = Hub(ticks: nat, lastReady: Option<Snapshot>, stopped: bool, log: seq<Event>)

  // What drives the hub: the heartbeat timer, a command's event, a ready announcement.
  datatype Input = Tick | Publish(e: Event) | Announce(snapshot: Snapshot)

  function HubStep(h: Hub, i: Input): Hub {
    match i
    case Publish(e) => h.(log := h.log + [e])
    case Announce(s) => h.(lastReady := Some(s), log := h.log + [Event.Ready(s)])
    case Tick =>
      if h.stopped then h
      else
        var t := (h.ticks + 1) % TICK_MODULUS;
        h.(ticks := t,
           log := h.log + [Heartbeat] +
                  (if t % REEMIT_PERIOD == 0 && h.lastReady.Some? then [Event.Ready(h.lastReady.value)] else []))
  }

  class TelemetryHub {
    var heartbeatTicks: nat
    var lastReadyPayload: Option<Snapshot>
    var heartbeatStopped: bool
    var bus: seq<Event>

    constructor ()
      ensures Value() == Hub(0, None, false, [])
    {
      heartbeatTicks, lastReadyPayload, heartbeatStopped, bus := 0, None, false, [];
    }

    ghost function Value(): Hub
      reads this
    {
      Hub(heartbeatTicks, lastReadyPayload, heartbeatStopped, bus)
    }

    // The heartbeat timer's handler.
    method OnHeartbeat()
      modifies this
      ensures Value() == HubStep(old(Value()), Tick)
    {
      if heartbeatStopped {
        return;
      }
      bus := bus + [Heartbeat];
      heartbeatTicks := (heartbeatTicks + 1) % TICK_MODULUS;
      if heartbeatTicks % REEMIT_PERIOD == 0 {
        var snap := lastReadyPayload;
        if snap.Some? {
          bus := bus + [Event.Ready(snap.value)];
        }
      }
    }

    method Stop()
      modifies this
      ensures Value() == old(Value()).(stopped := true)
    {
      heartbeatStopped := true;
    }

    method PublishReady(snapshot: Snapshot)
      modifies this
      ensures Value() == HubStep(old(Value()), Announce(snapshot))
    {
      lastReadyPayload := Some(snapshot);
      bus := bus + [Event.Ready(snapshot)];
    }

    method PublishRadioState(radioId: string, status: string, channelIndex: int, powerWatts: Watts, frequency: int)
      modifies this
      ensures Value() == HubStep(old(Value()), Publish(
        State(radioId, View(NormalizeStatus(status), PowerDbmJson(powerWatts), PositiveOnly(frequency)),
              PositiveOnly(channelIndex))))
    {
      var index := if channelIndex > 0 then Some(channelIndex) else None;
      var mhz := if frequency > 0 then Some(frequency) else None;
      bus := bus + [State(radioId, View(NormalizeStatus(status), PowerDbmJson(powerWatts), mhz), index)];
    }

    method PublishChannelChanged(radioId: string, channelIndex: int, frequency: int)
      modifies this
      ensures Value() == HubStep(old(Value()), Publish(ChannelChanged(radioId, frequency, channelIndex)))
    {
      bus := bus + [ChannelChanged(radioId, frequency, channelIndex)];
    }

    method PublishPowerChanged(radioId: string, watts: Watts)
      modifies this
      ensures Value() == HubStep(old(Value()), Publish(PowerChanged(radioId, PowerDbmJson(watts))))
    {
      bus := bus + [PowerChanged(radioId, PowerDbmJson(watts))];
    }
  }

  // ---- late clients always find a ready event ----

  function HubRun(h: Hub, inputs: seq<Input>): Hub {
    if inputs == [] then h else HubStep(HubRun(h, inputs[..|inputs| - 1]), inputs[|inputs| - 1])
  }

  function TickCount(inputs: seq<Input>): nat {
    if inputs == [] then 0
    else TickCount(inputs[..|inputs| - 1]) + (if inputs[|inputs| - 1].Tick? then 1 else 0)
  }

  // How many heartbeats until the counter is a multiple of the period again. The counter's modulus
  // is not a multiple of the period: the turn after the last multiple below it is shorter.
  function Remaining(ticks: nat): (n: nat)
    requires ticks < TICK_MODULUS
    ensures 1 <= n <= REEMIT_PERIOD
  {
    if ticks >= TICK_MODULUS - 4 then TICK_MODULUS - ticks else REEMIT_PERIOD - ticks % REEMIT_PERIOD
  }

  lemma RemainingStep(ticks: nat)
    requires ticks < TICK_MODULUS
    ensures var t := (ticks + 1) % TICK_MODULUS;
            if t % REEMIT_PERIOD == 0 then Remaining(ticks) == 1 else Remaining(t) == Remaining(ticks) - 1
  {
  }

  predicate ReadySince(log: seq<Event>, from: nat) {
    exists i :: from <= i < |log| && log[i].Ready?
  }

  // Once a snapshot is remembered, any stretch with twelve heartbeats contains a ready event, even
  // where the 64-bit counter wraps around.
  lemma TwelveHeartbeats(h: Hub, inputs: seq<Input>)
    requires h.ticks < TICK_MODULUS && h.lastReady.Some? && !h.stopped && TickCount(inputs) >= REEMIT_PERIOD
    ensures ReadySince(HubRun(h, inputs).log, |h.log|)
  {
    CountingDown(h, inputs);
  }

  lemma {:induction false} CountingDown(h: Hub, inputs: seq<Input>)
    requires h.ticks < TICK_MODULUS && h.lastReady.Some? && !h.stopped
    ensures var h1 := HubRun(h, inputs);
            && h1.ticks < TICK_MODULUS && h1.lastReady.Some? && !h1.stopped && h.log <= h1.log
            && (ReadySince(h1.log, |h.log|) || Remaining(h1.ticks) == Remaining(h.ticks) - TickCount(inputs))
  {
    if inputs != [] {
      var n := |inputs| - 1;
      CountingDown(h, inputs[..n]);
      CountingStep(|h.log|, HubRun(h, inputs[..n]), inputs[n]);
    }
  }

  lemma CountingStep(from: nat, h: Hub, i: Input)
    requires h.ticks < TICK_MODULUS && h.lastReady.Some? && !h.stopped && from <= |h.log|
    ensures var h1 := HubStep(h, i);
            && h1.ticks < TICK_MODULUS && h1.lastReady.Some? && !h1.stopped && h.log <= h1.log
            && (ReadySince(h.log, from) ==> ReadySince(h1.log, from))
            && (ReadySince(h1.log, from) || Remaining(h1.ticks) == Remaining(h.ticks) - (if i.Tick? then 1 else 0))
  {
    hide Remaining;
    var h1 := HubStep(h, i);
    RemainingStep(h.ticks);
    if k :| from <= k < |h.log| && h.log[k].Ready? {
      assert h1.log[k].Ready?;
    }
    if h1.log[|h1.log| - 1].Ready? {
      assert ReadySince(h1.log, from);
    }
  }

  // ---- which snapshot is repeated ----

  // The hub remembers s, and every ready event from position from on carries it.
  predicate Remembers(h: Hub, from: nat, s: Snapshot) {
    h.lastReady == Some(s) && forall i | from <= i < |h.log| && h.log[i].Ready? :: h.log[i] == Event.Ready(s)
  }

  predicate Ordinary(i: Input) {
    i.Publish? ==> !i.e.Heartbeat? && !i.e.Ready?
  }

  // Heartbeats and the events of commands, but no new announcement.
  predicate Unannounced(inputs: seq<Input>) {
    forall i | i in inputs :: Ordinary(i) && !i.Announce?
  }

  lemma RemembersStep(h: Hub, from: nat, s: Snapshot, i: Input)
    requires Remembers(h, from, s) && Ordinary(i) && !i.Announce?
    ensures Remembers(HubStep(h, i), from, s)
  {
  }

  // Until the next announcement every ready event repeats the snapshot announced last.
  lemma {:induction false} RepeatsAnnounced(h: Hub, s: Snapshot, inputs: seq<Input>)
    requires Unannounced(inputs)
    ensures Remembers(HubRun(HubStep(h, Announce(s)), inputs), |h.log|, s)
  {
    hide HubStep, Remembers, Ordinary;
    if inputs == [] {
      AnnounceRemembered(h, s);
    } else {
      var n := |inputs| - 1;
      assert inputs[n] in inputs;
      RepeatsAnnounced(h, s, inputs[..n]);
      RemembersStep(HubRun(HubStep(h, Announce(s)), inputs[..n]), |h.log|, s, inputs[n]);
    }
  }

  lemma AnnounceRemembered(h: Hub, s: Snapshot)
    ensures Remembers(HubStep(h, Announce(s)), |h.log|, s)
  {
  }

  // So after an announcement any twelve heartbeats bring the announced snapshot again.
  lemma TwelveHeartbeatsRepeat(h: Hub, s: Snapshot, before: seq<Input>, inputs: seq<Input>)
    requires h.ticks < TICK_MODULUS && !h.stopped && Unannounced(before) && Unannounced(inputs)
    requires TickCount(inputs) >= REEMIT_PERIOD
    ensures var h1 := HubRun(HubStep(h, Announce(s)), before);
            var log := HubRun(h1, inputs).log;
            |h1.log| <= |log| && exists i :: |h1.log| <= i < |log| && log[i] == Event.Ready(s)
  {
    hide HubRun, TickCount, HubStep;
    var h0 := HubStep(h, Announce(s));
    AnnounceReady(h, s);
    CountingDown(h0, before);
    var h1 := HubRun(h0, before);
    CountingDown(h1, inputs);
    TwelveHeartbeats(h1, inputs);
    HubRunAppend(h0, before, inputs);
    RepeatsAnnounced(h, s, before + inputs);
    var i :| |h1.log| <= i < |HubRun(h1, inputs).log| && HubRun(h1, inputs).log[i].Ready?;
    assert |h.log| <= |h0.log| <= |h1.log| <= i;
  }

  lemma AnnounceReady(h: Hub, s: Snapshot)
    ensures var h0 := HubStep(h, Announce(s));
            h0.ticks == h.ticks && h0.stopped == h.stopped && h0.lastReady == Some(s) && |h.log| < |h0.log|
  {
  }

  // A stopped hub falls silent.
  lemma {:induction false} StoppedSilent(h: Hub, n: nat)
    requires h.stopped
    ensures HubRun(h, Copies(Tick, n)) == h
  {
    hide HubRun;
    if n == 0 {
      HubRunStep(h, [], Tick);
    } else {
      StoppedSilent(h, n - 1);
      HubRunStep(h, Copies(Tick, n - 1), Tick);
    }
  }

  // Events after the last ready: all of them, the heartbeats, and the rest.
  function Tail(log: seq<Event>): nat {
    if log == [] || log[|log| - 1].Ready? then 0 else 1 + Tail(log[..|log| - 1])
  }

  function TailBeats(log: seq<Event>): nat {
    if log == [] || log[|log| - 1].Ready? then 0
    else TailBeats(log[..|log| - 1]) + (if log[|log| - 1].Heartbeat? then 1 else 0)
  }

  function TailOthers(log: seq<Event>): nat {
    if log == [] || log[|log| - 1].Ready? then 0
    else TailOthers(log[..|log| - 1]) + (if log[|log| - 1].Heartbeat? then 0 else 1)
  }

  // The newest events a bounded FIFO still holds.
  function Buffered(log: seq<Event>, capacity: nat): seq<Event> {
    if |log| <= capacity then log else log[|log| - capacity..]
  }

  predicate HoldsReady(events: seq<Event>) {
    exists i :: 0 <= i < |events| && events[i].Ready?
  }

  lemma {:induction false} TailSplit(log: seq<Event>)
    ensures Tail(log) == TailBeats(log) + TailOthers(log)
  {
    if log != [] && !log[|log| - 1].Ready? {
      TailSplit(log[..|log| - 1]);
    }
  }

  lemma {:induction false} ShortTailBuffered(log: seq<Event>, capacity: nat)
    requires HoldsReady(log) && Tail(log) < capacity
    ensures HoldsReady(Buffered(log, capacity))
  {
    LastReadyPosition(log);
    var k := |log| - 1 - Tail(log);
    var events := Buffered(log, capacity);
    assert events[|events| - 1 - Tail(log)] == log[k];
  }

  lemma {:induction false} LastReadyPosition(log: seq<Event>)
    requires HoldsReady(log)
    ensures Tail(log) < |log| && log[|log| - 1 - Tail(log)].Ready?
    ensures forall i | |log| - 1 - Tail(log) < i < |log| :: !log[i].Ready?
  {
    var n := |log| - 1;
    if !log[n].Ready? {
      var i :| 0 <= i < |log| && log[i].Ready?;
      assert log[..n][i].Ready?;
      LastReadyPosition(log[..n]);
    }
  }

  // Since the last ready there have been at most twelve heartbeats less those still to come.
  predicate OnSchedule(h: Hub) {
    && h.ticks < TICK_MODULUS && h.lastReady.Some? && !h.stopped && HoldsReady(h.log)
    && TailBeats(h.log) + Remaining(h.ticks) <= REEMIT_PERIOD
  }

  lemma AppendEvent(log: seq<Event>, e: Event)
    ensures TailBeats(log + [e]) == if e.Ready? then 0 else TailBeats(log) + (if e.Heartbeat? then 1 else 0)
    ensures TailOthers(log + [e])
         == if e.Ready? then 0 else TailOthers(log) + (if e.Heartbeat? then 0 else 1)
    ensures HoldsReady(log) || e.Ready? ==> HoldsReady(log + [e])
  {
    assert (log + [e])[..|log|] == log;
    assert (log + [e])[|log|] == e;
    if i :| 0 <= i < |log| && log[i].Ready? {
      assert (log + [e])[i].Ready?;
    }
  }

  lemma StepOnSchedule(h: Hub, i: Input)
    requires OnSchedule(h) && Ordinary(i)
    ensures OnSchedule(HubStep(h, i))
  {
    hide Remaining, TailBeats, HoldsReady;
    match i
    case Publish(e) => AppendEvent(h.log, e);
    case Announce(s) => AppendEvent(h.log, Event.Ready(s));
    case Tick =>
      RemainingStep(h.ticks);
      AppendEvent(h.log, Heartbeat);
      AppendEvent(h.log + [Heartbeat], Event.Ready(h.lastReady.value));
      assert h.log + [Heartbeat] + [] == h.log + [Heartbeat];
  }

  // Announcing a snapshot starts the schedule.
  lemma AnnounceOnSchedule(h: Hub, s: Snapshot)
    requires h.ticks < TICK_MODULUS && !h.stopped
    ensures OnSchedule(HubStep(h, Announce(s)))
  {
    hide Remaining, TailBeats, HoldsReady;
    AppendEvent(h.log, Event.Ready(s));
  }

  lemma {:induction false} RunOnSchedule(h: Hub, inputs: seq<Input>)
    requires OnSchedule(h) && forall i | i in inputs :: Ordinary(i)
    ensures OnSchedule(HubRun(h, inputs))
  {
    hide OnSchedule, HubStep;
    if inputs != [] {
      var n := |inputs| - 1;
      RunOnSchedule(h, inputs[..n]);
      StepOnSchedule(HubRun(h, inputs[..n]), inputs[n]);
    }
  }

  // When at most k other events separate two ready events, a buffer of 13 + k events never loses
  // sight of one: not after any run, and not between a heartbeat and the ready that follows it.
  lemma ReadyAlwaysBuffered(h: Hub, inputs: seq<Input>, k: nat)
    requires OnSchedule(h) && forall i | i in inputs :: Ordinary(i)
    requires TailOthers(HubRun(h, inputs).log) <= k
    ensures HoldsReady(Buffered(HubRun(h, inputs).log, 13 + k))
    ensures HoldsReady(Buffered(HubRun(h, inputs).log + [Heartbeat], 13 + k))
  {
    hide HubRun, Buffered, HoldsReady, TailBeats, TailOthers, Tail;
    RunOnSchedule(h, inputs);
    var log := HubRun(h, inputs).log;
    TailSplit(log);
    ShortTailBuffered(log, 13 + k);
    AppendEvent(log, Heartbeat);
    TailSplit(log + [Heartbeat]);
    ShortTailBuffered(log + [Heartbeat], 13 + k);
  }

  predicate LastReadyAt(events: seq<Event>, i: nat) {
    i < |events| && events[i].Ready? && forall j | i < j < |events| :: !events[j].Ready?
  }

  // And what the buffer holds is the snapshot announced.
  lemma BufferHoldsAnnounced(h: Hub, s: Snapshot, inputs: seq<Input>, k: nat)
    requires h.ticks < TICK_MODULUS && !h.stopped && Unannounced(inputs)
    requires TailOthers(HubRun(HubStep(h, Announce(s)), inputs).log) <= k
    ensures var events := Buffered(HubRun(HubStep(h, Announce(s)), inputs).log, 13 + k);
            exists i :: 0 <= i < |events| && LastReadyAt(events, i) && events[i] == Event.Ready(s)
  {
    hide HubRun, TailOthers, TailBeats, Tail, Remaining;
    var h0 := HubStep(h, Announce(s));
    AnnounceOnSchedule(h, s);
    RunOnSchedule(h0, inputs);
    RepeatsAnnounced(h, s, inputs);
    CountingDown(h0, inputs);
    var log := HubRun(h0, inputs).log;
    assert log[|h.log|].Ready?;
    TailSplit(log);
    LastReadyPosition(log);
    LastBuffered(log, 13 + k, |log| - 1 - Tail(log));
  }

  // A last ready event among the newest ones is in the buffer, and is the last one there.
  lemma LastBuffered(log: seq<Event>, capacity: nat, last: nat)
    requires LastReadyAt(log, last) && |log| - last <= capacity
    ensures var events := Buffered(log, capacity);
            var i := last - (|log| - |events|);
            i >= 0 && LastReadyAt(events, i) && events[i] == log[last]
  {
    SuffixLast(log, if |log| <= capacity then 0 else |log| - capacity, last);
    assert log[0..] == log;
  }

  lemma SuffixLast(log: seq<Event>, cut: nat, last: nat)
    requires LastReadyAt(log, last) && cut <= last
    ensures LastReadyAt(log[cut..], last - cut) && log[cut..][last - cut] == log[last]
  {
  }

  function Copies<V>(x: V, n: nat): (s: seq<V>)
    ensures |s| == n && forall i | 0 <= i < n :: s[i] == x
  {
    if n == 0 then [] else Copies(x, n - 1) + [x]
  }

  lemma {:induction false} HubRunAppend(h: Hub, a: seq<Input>, b: seq<Input>)
    ensures HubRun(h, a + b) == HubRun(HubRun(h, a), b)
  {
    hide HubStep;
    if b == [] {
      assert a + b == a;
    } else {
      assert (a + b)[..|a| + |b| - 1] == a + b[..|b| - 1];
      HubRunAppend(h, a, b[..|b| - 1]);
    }
  }

  lemma HubRunStep(h: Hub, inputs: seq<Input>, i: Input)
    ensures HubRun(h, []) == h && HubRun(h, inputs + [i]) == HubStep(HubRun(h, inputs), i)
  {
    hide HubStep;
    assert (inputs + [i])[..|inputs|] == inputs;
  }

  lemma {:induction false} OthersRun(h: Hub, e: Event, k: nat)
    requires !e.Ready? && !e.Heartbeat?
    ensures HubRun(h, Copies(Publish(e), k)) == h.(log := h.log + Copies(e, k))
    ensures TailOthers(h.log + Copies(e, k)) == TailOthers(h.log) + k
  {
    hide HubRun, TailOthers, TailBeats, HoldsReady;
    if k == 0 {
      HubRunStep(h, [], Tick);
      assert h.log + [] == h.log;
    } else {
      OthersRun(h, e, k - 1);
      HubRunStep(h, Copies(Publish(e), k - 1), Publish(e));
      assert h.log + Copies(e, k - 1) + [e] == h.log + Copies(e, k);
      AppendEvent(h.log + Copies(e, k - 1), e);
    }
  }

  lemma {:induction false} TicksRun(h: Hub, n: nat)
    requires h.ticks == 0 && !h.stopped && n < REEMIT_PERIOD
    ensures HubRun(h, Copies(Tick, n)) == h.(ticks := n, log := h.log + Copies(Heartbeat, n))
    ensures TailOthers(h.log + Copies(Heartbeat, n)) == TailOthers(h.log)
  {
    hide HubRun, TailOthers, TailBeats, HoldsReady;
    if n == 0 {
      HubRunStep(h, [], Tick);
      assert h.log + [] == h.log;
    } else {
      TicksRun(h, n - 1);
      HubRunStep(h, Copies(Tick, n - 1), Tick);
      assert h.log + Copies(Heartbeat, n - 1) + [Heartbeat] == h.log + Copies(Heartbeat, n);
      AppendEvent(h.log + Copies(Heartbeat, n - 1), Heartbeat);
    }
  }

  // The bound is tight for every k: with one place less, k other events and twelve heartbeats push the
  // ready event out before it is repeated.
  lemma BoundIsTight(h: Hub, s: Snapshot, e: Event, k: nat)
    requires h == Hub(0, Some(s), false, [Event.Ready(s)]) && !e.Ready? && !e.Heartbeat?
    ensures var inputs := Copies(Publish(e), k) + Copies(Tick, 11);
            && OnSchedule(h) && (forall i | i in inputs :: Ordinary(i))
            && TailOthers(HubRun(h, inputs).log) == k
            && !HoldsReady(Buffered(HubRun(h, inputs).log + [Heartbeat], 12 + k))
  {
    hide HubRun, TailOthers, Copies;
    assert h.log[0].Ready?;
    assert TailBeats(h.log) == 0;
    NoOthers(h.log);
    var before := HubRun(h, Copies(Publish(e), k));
    OthersRun(h, e, k);
    TicksRun(before, 11);
    HubRunAppend(h, Copies(Publish(e), k), Copies(Tick, 11));
    var log := h.log + Copies(e, k) + Copies(Heartbeat, 11) + [Heartbeat];
    assert Buffered(log, 12 + k) == Copies(e, k) + Copies(Heartbeat, 11) + [Heartbeat];
  }

  lemma NoOthers(log: seq<Event>)
    requires log != [] && log[|log| - 1].Ready?
    ensures TailOthers(log) == 0
  {
  }
}
