// The adapter and the radio as one timed system: what holds at every operation boundary of every
// run, whatever the delays, losses and other clients allowed by each theorem.
module Protocol {
  import opened Basics
  import opened ChannelTable
  import opened Decimal
  import opened Json
  import opened Power
  import opened Radio
  import opened Adapter
  import opened Text

  // ---- runs ----

  datatype Op = OpConnect | OpPower(watts: Watts) | OpChannel(index: int, frequency: int) | OpRefresh

  datatype Step = Operate(op: Op, env: Env) | Outside(call: Arrival)

  // now is the clock at the last boundary; radioNow is when the radio last did something, at or
  // before now, so that outside calls may still arrive between the two.
  datatype World = World(link: Link, now: nat, radioNow: nat)

  function Perform(l: Link, op: Op, e: Env): Done {
    match op
    case OpConnect => Connected(l, e)
    case OpPower(w) => PowerSet(l, w, e)
    case OpChannel(i, f) => ChannelSet(l, i, f, e)
    case OpRefresh => Refreshed(l, e)
  }

  function Apply(w: World, s: Step): World {
    match s
    case Operate(op, e) => World(Perform(w.link, op, e).link, e.done, e.third.applied)
    case Outside(c) =>
      World(w.link.(radio := Serve(w.link.radio, c.m, c.params, c.checked, c.applied).radio),
            if c.applied > w.now then c.applied else w.now, c.applied)
  }

  function Run(w: World, steps: seq<Step>): World {
    if steps == [] then w else Apply(Run(w, steps[..|steps| - 1]), steps[|steps| - 1])
  }

  lemma NoSteps(w: World, steps: seq<Step>)
    requires steps == []
    ensures Run(w, steps[..0]) == w
  {
  }

  lemma LastStep(w: World, steps: seq<Step>)
    requires steps != []
    ensures Run(w, steps) == Apply(Run(w, steps[..|steps| - 1]), steps[|steps| - 1])
  {
  }

  // ---- time only moves forward ----

  predicate TimedCalls(calls: seq<Arrival>, from: nat, upto: nat) {
    if calls == [] then from <= upto
    else
      var c := calls[|calls| - 1];
      TimedCalls(calls[..|calls| - 1], from, c.checked) && c.checked <= c.applied <= upto
  }

  predicate TimedTrip(t: Trip, from: nat) {
    TimedCalls(t.others, from, t.checked) && t.checked <= t.applied
  }

  predicate TimedEnv(e: Env) {
    && TimedTrip(e.first, e.gate) && TimedTrip(e.second, e.first.applied) && TimedTrip(e.third, e.second.applied)
    && e.third.applied <= e.done
  }

  predicate Legal(w: World, s: Step) {
    match s
    case Operate(_, e) => w.now <= e.gate && TimedEnv(e)
    case Outside(c) => w.radioNow <= c.checked <= c.applied
  }

  predicate LegalRun(w: World, steps: seq<Step>) {
    steps != [] ==>
      var n := |steps| - 1;
      LegalRun(w, steps[..n]) && Legal(Run(w, steps[..n]), steps[n])
  }

  lemma TimedCallsOrder(calls: seq<Arrival>, from: nat, upto: nat)
    requires TimedCalls(calls, from, upto)
    ensures from <= upto
  {
  }

  lemma TimedEnvOrder(e: Env)
    requires TimedEnv(e)
    ensures e.gate <= e.first.checked <= e.first.applied <= e.second.checked <= e.second.applied
    ensures e.second.applied <= e.third.checked <= e.third.applied <= e.done
  {
    TimedCallsOrder(e.first.others, e.gate, e.first.checked);
    TimedCallsOrder(e.second.others, e.first.applied, e.second.checked);
    TimedCallsOrder(e.third.others, e.second.applied, e.third.checked);
  }

  // ---- soft-boot safety ----

  // When the radio is in blackout the adapter's gate stays closed at least as long.
  predicate Safe(w: World) {
    w.link.radio.blackout <= w.now || w.link.radio.blackout <= w.link.adapter.deadline
  }

  predicate Config(l: Link) {
    l.radio.softBoot <= l.adapter.recovery && l.radio.powerPause == 0
  }

  predicate Disruptive(m: Method, params: seq<Json>) {
    m.RadioReset? || (m.Freq? && params != [])
  }

  predicate CalmCalls(calls: seq<Arrival>) {
    forall c | c in calls :: !Disruptive(c.m, c.params)
  }

  // No frequency change or reset from outside, and no lost reply to the adapter's own frequency
  // change. Every other message may be lost.
  predicate Quiet(s: Step) {
    match s
    case Operate(op, e) =>
      && CalmCalls(e.first.others) && CalmCalls(e.second.others) && CalmCalls(e.third.others)
      && (op.OpChannel? ==> e.first.fate.Delivered? || e.first.fate.RequestLost?)
    case Outside(c) => !Disruptive(c.m, c.params)
  }

  // The radio's settings that no request changes.
  predicate SameDevice(r: Radio, s: Radio) {
    r.softBoot == s.softBoot && r.powerPause == s.powerPause && r.resetTime == s.resetTime && r.profiles == s.profiles
  }

  lemma ServeCalm(r: Radio, m: Method, params: seq<Json>, checked: nat, applied: nat)
    ensures SameDevice(Serve(r, m, params, checked, applied).radio, r)
    ensures r.powerPause == 0 && !Disruptive(m, params) ==>
              Serve(r, m, params, checked, applied).radio.blackout <= r.blackout
    ensures checked >= r.blackout ==>
              var body := Serve(r, m, params, checked, applied).body;
              body.Error? ==> body.code != -32000
    ensures !Serve(r, m, params, checked, applied).body.Error? ==> checked >= r.blackout
  {
    hide ValidFrequency, AsInt, Dump, IntText;
  }

  lemma {:induction false} InterfereCalm(r: Radio, calls: seq<Arrival>)
    ensures SameDevice(Interfere(r, calls), r)
    ensures r.powerPause == 0 && CalmCalls(calls) ==> Interfere(r, calls).blackout <= r.blackout
  {
    hide Serve;
    if calls != [] {
      var c := calls[|calls| - 1];
      var before := Interfere(r, calls[..|calls| - 1]);
      InterfereCalm(r, calls[..|calls| - 1]);
      ServeCalm(before, c.m, c.params, c.checked, c.applied);
    }
  }

  lemma ExchangeCalm(r: Radio, m: Method, params: seq<Json>, t: Trip)
    requires r.powerPause == 0 && CalmCalls(t.others)
    ensures var p := Exchange(r, m, params, t);
            && SameDevice(p.radio, r)
            && (!Disruptive(m, params) ==> p.radio.blackout <= r.blackout)
            && (!Disruptive(m, params) && Failure(p.answer).None? ==> p.radio.blackout <= t.checked)
            && (r.blackout <= t.checked && t.fate.Delivered? ==> Failure(p.answer) != Some(Unavailable))
            && (t.fate.RequestLost? ==> p.radio.blackout <= r.blackout)
  {
    hide Serve;
    InterfereCalm(r, t.others);
    ServeCalm(Interfere(r, t.others), m, params, t.checked, t.applied);
  }

  // The one disruptive exchange of the adapter: a frequency change.
  lemma FrequencyExchange(r: Radio, text: string, t: Trip)
    requires r.powerPause == 0 && CalmCalls(t.others)
    ensures var p := Exchange(r, Freq, Texts([text]), t);
            p.radio.blackout <= r.blackout || p.radio.blackout == t.applied + r.softBoot
    ensures var p := Exchange(r, Freq, Texts([text]), t);
            t.fate.Delivered? && Failure(p.answer).Some? ==> p.radio.blackout <= r.blackout
  {
    hide ValidFrequency;
    InterfereCalm(r, t.others);
  }

  lemma ConnectSafe(w: World, e: Env)
    requires Safe(w) && Config(w.link) && Legal(w, Operate(OpConnect, e)) && Quiet(Operate(OpConnect, e))
    ensures var w1 := Apply(w, Operate(OpConnect, e)); Safe(w1) && Config(w1.link)
  {
    hide Exchange, Failure, TimedEnv, TableOf, ParseBoolean;
    TimedEnvOrder(e);
    var r := w.link.radio;
    var p := Exchange(r, SupportedProfiles, [], e.first);
    ExchangeCalm(r, SupportedProfiles, [], e.first);
    ExchangeCalm(p.radio, EnableMaxPower, [], e.second);
  }

  lemma PowerSafe(w: World, watts: Watts, e: Env)
    requires Safe(w) && Config(w.link) && Legal(w, Operate(OpPower(watts), e)) && Quiet(Operate(OpPower(watts), e))
    ensures var w1 := Apply(w, Operate(OpPower(watts), e)); Safe(w1) && Config(w1.link)
  {
    hide Exchange, Failure, TimedEnv, ParseBoolean, Round, IntText;
    TimedEnvOrder(e);
    var r := w.link.radio;
    var p := Exchange(r, EnableMaxPower, [], e.first);
    ExchangeCalm(r, EnableMaxPower, [], e.first);
    if watts.Dbm? {
      ExchangeCalm(p.radio, PowerDbm, Texts([IntText(Round(watts.level))]), e.second);
    }
  }

  lemma ChannelSafe(w: World, i: int, f: int, e: Env)
    requires Safe(w) && Config(w.link) && Legal(w, Operate(OpChannel(i, f), e)) && Quiet(Operate(OpChannel(i, f), e))
    ensures var w1 := Apply(w, Operate(OpChannel(i, f), e)); Safe(w1) && Config(w1.link)
  {
    hide Exchange, TimedEnv, ChannelOf, CompactText;
    TimedEnvOrder(e);
    var r := w.link.radio;
    ExchangeCalm(r, Freq, Texts([CompactText(f)]), e.first);
    FrequencyExchange(r, CompactText(f), e.first);
    LostRequestFails(r, Freq, Texts([CompactText(f)]), e.first);
  }

  lemma LostRequestFails(r: Radio, m: Method, params: seq<Json>, t: Trip)
    ensures !t.fate.Delivered? ==> Failure(Exchange(r, m, params, t).answer).Some?
  {
  }

  lemma RefreshSafe(w: World, e: Env)
    requires Safe(w) && Config(w.link) && Legal(w, Operate(OpRefresh, e)) && Quiet(Operate(OpRefresh, e))
    ensures var w1 := Apply(w, Operate(OpRefresh, e)); Safe(w1) && Config(w1.link)
  {
    hide Exchange, Failure, TimedEnv, ParseBoolean, ParsePower, ParseFrequency, ChannelOf;
    TimedEnvOrder(e);
    var r := w.link.radio;
    var p := Exchange(r, PowerDbm, [], e.first);
    ExchangeCalm(r, PowerDbm, [], e.first);
    var q := Exchange(p.radio, Freq, [], e.second);
    ExchangeCalm(p.radio, Freq, [], e.second);
    ExchangeCalm(q.radio, EnableMaxPower, [], e.third);
  }

  lemma StepSafe(w: World, s: Step)
    requires Safe(w) && Config(w.link) && Legal(w, s) && Quiet(s)
    ensures Safe(Apply(w, s)) && Config(Apply(w, s).link)
  {
    match s
    case Operate(OpConnect, e) => ConnectSafe(w, e);
    case Operate(OpPower(watts), e) => PowerSafe(w, watts, e);
    case Operate(OpChannel(i, f), e) => ChannelSafe(w, i, f, e);
    case Operate(OpRefresh, e) => RefreshSafe(w, e);
    case Outside(c) =>
      hide Serve;
      ServeCalm(w.link.radio, c.m, c.params, c.checked, c.applied);
  }

  // Soft-boot safety over every run, with any delays, any losses but that of a frequency reply, and
  // any outside calls but frequency changes and resets, at every boundary and inside operations.
  lemma {:induction false} SoftBootSafety(w: World, steps: seq<Step>)
    requires Safe(w) && Config(w.link) && LegalRun(w, steps) && forall s | s in steps :: Quiet(s)
    ensures Safe(Run(w, steps)) && Config(Run(w, steps).link)
  {
    hide Apply, Legal, Quiet, Safe, Config;
    if steps != [] {
      var n := |steps| - 1;
      SoftBootSafety(w, steps[..n]);
      StepSafe(Run(w, steps[..n]), steps[n]);
    }
  }

  // Past the gate of a safe world the radio is up, so an operation all of whose messages arrive is
  // never answered UNAVAILABLE.
  lemma PastGateAvailable(w: World, op: Op, e: Env)
    requires Safe(w) && Config(w.link) && !op.OpConnect? && Legal(w, Operate(op, e)) && Quiet(Operate(op, e))
    requires !WindowActive(w.link.adapter, e.gate)
    ensures w.link.radio.blackout <= e.gate
    ensures e.first.fate.Delivered? && e.second.fate.Delivered? ==> Perform(w.link, op, e).code != Unavailable
  {
    hide Exchange, Failure, TimedEnv, ParseBoolean, ParsePower, ParseFrequency, ChannelOf, CompactText, Round, IntText;
    TimedEnvOrder(e);
    var r := w.link.radio;
    match op
    case OpPower(watts) =>
      ExchangeCalm(r, EnableMaxPower, [], e.first);
      if watts.Dbm? {
        var r1 := Exchange(r, EnableMaxPower, [], e.first).radio;
        ExchangeCalm(r1, PowerDbm, Texts([IntText(Round(watts.level))]), e.second);
      }
    case OpChannel(i, f) =>
      ExchangeCalm(r, Freq, Texts([CompactText(f)]), e.first);
    case OpRefresh =>
      ExchangeCalm(r, PowerDbm, [], e.first);
      ExchangeCalm(Exchange(r, PowerDbm, [], e.first).radio, Freq, [], e.second);
  }

  // ---- what every run keeps of the adapter alone ----

  predicate Sound(a: Adapter, now: nat) {
    && a.table != [] && StrictlyIncreasing(a.table)
    && (a.channel.Some? ==> 1 <= a.channel.value <= |a.table|)
    && (a.power.Some? ==> a.power.value.Dbm?)
    && (a.deadline > now ==> a.status.Recovering?)
    && (a.status.Offline? || a.status.Ready? || a.status.Recovering?)
  }

  predicate KeepsSound(a: Adapter, a1: Adapter, now: nat) {
    Sound(a1, now) && a1.table == a.table && (!a.status.Offline? ==> !a1.status.Offline?)
  }

  lemma PowerSound(l: Link, watts: Watts, e: Env, now: nat)
    requires Sound(l.adapter, now) && now <= e.gate <= e.done
    ensures KeepsSound(l.adapter, PowerSet(l, watts, e).link.adapter, e.done)
  {
    hide Exchange, Failure, ParseBoolean, Round, IntText, StrictlyIncreasing;
  }

  lemma ChannelSound(l: Link, i: int, f: int, e: Env, now: nat)
    requires Sound(l.adapter, now) && now <= e.gate <= e.done
    ensures KeepsSound(l.adapter, ChannelSet(l, i, f, e).link.adapter, e.done)
  {
    hide Exchange, Failure, CompactText, StrictlyIncreasing, ChannelOf;
  }

  lemma RefreshSound(l: Link, e: Env, now: nat)
    requires Sound(l.adapter, now) && now <= e.gate <= e.done
    ensures KeepsSound(l.adapter, Refreshed(l, e).link.adapter, e.done)
  {
    hide Exchange, Failure, ParseBoolean, ParsePower, ParseFrequency, StrictlyIncreasing, ChannelOf;
  }

  // Messages may be lost and other clients may do anything: an operation other than connect keeps
  // the table, a channel index inside it and the status rules, and never goes back to Offline.
  lemma StepSound(w: World, s: Step)
    requires Sound(w.link.adapter, w.now) && Legal(w, s) && (s.Operate? ==> !s.op.OpConnect?)
    ensures KeepsSound(w.link.adapter, Apply(w, s).link.adapter, Apply(w, s).now)
  {
    hide Sound, PowerSet, ChannelSet, Refreshed, TimedEnv, Serve;
    match s
    case Operate(OpPower(watts), e) => TimedEnvOrder(e); PowerSound(w.link, watts, e, w.now);
    case Operate(OpChannel(i, f), e) => TimedEnvOrder(e); ChannelSound(w.link, i, f, e, w.now);
    case Operate(OpRefresh, e) => TimedEnvOrder(e); RefreshSound(w.link, e, w.now);
    case Outside(c) => SoundLater(w.link.adapter, w.now, Apply(w, s).now);
  }

  lemma SoundLater(a: Adapter, now: nat, later: nat)
    requires Sound(a, now) && now <= later
    ensures Sound(a, later)
  {
  }

  predicate NoConnect(steps: seq<Step>) {
    forall s | s in steps :: s.Operate? ==> !s.op.OpConnect?
  }

  lemma {:induction false} RunSound(w: World, steps: seq<Step>)
    requires Sound(w.link.adapter, w.now) && LegalRun(w, steps) && NoConnect(steps)
    ensures Sound(Run(w, steps).link.adapter, Run(w, steps).now)
    ensures Run(w, steps).link.adapter.table == w.link.adapter.table
    ensures !w.link.adapter.status.Offline? ==> !Run(w, steps).link.adapter.status.Offline?
  {
    hide Apply, Legal, Sound;
    if steps != [] {
      var n := |steps| - 1;
      RunSound(w, steps[..n]);
      assert steps[n] in steps;
      StepSound(Run(w, steps[..n]), steps[n]);
    }
  }

  // A fresh adapter, and a fresh adapter after its first connect, are sound.
  lemma BootSound(range: Option<(real, real)>, recovery: nat, r: Radio, e: Env)
    ensures Sound(NewAdapter(range, recovery), 0)
    ensures Sound(Connected(Link(NewAdapter(range, recovery), r), e).link.adapter, e.done)
  {
    hide Exchange, ParseBoolean, Table;
    var a := NewAdapter(range, recovery);
    var p := Exchange(r, SupportedProfiles, [], e.first);
    if p.answer.Reply? && p.answer.body.Result? && p.answer.body.value.Arr? {
      TableIsUnion(p.answer.body.value.items);
    }
  }

  // connect replaces the table and keeps the channel index. Run later, a successful connect keeps
  // the adapter sound exactly when the old index still fits the new table.
  lemma ReconnectExact(l: Link, now: nat, e: Env)
    requires Sound(l.adapter, now) && now <= e.done
    ensures var d := Connected(l, e);
            d.code == Ok ==>
              (Sound(d.link.adapter, e.done)
               <==> (l.adapter.channel.None? || l.adapter.channel.value <= |d.link.adapter.table|))
  {
    hide Exchange, ParseBoolean, Table;
    var p := Exchange(l.radio, SupportedProfiles, [], e.first);
    if p.answer.Reply? && p.answer.body.Result? && p.answer.body.value.Arr? {
      TableIsUnion(p.answer.body.value.items);
    }
  }

  // ---- the configured range ----

  predicate Configured(a: Adapter, low: real, high: real, recovery: nat) {
    a.minPower == low && a.maxPower == high && a.recovery == recovery
  }

  lemma StepConfigured(w: World, s: Step, low: real, high: real, recovery: nat)
    requires Configured(w.link.adapter, low, high, recovery)
    ensures Configured(Apply(w, s).link.adapter, low, high, recovery)
  {
    hide Exchange, Failure, ParseBoolean, ParsePower, ParseFrequency, ChannelOf, TableOf, CompactText, Round, Serve;
  }

  // Whatever runs after its construction, connects and losses included, an adapter keeps the range it was
  // configured with, 0 to 39 dBm without one, and its recovery time: it never sets a power outside the
  // range, and a channel change that succeeds closes the gate for that time.
  lemma {:induction false} RunConfigured(range: Option<(real, real)>, recovery: nat, w: World, steps: seq<Step>)
    requires w.link.adapter == NewAdapter(range, recovery)
    ensures var low := if range.Some? then range.value.0 else 0.0;
            var high := if range.Some? then range.value.1 else 39.0;
            Configured(Run(w, steps).link.adapter, low, high, recovery)
  {
    hide Apply;
    var low := if range.Some? then range.value.0 else 0.0;
    var high := if range.Some? then range.value.1 else 39.0;
    if steps != [] {
      var n := |steps| - 1;
      RunConfigured(range, recovery, w, steps[..n]);
      StepConfigured(Run(w, steps[..n]), steps[n], low, high, recovery);
    }
  }

  lemma ConfiguredPower(l: Link, low: real, high: real, recovery: nat, watts: Watts, i: int, f: int, e: Env)
    requires Configured(l.adapter, low, high, recovery)
    ensures PowerSet(l, watts, e).code == Ok ==> watts.Dbm? && low <= watts.level <= high
    ensures ChannelSet(l, i, f, e).code == Ok ==> ChannelSet(l, i, f, e).link.adapter.deadline == e.done + recovery
  {
    hide Exchange, ParseBoolean, ChannelOf, CompactText, Round, IntText;
  }
}
