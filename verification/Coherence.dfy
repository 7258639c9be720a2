// When the adapter is the radio's only client: exactly when its cache tells the truth about the radio,
// whatever is lost or late, and that what is set is what is read back.
module Coherence {
  import opened Basics
  import opened ChannelTable
  import opened Decimal
  import opened Power
  import opened Radio
  import opened Adapter
  import opened Protocol
  import opened Text

  // ---- exchanges without other clients ----

  // The adapter is the radio's only client.
  predicate Alone(e: Env) {
    e.first.others == [] && e.second.others == [] && e.third.others == []
  }

  // The radio is up and request and reply arrive.
  predicate Arrives(r: Radio, t: Trip) {
    t.others == [] && t.fate.Delivered? && r.blackout <= t.checked
  }

  lemma ReadFlag(r: Radio, a: Adapter, t: Trip)
    requires Arrives(r, t)
    ensures var p := Exchange(r, EnableMaxPower, [], t);
            && p.radio == r && Failure(p.answer).None?
            && NoteFlag(a, p.answer) == a.(enableMaxPower := Some(r.maxPower), manual := !r.maxPower)
  {
    assert Lower("0") == "0" && Lower("1") == "1";
  }

  lemma ReadPower(r: Radio, t: Trip)
    requires Arrives(r, t)
    ensures var p := Exchange(r, PowerDbm, [], t);
            p.radio == r && p.answer.Reply? && Failure(p.answer).None? && ParsePower(p.answer.body) == Some(r.power)
  {
    hide IntText, ParseInt;
    IntTextRoundTrip(r.power);
  }

  lemma ReadFrequency(r: Radio, t: Trip)
    requires Arrives(r, t)
    ensures var p := Exchange(r, Freq, [], t);
            && p.radio == r && p.answer.Reply? && Failure(p.answer).None?
            && ParseFrequency(p.answer.body) == ParseDecimal(r.freq)
  {
    hide ParseDecimal;
  }

  // The radio serves the request, but the adapter does not learn its answer.
  predicate Unanswered(r: Radio, t: Trip) {
    t.others == [] && (t.fate.ReplyLost? || t.fate.ReplyGarbled?) && r.blackout <= t.checked
  }

  // How an exchange that is not answered fails.
  function Unheard(t: Trip): Code {
    if t.fate.ReplyGarbled? then InternalError else Unavailable
  }

  // A read changes nothing at the radio; one that is not answered tells the adapter nothing.
  lemma ReadOnly(r: Radio, a: Adapter, m: Method, t: Trip)
    requires t.others == [] && (m.Freq? || m.PowerDbm? || m.EnableMaxPower? || m.SupportedProfiles?)
    ensures var p := Exchange(r, m, [], t);
            && p.radio == r
            && (!Arrives(r, t) ==> Failure(p.answer) == Some(Unheard(t)) && NoteFlag(a, p.answer) == a)
  {
  }

  lemma WritePower(r: Radio, k: int, t: Trip)
    requires t.others == [] && 0 <= k <= 39
    ensures var p := Exchange(r, PowerDbm, Texts([IntText(k)]), t);
            && p.radio.power == (if (Arrives(r, t) || Unanswered(r, t)) && !r.maxPower then k else r.power)
            && p.radio == r.(power := p.radio.power, blackout := p.radio.blackout)
            && (r.powerPause == 0 ==> p.radio.blackout == r.blackout)
            && Failure(p.answer) == if Arrives(r, t) then None else Some(Unheard(t))
  {
    hide IntText, ParseInt;
    IntTextRoundTrip(k);
  }

  lemma WriteFrequency(r: Radio, f: int, t: Trip)
    requires t.others == []
    ensures var p := Exchange(r, Freq, Texts([CompactText(f)]), t);
            && p.radio == (if Accepted(r.profiles, f) && (Arrives(r, t) || Unanswered(r, t))
                           then r.(freq := CompactText(f), blackout := t.applied + r.softBoot) else r)
            && Failure(p.answer) == if !Arrives(r, t) then Some(Unheard(t))
                                    else if Accepted(r.profiles, f) then None else Some(InvalidRange)
  {
    hide ParseDecimal, Accepted, CompactText;
    CompactTextRoundTrip(f);
  }

  lemma ReadProfiles(r: Radio, a: Adapter, t: Trip)
    requires Arrives(r, t)
    ensures var p := Exchange(r, SupportedProfiles, [], t);
            && p.radio == r && p.answer.Reply? && Failure(p.answer).None?
            && var table := Table(Published(r.profiles));
               TableOf(a, p.answer.body) == if table == [] then a.table else table
  {
    hide Table;
  }

  lemma FlagNoted(r: Radio, a: Adapter, t: Trip)
    requires t.others == []
    ensures var p := Exchange(r, EnableMaxPower, [], t);
            var a1 := NoteFlag(a, p.answer);
            && p.radio == r
            && a1 == if Arrives(r, t) then a.(enableMaxPower := Some(r.maxPower), manual := !r.maxPower) else a
  {
    hide Exchange, NoteFlag;
    ReadOnly(r, a, EnableMaxPower, t);
    if Arrives(r, t) {
      ReadFlag(r, a, t);
    }
  }

  // ---- coherence ----

  predicate TellsPower(power: Option<Watts>, dbm: int) {
    power.Some? ==> power.value.Dbm? && power.value.level >= 0.0 && Round(power.value.level) == dbm
  }

  predicate Names(table: seq<int>, channel: int, f: Option<int>) {
    1 <= channel <= |table| && f.Some? && Near(table[channel - 1], f.value)
  }

  // A cached power rounds to the radio's setting, and a cached channel names a table entry within
  // 0.001 MHz of the radio's frequency.
  predicate Coherent(l: Link) {
    && TellsPower(l.adapter.power, l.radio.power)
    && (l.adapter.channel.Some? ==> Names(l.adapter.table, l.adapter.channel.value, ParseDecimal(l.radio.freq)))
  }

  predicate Limits(a: Adapter) {
    0.0 <= a.minPower <= a.maxPower <= 39.0 && a.table != []
  }

  predicate Kept(l: Link) {
    Coherent(l) && Limits(l.adapter) && 0 <= l.radio.power
  }

  // How a refresh of the only client ends, whatever is lost, and exactly what it changes: the power as
  // soon as it is read, everything else only when both reads are answered, the flag when it is too.
  lemma RefreshDecision(l: Link, e: Env)
    requires Alone(e)
    ensures var d := Refreshed(l, e);
            var active := WindowActive(l.adapter, e.gate);
            var done := !active && Arrives(l.radio, e.first) && Arrives(l.radio, e.second);
            && d.code == (if active then Code.Busy
                          else if !Arrives(l.radio, e.first) then Unheard(e.first)
                          else if !Arrives(l.radio, e.second) then Unheard(e.second) else Ok)
            && d.link.radio == l.radio
            && d.link.adapter == l.adapter.(
                 power := if !active && Arrives(l.radio, e.first) then Some(Dbm(l.radio.power as real))
                          else l.adapter.power,
                 channel := if !done then l.adapter.channel
                            else match ParseDecimal(l.radio.freq)
                                 case Some(f) => ChannelOf(l.adapter.table, f)
                                 case None => None,
                 enableMaxPower := if done && Arrives(l.radio, e.third) then Some(l.radio.maxPower)
                                   else l.adapter.enableMaxPower,
                 manual := if done && Arrives(l.radio, e.third) then !l.radio.maxPower else l.adapter.manual,
                 deadline := if done then 0 else l.adapter.deadline,
                 status := if done then Ready else if active then Recovering else l.adapter.status)
  {
    hide Exchange, ParseDecimal, ParsePower, ParseFrequency, ParseBoolean, ChannelOf, Failure, Unheard, Arrives;
    var r, a := l.radio, l.adapter;
    ReadOnly(r, a, PowerDbm, e.first);
    ReadOnly(r, a, Freq, e.second);
    NeverOk(e);
    if Arrives(r, e.first) {
      ReadPower(r, e.first);
      if Arrives(r, e.second) {
        ReadFrequency(r, e.second);
        FlagNoted(r, a, e.third);
      }
    }
  }

  lemma NeverOk(e: Env)
    ensures Unheard(e.first) != Ok && Unheard(e.second) != Ok
  {
  }

  // A refresh past the gate whose two reads are answered takes over what they say, opens the gate and
  // changes nothing at the radio; it takes over the flag if it can read it.
  lemma RefreshReads(l: Link, e: Env)
    requires Alone(e) && !WindowActive(l.adapter, e.gate) && Arrives(l.radio, e.first) && Arrives(l.radio, e.second)
    ensures var d := Refreshed(l, e);
            && d.code == Ok && d.link.radio == l.radio && SameSetup(d.link.adapter, l.adapter)
            && d.link.adapter.power == Some(Dbm(l.radio.power as real))
            && d.link.adapter.channel == (match ParseDecimal(l.radio.freq)
                                          case Some(f) => ChannelOf(l.adapter.table, f)
                                          case None => None)
            && d.link.adapter.status.Ready? && d.link.adapter.deadline == 0
            && (Arrives(l.radio, e.third) ==>
                  d.link.adapter.enableMaxPower == Some(l.radio.maxPower) && d.link.adapter.manual == !l.radio.maxPower)
  {
    hide Refreshed, ParseDecimal, ChannelOf, Arrives;
    RefreshDecision(l, e);
  }

  // The same for a connect: once the profiles are read it succeeds, with or without the flag, and takes
  // over the table when there is one.
  lemma ConnectDecision(l: Link, e: Env)
    requires Alone(e)
    ensures var d := Connected(l, e);
            var done := Arrives(l.radio, e.first);
            var table := Table(Published(l.radio.profiles));
            && d.code == (if done then Ok else Unheard(e.first)) && d.link.radio == l.radio
            && d.link.adapter == if !done then l.adapter
                                 else l.adapter.(
                                   table := if table == [] then l.adapter.table else table,
                                   enableMaxPower := if Arrives(l.radio, e.second) then Some(l.radio.maxPower)
                                                     else l.adapter.enableMaxPower,
                                   manual := if Arrives(l.radio, e.second) then !l.radio.maxPower
                                             else l.adapter.manual,
                                   deadline := 0, status := Ready)
  {
    hide Exchange, NoteFlag, TableOf, Table, Failure, Unheard, Arrives;
    var r, a := l.radio, l.adapter;
    ReadOnly(r, a, SupportedProfiles, e.first);
    NeverOk(e);
    if Arrives(r, e.first) {
      ReadProfiles(r, a, e.first);
      FlagNoted(r, a.(table := TableOf(a, Exchange(r, SupportedProfiles, [], e.first).answer.body)), e.second);
    }
  }

  // So a refresh whose reads arrive makes any cache truthful, whatever went wrong before.
  lemma RefreshRestores(l: Link, e: Env)
    requires Alone(e) && !WindowActive(l.adapter, e.gate) && Arrives(l.radio, e.first) && Arrives(l.radio, e.second)
    ensures l.radio.power >= 0 ==> Coherent(Refreshed(l, e).link)
  {
    hide Refreshed, ParseDecimal, Round, ChannelOf;
    RefreshReads(l, e);
    RoundInteger(l.radio.power);
  }

  // Table and limits, which only connect and the configuration set.
  predicate SameSetup(a: Adapter, b: Adapter) {
    a.table == b.table && a.minPower == b.minPower && a.maxPower == b.maxPower
  }

  // ---- exactly when a step keeps the cache truthful ----

  // The power command reaches the point where the power is sent: the flag the adapter goes by is the
  // radio's own when it could read it, otherwise the one it remembers.
  predicate SendsPower(l: Link, w: Watts, e: Env) {
    && !WindowActive(l.adapter, e.gate)
    && (if Arrives(l.radio, e.first) then !l.radio.maxPower else l.adapter.manual)
    && !Below(w, l.adapter.minPower) && !Above(w, l.adapter.maxPower)
  }

  // What an operation of the only client must not meet: while the radio is at maximum power, a
  // command that goes through because the flag could not be read and asks for another power; an
  // unanswered power or frequency change that the cache does not describe by chance; a connect whose
  // table moves the cached channel.
  predicate KeepsTruth(l: Link, op: Op, e: Env) {
    match op
    case OpRefresh => true
    case OpConnect =>
      var table := Table(Published(l.radio.profiles));
      Arrives(l.radio, e.first) && table != [] && l.adapter.channel.Some? ==>
        Names(table, l.adapter.channel.value, ParseDecimal(l.radio.freq))
    case OpPower(w) =>
      SendsPower(l, w, e) ==>
        if l.radio.maxPower then Arrives(l.radio, e.second) ==> Round(w.level) == l.radio.power
        else Unanswered(l.radio, e.second) ==> TellsPower(l.adapter.power, Round(w.level))
    case OpChannel(i, f) =>
      PassesChecks(l.adapter, i, f, e.gate) && Accepted(l.radio.profiles, f) && Unanswered(l.radio, e.first) ==>
        l.adapter.channel.Some? ==> Names(l.adapter.table, l.adapter.channel.value, Some(f))
  }

  lemma RefreshKeeps(l: Link, e: Env)
    requires Kept(l) && Alone(e)
    ensures Kept(Refreshed(l, e).link)
  {
    hide Refreshed, ParseDecimal, Round, ChannelOf;
    RefreshDecision(l, e);
    RoundInteger(l.radio.power);
  }

  lemma ConnectKeeps(l: Link, e: Env)
    requires Kept(l) && Alone(e)
    ensures var l1 := Connected(l, e).link;
            l1.radio == l.radio && Limits(l1.adapter) && (Coherent(l1) <==> KeepsTruth(l, OpConnect, e))
  {
    hide Connected, ParseDecimal, Round, Table;
    ConnectDecision(l, e);
  }

  // How a power command of the only client ends, whatever is lost, and exactly what it changes.
  lemma PowerDecision(l: Link, w: Watts, e: Env)
    requires Limits(l.adapter) && Alone(e)
    ensures var d := PowerSet(l, w, e);
            var active := WindowActive(l.adapter, e.gate);
            var manual := if Arrives(l.radio, e.first) then !l.radio.maxPower else l.adapter.manual;
            var sent := SendsPower(l, w, e);
            && (sent ==> w.Dbm? && 0 <= Round(w.level) <= 39)
            && d.code == (if active || !manual then Code.Busy
                          else if !sent then InvalidRange
                          else if Arrives(l.radio, e.second) then Ok else Unheard(e.second))
            && d.link.adapter.power == (if d.code == Ok then Some(w) else l.adapter.power)
            && d.link.adapter.status == (if d.code == Ok then Ready
                                         else if active then Recovering else l.adapter.status)
            && d.link.adapter.manual == (if active then l.adapter.manual else manual)
            && SameSetup(d.link.adapter, l.adapter) && d.link.adapter.channel == l.adapter.channel
            && d.link.adapter.deadline == l.adapter.deadline
            && d.link.radio.power == (if sent && !l.radio.maxPower
                                         && (Arrives(l.radio, e.second) || Unanswered(l.radio, e.second))
                                      then Round(w.level) else l.radio.power)
            && d.link.radio == l.radio.(power := d.link.radio.power, blackout := d.link.radio.blackout)
            && (l.radio.powerPause == 0 ==> d.link.radio.blackout == l.radio.blackout)
  {
    hide Exchange, IntText, Round, NoteFlag;
    var r := l.radio;
    ReadOnly(r, l.adapter, EnableMaxPower, e.first);
    if Arrives(r, e.first) {
      ReadFlag(r, l.adapter, e.first);
    }
    if w.Dbm? && l.adapter.minPower <= w.level <= l.adapter.maxPower {
      RoundQuantises(w.level, w.level, 0);
      RoundQuantises(w.level, w.level, 39);
      WritePower(r, Round(w.level), e.second);
    }
  }

  lemma PowerKeeps(l: Link, w: Watts, e: Env)
    requires Kept(l) && Alone(e)
    ensures var l1 := PowerSet(l, w, e).link;
            Limits(l1.adapter) && 0 <= l1.radio.power && (Coherent(l1) <==> KeepsTruth(l, OpPower(w), e))
  {
    hide PowerSet, ParseDecimal, Round;
    PowerDecision(l, w, e);
  }

  // The same for a channel command: it succeeds exactly when the gate is open, index and frequency
  // are positive, some channel of the table is near, and the radio accepts the frequency and is heard;
  // the cached index is then the one the table gives.
  lemma ChannelDecision(l: Link, i: int, f: int, e: Env)
    requires l.adapter.table != [] && Alone(e)
    ensures var d := ChannelSet(l, i, f, e);
            var sent := PassesChecks(l.adapter, i, f, e.gate);
            var changed := sent && Accepted(l.radio.profiles, f)
                           && (Arrives(l.radio, e.first) || Unanswered(l.radio, e.first));
            && d.code == (if WindowActive(l.adapter, e.gate) then Code.Busy
                          else if !sent then InvalidRange
                          else if !Arrives(l.radio, e.first) then Unheard(e.first)
                          else if !Accepted(l.radio.profiles, f) then InvalidRange else Ok)
            && d.link.radio == (if changed
                                then l.radio.(freq := CompactText(f), blackout := e.first.applied + l.radio.softBoot)
                                else l.radio)
            && d.link.adapter == (if d.code == Ok
                                  then l.adapter.(channel := ChannelOf(l.adapter.table, f),
                                                  deadline := e.done + l.adapter.recovery, status := Recovering)
                                  else if WindowActive(l.adapter, e.gate) then l.adapter.(status := Recovering)
                                  else l.adapter)
  {
    hide Exchange, CompactText, Accepted, ChannelOf;
    WriteFrequency(l.radio, f, e.first);
  }

  lemma ChannelKeeps(l: Link, i: int, f: int, e: Env)
    requires Kept(l) && Alone(e)
    ensures var l1 := ChannelSet(l, i, f, e).link;
            && Limits(l1.adapter) && l1.radio.power == l.radio.power
            && (Coherent(l1) <==> KeepsTruth(l, OpChannel(i, f), e))
  {
    hide ChannelSet, ParseDecimal, CompactText, Accepted, Round, ChannelOf;
    ChannelDecision(l, i, f, e);
    CompactTextRoundTrip(f);
  }

  // Whatever is lost or late, an operation of the only client keeps the cache truthful if and only
  // if it meets none of those cases.
  lemma OperationCoherentExact(l: Link, op: Op, e: Env)
    requires Kept(l) && Alone(e)
    ensures var l1 := Perform(l, op, e).link;
            Limits(l1.adapter) && 0 <= l1.radio.power && (Coherent(l1) <==> KeepsTruth(l, op, e))
  {
    hide Coherent, Limits, KeepsTruth, Connected, PowerSet, ChannelSet, Refreshed;
    match op
    case OpConnect => ConnectKeeps(l, e);
    case OpPower(w) => PowerKeeps(l, w, e);
    case OpChannel(i, f) => ChannelKeeps(l, i, f, e);
    case OpRefresh =>
      RefreshKeeps(l, e);
      RefreshAlwaysTrue(l, e);
  }

  lemma RefreshAlwaysTrue(l: Link, e: Env)
    ensures KeepsTruth(l, OpRefresh, e)
  {
  }

  predicate OnlyClient(steps: seq<Step>) {
    forall s | s in steps :: s.Operate? && Alone(s.env)
  }

  predicate StepKeepsTruth(w: World, s: Step) {
    s.Operate? && KeepsTruth(w.link, s.op, s.env)
  }

  predicate CoherentThroughout(w: World, steps: seq<Step>) {
    forall k | 0 <= k <= |steps| :: Coherent(Run(w, steps[..k]).link)
  }

  predicate TruthThroughout(w: World, steps: seq<Step>) {
    forall k | 0 <= k < |steps| :: StepKeepsTruth(Run(w, steps[..k]), steps[k])
  }

  lemma StepCoherentExact(w: World, s: Step)
    requires Kept(w.link) && s.Operate? && Alone(s.env)
    ensures Coherent(Apply(w, s).link) <==> StepKeepsTruth(w, s)
    ensures Coherent(Apply(w, s).link) ==> Kept(Apply(w, s).link)
  {
    hide Coherent, Limits, KeepsTruth, Perform;
    OperationCoherentExact(w.link, s.op, s.env);
  }

  // The same over whole runs of the only client: the cache is truthful at every boundary if and only
  // if no operation meets one of those cases.
  lemma {:induction false} RunCoherentExact(w: World, steps: seq<Step>)
    requires Kept(w.link) && OnlyClient(steps)
    ensures CoherentThroughout(w, steps) <==> TruthThroughout(w, steps)
    ensures CoherentThroughout(w, steps) ==> Kept(Run(w, steps).link)
  {
    hide Apply, Run, Coherent, Limits, StepKeepsTruth, Alone;
    if steps == [] {
      NoSteps(w, steps);
    } else {
      var n := |steps| - 1;
      RunCoherentExact(w, steps[..n]);
      forall k | 0 <= k <= n ensures steps[..n][..k] == steps[..k] {
      }
      assert steps[..n + 1] == steps;
      LastStep(w, steps);
      assert steps[n] in steps;
      if Kept(Run(w, steps[..n]).link) {
        StepCoherentExact(Run(w, steps[..n]), steps[n]);
      }
    }
  }

  // ---- losses that do no harm ----

  // An operation other than connect, in which no change that the radio makes goes unanswered.
  predicate Mild(op: Op, e: Env) {
    && Alone(e)
    && match op
       case OpConnect => false
       case OpPower(_) => e.second.fate.Delivered? || e.second.fate.RequestLost?
       case OpChannel(_, _) => e.first.fate.Delivered? || e.first.fate.RequestLost?
       case OpRefresh => true
  }

  // The adapter does not believe in manual control of a radio at maximum power.
  predicate Informed(l: Link) {
    !(l.radio.maxPower && l.adapter.manual)
  }

  lemma FlagKept(l: Link, op: Op, e: Env)
    requires Limits(l.adapter) && Alone(e)
    ensures var l1 := Perform(l, op, e).link;
            l1.radio.maxPower == l.radio.maxPower && (Informed(l) ==> Informed(l1))
  {
    hide Connected, PowerSet, ChannelSet, Refreshed;
    match op
    case OpConnect => ConnectDecision(l, e);
    case OpPower(w) => PowerDecision(l, w, e);
    case OpChannel(i, f) => ChannelDecision(l, i, f, e);
    case OpRefresh => RefreshDecision(l, e);
  }

  // With an informed adapter, or one that reads the flag, nothing else can go wrong, whatever the delays
  // and the gate.
  lemma MildCoherent(l: Link, op: Op, e: Env)
    requires Kept(l) && Mild(op, e)
    requires Informed(l) || (op.OpPower? && !WindowActive(l.adapter, e.gate) ==> Arrives(l.radio, e.first))
    ensures Kept(Perform(l, op, e).link)
  {
    hide Perform, Coherent, Limits, TellsPower, Round, Names, Accepted, ChannelOf;
    OperationCoherentExact(l, op, e);
  }

  predicate MildRun(steps: seq<Step>) {
    forall s | s in steps :: s.Operate? && Mild(s.op, s.env)
  }

  // Cache coherence over every run of an informed adapter, with no assumption on time or on the gate.
  lemma {:induction false} InformedCoherence(w: World, steps: seq<Step>)
    requires Kept(w.link) && Informed(w.link) && MildRun(steps)
    ensures Kept(Run(w, steps).link) && Informed(Run(w, steps).link)
  {
    hide Kept, Informed, Mild, Perform, Run;
    if steps == [] {
      assert steps[..0] == steps;
      NoSteps(w, steps);
    } else {
      var n := |steps| - 1;
      assert steps[n] in steps;
      InformedCoherence(w, steps[..n]);
      LastStep(w, steps);
      InformedStep(Run(w, steps[..n]).link, steps[n].op, steps[n].env);
    }
  }

  lemma InformedStep(l: Link, op: Op, e: Env)
    requires Kept(l) && Informed(l) && Mild(op, e)
    ensures Kept(Perform(l, op, e).link) && Informed(Perform(l, op, e).link)
  {
    hide Perform, Coherent, Informed;
    MildCoherent(l, op, e);
    FlagKept(l, op, e);
  }

  predicate Good(w: World) {
    Kept(w.link) && Safe(w) && Config(w.link)
  }

  // The flag read of a power command is not lost, or the adapter is informed already.
  predicate FlagKnown(w: World, s: Step) {
    Informed(w.link) || (s.Operate? && (s.op.OpPower? ==> s.env.first.fate.Delivered?))
  }

  predicate FlagsKnown(w: World, steps: seq<Step>) {
    forall k | 0 <= k < |steps| :: FlagKnown(Run(w, steps[..k]), steps[k])
  }

  lemma GoodStep(w: World, s: Step)
    requires Good(w) && Legal(w, s) && s.Operate? && Mild(s.op, s.env) && FlagKnown(w, s)
    ensures Good(Apply(w, s))
  {
    hide Perform, Coherent, Limits, TimedEnv;
    MildIsQuiet(s);
    StepSafe(w, s);
    if s.op.OpPower? && !WindowActive(w.link.adapter, s.env.gate) {
      PastGateAvailable(w, s.op, s.env);
      TimedEnvOrder(s.env);
    }
    MildCoherent(w.link, s.op, s.env);
  }

  lemma MildIsQuiet(s: Step)
    requires s.Operate? && Mild(s.op, s.env)
    ensures Quiet(s)
  {
  }

  // Cache coherence over every run of the only client after the first connect, with any delays, any
  // losses in a refresh and any lost requests. A lost flag read is harmless as well, unless the
  // radio is at maximum power and the adapter still believes in manual control.
  lemma {:induction false} CacheCoherence(w: World, steps: seq<Step>)
    requires Good(w) && LegalRun(w, steps) && MildRun(steps) && FlagsKnown(w, steps)
    ensures Good(Run(w, steps))
  {
    hide Good, Mild, FlagKnown, Apply, Legal, Run;
    if steps == [] {
      assert steps[..0] == steps;
      NoSteps(w, steps);
    } else {
      var n := |steps| - 1;
      assert steps[n] in steps;
      forall k | 0 <= k <= n ensures steps[..n][..k] == steps[..k] {
      }
      CacheCoherence(w, steps[..n]);
      LastStep(w, steps);
      GoodStep(Run(w, steps[..n]), steps[n]);
    }
  }

  // The starting point of such runs: a fresh adapter and a radio that is up, after one connect. The
  // connect succeeds even when it cannot read the flag; the adapter is then informed only if the
  // radio is not at maximum power.
  lemma StartCoherent(range: Option<(real, real)>, recovery: nat, r: Radio, e: Env)
    requires range.Some? ==> 0.0 <= range.value.0 <= range.value.1 <= 39.0
    requires TimedEnv(e) && Alone(e) && r.softBoot <= recovery && r.powerPause == 0 && r.power >= 0
    requires Arrives(r, e.first)
    ensures var d := Connected(Link(NewAdapter(range, recovery), r), e);
            && d.code == Ok && d.link.radio == r && d.link.adapter.status.Ready?
            && Good(World(d.link, e.done, e.third.applied))
            && (Informed(d.link) <==> Arrives(r, e.second) || !r.maxPower)
  {
    hide Connected, TimedEnv, Table;
    TimedEnvOrder(e);
    ConnectDecision(Link(NewAdapter(range, recovery), r), e);
  }

  // ---- losses that do harm ----

  // A power command to a radio at maximum power that cannot read the flag, on an adapter that
  // believes in manual control: the radio acknowledges and changes nothing, the adapter reports
  // success and caches the request. The cache is right if and only if the radio's setting was asked
  // for.
  lemma LostFlagRead(l: Link, w: Watts, e: Env)
    requires Kept(l) && Alone(e) && l.radio.maxPower && l.adapter.manual && !Arrives(l.radio, e.first)
    ensures SendsPower(l, w, e) && Arrives(l.radio, e.second) ==>
              var d := PowerSet(l, w, e);
              && d.code == Ok && d.link.radio.power == l.radio.power && d.link.adapter.power == Some(w)
              && (Coherent(d.link) <==> Round(w.level) == l.radio.power)
  {
    hide Coherent, PowerSet, Round;
    PowerDecision(l, w, e);
    PowerKeeps(l, w, e);
  }

  // A power change whose acknowledgement is lost or garbled: the radio has the new power, the command
  // fails, and the cache is right if and only if it was empty or already at the new power.
  lemma LostPowerReply(l: Link, w: Watts, e: Env)
    requires Kept(l) && Alone(e) && !l.radio.maxPower
    ensures SendsPower(l, w, e) && Unanswered(l.radio, e.second) ==>
              var d := PowerSet(l, w, e);
              && d.code != Ok && d.link.radio.power == Round(w.level) && d.link.adapter.power == l.adapter.power
              && (Coherent(d.link)
                  <==> l.adapter.power.None? || Round(l.adapter.power.value.level) == Round(w.level))
  {
    hide PowerSet, Round, ParseDecimal;
    PowerDecision(l, w, e);
    PowerKeeps(l, w, e);
  }

  // A frequency change whose acknowledgement is lost or garbled: the radio has the new frequency, the
  // command fails, and the cache is right if and only if it was empty or near the new frequency.
  lemma LostChannelReply(l: Link, i: int, f: int, e: Env)
    requires Kept(l) && Alone(e) && Unanswered(l.radio, e.first)
    ensures PassesChecks(l.adapter, i, f, e.gate) && Accepted(l.radio.profiles, f) ==>
              var d := ChannelSet(l, i, f, e);
              && d.code != Ok && d.link.radio.freq == CompactText(f) && d.link.adapter.channel == l.adapter.channel
              && (Coherent(d.link)
                  <==> l.adapter.channel.None? || Near(l.adapter.table[l.adapter.channel.value - 1], f))
  {
    hide ChannelSet, Round, Accepted, CompactText, ParseDecimal, ChannelOf;
    ChannelDecision(l, i, f, e);
    ChannelKeeps(l, i, f, e);
  }

  // ---- round trips ----

  // A connected adapter: its table is what the radio's profiles offer.
  predicate OffersProfiles(l: Link) {
    l.adapter.table == Table(Published(l.radio.profiles)) && l.adapter.table != []
  }

  lemma ConnectOffersProfiles(l: Link, e: Env)
    requires Alone(e) && Arrives(l.radio, e.first) && Table(Published(l.radio.profiles)) != []
    ensures Connected(l, e).code == Ok && OffersProfiles(Connected(l, e).link)
  {
    hide Connected, Table;
    ConnectDecision(l, e);
  }

  // A refresh whose reads arrive after the given time.
  predicate ReadsAfter(e: Env, time: nat) {
    TimedEnv(e) && Alone(e) && time <= e.gate && e.first.fate.Delivered? && e.second.fate.Delivered?
  }

  // From index to frequency, text, radio, text, frequency and index again: on a radio that is up,
  // setting a channel succeeds exactly when its frequency is positive, and then a refresh after the
  // window reads back an index that is never later, and is the same exactly when the channel below is
  // at least 0.001 MHz away.
  lemma ChannelRoundTrip(l: Link, i: int, e: Env, e2: Env)
    requires OffersProfiles(l) && 1 <= i <= |l.adapter.table| && l.radio.softBoot <= l.adapter.recovery
    requires TimedEnv(e) && Alone(e) && !WindowActive(l.adapter, e.gate) && Arrives(l.radio, e.first)
    requires ReadsAfter(e2, e.done + l.adapter.recovery)
    ensures var t := l.adapter.table;
            var d := ChannelSet(l, i, t[i - 1], e);
            var d2 := Refreshed(d.link, e2);
            && (d.code == Ok <==> t[i - 1] > 0) && (d.code != Ok ==> d == Done(l, InvalidRange))
            && (d.code == Ok ==>
                  && d2.code == Ok && ParseDecimal(d2.link.radio.freq) == Some(t[i - 1])
                  && d2.link.adapter.channel.Some? && d2.link.adapter.channel == d.link.adapter.channel
                  && d2.link.adapter.channel.value <= i
                  && (d2.link.adapter.channel.value == i <==> (i == 1 || t[i - 1] - t[i - 2] >= TOLERANCE)))
  {
    hide TimedEnv, Table, ParseDecimal, CompactText, ChannelOf, Refreshed, ChannelSet, Accepted;
    var t := l.adapter.table;
    ChannelDecision(l, i, t[i - 1], e);
    if t[i - 1] > 0 {
      OwnFrequencyPasses(l, i);
      CompactTextRoundTrip(t[i - 1]);
      TimedEnvOrder(e);
      TimedEnvOrder(e2);
      RefreshReads(ChannelSet(l, i, t[i - 1], e).link, e2);
    }
  }

  // A channel of a connected adapter is found near its own frequency, which the radio accepts.
  lemma OwnFrequencyPasses(l: Link, i: int)
    requires OffersProfiles(l) && 1 <= i <= |l.adapter.table|
    ensures var t := l.adapter.table;
            var c := ChannelOf(t, t[i - 1]);
            && Accepted(l.radio.profiles, t[i - 1]) && c.Some? && c.value <= i
            && (c.value == i <==> (i == 1 || t[i - 1] - t[i - 2] >= TOLERANCE))
  {
    hide Table, Accepted, ChannelOf;
    assert l.adapter.table[i - 1] in l.adapter.table;
    OfferedIsAccepted(l.radio.profiles, l.adapter.table[i - 1]);
    TableIsUnion(Published(l.radio.profiles));
    LookupOwnFrequency(l.adapter.table, i);
  }

  // A power level inside the limits is sent rounded and read back as that integer; an integer level
  // comes back unchanged.
  lemma PowerRoundTrip(l: Link, w: Watts, e: Env, e2: Env)
    requires Limits(l.adapter) && l.radio.powerPause == 0 && !l.radio.maxPower
    requires Alone(e) && SendsPower(l, w, e) && Arrives(l.radio, e.second)
    requires Alone(e2) && !WindowActive(l.adapter, e2.gate) && Arrives(l.radio, e2.first) && Arrives(l.radio, e2.second)
    ensures var d := PowerSet(l, w, e);
            var d2 := Refreshed(d.link, e2);
            && w.Dbm? && d.code == Ok && d.link.adapter.power == Some(w)
            && d.link.radio == l.radio.(power := Round(w.level))
            && d2.code == Ok && d2.link.adapter.power == Some(Dbm(Round(w.level) as real))
            && (w.level == w.level.Floor as real ==> d2.link.adapter.power == Some(w))
  {
    hide PowerSet, Refreshed, Round;
    PowerDecision(l, w, e);
    RoundInteger(w.level.Floor);
    RefreshReads(PowerSet(l, w, e).link, e2);
  }
}
