// The northbound command handlers: what a request body turns into before the orchestrator is asked.
module Gateway {
  import opened Basics
  import opened ChannelTable
  import opened Decimal
  import opened Json
  import opened Power
  import opened Radio
  import opened Adapter
  import opened Protocol
  import opened Coherence
  import opened Orchestrator
  import opened Replica
  import opened Text
  import T = Telemetry

  datatype Refusal = BadRequest | UnknownRadio | OutOfRange

  datatype Checked<+V> = Refused(refusal: Refusal) | Passed(value: V)

  // A number of the body, as a real and in micro-MHz.
  function GivenNumber(body: Json, name: string): (n: Option<Json>)
    ensures n.Some? ==> n.value.Int? || n.value.Float?
  {
    if body.Obj? && name in body.fields && (body.fields[name].Int? || body.fields[name].Float?)
    then Some(body.fields[name]) else None
  }

  function InMicro(n: Json): int
    requires n.Int? || n.Float?
  {
    if n.Int? then n.n * MICRO else n.micro
  }

  function CheckPower(body: Json): (checked: Checked<Watts>)
    ensures checked.Passed? ==> checked.value.Dbm? && 0.0 <= checked.value.level <= 39.0
  {
    match GivenNumber(body, "powerDbm")
    case None => Refused(BadRequest)
    case Some(n) =>
      var dbm := InMicro(n) as real / MICRO as real;
      if dbm < 0.0 || dbm > 39.0 then Refused(OutOfRange) else Passed(Dbm(dbm))
  }

  function GivenIndex(body: Json): Option<int> {
    if body.Obj? && "channelIndex" in body.fields && body.fields["channelIndex"].Int?
    then Some(Wrap32(body.fields["channelIndex"].n)) else None
  }

  // The channel a request dispatches and the frequency it answers with: index, frequency or both
  // may be given, and when both are they have to match.
  function CheckChannel(body: Json, table: Option<seq<int>>): Checked<(int, int)> {
    var index := GivenIndex(body);
    var frequency := GivenNumber(body, "frequencyMhz");
    if index.None? && frequency.None? then Refused(BadRequest)
    else if table.None? then Refused(UnknownRadio)
    else if index.Some? && (index.value < 1 || index.value > |table.value|) then Refused(OutOfRange)
    else
      match frequency
      case None => Passed((index.value, table.value[index.value - 1]))
      case Some(n) =>
        var f := InMicro(n);
        match ChannelOf(table.value, f)
        case None => Refused(OutOfRange)
        case Some(found) =>
          if index.Some? && index.value != found then Refused(OutOfRange) else Passed((found, f))
  }

  datatype ApiReply =
    | Declined(refusal: Refusal)
    | NotDone(code: Code)
    | ChannelReply(index: int, frequency: Option<int>)
    | PowerReply(level: real)

  datatype Answered = Answered(system: System, reply: ApiReply)

  // Refused bodies change nothing; others are a command, and its outcome is the reply.
  function PowerAnswered(s: System, radioId: string, body: Json, e: Env): Answered {
    match CheckPower(body)
    case Refused(why) => Answered(s, Declined(why))
    case Passed(w) =>
      var x := Execute(s, Command(Action.SetPower(w), radioId, e));
      Answered(x.system, if x.code == Ok then PowerReply(w.level) else NotDone(x.code))
  }

  function ChannelAnswered(s: System, radioId: string, body: Json, e: Env): Answered {
    match CheckChannel(body, if radioId in s.fleet then Some(s.fleet[radioId].adapter.table) else None)
    case Refused(why) => Answered(s, Declined(why))
    case Passed(v) =>
      var x := Execute(s, Command(Action.SetChannel(v.0), radioId, e));
      Answered(x.system, if x.code == Ok then ChannelReply(v.0, T.PositiveOnly(v.1)) else NotDone(x.code))
  }

  class ApiGateway {
    const orchestrator: Orchestrator

    constructor (o: Orchestrator)
      ensures orchestrator == o
    {
      orchestrator := o;
    }

    method HandleSetPower(radioId: string, body: Json, e: Env, ghost now: nat) returns (reply: ApiReply)
      requires orchestrator.Valid() && FleetSound(orchestrator.radios.fleet, now) && now <= e.gate <= e.done
      modifies orchestrator`auditLog, orchestrator.telemetry, orchestrator.radios`fleet, orchestrator.radios.Repr()
      ensures orchestrator.Valid() && FleetSound(orchestrator.radios.fleet, e.done)
      ensures Answered(orchestrator.Value(), reply) == PowerAnswered(old(orchestrator.Value()), radioId, body, e)
    {
      hide Execute, Sound, FleetSound, CheckPower;
      FleetLater(orchestrator.radios.fleet, now, e.done);
      match CheckPower(body) {
        case Refused(why) => return Declined(why);
        case Passed(w) =>
          var code := orchestrator.SetPower(radioId, w, e, now);
          return if code == Ok then PowerReply(w.level) else NotDone(code);
      }
    }

    method HandleSetChannel(radioId: string, body: Json, e: Env, ghost now: nat) returns (reply: ApiReply)
      requires orchestrator.Valid() && FleetSound(orchestrator.radios.fleet, now) && now <= e.gate <= e.done
      modifies orchestrator`auditLog, orchestrator.telemetry, orchestrator.radios`fleet, orchestrator.radios.Repr()
      ensures orchestrator.Valid() && FleetSound(orchestrator.radios.fleet, e.done)
      ensures Answered(orchestrator.Value(), reply) == ChannelAnswered(old(orchestrator.Value()), radioId, body, e)
    {
      hide Execute, Sound, FleetSound, CheckChannel;
      FleetLater(orchestrator.radios.fleet, now, e.done);
      var adapters := orchestrator.radios.adapters;
      var table := if radioId in adapters then Some(adapters[radioId].supportedFrequencies) else None;
      var checked := ResolveChannel(body, table);
      if checked.Refused? {
        return Declined(checked.refusal);
      }
      var code := orchestrator.SetChannel(radioId, checked.value.0, e, now);
      if code != Ok {
        return NotDone(code);
      }
      var frequency := checked.value.1;
      return ChannelReply(checked.value.0, if frequency > 0 then Some(frequency) else None);
    }

    // The checks before the orchestrator is asked.
    method ResolveChannel(body: Json, caps: Option<seq<int>>) returns (r: Checked<(int, int)>)
      ensures r == CheckChannel(body, caps)
    {
      hide ChannelOf, GivenIndex, GivenNumber;
      var hasIndex := GivenIndex(body);
      var hasFrequency := GivenNumber(body, "frequencyMhz");
      if hasIndex.None? && hasFrequency.None? {
        return Refused(BadRequest);
      }
      if caps.None? {
        return Refused(UnknownRadio);
      }
      var table := caps.value;
      var channelIndex := -1;
      var frequency := 0;
      if hasIndex.Some? {
        channelIndex := hasIndex.value;
        if channelIndex < 1 || channelIndex > |table| {
          return Refused(OutOfRange);
        }
        frequency := table[channelIndex - 1];
      }
      if hasFrequency.Some? {
        frequency := InMicro(hasFrequency.value);
        var maybeIndex := FindChannelIndex(table, frequency);
        if maybeIndex.None? {
          return Refused(OutOfRange);
        }
        if hasIndex.Some? && channelIndex != maybeIndex.value {
          return Refused(OutOfRange);
        }
        channelIndex := maybeIndex.value;
      }
      return Passed((channelIndex, frequency));
    }
  }

  // A request naming both channel and frequency passes exactly when the index is in range and is the
  // one the frequency is looked up to; the frequency does not take precedence.
  lemma BothMustMatch(body: Json, table: seq<int>, index: int, n: Json)
    requires GivenIndex(body) == Some(index) && GivenNumber(body, "frequencyMhz") == Some(n)
    ensures CheckChannel(body, Some(table)).Passed?
       <==> 1 <= index <= |table| && ChannelOf(table, InMicro(n)) == Some(index)
  {
    hide ChannelOf, GivenIndex, GivenNumber;
  }

  // Through gateway, orchestrator and adapter: what is dispatched is a channel of the table within
  // 0.001 MHz of any requested frequency; the frequency written to the radio is exactly that
  // channel's; and the index finally cached is never later, and the same exactly when the channel
  // below is at least 0.001 MHz away.
  lemma ToleranceLookup(body: Json, l: Link, k: int, shown: int, e: Env)
    requires StrictlyIncreasing(l.adapter.table)
    requires CheckChannel(body, Some(l.adapter.table)) == Passed((k, shown))
    ensures 1 <= k <= |l.adapter.table|
    ensures var n := GivenNumber(body, "frequencyMhz"); n.Some? ==> Near(l.adapter.table[k - 1], InMicro(n.value))
    ensures var t := l.adapter.table;
            var d := ChannelSet(l, k, t[k - 1], e);
            d.code == Ok ==>
              && d.link.radio == Exchange(l.radio, Freq, Texts([CompactText(t[k - 1])]), e.first).radio
              && d.link.adapter.channel.Some? && 1 <= d.link.adapter.channel.value <= k
              && (d.link.adapter.channel.value == k <==> (k == 1 || t[k - 1] - t[k - 2] >= TOLERANCE))
  {
    hide Exchange, CompactText, ChannelOf, GivenIndex, GivenNumber, Failure;
    LookupOwnFrequency(l.adapter.table, k);
  }

  // The power path: a request that passes asks for its own level, between 0 and 39 dBm; the integer
  // sent is within half a dB of it, in 0..39, and inside integer limits; a second request that is
  // not lower never sends less; and a whole number is sent as it is.
  lemma PowerPath(body: Json, other: Json, low: int, high: int)
    requires CheckPower(body).Passed? && CheckPower(other).Passed?
    ensures var x := CheckPower(body).value.level;
            var k := Round(x);
            && 0.0 <= x <= 39.0 && 0 <= k <= 39 && -0.5 <= x - k as real <= 0.5
            && (low as real <= x <= high as real ==> low <= k <= high)
            && (x <= CheckPower(other).value.level ==> k <= Round(CheckPower(other).value.level))
            && (x == x.Floor as real ==> k == x.Floor)
  {
    hide GivenNumber, Round;
    var x, y := CheckPower(body).value.level, CheckPower(other).value.level;
    RoundQuantises(x, x, 0);
    RoundQuantises(x, x, 39);
    RoundQuantises(x, x, low);
    RoundQuantises(x, x, high);
    RoundInteger(x.Floor);
    if x <= y {
      RoundQuantises(x, y, 0);
    }
  }

  // The adapter may send: its gate is open, and it reads that the radio is not at maximum power or
  // remembers it.
  predicate MaySend(l: Link, e: Env) {
    && Alone(e) && !WindowActive(l.adapter, e.gate) && !l.radio.maxPower
    && (Arrives(l.radio, e.first) || l.adapter.manual) && Arrives(l.radio, e.second)
  }

  // And the integer sent is the one published: a power command inside the limits whose write arrives
  // leaves the radio, the powerChanged event and the REST view with the same number.
  lemma PowerSentIsPublished(s: System, c: Command, w: Watts, now: nat)
    requires FleetSound(s.fleet, now) && now <= c.env.gate && c.action == Action.SetPower(w) && c.radioId in s.fleet
    requires var l := s.fleet[c.radioId];
             && Limits(l.adapter) && w.Dbm? && l.adapter.minPower <= w.level <= l.adapter.maxPower
             && MaySend(l, c.env)
    ensures var x := Execute(s, c);
            && x.code == Ok && s.hub.log <= x.system.hub.log && c.radioId in x.system.fleet
            && var l1 := x.system.fleet[c.radioId];
               && l1.radio.power == Round(w.level) && RestView(l1).powerDbm == Some(l1.radio.power)
               && EventsOf(s, c) == [T.PowerChanged(c.radioId, Some(l1.radio.power)), EventsOf(s, c)[1]]
               && EventsOf(s, c)[1].State? && EventsOf(s, c)[1].view == RestView(l1)
  {
    hide PowerSet, Sound, FleetSound, Limits, Round, FrequencyAt, T.NormalizeStatus, T.StatusText;
    PowerDecision(s.fleet[c.radioId], w, c.env);
    CommandEmits(s, c, now);
  }

  // The requested dBm in millionths.
  function RequestedMicro(body: Json): nat
    requires CheckPower(body).Passed?
  {
    InMicro(GivenNumber(body, "powerDbm").value)
  }

  // A passing body's power has the milliwatts of a rational level.
  lemma RequestedMilliwatts(body: Json, mw: real)
    requires CheckPower(body).Passed? && IsMilliwatts(mw, RequestedMicro(body), MICRO)
    ensures HasMilliwatts(CheckPower(body).value.level, mw)
  {
    hide IsMilliwatts;
  }

  // The same in milliwatts, as the programs compute: for a body that passes, whose power is mw and
  // lies between the milliwatts of the adapter's limits, std::round(10 * log10(mw)) is the integer that is
  // sent, set at the radio, published and reported.
  lemma MilliwattsPath(s: System, c: Command, body: Json, now: nat, mw: real, low: real, high: real, k: nat)
    requires FleetSound(s.fleet, now) && now <= c.env.gate && c.radioId in s.fleet
    requires CheckPower(body).Passed? && c.action == Action.SetPower(CheckPower(body).value)
    requires IsMilliwatts(mw, RequestedMicro(body), MICRO) && low <= mw <= high
    requires var l := s.fleet[c.radioId];
             && HasMilliwatts(l.adapter.minPower, low) && HasMilliwatts(l.adapter.maxPower, high)
             && Limits(l.adapter) && MaySend(l, c.env)
    ensures var x := Execute(s, c);
            && x.code == Ok && c.radioId in x.system.fleet
            && var l1 := x.system.fleet[c.radioId];
               && (RoundsTo(mw, k) <==> k == l1.radio.power) && RestView(l1).powerDbm == Some(l1.radio.power)
               && EventsOf(s, c) == [T.PowerChanged(c.radioId, Some(l1.radio.power)), EventsOf(s, c)[1]]
               && EventsOf(s, c)[1].State? && EventsOf(s, c)[1].view == RestView(l1)
  {
    hide HasMilliwatts, IsMilliwatts, RoundsTo, CheckPower, RequestedMicro, Execute, EventsOf, RestView, FleetSound;
    hide MaySend, Round;
    var w := CheckPower(body).value;
    var a := s.fleet[c.radioId].adapter;
    RequestedMilliwatts(body, mw);
    MilliwattsOrder(w.level, mw, a.minPower, low);
    MilliwattsOrder(a.maxPower, high, w.level, mw);
    PowerSentIsPublished(s, c, w, now);
    MilliwattsRound(w.level, mw, k);
  }
}
