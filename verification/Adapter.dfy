// The adapter: a cached state, a channel table and a recovery deadline, kept by four operations that
// talk to the radio over HTTP. An operation's timing, the fate of its messages and the requests of
// other clients that reach the radio in between are inputs.
module Adapter {
  import opened Basics
  import opened ChannelTable
  import opened Decimal
  import opened Json
  import opened Power
  import opened Radio
  import opened Text

  datatype Status = Offline | Discovering | Ready | Busy | Recovering

  datatype Code = Ok | InvalidRange | Busy | Unavailable | InternalError | NotFound

  datatype Adapter = Adapter(
    table: seq<int>, minPower: real, maxPower: real, enableMaxPower: Option<bool>, manual: bool,
    status: Status, channel: Option<int>, power: Option<Watts>, deadline: nat, recovery: nat)

  // ---- network ----

  datatype Fate = Delivered | RequestLost | ReplyLost | ReplyGarbled

  // A request as it reaches the radio, with the two clock readings there.
  datatype Arrival = Arrival(m: Method, params: seq<Json>, checked: nat, applied: nat)

  // One HTTP exchange: the calls of other clients the radio serves first, what happens to the messages, and
  // the two clock readings at the radio.
  datatype Trip = Trip(others: seq<Arrival>, fate: Fate, checked: nat, applied: nat)

  // One operation: the clock at its gate, up to three exchanges, and the clock when it returns.
  datatype Env = Env(gate: nat, first: Trip, second: Trip, third: Trip, done: nat)

  datatype Answer = NoReply | BadJson | Reply(body: Body)

  datatype Posted = Posted(radio: Radio, answer: Answer)

  function Interfere(r: Radio, calls: seq<Arrival>): Radio {
    if calls == [] then r
    else
      var c := calls[|calls| - 1];
      Serve(Interfere(r, calls[..|calls| - 1]), c.m, c.params, c.checked, c.applied).radio
  }

  function Exchange(r: Radio, m: Method, params: seq<Json>, t: Trip): Posted {
    var r1 := Interfere(r, t.others);
    var served := Serve(r1, m, params, t.checked, t.applied);
    match t.fate
    case Delivered => Posted(served.radio, Reply(served.body))
    case RequestLost => Posted(r1, NoReply)
    case ReplyLost => Posted(served.radio, NoReply)
    case ReplyGarbled => Posted(served.radio, BadJson)
  }

  function Texts(texts: seq<string>): (items: seq<Json>)
    ensures texts == [] ==> items == []
  {
    Strings(texts).items
  }

  // The request object the adapter sends; params are left out when there are none.
  function Request(id: string, name: string, params: seq<string>): Json {
    var fields := map["jsonrpc" := Str("2.0"), "id" := Str(id), "method" := Str(name)];
    Obj(if params == [] then fields else fields["params" := Strings(params)])
  }

  lemma RequestIsCall(id: string, name: string, params: seq<string>)
    ensures Classify(Request(id, name, params)) == Call(MethodOf(name), Texts(params), Str(id))
  {
    hide MethodOf;
  }

  // ---- reading replies ----

  // The first element of an array under "result".
  function FirstResult(body: Body): Option<Json> {
    if body.Result? && body.value.Arr? && body.value.items != [] then Some(body.value.items[0]) else None
  }

  function ParsePower(body: Body): Option<int> {
    match FirstResult(body)
    case Some(Str(t)) => ParseInt(t)
    case Some(Int(n)) => Some(Wrap32(n))
    case _ => None
  }

  function ParseFrequency(body: Body): Option<int> {
    match FirstResult(body)
    case Some(Str(t)) => ParseDecimal(t)
    case Some(Int(n)) => Some(n * MICRO)
    case Some(Float(micro, _)) => Some(micro)
    case _ => None
  }

  function ParseBoolean(body: Body): Option<bool> {
    match FirstResult(body)
    case Some(Bool(b)) => Some(b)
    case Some(Int(n)) => Some(Wrap32(n) != 0)
    case Some(Str(t)) =>
      var text := Lower(t);
      if text == "1" || text == "true" || text == "enabled" || text == "on" then Some(true)
      else if text == "0" || text == "false" || text == "disabled" || text == "off" then Some(false)
      else None
    case _ => None
  }

  // normalizeSilvusError on the errors the radio produces.
  function Normalize(code: int): Code {
    if code == -32002 || code == -32602 then InvalidRange
    else if code == -32000 then Unavailable
    else InternalError
  }

  // Why an exchange did not succeed, if it did not.
  function Failure(answer: Answer): (failure: Option<Code>)
    ensures failure != Some(Ok)
  {
    match answer
    case NoReply => Some(Unavailable)
    case BadJson => Some(InternalError)
    case Reply(Error(code, _)) => Some(Normalize(code))
    case Reply(_) => None
  }

  // The cached max-power flag after reading it; an unreadable flag leaves the cache alone.
  function NoteFlag(a: Adapter, answer: Answer): Adapter {
    if answer.Reply? && ParseBoolean(answer.body).Some? then
      var flag := ParseBoolean(answer.body).value;
      a.(enableMaxPower := Some(flag), manual := !flag)
    else a
  }

  // A reply means the same in every form the radio may write it: numbers as numbers or as text, flags as
  // booleans, integers or words in any case.
  lemma ReplyForms(n: int, micro: int, dumped: string)
    requires -0x8000_0000 <= n < 0x8000_0000
    ensures var power := (j: Json) => ParsePower(Result(Arr([j])));
            power(Int(n)) == Some(n) && power(Str(IntText(n))) == Some(n)
    ensures var frequency := (j: Json) => ParseFrequency(Result(Arr([j])));
            && frequency(Int(n)) == Some(n * MICRO) && frequency(Float(micro, dumped)) == Some(micro)
            && frequency(Str(CompactText(micro))) == Some(micro)
  {
    hide IntText, ParseInt, CompactText, ParseDecimal;
    IntTextRoundTrip(n);
    CompactTextRoundTrip(micro);
  }

  lemma FlagForms(b: bool, n: int, word: string)
    ensures ParseBoolean(Result(Arr([Bool(b)]))) == Some(b)
    ensures -0x8000_0000 <= n < 0x8000_0000 ==> ParseBoolean(Result(Arr([Int(n)]))) == Some(n != 0)
    ensures var flag := ParseBoolean(Result(Arr([Str(word)])));
            && (flag == Some(true) <==> Lower(word) in {"1", "true", "enabled", "on"})
            && (flag == Some(false) <==> Lower(word) in {"0", "false", "disabled", "off"})
  {
    hide Lower;
  }

  // What each error of the radio is to the adapter.
  lemma ErrorForms()
    ensures Failure(Reply(UNAVAILABLE)) == Some(Unavailable)
    ensures Failure(Reply(INVALID_RANGE)) == Some(InvalidRange) && Failure(Reply(READ_ONLY)) == Some(InvalidRange)
    ensures Failure(Reply(NOT_FOUND)) == Some(InternalError) && Failure(Reply(INTERNAL)) == Some(InternalError)
    ensures Failure(Reply(INVALID_REQUEST)) == Some(InternalError)
  {
  }

  // ---- operations ----

  datatype Link = Link(adapter: Adapter, radio: Radio)

  datatype Done = Done(link: Link, code: Code)

  predicate WindowActive(a: Adapter, now: nat) {
    a.deadline != 0 && now < a.deadline
  }

  // What a channel command has to pass before the radio is asked.
  predicate PassesChecks(a: Adapter, i: int, f: int, gate: nat) {
    !WindowActive(a, gate) && i > 0 && f > 0 && (a.table != [] ==> ChannelOf(a.table, f).Some?)
  }

  function TableOf(a: Adapter, body: Body): seq<int> {
    var freqs := if body.Result? && body.value.Arr? then Table(body.value.items) else [];
    if freqs == [] then a.table else freqs
  }

  function Connected(l: Link, e: Env): Done {
    var profiles := Exchange(l.radio, SupportedProfiles, [], e.first);
    match Failure(profiles.answer)
    case Some(code) => Done(Link(l.adapter, profiles.radio), code)
    case None =>
      var flag := Exchange(profiles.radio, EnableMaxPower, [], e.second);
      var a := NoteFlag(l.adapter.(table := TableOf(l.adapter, profiles.answer.body)), flag.answer);
      Done(Link(a.(deadline := 0, status := Ready), flag.radio), Ok)
  }

  function PowerSet(l: Link, w: Watts, e: Env): Done {
    if WindowActive(l.adapter, e.gate) then Done(l.(adapter := l.adapter.(status := Recovering)), Code.Busy)
    else
      var flag := Exchange(l.radio, EnableMaxPower, [], e.first);
      var a := NoteFlag(l.adapter, flag.answer);
      if !a.manual then Done(Link(a, flag.radio), Code.Busy)
      else if Below(w, a.minPower) || Above(w, a.maxPower) then Done(Link(a, flag.radio), InvalidRange)
      else
        var sent := Exchange(flag.radio, PowerDbm, Texts([IntText(Round(w.level))]), e.second);
        match Failure(sent.answer)
        case Some(code) => Done(Link(a, sent.radio), code)
        case None => Done(Link(a.(power := Some(w), status := Ready), sent.radio), Ok)
  }

  function ChannelSet(l: Link, index: int, frequency: int, e: Env): Done {
    var a := l.adapter;
    if WindowActive(a, e.gate) then Done(l.(adapter := a.(status := Recovering)), Code.Busy)
    else if index <= 0 || frequency <= 0 then Done(l, InvalidRange)
    else if a.table != [] && ChannelOf(a.table, frequency).None? then Done(l, InvalidRange)
    else
      var sent := Exchange(l.radio, Freq, Texts([CompactText(frequency)]), e.first);
      match Failure(sent.answer)
      case Some(code) => Done(Link(a, sent.radio), code)
      case None =>
        var found := ChannelOf(a.table, frequency);
        Done(Link(a.(channel := Some(if found.Some? then found.value else index),
                     deadline := e.done + a.recovery, status := Recovering), sent.radio), Ok)
  }

  function Refreshed(l: Link, e: Env): Done {
    if WindowActive(l.adapter, e.gate) then Done(l.(adapter := l.adapter.(status := Recovering)), Code.Busy)
    else
      var power := Exchange(l.radio, PowerDbm, [], e.first);
      match Failure(power.answer)
      case Some(code) => Done(Link(l.adapter, power.radio), code)
      case None =>
        var dbm := ParsePower(power.answer.body);
        var a := l.adapter.(power := if dbm.Some? then Some(Dbm(dbm.value as real)) else None);
        var freq := Exchange(power.radio, Freq, [], e.second);
        match Failure(freq.answer)
        case Some(code) => Done(Link(a, freq.radio), code)
        case None =>
          var f := ParseFrequency(freq.answer.body);
          var a1 := a.(channel := if f.Some? then ChannelOf(a.table, f.value) else None);
          var flag := Exchange(freq.radio, EnableMaxPower, [], e.third);
          Done(Link(NoteFlag(a1, flag.answer).(deadline := 0, status := Ready), flag.radio), Ok)
  }

  // A new adapter: three default channels and the configured or default power limits.
  function NewAdapter(range: Option<(real, real)>, recovery: nat): Adapter {
    Adapter([2412 * MICRO, 2437 * MICRO, 2462 * MICRO],
            if range.Some? then range.value.0 else 0.0, if range.Some? then range.value.1 else 39.0,
            None, true, Offline, None, None, 0, recovery)
  }

  class SilvusAdapter {
    const radio: SilvusMock
    const minPower: real
    const maxPower: real
    const recoveryDuration: nat
    var supportedFrequencies: seq<int>
    var enableMaxPower: Option<bool>
    var manualPowerControl: bool
    var status: Status
    var channelIndex: Option<int>
    var powerWatts: Option<Watts>
    var recoveringUntil: nat

    constructor (endpoint: SilvusMock, range: Option<(real, real)>, recovery: nat)
      ensures radio == endpoint && Value() == NewAdapter(range, recovery)
    {
      radio := endpoint;
      minPower := if range.Some? then range.value.0 else 0.0;
      maxPower := if range.Some? then range.value.1 else 39.0;
      recoveryDuration := recovery;
      supportedFrequencies := [2412 * MICRO, 2437 * MICRO, 2462 * MICRO];
      enableMaxPower := None;
      manualPowerControl := true;
      status := Offline;
      channelIndex := None;
      powerWatts := None;
      recoveringUntil := 0;
    }

    ghost function Value(): Adapter
      reads this
    {
      Adapter(supportedFrequencies, minPower, maxPower, enableMaxPower, manualPowerControl,
              status, channelIndex, powerWatts, recoveringUntil, recoveryDuration)
    }

    ghost function Linked(): Link
      reads this, radio
    {
      Link(Value(), radio.Value())
    }

    // One request and its reply.
    method SendHttpPost(id: string, name: string, params: seq<string>, trip: Trip) returns (answer: Answer)
      modifies radio
      ensures Posted(radio.Value(), answer) == Exchange(old(radio.Value()), MethodOf(name), Texts(params), trip)
    {
      hide Serve, MethodOf, Classify, Request;
      ghost var start := radio.Value();
      var calls := trip.others;
      for i := 0 to |calls|
        invariant radio.Value() == Interfere(start, calls[..i])
      {
        assert calls[..i + 1][..i] == calls[..i];
        var _ := radio.Dispatch(calls[i].m, calls[i].params, calls[i].checked, calls[i].applied);
      }
      assert calls[..|calls|] == calls;
      if trip.fate.RequestLost? {
        return NoReply;
      }
      RequestIsCall(id, name, params);
      var outcome := radio.HandleJsonrpc(Request(id, name, params), trip.checked, trip.applied);
      match trip.fate {
        case Delivered => return Reply(outcome.response.body);
        case ReplyLost => return NoReply;
        case ReplyGarbled => return BadJson;
      }
    }

    method ReadEnableMaxPower(trip: Trip)
      modifies this`enableMaxPower, this`manualPowerControl, radio
      ensures var posted := Exchange(old(radio.Value()), EnableMaxPower, [], trip);
              radio.Value() == posted.radio && Value() == NoteFlag(old(Value()), posted.answer)
    {
      hide Exchange, ParseBoolean;
      var answer := SendHttpPost("enable_max_power", "enable_max_power", [], trip);
      if answer.Reply? {
        var flag := ParseBoolean(answer.body);
        if flag.Some? {
          enableMaxPower := flag;
          manualPowerControl := !flag.value;
        }
      }
    }

    method Connect(e: Env) returns (code: Code)
      modifies this, radio
      ensures Done(Linked(), code) == Connected(old(Linked()), e)
    {
      hide Exchange, NoteFlag, Table;
      var answer := SendHttpPost("1", "supported_frequency_profiles", [], e.first);
      var failure := Failure(answer);
      if failure.Some? {
        return failure.value;
      }
      var freqs := ParseSupportedFrequencies(if answer.body.Result? then Some(answer.body.value) else None);
      if freqs != [] {
        supportedFrequencies := freqs;
      }
      ReadEnableMaxPower(e.second);
      recoveringUntil := 0;
      status := Ready;
      return Ok;
    }

    method SetPower(watts: Watts, e: Env) returns (code: Code)
      modifies this, radio
      ensures Done(Linked(), code) == PowerSet(old(Linked()), watts, e)
    {
      hide Exchange, NoteFlag, IntText, Round;
      if recoveringUntil != 0 && e.gate < recoveringUntil {
        status := Recovering;
        return Code.Busy;
      }
      ReadEnableMaxPower(e.first);
      if !manualPowerControl {
        return Code.Busy;
      }
      if Below(watts, minPower) || Above(watts, maxPower) {
        return InvalidRange;
      }
      var dbm := Round(watts.level);
      var answer := SendHttpPost("1", "power_dBm", [IntText(dbm)], e.second);
      var failure := Failure(answer);
      if failure.Some? {
        return failure.value;
      }
      powerWatts := Some(watts);
      status := Ready;
      return Ok;
    }

    method SetChannel(index: int, frequency: int, e: Env) returns (code: Code)
      modifies this, radio
      ensures Done(Linked(), code) == ChannelSet(old(Linked()), index, frequency, e)
    {
      hide Exchange, CompactText, ChannelOf;
      if recoveringUntil != 0 && e.gate < recoveringUntil {
        status := Recovering;
        return Code.Busy;
      }
      if index <= 0 || frequency <= 0 {
        return InvalidRange;
      }
      var found := FindChannelIndex(supportedFrequencies, frequency);
      if supportedFrequencies != [] && found.None? {
        return InvalidRange;
      }
      var text := FormatSilvusNumber(frequency);
      var answer := SendHttpPost("1", "freq", [text], e.first);
      var failure := Failure(answer);
      if failure.Some? {
        return failure.value;
      }
      channelIndex := Some(if found.Some? then found.value else index);
      recoveringUntil := e.done + recoveryDuration;
      status := Recovering;
      return Ok;
    }

    method RefreshState(e: Env) returns (code: Code)
      modifies this, radio
      ensures Done(Linked(), code) == Refreshed(old(Linked()), e)
    {
      hide Exchange, NoteFlag, ParsePower, ParseFrequency, ChannelOf;
      if recoveringUntil != 0 && e.gate < recoveringUntil {
        status := Recovering;
        return Code.Busy;
      }
      var answer := SendHttpPost("1", "power_dBm", [], e.first);
      var failure := Failure(answer);
      if failure.Some? {
        return failure.value;
      }
      var dbm := ParsePower(answer.body);
      powerWatts := if dbm.Some? then Some(Dbm(dbm.value as real)) else None;
      answer := SendHttpPost("2", "freq", [], e.second);
      failure := Failure(answer);
      if failure.Some? {
        return failure.value;
      }
      var frequency := ParseFrequency(answer.body);
      if frequency.Some? {
        channelIndex := FindChannelIndex(supportedFrequencies, frequency.value);
      } else {
        channelIndex := None;
      }
      ReadEnableMaxPower(e.third);
      recoveringUntil := 0;
      status := Ready;
      return Ok;
    }
  }
}
