// The radio: a JSON-RPC server with a frequency, a power, a max-power flag and a blackout deadline.
// Time is a natural number of milliseconds; 0 is the clock's epoch.
module Radio {
  import opened Basics
  import opened ChannelTable
  import opened Decimal
  import opened FrequencyProfile
  import opened Json
  import opened Text

  // ---- requests and replies ----

  // Side covers the methods that neither read nor write anything tracked here: link distance, GPS
  // and the power in milliwatts.
  datatype Method =
    | Freq | PowerDbm | EnableMaxPower | SupportedProfiles | ReadPower
    | Zeroize | RadioReset | FactoryReset | Side | Unknown

  function MethodOf(name: string): Method {
    match name
    case "freq" => Freq
    case "power_dBm" => PowerDbm
    case "enable_max_power" => EnableMaxPower
    case "supported_frequency_profiles" => SupportedProfiles
    case "read_power_dBm" => ReadPower
    case "zeroize" => Zeroize
    case "radio_reset" => RadioReset
    case "factory_reset" => FactoryReset
    case "read_power_mw" => Side
    case "max_link_distance" => Side
    case "gps_coordinates" => Side
    case "gps_mode" => Side
    case "gps_time" => Side
    case _ => Unknown
  }

  datatype Body = Result(value: Json) | Error(code: int, message: string) | SideReply

  datatype Response = Response(body: Body, id: Json)

  // A request is answered, or handling it raises a JSON exception to the caller.
  datatype Outcome = Raised | Replied(response: Response)

  const INVALID_REQUEST := Error(-32600, "Invalid Request")
  const UNAVAILABLE := Error(-32000, "UNAVAILABLE")
  const INVALID_RANGE := Error(-32002, "INVALID_RANGE")
  const READ_ONLY := Error(-32602, "INVALID_RANGE")
  const NOT_FOUND := Error(-32601, "Method not found")
  const INTERNAL := Error(-32603, "Internal error")
  const DONE := Result(Arr([Str("")]))

  function One(text: string): Body {
    Result(Arr([Str(text)]))
  }

  // ---- state ----

  datatype Radio = Radio(
    freq: string, power: int, maxPower: bool, blackout: nat,
    softBoot: nat, powerPause: nat, resetTime: nat, profiles: seq<Profile>)

  datatype Served = Served(radio: Radio, body: Body)

  // The text of a parameter that is not a string. Arrays and objects only need to differ from every
  // number and flag, and null is neither.
  function Dump(j: Json): string {
    match j
    case Null => "null"
    case Bool(b) => if b then "true" else "false"
    case Int(n) => IntText(n)
    case Float(_, dumped) => dumped
    case Str(t) => t
    case Arr(_) => "["
    case Obj(_) => "{"
  }

  // A JSON integer read into a 32-bit int.
  function Wrap32(n: int): int {
    (n + 0x8000_0000) % 0x1_0000_0000 - 0x8000_0000
  }

  // A millionths value cut off towards zero.
  function Truncate(micro: int): int {
    if micro >= 0 then micro / MICRO else -(-micro / MICRO)
  }

  function AsInt(j: Json): Option<int> {
    match j
    case Int(n) => Some(Wrap32(n))
    case Float(micro, _) => Some(Truncate(micro))
    case Str(t) => ParseInt(t)
    case _ => None
  }

  predicate ValidFrequency(profiles: seq<Profile>, text: string) {
    match ParseDecimal(text)
    case Some(f) => Accepted(profiles, f)
    case None => false
  }

  // Handling of one well-formed call. The clock is read when availability is checked and again when
  // a blackout starts.
  function Serve(r: Radio, m: Method, params: seq<Json>, checked: nat, applied: nat): Served {
    if checked < r.blackout then Served(r, UNAVAILABLE)
    else
      match m
      case Freq =>
        if params == [] then Served(r, One(r.freq))
        else if !ValidFrequency(r.profiles, Dump(params[0])) then Served(r, INVALID_RANGE)
        else Served(r.(freq := Dump(params[0]), blackout := applied + r.softBoot), DONE)
      case PowerDbm =>
        if params == [] then Served(r, One(IntText(r.power)))
        else
          (match AsInt(params[0])
           case None => Served(r, INVALID_RANGE)
           case Some(power) =>
             if power < 0 || power > 39 then Served(r, INVALID_RANGE)
             else
               var r1 := if r.maxPower then r else r.(power := power);
               Served(if r.powerPause > 0 then r1.(blackout := applied + r.powerPause) else r1, DONE))
      case EnableMaxPower =>
        if params == [] then Served(r, One(if r.maxPower then "1" else "0"))
        else
          var value := Dump(params[0]);
          if value == "1" || value == "true" || value == "on" then Served(r.(maxPower := true), DONE)
          else if value == "0" || value == "false" || value == "off" then Served(r.(maxPower := false), DONE)
          else Served(r, INVALID_RANGE)
      case SupportedProfiles =>
        Served(r, if params != [] then READ_ONLY else Result(Arr(Published(r.profiles))))
      case ReadPower =>
        Served(r, if params != [] then READ_ONLY else One(IntText(r.power)))
      case Zeroize =>
        Served(r.(freq := "2490.0", power := 30, maxPower := false, blackout := 0), DONE)
      case RadioReset => Served(r.(blackout := applied + r.resetTime), DONE)
      case FactoryReset => Served(r.(freq := "2490.0", power := 30, maxPower := false), DONE)
      case Side => Served(r, SideReply)
      case Unknown => Served(r, NOT_FOUND)
  }

  // Serving this call starts a blackout: an accepted frequency change, a reset, or an accepted power
  // change on a radio that pauses for one.
  predicate Disrupts(r: Radio, m: Method, params: seq<Json>, checked: nat) {
    && r.blackout <= checked
    && match m
       case Freq => params != [] && ValidFrequency(r.profiles, Dump(params[0]))
       case PowerDbm =>
         r.powerPause > 0 && params != [] && AsInt(params[0]).Some? && 0 <= AsInt(params[0]).value <= 39
       case RadioReset => true
       case _ => false
  }

  // How long that blackout is.
  function Pause(r: Radio, m: Method): nat {
    match m
    case Freq => r.softBoot
    case PowerDbm => r.powerPause
    case _ => r.resetTime
  }

  // ---- JSON-RPC envelope ----

  datatype Incoming =
    | Unreadable                                        // looking at it raises
    | Invalid                                          // answered with Invalid Request, id null
    | BadMethod(id: Json)                              // method is not a string
    | Call(m: Method, params: seq<Json>, id: Json)

  function Params(fields: map<string, Json>): seq<Json> {
    if "params" !in fields then []
    else if fields["params"].Arr? then fields["params"].items
    else [fields["params"]]
  }

  // value("id", nullptr) raises on a non-object and on a present id that is not null;
  // value("jsonrpc", "") raises on a present version that is not a string.
  function Classify(req: Json): Incoming {
    if !req.Obj? then Unreadable
    else
      var fields := req.fields;
      if "jsonrpc" in fields && !fields["jsonrpc"].Str? then Unreadable
      else if "jsonrpc" !in fields || fields["jsonrpc"].text != "2.0" || "method" !in fields then
        if "id" in fields && fields["id"] != Null then Unreadable else Invalid
      else
        var id := if "id" in fields then fields["id"] else Null;
        if !fields["method"].Str? then BadMethod(id)
        else Call(MethodOf(fields["method"].text), Params(fields), id)
  }

  datatype Handled = Handled(radio: Radio, outcome: Outcome)

  function Handle(r: Radio, req: Json, checked: nat, applied: nat): (h: Handled)
    ensures h.outcome == Raised ==> h.radio == r
  {
    match Classify(req)
    case Unreadable => Handled(r, Raised)
    case Invalid => Handled(r, Replied(Response(INVALID_REQUEST, Null)))
    case BadMethod(id) => Handled(r, Replied(Response(INTERNAL, id)))
    case Call(m, params, id) =>
      var s := Serve(r, m, params, checked, applied);
      Handled(s.radio, Replied(Response(s.body, id)))
  }

  // ---- batches ----

  datatype Reading = Reading(checked: nat, applied: nat)

  // The reply to a parsed payload that is an array: the replies, or one internal error when some
  // element raises.
  datatype BatchReply = Replies(responses: seq<Response>) | Failed

  datatype Ran = Ran(radio: Radio, outcomes: seq<Outcome>)

  // The requests handled one by one, as if each had been sent alone.
  function OneByOne(r: Radio, reqs: seq<Json>, clock: seq<Reading>): (ran: Ran)
    requires |clock| == |reqs|
    ensures |ran.outcomes| == |reqs|
  {
    if reqs == [] then Ran(r, [])
    else
      var n := |reqs| - 1;
      var before := OneByOne(r, reqs[..n], clock[..n]);
      var h := Handle(before.radio, reqs[n], clock[n].checked, clock[n].applied);
      Ran(h.radio, before.outcomes + [h.outcome])
  }

  predicate FirstRaise(outcomes: seq<Outcome>, k: nat) {
    k < |outcomes| && outcomes[k] == Raised && forall j | 0 <= j < k :: outcomes[j] != Raised
  }

  class SilvusMock {
    var currentFrequency: string
    var currentPowerDbm: int
    var enableMaxPower: bool
    var blackoutUntil: nat
    const softBootDuration: nat
    const powerChangeDuration: nat
    const radioResetDuration: nat
    const profiles: seq<Profile>

    constructor ()
      ensures Value() == Radio("4700.0", 30, false, 0, 30_000, 0, 60_000, [
          Profile(["2200:20:2380", "4700"], "-1", "15"),
          Profile(["4420:40:4700"], "-1", "3"),
          Profile(["4700:20:4980"], "-1", "12")])
    {
      currentFrequency := "4700.0";
      currentPowerDbm := 30;
      enableMaxPower := false;
      blackoutUntil := 0;
      softBootDuration := 30_000;
      powerChangeDuration := 0;
      radioResetDuration := 60_000;
      profiles := [
        Profile(["2200:20:2380", "4700"], "-1", "15"),
        Profile(["4420:40:4700"], "-1", "3"),
        Profile(["4700:20:4980"], "-1", "12")];
    }

    ghost function Value(): Radio
      reads this
    {
      Radio(currentFrequency, currentPowerDbm, enableMaxPower, blackoutUntil,
            softBootDuration, powerChangeDuration, radioResetDuration, profiles)
    }

    method ValidateFrequency(freqStr: string) returns (ok: bool)
      ensures ok == ValidFrequency(profiles, freqStr)
    {
      hide ParseDecimal, Accepts, RadioSpec;
      var freq;
      match ParseDecimal(freqStr) {
        case Some(f) => freq := f;
        case None => return false;
      }
      for i := 0 to |profiles|
        invariant forall a, b | 0 <= a < i && 0 <= b < |profiles[a].frequencies| ::
          !Accepts(RadioSpec(profiles[a].frequencies[b]), freq)
      {
        for j := 0 to |profiles[i].frequencies|
          invariant forall b | 0 <= b < j :: !Accepts(RadioSpec(profiles[i].frequencies[b]), freq)
        {
          var matches := FrequencyMatchesProfile(freq, profiles[i].frequencies[j]);
          if matches {
            return true;
          }
        }
      }
      return false;
    }

    method Dispatch(m: Method, params: seq<Json>, checked: nat, applied: nat) returns (body: Body)
      modifies this
      ensures Served(Value(), body) == Serve(old(Value()), m, params, checked, applied)
    {
      hide ValidFrequency, IntText, ParseInt, Published, Wrap32, Truncate;
      if checked < blackoutUntil {
        return UNAVAILABLE;
      }
      match m {
        case Freq =>
          if params == [] {
            return One(currentFrequency);
          }
          var value := Dump(params[0]);
          var valid := ValidateFrequency(value);
          if !valid {
            return INVALID_RANGE;
          }
          currentFrequency := value;
          blackoutUntil := applied + softBootDuration;
          return DONE;
        case PowerDbm =>
          if params == [] {
            return One(IntText(currentPowerDbm));
          }
          var parsed := AsInt(params[0]);
          if parsed.None? {
            return INVALID_RANGE;
          }
          var power := parsed.value;
          if power < 0 || power > 39 {
            return INVALID_RANGE;
          }
          if !enableMaxPower {
            currentPowerDbm := power;
          }
          if powerChangeDuration > 0 {
            blackoutUntil := applied + powerChangeDuration;
          }
          return DONE;
        case EnableMaxPower =>
          if params == [] {
            return One(if enableMaxPower then "1" else "0");
          }
          var value := Dump(params[0]);
          if value == "1" || value == "true" || value == "on" {
            enableMaxPower := true;
            return DONE;
          }
          if value == "0" || value == "false" || value == "off" {
            enableMaxPower := false;
            return DONE;
          }
          return INVALID_RANGE;
        case SupportedProfiles =>
          return if params != [] then READ_ONLY else Result(Arr(Published(profiles)));
        case ReadPower =>
          return if params != [] then READ_ONLY else One(IntText(currentPowerDbm));
        case Zeroize =>
          currentFrequency, currentPowerDbm, enableMaxPower := "2490.0", 30, false;
          blackoutUntil := 0;
          return DONE;
        case RadioReset =>
          blackoutUntil := applied + radioResetDuration;
          return DONE;
        case FactoryReset =>
          currentFrequency, currentPowerDbm, enableMaxPower := "2490.0", 30, false;
          return DONE;
        case Side => return SideReply;
        case Unknown => return NOT_FOUND;
      }
    }

    method HandleJsonrpc(req: Json, checked: nat, applied: nat) returns (outcome: Outcome)
      modifies this
      ensures Handled(Value(), outcome) == Handle(old(Value()), req, checked, applied)
    {
      hide Serve, Classify;
      match Classify(req) {
        case Unreadable => return Raised;
        case Invalid => return Replied(Response(INVALID_REQUEST, Null));
        case BadMethod(id) => return Replied(Response(INTERNAL, id));
        case Call(m, params, id) =>
          var body := Dispatch(m, params, checked, applied);
          return Replied(Response(body, id));
      }
    }

    // An array payload: elements are handled in order until one raises; what the earlier ones did
    // stays done.
    method HandleBatch(reqs: seq<Json>, clock: seq<Reading>) returns (reply: BatchReply)
      requires |clock| == |reqs|
      modifies this
      ensures var ran := OneByOne(old(Value()), reqs, clock);
              if Raised in ran.outcomes
              then reply == Failed &&
                   exists k: nat ::
                     FirstRaise(ran.outcomes, k) && Value() == OneByOne(old(Value()), reqs[..k], clock[..k]).radio
              else reply.Replies? && Value() == ran.radio && |reply.responses| == |reqs| &&
                   forall i | 0 <= i < |reqs| :: ran.outcomes[i] == Replied(reply.responses[i])
    {
      hide Handle;
      ghost var start := Value();
      ghost var ran := OneByOne(start, reqs, clock);
      var responses: seq<Response> := [];
      for i := 0 to |reqs|
        invariant Value() == OneByOne(start, reqs[..i], clock[..i]).radio
        invariant |responses| == i
        invariant forall j | 0 <= j < i :: ran.outcomes[j] == Replied(responses[j])
      {
        OneByOnePrefix(start, reqs, clock, i);
        var outcome := HandleJsonrpc(reqs[i], clock[i].checked, clock[i].applied);
        if outcome.Raised? {
          assert FirstRaise(ran.outcomes, i);
          return Failed;
        }
        responses := responses + [outcome.response];
      }
      assert reqs[..|reqs|] == reqs && clock[..|reqs|] == clock;
      return Replies(responses);
    }
  }

  lemma {:induction false} OneByOnePrefix(r: Radio, reqs: seq<Json>, clock: seq<Reading>, i: nat)
    requires |clock| == |reqs| && i < |reqs|
    ensures var before := OneByOne(r, reqs[..i], clock[..i]);
            var h := Handle(before.radio, reqs[i], clock[i].checked, clock[i].applied);
            && OneByOne(r, reqs[..i + 1], clock[..i + 1]) == Ran(h.radio, before.outcomes + [h.outcome])
            && OneByOne(r, reqs, clock).outcomes[i] == h.outcome
    decreases |reqs|
  {
    hide Handle;
    var n := |reqs| - 1;
    assert reqs[..i + 1][..i] == reqs[..i] && clock[..i + 1][..i] == clock[..i];
    if i == n {
      assert reqs[..i + 1] == reqs && clock[..i + 1] == clock;
    } else {
      OneByOnePrefix(r, reqs[..n], clock[..n], i);
      assert reqs[..n][..i] == reqs[..i] && clock[..n][..i] == clock[..i];
    }
  }

  // ---- what a blackout does ----

  predicate WellFormedRequest(req: Json) {
    Classify(req).Call?
  }

  // The id a reply must repeat: null when the request has none.
  function RequestId(req: Json): Json {
    if req.Obj? && "id" in req.fields then req.fields["id"] else Null
  }

  // Well-formed requests never raise, and each reply carries the id of its own request.
  lemma RepliesKeepIds(r: Radio, reqs: seq<Json>, clock: seq<Reading>, i: nat)
    requires |clock| == |reqs| && i < |reqs| && WellFormedRequest(reqs[i])
    ensures var o := OneByOne(r, reqs, clock).outcomes[i];
            o.Replied? && o.response.id == RequestId(reqs[i])
  {
    hide Serve, MethodOf, OneByOne;
    OneByOnePrefix(r, reqs, clock, i);
  }

  // The reply to any readable request: its own id once version and method are there, even when the method
  // is not a string, and null before.
  lemma ReplyIds(r: Radio, req: Json, t: Reading)
    ensures var o := Handle(r, req, t.checked, t.applied).outcome;
            o.Replied? ==>
              && req.Obj?
              && var f := req.fields;
                 if "jsonrpc" in f && f["jsonrpc"] == Str("2.0") && "method" in f
                 then && o.response.id == RequestId(req)
                      && (!f["method"].Str? ==> o.response.body == INTERNAL)
                 else o.response == Response(INVALID_REQUEST, Null)
  {
    hide Serve, MethodOf;
  }

  // A batch is answered with one internal error exactly when it holds an element that cannot be
  // read as a request object; the radio's state plays no part in it.
  lemma BatchFailsExactly(r: Radio, reqs: seq<Json>, clock: seq<Reading>)
    requires |clock| == |reqs|
    ensures Raised in OneByOne(r, reqs, clock).outcomes
       <==> exists i :: 0 <= i < |reqs| && Classify(reqs[i]).Unreadable?
  {
    hide Serve, Classify, OneByOne;
    forall i | 0 <= i < |reqs|
      ensures OneByOne(r, reqs, clock).outcomes[i] == Raised <==> Classify(reqs[i]).Unreadable?
    {
      OneByOnePrefix(r, reqs, clock, i);
    }
  }

  // What a blackout answers to a request: UNAVAILABLE to every well-formed one.
  function DuringBlackout(req: Json): Outcome {
    match Classify(req)
    case Unreadable => Raised
    case Invalid => Replied(Response(INVALID_REQUEST, Null))
    case BadMethod(id) => Replied(Response(INTERNAL, id))
    case Call(_, _, id) => Replied(Response(UNAVAILABLE, id))
  }

  // While a blackout lasts nothing changes the radio, whatever is asked: zeroize and a reset
  // included.
  lemma {:induction false} BlackoutFreezes(r: Radio, reqs: seq<Json>, clock: seq<Reading>)
    requires |clock| == |reqs| && forall t | t in clock :: t.checked < r.blackout
    ensures var ran := OneByOne(r, reqs, clock);
            ran.radio == r && forall i | 0 <= i < |reqs| :: ran.outcomes[i] == DuringBlackout(reqs[i])
  {
    hide Classify;
    if reqs != [] {
      var n := |reqs| - 1;
      BlackoutFreezes(r, reqs[..n], clock[..n]);
    }
  }

  lemma {:induction false} OneByOneSplit(r: Radio, reqs: seq<Json>, clock: seq<Reading>, k: nat)
    requires |clock| == |reqs| && k <= |reqs|
    ensures var head := OneByOne(r, reqs[..k], clock[..k]);
            var tail := OneByOne(head.radio, reqs[k..], clock[k..]);
            OneByOne(r, reqs, clock) == Ran(tail.radio, head.outcomes + tail.outcomes)
    decreases |reqs|
  {
    hide OneByOne, Handle;
    if k == |reqs| {
      assert reqs[..k] == reqs && clock[..k] == clock;
      OneByOneNothing(OneByOne(r, reqs, clock).radio, reqs[k..], clock[k..]);
    } else {
      var n := |reqs| - 1;
      OneByOneSplit(r, reqs[..n], clock[..n], k);
      assert reqs[..n][..k] == reqs[..k] && clock[..n][..k] == clock[..k];
      var tail, times := reqs[k..], clock[k..];
      assert reqs[..n][k..] == tail[..n - k] && clock[..n][k..] == times[..n - k];
      OneByOneLast(r, reqs, clock);
      OneByOneLast(OneByOne(r, reqs[..k], clock[..k]).radio, tail, times);
    }
  }

  lemma OneByOneNothing(r: Radio, reqs: seq<Json>, clock: seq<Reading>)
    requires reqs == [] && clock == []
    ensures OneByOne(r, reqs, clock) == Ran(r, [])
  {
  }

  lemma OneByOneLast(r: Radio, reqs: seq<Json>, clock: seq<Reading>)
    requires |clock| == |reqs| > 0
    ensures var n := |reqs| - 1;
            var before := OneByOne(r, reqs[..n], clock[..n]);
            var h := Handle(before.radio, reqs[n], clock[n].checked, clock[n].applied);
            OneByOne(r, reqs, clock) == Ran(h.radio, before.outcomes + [h.outcome])
  {
  }

  // The request is such a call.
  predicate StartsBlackout(r: Radio, req: Json, t: Reading) {
    Classify(req).Call? && Disrupts(r, Classify(req).m, Classify(req).params, t.checked)
  }

  lemma BlackoutStarts(r: Radio, req: Json, t: Reading)
    requires StartsBlackout(r, req, t)
    ensures Handle(r, req, t.checked, t.applied).radio.blackout == t.applied + Pause(r, Classify(req).m)
  {
    hide Classify, ValidFrequency, Dump, AsInt;
  }

  // After an accepted frequency change, reset or pausing power change in a batch, every later element
  // handled inside the window leaves the radio, its deadline included, as that element left it.
  lemma DisruptionSilencesRest(r: Radio, reqs: seq<Json>, clock: seq<Reading>, k: nat)
    requires |clock| == |reqs| && k < |reqs|
    requires var before := OneByOne(r, reqs[..k], clock[..k]).radio;
             && StartsBlackout(before, reqs[k], clock[k])
             && forall j | k < j < |reqs| :: clock[j].checked < clock[k].applied + Pause(before, Classify(reqs[k]).m)
    ensures OneByOne(r, reqs, clock).radio == OneByOne(r, reqs[..k + 1], clock[..k + 1]).radio
    ensures forall j | k < j < |reqs| :: OneByOne(r, reqs, clock).outcomes[j] == DuringBlackout(reqs[j])
  {
    hide Classify, DuringBlackout, OneByOne, Handle, StartsBlackout, Pause;
    OneByOnePrefix(r, reqs, clock, k);
    BlackoutStarts(OneByOne(r, reqs[..k], clock[..k]).radio, reqs[k], clock[k]);
    OneByOneSplit(r, reqs, clock, k + 1);
    var after := OneByOne(r, reqs[..k + 1], clock[..k + 1]).radio;
    BlackoutFreezes(after, reqs[k + 1..], clock[k + 1..]);
  }

  // ---- what the radio's settings mean ----

  // A frequency is taken exactly when some entry accepts the number it reads as, and then reads back as
  // the text given; otherwise nothing changes.
  lemma FrequencySetting(r: Radio, value: Json, t: Reading, t2: Reading)
    requires r.blackout <= t.checked
    ensures var s := Serve(r, Freq, [value], t.checked, t.applied);
            && s.body == (if ValidFrequency(r.profiles, Dump(value)) then DONE else INVALID_RANGE)
            && (s.body != DONE ==> s.radio == r)
            && (s.radio.blackout <= t2.checked ==>
                  Serve(s.radio, Freq, [], t2.checked, t2.applied)
                  == Served(s.radio, One(if s.body == DONE then Dump(value) else r.freq)))
  {
    hide ValidFrequency, Dump;
  }

  // A power is taken exactly when it is an integer in 0..39; it reads back unless the radio is at maximum
  // power, where it is acknowledged and ignored.
  lemma PowerSetting(r: Radio, value: Json, t: Reading, t2: Reading)
    requires r.blackout <= t.checked
    ensures var s := Serve(r, PowerDbm, [value], t.checked, t.applied);
            && (s.body == DONE <==> exists k :: 0 <= k <= 39 && AsInt(value) == Some(k))
            && (s.body != DONE ==> s.body == INVALID_RANGE && s.radio == r)
            && (s.radio.blackout <= t2.checked ==> forall k | AsInt(value) == Some(k) ::
                  var text := IntText(if s.body == DONE && !r.maxPower then k else r.power);
                  && Serve(s.radio, PowerDbm, [], t2.checked, t2.applied) == Served(s.radio, One(text))
                  && Serve(s.radio, ReadPower, [], t2.checked, t2.applied) == Served(s.radio, One(text)))
  {
    hide AsInt, IntText;
  }

  // The max-power flag is set by 1, true and on, cleared by 0, false and off, and left alone by all else.
  lemma FlagSetting(r: Radio, value: Json, t: Reading, t2: Reading)
    requires r.blackout <= t.checked
    ensures var s := Serve(r, EnableMaxPower, [value], t.checked, t.applied);
            var sets := Dump(value) in {"1", "true", "on"};
            var clears := Dump(value) in {"0", "false", "off"};
            && s.body == (if sets || clears then DONE else INVALID_RANGE)
            && s.radio == r.(maxPower := s.radio.maxPower)
            && s.radio.maxPower == (sets || (!clears && r.maxPower))
            && (s.radio.blackout <= t2.checked ==>
                  Serve(s.radio, EnableMaxPower, [], t2.checked, t2.applied)
                  == Served(s.radio, One(if s.radio.maxPower then "1" else "0")))
  {
    hide Dump;
  }

  // How a parameter is read as an integer: text as printed, a number of 32 bits as itself, a fraction cut
  // off towards zero.
  lemma IntegerParameter(n: int, micro: int, dumped: string)
    ensures AsInt(Str(IntText(n))) == Some(n)
    ensures -0x8000_0000 <= n < 0x8000_0000 ==> AsInt(Int(n)) == Some(n)
    ensures var k := AsInt(Float(micro, dumped)).value;
            if micro >= 0 then k * MICRO <= micro < (k + 1) * MICRO else (k - 1) * MICRO < micro <= k * MICRO
    ensures Dump(Int(n)) == IntText(n) && Dump(Str(IntText(n))) == IntText(n)
  {
    hide IntText, ParseInt;
    IntTextRoundTrip(n);
  }

  // Which requests are calls: objects with version 2.0 and a method that is a string, whatever their id.
  // Parameters that are not an array count as one.
  lemma CallMeaning(req: Json)
    ensures Classify(req).Call?
       <==> && req.Obj? && "jsonrpc" in req.fields && req.fields["jsonrpc"] == Str("2.0")
            && "method" in req.fields && req.fields["method"].Str?
    ensures Classify(req).Call? ==>
              var f := req.fields;
              && Classify(req).m == MethodOf(f["method"].text) && Classify(req).id == RequestId(req)
              && ("params" !in f ==> Classify(req).params == [])
              && ("params" in f ==>
                    if f["params"].Arr? then Arr(Classify(req).params) == f["params"]
                    else Classify(req).params == [f["params"]])
    ensures Classify(req).Unreadable?
       <==> || !req.Obj?
            || ("jsonrpc" in req.fields && !req.fields["jsonrpc"].Str?)
            || (RequestId(req) != Null && ("jsonrpc" !in req.fields || req.fields["jsonrpc"] != Str("2.0")
                                           || "method" !in req.fields))
  {
    hide MethodOf;
  }

  // The methods by name.
  lemma MethodNames()
    ensures MethodOf("freq") == Freq && MethodOf("power_dBm") == PowerDbm
    ensures MethodOf("enable_max_power") == EnableMaxPower
    ensures MethodOf("supported_frequency_profiles") == SupportedProfiles && MethodOf("read_power_dBm") == ReadPower
    ensures MethodOf("zeroize") == Zeroize && MethodOf("radio_reset") == RadioReset
    ensures MethodOf("factory_reset") == FactoryReset
  {
  }

  // Both resets restore the factory settings; zeroize leaves no blackout, and only reset starts one.
  lemma FactorySettings(r: Radio, m: Method, params: seq<Json>, t: Reading)
    requires r.blackout <= t.checked && (m.Zeroize? || m.FactoryReset? || m.RadioReset?)
    ensures var s := Serve(r, m, params, t.checked, t.applied);
            && s.body == DONE
            && s.radio == (if m.RadioReset? then r.(blackout := t.applied + r.resetTime)
                           else r.(freq := "2490.0", power := 30, maxPower := false,
                                   blackout := if m.Zeroize? then 0 else r.blackout))
  {
  }

  // A request that is answered with an error has changed nothing, and no read changes anything.
  lemma RefusedChangesNothing(r: Radio, m: Method, params: seq<Json>, t: Reading)
    ensures var s := Serve(r, m, params, t.checked, t.applied);
            && (s.body.Error? ==> s.radio == r)
            && (params == [] && !m.Zeroize? && !m.FactoryReset? && !m.RadioReset? ==> s.radio == r)
            && (params != [] && (m.SupportedProfiles? || m.ReadPower?) && r.blackout <= t.checked ==>
                  s.body == READ_ONLY)
            && (m.Unknown? && r.blackout <= t.checked ==> s.body == NOT_FOUND)
  {
    hide ValidFrequency, AsInt, Dump, IntText;
  }

  // The power stays in 0..39, and the frequency is one the radio accepts or the one it resets to.
  predicate InRange(r: Radio) {
    0 <= r.power <= 39 && (ValidFrequency(r.profiles, r.freq) || r.freq == "2490.0")
  }

  lemma ServeInRange(r: Radio, m: Method, params: seq<Json>, checked: nat, applied: nat)
    requires InRange(r)
    ensures var r1 := Serve(r, m, params, checked, applied).radio;
            InRange(r1) && r1.profiles == r.profiles
  {
    hide ValidFrequency, AsInt, Dump, IntText;
  }

  // Over any requests, well-formed or not.
  lemma {:induction false} RequestsInRange(r: Radio, reqs: seq<Json>, clock: seq<Reading>)
    requires |clock| == |reqs| && InRange(r)
    ensures InRange(OneByOne(r, reqs, clock).radio) && OneByOne(r, reqs, clock).radio.profiles == r.profiles
  {
    hide InRange, Serve, Classify;
    if reqs != [] {
      var n := |reqs| - 1;
      RequestsInRange(r, reqs[..n], clock[..n]);
      var before := OneByOne(r, reqs[..n], clock[..n]).radio;
      if Classify(reqs[n]).Call? {
        ServeInRange(before, Classify(reqs[n]).m, Classify(reqs[n]).params, clock[n].checked, clock[n].applied);
      }
    }
  }
}
