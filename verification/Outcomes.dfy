// What each command and each northbound request comes to, through gateway, orchestrator, adapter and
// radio: the answer, the radio's new setting, the events and the audit record.
module Outcomes {
  import opened Basics
  import opened ChannelTable
  import opened Decimal
  import opened Json
  import opened Power
  import opened Radio
  import opened Adapter
  import opened Protocol
  import opened Coherence
  import opened Orchestrator
  import opened Replica
  import opened Gateway
  import opened Text
  import T = Telemetry

  // ---- unknown radios and the active radio ----

  // A command is answered NotFound exactly when its radio is unknown, and then nothing but the audit
  // log changes, whatever the action.
  lemma NotFoundExactly(s: System, c: Command)
    ensures Execute(s, c).code == NotFound <==> c.radioId !in s.fleet
    ensures c.radioId !in s.fleet ==> Execute(s, c).system == s.(audit := Execute(s, c).system.audit)
  {
    hide Exchange, NoteFlag, Below, Above, ChannelOf, T.NormalizeStatus, T.StatusText, T.PowerDbmJson, FrequencyAt;
  }

  // Selecting a known radio makes it the active one; no other command touches the choice.
  predicate Selects(s: System, c: Command) {
    c.action.SelectRadio? && c.radioId in s.fleet
  }

  lemma SelectOutcome(s: System, c: Command)
    ensures Execute(s, c).system.fleet.Keys == s.fleet.Keys
    ensures Execute(s, c).system.active == if Selects(s, c) then Some(c.radioId) else s.active
    ensures c.action.SelectRadio? ==>
              && Execute(s, c).code == (if Selects(s, c) then Ok else NotFound)
              && Execute(s, c).system.fleet == s.fleet && Execute(s, c).system.hub == s.hub
  {
    hide PowerSet, ChannelSet, Below, Above, T.NormalizeStatus, T.StatusText, T.PowerDbmJson, FrequencyAt;
  }

  lemma {:induction false} KeysKept(s: System, cmds: seq<Command>)
    ensures RunAll(s, cmds).fleet.Keys == s.fleet.Keys
  {
    hide Execute;
    if cmds != [] {
      KeysKept(s, cmds[..|cmds| - 1]);
      SelectOutcome(RunAll(s, cmds[..|cmds| - 1]), cmds[|cmds| - 1]);
    }
  }

  // After any run the active radio is the one of the last successful selection.
  lemma {:induction false} ActiveRadio(s: System, cmds: seq<Command>, i: nat)
    requires i < |cmds| && Selects(s, cmds[i]) && forall j | i < j < |cmds| :: !Selects(s, cmds[j])
    ensures RunAll(s, cmds).active == Some(cmds[i].radioId)
  {
    hide Execute;
    var n := |cmds| - 1;
    KeysKept(s, cmds[..n]);
    SelectOutcome(RunAll(s, cmds[..n]), cmds[n]);
    if i < n {
      ActiveRadio(s, cmds[..n], i);
    }
  }

  // Without one it is the radio that was active before.
  lemma {:induction false} NeverSelected(s: System, cmds: seq<Command>)
    requires forall j | 0 <= j < |cmds| :: !Selects(s, cmds[j])
    ensures RunAll(s, cmds).active == s.active
  {
    hide Execute;
    if cmds != [] {
      var n := |cmds| - 1;
      KeysKept(s, cmds[..n]);
      NeverSelected(s, cmds[..n]);
      SelectOutcome(RunAll(s, cmds[..n]), cmds[n]);
    }
  }

  // ---- the audit log ----

  // The record says Ok exactly when the command succeeded, and otherwise names the failure; an unknown
  // radio is recorded as an internal error.
  predicate Tells(result: Code, code: Code) {
    match code
    case NotFound => result == InternalError
    case _ => result == code
  }

  // Over any run the i-th new record tells how the i-th command ended.
  lemma AuditTruthful(s: System, cmds: seq<Command>, i: nat)
    requires i < |cmds|
    ensures var log := RunAll(s, cmds).audit;
            var code := Execute(RunAll(s, cmds[..i]), cmds[i]).code;
            && |log| == |s.audit| + |cmds| && s.audit <= log
            && var record := log[|s.audit| + i];
               && record.action == cmds[i].action && record.radioId == cmds[i].radioId
               && Tells(record.result, code) && (record.result == Ok <==> code == Ok)
  {
    hide RunAll, Execute;
    CommandAccounting(s, cmds);
    assert RunAll(s, cmds).audit[|s.audit| + i] == Records(s, cmds, |cmds|)[i] == RecordOf(s, cmds, i);
  }

  // ---- commands ----

  // A power command of the only client of a known radio.
  lemma PowerOutcome(s: System, c: Command, w: Watts)
    requires c.action == Action.SetPower(w) && c.radioId in s.fleet && Alone(c.env)
    requires Limits(s.fleet[c.radioId].adapter)
    ensures var l := s.fleet[c.radioId];
            var x := Execute(s, c);
            var e := c.env;
            var manual := if Arrives(l.radio, e.first) then !l.radio.maxPower else l.adapter.manual;
            && x.code == (if Below(w, l.adapter.minPower) || Above(w, l.adapter.maxPower) then InvalidRange
                          else if WindowActive(l.adapter, e.gate) || !manual then Code.Busy
                          else if Arrives(l.radio, e.second) then Ok else Unheard(e.second))
            && (x.code == Ok ==> w.Dbm? && SendsPower(l, w, e) && 0 <= Round(w.level) <= 39)
            && c.radioId in x.system.fleet
            && var l1 := x.system.fleet[c.radioId];
               && l1.adapter.power == (if x.code == Ok then Some(w) else l.adapter.power)
               && l1.radio.power == (if SendsPower(l, w, e) && !l.radio.maxPower
                                        && (Arrives(l.radio, e.second) || Unanswered(l.radio, e.second))
                                     then Round(w.level) else l.radio.power)
               && l1.radio.freq == l.radio.freq && l1.adapter.channel == l.adapter.channel
  {
    hide PowerSet, Arrives, Limits, Round, Unanswered, T.NormalizeStatus, T.StatusText, T.PowerDbmJson, FrequencyAt;
    PowerDecision(s.fleet[c.radioId], w, c.env);
  }

  // A channel command of the only client of a known radio.
  lemma ChannelOutcome(s: System, c: Command, i: int)
    requires c.action == Action.SetChannel(i) && c.radioId in s.fleet && Alone(c.env)
    requires var t := s.fleet[c.radioId].adapter.table; t != [] && StrictlyIncreasing(t)
    ensures var l := s.fleet[c.radioId];
            var t := l.adapter.table;
            var x := Execute(s, c);
            var e := c.env;
            && x.code == (if i < 1 || i > |t| then InvalidRange
                          else if WindowActive(l.adapter, e.gate) then Code.Busy
                          else if t[i - 1] <= 0 then InvalidRange
                          else if !Arrives(l.radio, e.first) then Unheard(e.first)
                          else if !Accepted(l.radio.profiles, t[i - 1]) then InvalidRange else Ok)
            && c.radioId in x.system.fleet
            && var l1 := x.system.fleet[c.radioId];
               && l1.adapter.table == t && l1.radio.power == l.radio.power && l1.adapter.power == l.adapter.power
               && (x.code == Ok ==>
                     && 1 <= i <= |t| && ParseDecimal(l1.radio.freq) == Some(t[i - 1])
                     && l1.radio.blackout == e.first.applied + l.radio.softBoot
                     && l1.adapter.deadline == e.done + l.adapter.recovery
                     && l1.adapter.channel.Some? && 1 <= l1.adapter.channel.value <= i
                     && (l1.adapter.channel.value == i <==> (i == 1 || t[i - 1] - t[i - 2] >= TOLERANCE)))
               && (x.code != Ok ==> l1.adapter.channel == l.adapter.channel)
  {
    hide ChannelSet, Arrives, Accepted, CompactText, ParseDecimal, ChannelOf, Unanswered, T.NormalizeStatus;
    hide T.StatusText, T.PowerDbmJson;
    var l := s.fleet[c.radioId];
    var t := l.adapter.table;
    if 1 <= i <= |t| {
      ChannelDecision(l, i, t[i - 1], c.env);
      LookupOwnFrequency(t, i);
      CompactTextRoundTrip(t[i - 1]);
    }
  }

  // ---- what a request body asks for ----

  // The body has this field, a number worth micro millionths.
  predicate NumberField(body: Json, name: string, micro: int) {
    && body.Obj? && name in body.fields
    && match body.fields[name]
       case Int(n) => micro == n * MICRO
       case Float(m, _) => micro == m
       case _ => false
  }

  predicate NoNumber(body: Json, name: string) {
    body.Obj? && name in body.fields ==> !body.fields[name].Int? && !body.fields[name].Float?
  }

  // A power body is refused for exactly one of two reasons; otherwise it asks for its own level.
  lemma PowerBody(body: Json, micro: int)
    ensures CheckPower(body) == Refused(BadRequest) <==> NoNumber(body, "powerDbm")
    ensures NumberField(body, "powerDbm", micro) ==>
              if 0 <= micro <= 39 * MICRO
              then CheckPower(body) == Passed(Dbm(micro as real / MICRO as real))
              else CheckPower(body) == Refused(OutOfRange)
  {
  }

  // The channel index of a body, as a 32-bit integer.
  predicate IndexField(body: Json, index: int) {
    && body.Obj? && "channelIndex" in body.fields && body.fields["channelIndex"].Int?
    && -0x8000_0000 <= index < 0x8000_0000 && (body.fields["channelIndex"].n - index) % 0x1_0000_0000 == 0
  }

  predicate NoIndex(body: Json) {
    body.Obj? && "channelIndex" in body.fields ==> !body.fields["channelIndex"].Int?
  }

  // Channel k is what the body asks for and shown is the frequency the answer names: an index must be
  // k; a frequency must lie near channel k and near none before it; the answer repeats the frequency
  // given, or else names the channel's own.
  predicate Picks(body: Json, t: seq<int>, k: int, shown: int) {
    && 1 <= k <= |t|
    && (NoIndex(body) ==> !NoNumber(body, "frequencyMhz"))
    && (!NoIndex(body) ==> IndexField(body, k))
    && (NoNumber(body, "frequencyMhz") ==> shown == t[k - 1])
    && (!NoNumber(body, "frequencyMhz") ==>
          && NumberField(body, "frequencyMhz", shown) && Near(t[k - 1], shown)
          && forall j | 0 <= j < k - 1 :: !Near(t[j], shown))
  }

  lemma WrapUnique(n: int, index: int)
    ensures Wrap32(n) == index <==> -0x8000_0000 <= index < 0x8000_0000 && (n - index) % 0x1_0000_0000 == 0
  {
  }

  // A channel body is refused when it names neither, when the radio is unknown, or when it picks no
  // channel; otherwise what passes is the one channel and frequency it picks.
  lemma ChannelBody(body: Json, t: seq<int>, k: int, shown: int)
    ensures CheckChannel(body, Some(t)) == Passed((k, shown)) <==> Picks(body, t, k, shown)
    ensures CheckChannel(body, None).Refused?
    ensures forall table :: CheckChannel(body, table) == Refused(BadRequest)
                       <==> NoIndex(body) && NoNumber(body, "frequencyMhz")
    ensures CheckChannel(body, Some(t)) != Refused(UnknownRadio)
    ensures !(NoIndex(body) && NoNumber(body, "frequencyMhz")) ==> CheckChannel(body, None) == Refused(UnknownRadio)
  {
    hide Wrap32, ChannelOf;
    if body.Obj? && "channelIndex" in body.fields && body.fields["channelIndex"].Int? {
      WrapUnique(body.fields["channelIndex"].n, k);
    }
  }

  // ---- requests ----

  // What is left of a command that failed: nothing but its audit record.
  predicate OnlyAudited(s: System, s1: System, action: Action, id: string, code: Code) {
    && s1.hub == s.hub && s1.active == s.active && s1.fleet.Keys == s.fleet.Keys
    && |s1.audit| == |s.audit| + 1 && s.audit <= s1.audit
    && var record := s1.audit[|s.audit|];
       record.action == action && record.radioId == id && Tells(record.result, code)
  }

  // What a command that succeeded leaves: an audit record and its two events, of which the second shows
  // the view REST reports, with the channel and frequency given.
  predicate Announced(s: System, s1: System, action: Action, id: string, change: T.Event, state: T.Event) {
    && s1.audit == s.audit + [AuditRecord(action, id, Ok)] && s1.hub.log == s.hub.log + [change, state]
    && s1.active == s.active && s1.fleet.Keys == s.fleet.Keys
  }

  lemma CommandLeaves(s: System, c: Command, now: nat)
    requires FleetSound(s.fleet, now) && now <= c.env.gate && !c.action.SelectRadio?
    ensures var x := Execute(s, c);
            if x.code != Ok then OnlyAudited(s, x.system, c.action, c.radioId, x.code)
            else |EventsOf(s, c)| == 2
                 && Announced(s, x.system, c.action, c.radioId, EventsOf(s, c)[0], EventsOf(s, c)[1])
  {
    hide Execute, FleetSound, EventsOf;
    SelectOutcome(s, c);
    OneRecord(s, c);
    CommandEmits(s, c, now);
    LogPieces(s, s, c);
    if Execute(s, c).code != Ok {
      FailureChangesNothing(s, c, now);
    } else {
      assert EventsOf(s, c) == [EventsOf(s, c)[0], EventsOf(s, c)[1]];
    }
  }

  // A power request, from body to radio. A refusal leaves the system alone. The answer with a level
  // comes exactly when the write arrived, and then that level is the one asked for, the radio and the
  // events have it rounded, and REST reports the same. Any other failure leaves only its audit record.
  lemma PowerRequest(s: System, id: string, body: Json, e: Env, now: nat, micro: int)
    requires FleetSound(s.fleet, now) && now <= e.gate && Alone(e)
    requires id in s.fleet ==> Limits(s.fleet[id].adapter)
    requires NumberField(body, "powerDbm", micro)
    ensures var level := micro as real / MICRO as real;
            var w := Dbm(level);
            var a := PowerAnswered(s, id, body, e);
            if !(0 <= micro <= 39 * MICRO) then a == Answered(s, Declined(OutOfRange))
            else
              && (a.reply == PowerReply(level)
                  <==> id in s.fleet && SendsPower(s.fleet[id], w, e) && Arrives(s.fleet[id].radio, e.second))
              && (a.reply != PowerReply(level) ==>
                    && a.reply.NotDone? && a.reply.code != Ok
                    && OnlyAudited(s, a.system, Action.SetPower(w), id, a.reply.code)
                    && (a.reply.code == NotFound <==> id !in s.fleet))
              && (a.reply == PowerReply(level) ==>
                    && id in a.system.fleet
                    && var l1 := a.system.fleet[id];
                       && (!s.fleet[id].radio.maxPower ==> l1.radio.power == Round(level))
                       && RestView(l1).powerDbm == Some(Round(level))
                       && Announced(s, a.system, Action.SetPower(w), id, T.PowerChanged(id, Some(Round(level))),
                                    T.State(id, RestView(l1), l1.adapter.channel)))
  {
    hide CheckPower, Execute, FleetSound, RestView, Round, Arrives, Limits, OnlyAudited, Announced, Tells;
    PowerBody(body, micro);
    if 0 <= micro <= 39 * MICRO {
      var w := Dbm(micro as real / MICRO as real);
      var c := Command(Action.SetPower(w), id, e);
      NotFoundExactly(s, c);
      CommandLeaves(s, c, now);
      CommandEmits(s, c, now);
      if id in s.fleet {
        PowerOutcome(s, c, w);
      }
    }
  }

  // A body without a usable number is refused.
  lemma PowerRequestMalformed(s: System, id: string, body: Json, e: Env)
    requires NoNumber(body, "powerDbm")
    ensures PowerAnswered(s, id, body, e) == Answered(s, Declined(BadRequest))
  {
    PowerBody(body, 0);
  }

  // A channel request, from body to radio, for the channel and frequency it picks.
  lemma ChannelRequest(s: System, id: string, body: Json, e: Env, now: nat, k: int, shown: int)
    requires FleetSound(s.fleet, now) && now <= e.gate && Alone(e)
    requires id in s.fleet && Picks(body, s.fleet[id].adapter.table, k, shown)
    ensures var l := s.fleet[id];
            var t := l.adapter.table;
            var answer := if shown > 0 then Some(shown) else None;
            var a := ChannelAnswered(s, id, body, e);
            && (a.reply == ChannelReply(k, answer)
                <==> !WindowActive(l.adapter, e.gate) && t[k - 1] > 0 && Arrives(l.radio, e.first)
                     && Accepted(l.radio.profiles, t[k - 1]))
            && (a.reply != ChannelReply(k, answer) ==>
                  && a.reply.NotDone? && a.reply.code != Ok && a.reply.code != NotFound
                  && OnlyAudited(s, a.system, Action.SetChannel(k), id, a.reply.code))
            && (a.reply == ChannelReply(k, answer) ==>
                  && id in a.system.fleet
                  && var l1 := a.system.fleet[id];
                     && ParseDecimal(l1.radio.freq) == Some(t[k - 1])
                     && l1.radio.blackout == e.first.applied + l.radio.softBoot
                     && Announced(s, a.system, Action.SetChannel(k), id, T.ChannelChanged(id, t[k - 1], k),
                                  T.State(id, RestView(l1).(frequency := Some(t[k - 1])), Some(k))))
  {
    hide CheckChannel, Execute, FleetSound, RestView, Round, Arrives, Picks, OnlyAudited, Announced, Tells;
    hide Accepted, ParseDecimal, Sound;
    var l := s.fleet[id];
    ChannelBody(body, l.adapter.table, k, shown);
    PicksInRange(body, l.adapter.table, k, shown);
    SoundTable(s.fleet, id, now);
    var c := Command(Action.SetChannel(k), id, e);
    NotFoundExactly(s, c);
    CommandLeaves(s, c, now);
    CommandEmits(s, c, now);
    ChannelOutcome(s, c, k);
  }

  lemma PicksInRange(body: Json, t: seq<int>, k: int, shown: int)
    requires Picks(body, t, k, shown)
    ensures 1 <= k <= |t|
  {
  }

  lemma SoundTable(fleet: map<string, Link>, id: string, now: nat)
    requires FleetSound(fleet, now) && id in fleet
    ensures fleet[id].adapter.table != [] && StrictlyIncreasing(fleet[id].adapter.table)
  {
  }

  // A body that picks nothing is refused: for naming neither, for an unknown radio, or for being out of
  // range; the system is left alone.
  lemma ChannelRequestRefused(s: System, id: string, body: Json, e: Env)
    requires id in s.fleet ==> forall k, shown :: !Picks(body, s.fleet[id].adapter.table, k, shown)
    ensures var neither := NoIndex(body) && NoNumber(body, "frequencyMhz");
            ChannelAnswered(s, id, body, e) == Answered(s, Declined(
              if neither then BadRequest else if id !in s.fleet then UnknownRadio else OutOfRange))
  {
    hide CheckChannel, Picks, NoIndex, NoNumber;
    ChannelBody(body, [], 0, 0);
    if id in s.fleet {
      var t := s.fleet[id].adapter.table;
      ChannelBody(body, t, 0, 0);
      match CheckChannel(body, Some(t))
      case Passed(v) => ChannelBody(body, t, v.0, v.1);
      case Refused(why) => assert why.BadRequest? || why.UnknownRadio? || why.OutOfRange?;
    }
  }
}
