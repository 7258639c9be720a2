// The whole chain: what the page shows of a radio is the radio's own state.
module PageTruth {
  import opened Basics
  import opened ChannelTable
  import opened Decimal
  import opened Power
  import opened Radio
  import opened Adapter
  import opened Protocol
  import opened Coherence
  import opened Orchestrator
  import opened Monitor
  import opened Replica
  import T = Telemetry

  // Every adapter's cache is truthful and every adapter knows of maximum power.
  predicate FleetTruthful(fleet: map<string, Link>) {
    forall id | id in fleet :: Kept(fleet[id]) && Informed(fleet[id])
  }

  // The operation a command asks of the adapter, whose frequency does not matter here.
  predicate MildCommand(c: Command) {
    match c.action
    case SelectRadio => true
    case SetPower(w) => Mild(OpPower(w), c.env)
    case SetChannel(i) => Mild(OpChannel(i, 0), c.env)
  }

  // A power is shown exactly when one is cached, and is the radio's setting; a frequency is shown exactly
  // when a channel with a positive frequency is cached, and is within 0.001 MHz of the radio's; the
  // status tells an open window, a radio that was never connected, and all others apart.
  predicate TrueView(v: T.View, l: Link) {
    && v.powerDbm == (if l.adapter.power.Some? then Some(l.radio.power) else None)
    && (v.frequency.Some? ==>
          ParseDecimal(l.radio.freq).Some? && Near(v.frequency.value, ParseDecimal(l.radio.freq).value))
    && (l.adapter.channel.Some? ==>
          1 <= l.adapter.channel.value <= |l.adapter.table| &&
          (v.frequency.Some? <==> l.adapter.table[l.adapter.channel.value - 1] > 0))
    && (l.adapter.channel.None? ==> v.frequency.None?)
    && (v.status == "recovering" <==> l.adapter.status.Recovering?)
    && (v.status == "offline" <==> l.adapter.status.Offline?)
    && (v.status == "online" <==> !l.adapter.status.Recovering? && !l.adapter.status.Offline?)
  }

  lemma CachedViewTrue(l: Link)
    requires Kept(l)
    ensures TrueView(RestView(l), l)
  {
    hide ParseDecimal, Round;
  }

  lemma CommandTruthful(s: System, c: Command)
    requires FleetTruthful(s.fleet) && MildCommand(c)
    ensures FleetTruthful(Execute(s, c).system.fleet)
  {
    hide Kept, Informed, PowerSet, ChannelSet, FinishPower, FinishChannel, Below, Above;
    if c.radioId in s.fleet {
      var l := s.fleet[c.radioId];
      match c.action
      case SelectRadio => SelectEmits(s, c);
      case SetPower(w) =>
        PowerFleet(s, c, w);
        InformedStep(l, OpPower(w), c.env);
      case SetChannel(i) =>
        if 1 <= i <= |l.adapter.table| {
          ChannelFleet(s, c, i);
          InformedStep(l, OpChannel(i, l.adapter.table[i - 1]), c.env);
        }
    }
  }

  lemma {:induction false} RunTruthful(s: System, cmds: seq<Command>)
    requires FleetTruthful(s.fleet) && forall c | c in cmds :: MildCommand(c)
    ensures FleetTruthful(RunAll(s, cmds).fleet)
  {
    hide FleetTruthful, MildCommand, Execute;
    if cmds != [] {
      var n := |cmds| - 1;
      RunTruthful(s, cmds[..n]);
      CommandTruthful(RunAll(s, cmds[..n]), cmds[n]);
    }
  }

  // From a started fleet, after a ready event and any run of commands on any radios, failing ones and
  // harmless losses included, what the page shows of every radio is true of the radio itself.
  lemma PageTellsTruth(c: Client, snapshot: T.Snapshot, s: System, cmds: seq<Command>, now: nat)
    requires SnapshotMatches(snapshot, s.fleet) && FleetSound(s.fleet, now) && SpacedFleet(s.fleet) && "" !in s.fleet
    requires TimedCommands(now, cmds)
    requires FleetTruthful(s.fleet) && forall cmd | cmd in cmds :: MildCommand(cmd)
    ensures var s1 := RunAll(s, cmds);
            && s.hub.log <= s1.hub.log && s1.fleet.Keys == s.fleet.Keys
            && var page := Fold(ApplyEvent(c, T.Event.Ready(snapshot)), s1.hub.log[|s.hub.log|..]);
               forall id | id in s1.fleet ::
                 Shows(page, id, RestView(s1.fleet[id])) && TrueView(RestView(s1.fleet[id]), s1.fleet[id])
  {
    hide RunAll, FleetSound, SpacedFleet, TimedCommands, MildCommand, SnapshotMatches, Kept, RestView, Fold, ApplyEvent;
    hide Shows, TrueView;
    ReplicaAgreement(c, snapshot, s, cmds, now);
    RunTruthful(s, cmds);
    var s1 := RunAll(s, cmds);
    forall id | id in s1.fleet ensures TrueView(RestView(s1.fleet[id]), s1.fleet[id]) {
      CachedViewTrue(s1.fleet[id]);
    }
  }

  // A radio that is up and answers both requests of the first connect of its adapter.
  predicate AnsweredStart(l: Link, e: Env) {
    && Alone(e) && Arrives(l.radio, e.first) && Arrives(l.radio, e.second) && l.radio.power >= 0
    && Limits(l.adapter) && l.adapter.power.None? && l.adapter.channel.None?
  }

  // Fleets may start that way.
  lemma StartedFleetTruthful(fleet: map<string, Link>, envs: map<string, Env>)
    requires fleet.Keys == envs.Keys && forall id | id in fleet :: AnsweredStart(fleet[id], envs[id])
    ensures FleetTruthful(map id | id in fleet :: Connected(fleet[id], envs[id]).link)
  {
    hide Connected, AnsweredStart, Kept, Informed;
    forall id | id in fleet
      ensures Kept(Connected(fleet[id], envs[id]).link) && Informed(Connected(fleet[id], envs[id]).link)
    {
      OneStarted(fleet[id], envs[id]);
    }
  }

  lemma OneStarted(l: Link, e: Env)
    requires AnsweredStart(l, e)
    ensures Kept(Connected(l, e).link) && Informed(Connected(l, e).link)
  {
    hide Connected, Table;
    ConnectDecision(l, e);
  }

  // ---- blackouts shown ----

  // Every pair is safe: a radio in blackout has its gate closed at least as long.
  predicate FleetSafe(fleet: map<string, Link>, now: nat) {
    forall id | id in fleet :: Safe(World(fleet[id], now, now)) && Config(fleet[id])
  }

  predicate QuietCommand(c: Command) {
    && TimedEnv(c.env)
    && match c.action
       case SelectRadio => true
       case SetPower(w) => Quiet(Operate(OpPower(w), c.env))
       case SetChannel(i) => Quiet(Operate(OpChannel(i, 0), c.env))
  }

  lemma CommandSafe(s: System, c: Command, now: nat)
    requires FleetSafe(s.fleet, now) && QuietCommand(c) && now <= c.env.gate
    ensures FleetSafe(Execute(s, c).system.fleet, c.env.done)
  {
    hide PowerSet, ChannelSet, FinishPower, FinishChannel, Below, Above, TimedEnv, CalmCalls, Config;
    TimedEnvOrder(c.env);
    if c.radioId in s.fleet {
      var l := s.fleet[c.radioId];
      match c.action
      case SelectRadio => SelectEmits(s, c);
      case SetPower(w) =>
        PowerFleet(s, c, w);
        StepSafe(World(l, now, now), Operate(OpPower(w), c.env));
      case SetChannel(i) =>
        if 1 <= i <= |l.adapter.table| {
          ChannelFleet(s, c, i);
          StepSafe(World(l, now, now), Operate(OpChannel(i, l.adapter.table[i - 1]), c.env));
        }
    }
  }

  lemma {:induction false} RunSafe(s: System, cmds: seq<Command>, now: nat)
    requires FleetSafe(s.fleet, now) && TimedCommands(now, cmds) && forall c | c in cmds :: QuietCommand(c)
    ensures FleetSafe(RunAll(s, cmds).fleet, Clock(now, cmds))
    decreases |cmds|
  {
    hide FleetSafe, QuietCommand, Execute;
    if cmds != [] {
      var n := |cmds| - 1;
      RunSafe(s, cmds[..n], now);
      CommandSafe(RunAll(s, cmds[..n]), cmds[n], Clock(now, cmds[..n]));
    }
  }

  // After any run of commands with any losses but that of a frequency reply, and any other clients but
  // disruptive ones, the page shows every radio that is in blackout as recovering.
  lemma BlackoutShown(c: Client, snapshot: T.Snapshot, s: System, cmds: seq<Command>, now: nat, id: string)
    requires SnapshotMatches(snapshot, s.fleet) && FleetSound(s.fleet, now) && SpacedFleet(s.fleet) && "" !in s.fleet
    requires TimedCommands(now, cmds) && FleetSafe(s.fleet, now) && forall cmd | cmd in cmds :: QuietCommand(cmd)
    ensures var s1 := RunAll(s, cmds);
            && s.hub.log <= s1.hub.log
            && var page := Fold(ApplyEvent(c, T.Event.Ready(snapshot)), s1.hub.log[|s.hub.log|..]);
               id in s1.fleet && s1.fleet[id].radio.blackout > Clock(now, cmds) ==>
                 var k := Position(page.cache, id);
                 k < |page.cache| && page.cache[k].status == "recovering"
  {
    hide RunAll, SpacedFleet, TimedCommands, QuietCommand, SnapshotMatches, Fold, ApplyEvent, Position;
    ReplicaAgreement(c, snapshot, s, cmds, now);
    RunSafe(s, cmds, now);
  }

  // ---- pages that join late ----

  predicate Unnamed(events: seq<T.Event>, from: nat, id: string) {
    forall j | from <= j < |events| :: events[j].Heartbeat? || (!events[j].Ready? && events[j].radioId != id)
  }

  // A page that joins at any time after the announcement and replays a buffer of 13 + k events finds the
  // announced snapshot in it. It then shows of each radio the view of the last state event after that,
  // and of a radio without events the view it had at the announcement.
  lemma LatePage(c: Client, h: T.Hub, snapshot: T.Snapshot, fleet: map<string, Link>, inputs: seq<T.Input>, k: nat)
    requires h.ticks < T.TICK_MODULUS && !h.stopped && T.Unannounced(inputs) && SnapshotMatches(snapshot, fleet)
    requires T.TailOthers(T.HubRun(T.HubStep(h, T.Announce(snapshot)), inputs).log) <= k
    ensures var events := T.Buffered(T.HubRun(T.HubStep(h, T.Announce(snapshot)), inputs).log, 13 + k);
            exists i :: 0 <= i < |events| && events[i] == T.Event.Ready(snapshot) && ReplayedFrom(c, events, i, fleet)
  {
    hide T.HubRun, T.HubStep, T.TailOthers, T.Buffered, SnapshotMatches, ReplayedFrom, T.Unannounced;
    T.BufferHoldsAnnounced(h, snapshot, inputs, k);
    var events := T.Buffered(T.HubRun(T.HubStep(h, T.Announce(snapshot)), inputs).log, 13 + k);
    var i :| 0 <= i < |events| && T.LastReadyAt(events, i) && events[i] == T.Event.Ready(snapshot);
    Replay(c, events, i, snapshot, fleet);
  }

  predicate ReplayedFrom(c: Client, events: seq<T.Event>, i: nat, fleet: map<string, Link>) {
    && i < |events| && AgreesAll(Fold(c, events[..i + 1]), fleet)
    && (forall id | id in fleet && Unnamed(events, i + 1, id) :: Shows(Fold(c, events), id, RestView(fleet[id])))
    && (forall j | i < j < |events| && events[j].State? && events[j].radioId != "" && events[j].view.status != ""
                   && Unnamed(events, j + 1, events[j].radioId) ::
          Shows(Fold(c, events), events[j].radioId, events[j].view))
  }

  lemma Replay(c: Client, events: seq<T.Event>, i: nat, snapshot: T.Snapshot, fleet: map<string, Link>)
    requires SnapshotMatches(snapshot, fleet) && T.LastReadyAt(events, i) && events[i] == T.Event.Ready(snapshot)
    ensures ReplayedFrom(c, events, i, fleet)
  {
    hide SnapshotMatches, RestView, Shows, ApplyEvent;
    FoldTo(c, events, i);
    ReadyAgrees(Fold(c, events[..i]), snapshot, fleet);
    forall id | id in fleet && Unnamed(events, i + 1, id) ensures Shows(Fold(c, events), id, RestView(fleet[id])) {
      ReplayRest(c, events, i, id, RestView(fleet[id]));
    }
    forall j | i < j < |events| && events[j].State? && events[j].radioId != "" && events[j].view.status != ""
               && Unnamed(events, j + 1, events[j].radioId)
      ensures Shows(Fold(c, events), events[j].radioId, events[j].view)
    {
      var e := events[j];
      FoldTo(c, events, j);
      StateShown(Fold(c, events[..j]), e.radioId, e.view, e.channelIndex);
      ReplayRest(c, events, j, e.radioId, e.view);
    }
  }

  lemma FoldTo(c: Client, events: seq<T.Event>, i: nat)
    requires i < |events|
    ensures Fold(c, events[..i + 1]) == ApplyEvent(Fold(c, events[..i]), events[i])
  {
    hide ApplyEvent;
    assert events[..i + 1][..i] == events[..i];
  }

  lemma ReplayRest(c: Client, events: seq<T.Event>, i: nat, id: string, v: T.View)
    requires i < |events| && Unnamed(events, i + 1, id)
    ensures Shows(Fold(c, events), id, v) <==> Shows(Fold(c, events[..i + 1]), id, v)
  {
    hide Shows, ApplyEvent, Fold;
    var rest := events[i + 1..];
    assert events == events[..i + 1] + rest;
    FoldSplit(c, events[..i + 1], rest);
    StretchUntouched(Fold(c, events[..i + 1]), rest, id, v);
  }

  // ---- the channel index ----

  // The k-th command sets something on this radio and succeeds.
  predicate TellsAt(s: System, cmds: seq<Command>, k: nat, id: string) {
    && k < |cmds| && cmds[k].radioId == id && !cmds[k].action.SelectRadio?
    && Execute(RunAll(s, cmds[..k]), cmds[k]).code == Ok
  }

  // A command that fails, or is for another radio, keeps the cached channel.
  lemma ChannelKept(s: System, c: Command, id: string)
    requires id in s.fleet && (Execute(s, c).code != Ok || c.action.SelectRadio? || c.radioId != id)
    ensures id in Execute(s, c).system.fleet
    ensures Execute(s, c).system.fleet[id].adapter.channel == s.fleet[id].adapter.channel
  {
    hide Exchange, ParseBoolean, ChannelOf, Below, Above, T.NormalizeStatus, T.StatusText, T.PowerDbmJson, FrequencyAt;
  }

  lemma StepIndex(c: Client, s: System, cmd: Command, now: nat, id: string)
    requires FleetSound(s.fleet, now) && SpacedFleet(s.fleet) && "" !in s.fleet && id in s.fleet
    requires now <= cmd.env.gate <= cmd.env.done
    requires ShowsIndex(c, id, s.fleet[id].adapter.channel) ||
             (cmd.radioId == id && !cmd.action.SelectRadio? && Execute(s, cmd).code == Ok)
    ensures id in Execute(s, cmd).system.fleet
    ensures ShowsIndex(Fold(c, EventsOf(s, cmd)), id, Execute(s, cmd).system.fleet[id].adapter.channel)
  {
    hide Execute, FleetSound, RestView, Spaced, Round, EventsOf, ApplyEvent, ShowsIndex;
    var x := Execute(s, cmd);
    var events := EventsOf(s, cmd);
    CommandEmits(s, cmd, now);
    FleetKept(s, cmd, now);
    if x.code != Ok || cmd.action.SelectRadio? {
      ChannelKept(s, cmd, id);
      assert events == [];
    } else {
      var view := events[1].view;
      assert events == [events[0], T.State(cmd.radioId, view, events[1].channelIndex)];
      FoldTwo(c, events[0], events[1]);
      var c1 := ApplyEvent(c, events[0]);
      if cmd.radioId == id {
        if cmd.action.SetChannel? {
          SpacedBelow(x.system.fleet[id].adapter.table, cmd.action.index);
        }
        IndexShown(c1, id, view, events[1].channelIndex);
      } else {
        ChannelKept(s, cmd, id);
        OtherIndexUntouched(c, events[0], id, s.fleet[id].adapter.channel);
        OtherIndexUntouched(c1, events[1], id, s.fleet[id].adapter.channel);
      }
    }
  }

  // From the first successful power or channel command on a radio the page has the channel index the
  // adapter has cached, whatever other commands follow. Neither the snapshot nor anything before that
  // command tells it.
  lemma {:induction false} ChannelIndexAgreement(c: Client, s: System, cmds: seq<Command>, now: nat, id: string, k: nat)
    requires FleetSound(s.fleet, now) && SpacedFleet(s.fleet) && "" !in s.fleet && id in s.fleet
    requires TimedCommands(now, cmds) && TellsAt(s, cmds, k, id)
    ensures var s1 := RunAll(s, cmds);
            && s.hub.log <= s1.hub.log && id in s1.fleet
            && ShowsIndex(Fold(c, s1.hub.log[|s.hub.log|..]), id, s1.fleet[id].adapter.channel)
    decreases |cmds|
  {
    hide Execute, FleetSound, SpacedFleet, EventsOf, ShowsIndex, Fold, RestView, Shows;
    var n := |cmds| - 1;
    var before := RunAll(s, cmds[..n]);
    RunFacts(s, cmds[..n], now);
    if k < n {
      assert cmds[..n][..k] == cmds[..k];
      ChannelIndexAgreement(c, s, cmds[..n], now, id, k);
    }
    var seen := before.hub.log[|s.hub.log|..];
    StepIndex(Fold(c, seen), before, cmds[n], Clock(now, cmds[..n]), id);
    FoldSplit(c, seen, EventsOf(before, cmds[n]));
    LogGrows(before, cmds[n]);
    LogPieces(s, before, cmds[n]);
  }

  lemma {:induction false} RunFacts(s: System, cmds: seq<Command>, now: nat)
    requires FleetSound(s.fleet, now) && SpacedFleet(s.fleet) && TimedCommands(now, cmds)
    ensures var s1 := RunAll(s, cmds);
            && s.hub.log <= s1.hub.log && s1.fleet.Keys == s.fleet.Keys
            && FleetSound(s1.fleet, Clock(now, cmds)) && SpacedFleet(s1.fleet)
    decreases |cmds|
  {
    hide Execute, FleetSound, SpacedFleet;
    if cmds != [] {
      var n := |cmds| - 1;
      RunFacts(s, cmds[..n], now);
      FleetKept(RunAll(s, cmds[..n]), cmds[n], Clock(now, cmds[..n]));
      LogGrows(RunAll(s, cmds[..n]), cmds[n]);
    }
  }
}
