// The page's copy agrees with what REST reports, and the logs account for every command.
module Replica {
  import opened Basics
  import opened ChannelTable
  import opened Power
  import opened Adapter
  import opened Protocol
  import opened Orchestrator
  import opened Monitor
  import T = Telemetry

  // ---- runs of commands ----

  function RunAll(s: System, cmds: seq<Command>): System {
    if cmds == [] then s else Execute(RunAll(s, cmds[..|cmds| - 1]), cmds[|cmds| - 1]).system
  }

  // The clock at the end of a run that starts at now.
  function Clock(now: nat, cmds: seq<Command>): nat {
    if cmds == [] then now else cmds[|cmds| - 1].env.done
  }

  predicate TimedCommands(now: nat, cmds: seq<Command>) {
    cmds != [] ==>
      var n := |cmds| - 1;
      TimedCommands(now, cmds[..n]) && Clock(now, cmds[..n]) <= cmds[n].env.gate <= cmds[n].env.done
  }

  // The events one command puts on the bus.
  function EventsOf(s: System, c: Command): seq<T.Event> {
    var log := Execute(s, c).system.hub.log;
    if |s.hub.log| <= |log| then log[|s.hub.log|..] else []
  }

  lemma LogGrows(s: System, c: Command)
    ensures s.hub.log <= Execute(s, c).system.hub.log
    ensures |Execute(s, c).system.audit| == |s.audit| + 1
  {
    hide PowerSet, ChannelSet, T.NormalizeStatus, T.StatusText, T.PowerDbmJson, FrequencyAt, Below, Above;
  }

  // ---- what one command does to one radio's view ----

  predicate SpacedFleet(fleet: map<string, Link>) {
    forall id | id in fleet :: Spaced(fleet[id].adapter.table)
  }

  // A failing power command leaves the REST view alone; a successful one makes it what is published.
  lemma PowerView(l: Link, w: Watts, e: Env, now: nat)
    requires Sound(l.adapter, now) && now <= e.gate
    ensures var d := PowerSet(l, w, e);
            if d.code == Ok
            then
              && w.Dbm?
              && var a := d.link.adapter;
                 RestView(d.link) == T.View(T.NormalizeStatus(T.StatusText(a.status)), T.PowerDbmJson(w),
                                            T.PositiveOnly(FrequencyAt(l.adapter.table, a.channel)))
                 && a.channel == T.PositiveOnly(if a.channel.Some? then a.channel.value else -1)
            else RestView(d.link) == RestView(l)
  {
    hide Exchange, Failure, ParseBoolean, Round, FrequencyAt, StrictlyIncreasing, T.StatusText;
  }

  // The same for a channel command, except that REST looks the frequency up by the cached index: it
  // equals the published one exactly when the channel below is at least 0.001 MHz away.
  lemma ChannelView(l: Link, i: int, e: Env, now: nat)
    requires Sound(l.adapter, now) && now <= e.gate && 1 <= i <= |l.adapter.table|
    ensures var t := l.adapter.table;
            var d := ChannelSet(l, i, t[i - 1], e);
            var a := d.link.adapter;
            if d.code == Ok
            then && t[i - 1] > 0 && a.status == Recovering && a.power == l.adapter.power
                 && RestView(d.link).status == "recovering" && RestView(d.link).powerDbm == RestPower(a.power)
                 && (RestView(d.link).frequency == Some(t[i - 1]) <==> (i == 1 || t[i - 1] - t[i - 2] >= TOLERANCE))
                 && (a.channel == Some(i) <==> (i == 1 || t[i - 1] - t[i - 2] >= TOLERANCE))
            else RestView(d.link) == RestView(l)
  {
    hide Exchange, Failure, ChannelOf, Round;
    LookupOwnFrequency(l.adapter.table, i);
  }

  lemma SpacedBelow(t: seq<int>, i: int)
    requires Spaced(t) && 1 <= i <= |t|
    ensures i == 1 || t[i - 1] - t[i - 2] >= TOLERANCE
  {
    assert i > 1 ==> t[i - 1] - t[i - 1 - 1] >= TOLERANCE;
  }

  // ---- the fleet through a command ----

  lemma FleetKept(s: System, c: Command, now: nat)
    requires FleetSound(s.fleet, now) && now <= c.env.gate <= c.env.done
    ensures var f := Execute(s, c).system.fleet;
            f.Keys == s.fleet.Keys && FleetSound(f, c.env.done) && (SpacedFleet(s.fleet) ==> SpacedFleet(f))
  {
    hide Sound, PowerSet, ChannelSet, FinishPower, FinishChannel, Below, Above, FleetSound, Spaced;
    FleetLater(s.fleet, now, c.env.done);
    if c.radioId in s.fleet && !c.action.SelectRadio? {
      var l := s.fleet[c.radioId];
      FleetMember(s.fleet, c.radioId, now);
      match c.action
      case SetPower(w) =>
        PowerSound(l, w, c.env, now);
        FleetSoundAt(s.fleet, c.radioId, PowerSet(l, w, c.env).link, c.env.done);
        PowerFleet(s, c, w);
      case SetChannel(i) =>
        if 1 <= i <= |l.adapter.table| {
          var f := l.adapter.table[i - 1];
          ChannelSound(l, i, f, c.env, now);
          FleetSoundAt(s.fleet, c.radioId, ChannelSet(l, i, f, c.env).link, c.env.done);
          ChannelFleet(s, c, i);
        }
    }
  }

  lemma PowerFleet(s: System, c: Command, w: Watts)
    requires c.radioId in s.fleet
    ensures var f := ExecutePower(s, c, w).system.fleet;
            f == s.fleet || f == s.fleet[c.radioId := PowerSet(s.fleet[c.radioId], w, c.env).link]
  {
    hide PowerSet, Below, Above, T.NormalizeStatus, T.StatusText, T.PowerDbmJson, FrequencyAt;
  }

  lemma ChannelFleet(s: System, c: Command, i: int)
    requires c.radioId in s.fleet && 1 <= i <= |s.fleet[c.radioId].adapter.table|
    ensures var l := s.fleet[c.radioId];
            var d := ChannelSet(l, i, l.adapter.table[i - 1], c.env);
            ExecuteChannel(s, c, i).system.fleet == s.fleet[c.radioId := d.link]
  {
    hide ChannelSet, T.NormalizeStatus, T.StatusText, T.PowerDbmJson;
  }

  // ---- agreement ----

  predicate AgreesAll(c: Client, fleet: map<string, Link>) {
    forall id | id in fleet :: Shows(c, id, RestView(fleet[id]))
  }

  lemma ReadyAgrees(c: Client, snapshot: T.Snapshot, fleet: map<string, Link>)
    requires SnapshotMatches(snapshot, fleet)
    ensures AgreesAll(ApplyEvent(c, T.Event.Ready(snapshot)), fleet)
  {
    hide RestPower, FrequencyAt, T.StatusText, MergeItems, Position;
    forall id | id in fleet ensures Shows(ApplyEvent(c, T.Event.Ready(snapshot)), id, RestView(fleet[id])) {
      ReadyShown(c.cache, snapshot.radios, id, RestView(fleet[id]));
    }
  }

  // What a command may put on the bus: nothing when it fails or selects a radio; otherwise the event
  // of the change and then the state of that radio.
  predicate Emits(c: Command, code: Code, after: map<string, Link>, events: seq<T.Event>) {
    if code != Ok || c.action.SelectRadio? then events == []
    else
      && c.radioId in after && |events| == 2 && events[1].State? && events[1].radioId == c.radioId
      && var a := after[c.radioId].adapter;
         var view := RestView(after[c.radioId]);
         match c.action
         case SetPower(w) =>
           && w.Dbm? && events[0] == T.PowerChanged(c.radioId, Some(Round(w.level)))
           && view.powerDbm == Some(Round(w.level)) && events[1] == T.State(c.radioId, view, a.channel)
         case SetChannel(i) =>
           && 1 <= i <= |a.table| && events[0] == T.ChannelChanged(c.radioId, a.table[i - 1], i)
           && events[1] == T.State(c.radioId, view.(frequency := Some(a.table[i - 1])), Some(i))
           && (view.frequency == Some(a.table[i - 1]) <==> (i == 1 || a.table[i - 1] - a.table[i - 2] >= TOLERANCE))
           && (a.channel == Some(i) <==> (i == 1 || a.table[i - 1] - a.table[i - 2] >= TOLERANCE))
         case SelectRadio => false
  }

  lemma PowerEmits(s: System, c: Command, w: Watts, now: nat)
    requires FleetSound(s.fleet, now) && now <= c.env.gate && c.action == Action.SetPower(w)
    ensures var x := ExecutePower(s, c, w);
            s.hub.log <= x.system.hub.log && Emits(c, x.code, x.system.fleet, x.system.hub.log[|s.hub.log|..])
  {
    hide PowerSet, Sound, RestView, FrequencyAt, T.NormalizeStatus, T.StatusText, T.PositiveOnly, Round;
    hide Below, Above, FleetSound;
    if c.radioId in s.fleet {
      var l := s.fleet[c.radioId];
      FleetMember(s.fleet, c.radioId, now);
      PowerView(l, w, c.env, now);
      RestPowerOf(PowerSet(l, w, c.env).link);
    }
  }

  lemma RestPowerOf(l: Link)
    ensures RestView(l).powerDbm == RestPower(l.adapter.power)
  {
  }

  lemma ChannelEmits(s: System, c: Command, i: int, now: nat)
    requires FleetSound(s.fleet, now) && now <= c.env.gate && c.action == Action.SetChannel(i)
    ensures var x := ExecuteChannel(s, c, i);
            s.hub.log <= x.system.hub.log && Emits(c, x.code, x.system.fleet, x.system.hub.log[|s.hub.log|..])
  {
    hide ChannelSet, Sound, RestView, FrequencyAt, Round, FleetSound;
    if c.radioId in s.fleet && 1 <= i <= |s.fleet[c.radioId].adapter.table| {
      var l := s.fleet[c.radioId];
      FleetMember(s.fleet, c.radioId, now);
      ChannelView(l, i, c.env, now);
      ChannelPublished(l, i, c.env, now);
    }
  }

  lemma ChannelPublished(l: Link, i: int, e: Env, now: nat)
    requires Sound(l.adapter, now) && now <= e.gate && 1 <= i <= |l.adapter.table|
    ensures var a := ChannelSet(l, i, l.adapter.table[i - 1], e).link.adapter;
            && a.table == l.adapter.table
            && T.PowerDbmJson(if a.power.Some? then a.power.value else NotPositive) == RestPower(a.power)
  {
    hide Exchange, Failure, ChannelOf, Round;
  }

  lemma SelectEmits(s: System, c: Command)
    requires c.action.SelectRadio?
    ensures Execute(s, c).system.hub == s.hub && Execute(s, c).system.fleet == s.fleet
  {
  }

  lemma CommandEmits(s: System, c: Command, now: nat)
    requires FleetSound(s.fleet, now) && now <= c.env.gate
    ensures s.hub.log <= Execute(s, c).system.hub.log
    ensures Emits(c, Execute(s, c).code, Execute(s, c).system.fleet, EventsOf(s, c))
  {
    hide ExecutePower, ExecuteChannel, FleetSound, RestView;
    match c.action
    case SetPower(w) => PowerEmits(s, c, w, now);
    case SetChannel(i) => ChannelEmits(s, c, i, now);
    case SelectRadio => SelectEmits(s, c);
  }

  // A command that does not succeed changes neither the events nor any REST view.
  lemma FailureChangesNothing(s: System, c: Command, now: nat)
    requires FleetSound(s.fleet, now) && now <= c.env.gate && Execute(s, c).code != Ok
    ensures Execute(s, c).system.hub == s.hub && Execute(s, c).system.fleet.Keys == s.fleet.Keys
    ensures forall id | id in s.fleet :: RestView(Execute(s, c).system.fleet[id]) == RestView(s.fleet[id])
  {
    hide PowerSet, ChannelSet, Sound, RestView, FleetSound, Below, Above;
    if c.radioId in s.fleet {
      var l := s.fleet[c.radioId];
      FleetMember(s.fleet, c.radioId, now);
      match c.action
      case SetPower(w) => PowerView(l, w, c.env, now);
      case SetChannel(i) =>
        if 1 <= i <= |l.adapter.table| {
          ChannelView(l, i, c.env, now);
        }
      case SelectRadio =>
    }
  }

  // Other radios are not touched by a command.
  lemma OthersKept(s: System, c: Command, id: string)
    requires id in s.fleet && id != c.radioId
    ensures id in Execute(s, c).system.fleet && Execute(s, c).system.fleet[id] == s.fleet[id]
  {
    hide PowerSet, ChannelSet, Below, Above, T.NormalizeStatus, T.StatusText, T.PowerDbmJson, FrequencyAt;
  }

  lemma FoldTwo(c: Client, e: T.Event, e2: T.Event)
    ensures Fold(c, [e, e2]) == ApplyEvent(ApplyEvent(c, e), e2)
  {
    hide ApplyEvent;
    assert [e, e2][..1] == [e];
    assert [e][..0] == [];
    assert Fold(c, [e]) == ApplyEvent(c, e);
  }

  // The pair of events of one successful command on one radio.
  lemma PairShown(c: Client, e: T.Event, id: string, v: T.View, channel: Option<int>, other: string, v2: T.View)
    requires id != "" && v.status != "" && !e.Ready? && !e.Heartbeat? && e.radioId == id
    ensures Shows(Fold(c, [e, T.State(id, v, channel)]), id, v)
    ensures other != id ==> (Shows(Fold(c, [e, T.State(id, v, channel)]), other, v2) <==> Shows(c, other, v2))
  {
    hide ApplyEvent, Shows;
    FoldTwo(c, e, T.State(id, v, channel));
    StateShown(ApplyEvent(c, e), id, v, channel);
    if other != id {
      OthersUntouched(c, e, other, v2);
      OthersUntouched(ApplyEvent(c, e), T.State(id, v, channel), other, v2);
    }
  }

  lemma StatusNeverEmpty(l: Link)
    ensures RestView(l).status != ""
  {
  }

  // One command keeps the agreement.
  lemma StepAgrees(c: Client, s: System, cmd: Command, now: nat)
    requires FleetSound(s.fleet, now) && SpacedFleet(s.fleet) && "" !in s.fleet && now <= cmd.env.gate <= cmd.env.done
    requires AgreesAll(c, s.fleet)
    ensures s.hub.log <= Execute(s, cmd).system.hub.log
    ensures AgreesAll(Fold(c, EventsOf(s, cmd)), Execute(s, cmd).system.fleet)
  {
    hide Execute, FleetSound, RestView, Shows, Fold, Spaced, SpacedFleet, Round;
    var x := Execute(s, cmd);
    CommandEmits(s, cmd, now);
    FleetKept(s, cmd, now);
    forall id | id in x.system.fleet ensures Shows(Fold(c, EventsOf(s, cmd)), id, RestView(x.system.fleet[id])) {
      OneAgrees(c, s, cmd, now, id);
    }
  }

  lemma OneAgrees(c: Client, s: System, cmd: Command, now: nat, id: string)
    requires FleetSound(s.fleet, now) && SpacedFleet(s.fleet) && "" !in s.fleet && now <= cmd.env.gate <= cmd.env.done
    requires AgreesAll(c, s.fleet)
    requires s.hub.log <= Execute(s, cmd).system.hub.log && Execute(s, cmd).system.fleet.Keys == s.fleet.Keys
    requires SpacedFleet(Execute(s, cmd).system.fleet)
    requires id in s.fleet && Emits(cmd, Execute(s, cmd).code, Execute(s, cmd).system.fleet, EventsOf(s, cmd))
    ensures Shows(Fold(c, EventsOf(s, cmd)), id, RestView(Execute(s, cmd).system.fleet[id]))
  {
    hide Execute, FleetSound, RestView, Shows, Spaced, Round, EventsOf, ApplyEvent;
    var x := Execute(s, cmd);
    var events := EventsOf(s, cmd);
    var target := cmd.radioId;
    if x.code != Ok || cmd.action.SelectRadio? {
      if x.code != Ok {
        FailureChangesNothing(s, cmd, now);
      } else {
        SelectEmits(s, cmd);
      }
    } else {
      StatusNeverEmpty(x.system.fleet[target]);
      var t := x.system.fleet[target].adapter.table;
      if cmd.action.SetChannel? {
        SpacedBelow(t, cmd.action.index);
      }
      assert events == [events[0], events[1]];
      assert events[1] == T.State(target, RestView(x.system.fleet[target]), events[1].channelIndex);
      if id != target {
        OthersKept(s, cmd, id);
      }
      var view := RestView(x.system.fleet[target]);
      PairShown(c, events[0], target, view, events[1].channelIndex, id, RestView(s.fleet[id]));
    }
  }

  // ---- whole runs ----

  lemma {:induction false} FoldSplit(c: Client, a: seq<T.Event>, b: seq<T.Event>)
    ensures Fold(c, a + b) == Fold(Fold(c, a), b)
  {
    hide ApplyEvent;
    if b == [] {
      assert a + b == a;
    } else {
      var n := |b| - 1;
      assert (a + b)[..|a| + n] == a + b[..n];
      FoldSplit(c, a, b[..n]);
    }
  }

  // Replica agreement: from any page state, after one ready event and any run of commands on any
  // radios, failing ones included, the page shows of every radio what REST reports.
  lemma {:induction false} ReplicaAgreement(c: Client, snapshot: T.Snapshot, s: System, cmds: seq<Command>, now: nat)
    requires SnapshotMatches(snapshot, s.fleet) && FleetSound(s.fleet, now) && SpacedFleet(s.fleet) && "" !in s.fleet
    requires TimedCommands(now, cmds)
    ensures var s1 := RunAll(s, cmds);
            && s.hub.log <= s1.hub.log
            && AgreesAll(Fold(ApplyEvent(c, T.Event.Ready(snapshot)), s1.hub.log[|s.hub.log|..]), s1.fleet)
            && s1.fleet.Keys == s.fleet.Keys && FleetSound(s1.fleet, Clock(now, cmds)) && SpacedFleet(s1.fleet)
    decreases |cmds|
  {
    hide Execute, FleetSound, SpacedFleet, AgreesAll, ApplyEvent, EventsOf;
    var start := ApplyEvent(c, T.Event.Ready(snapshot));
    if cmds == [] {
      ReadyAgrees(c, snapshot, s.fleet);
      assert s.hub.log[|s.hub.log|..] == [];
    } else {
      var n := |cmds| - 1;
      ReplicaAgreement(c, snapshot, s, cmds[..n], now);
      var before := RunAll(s, cmds[..n]);
      var seen := before.hub.log[|s.hub.log|..];
      FleetKept(before, cmds[n], Clock(now, cmds[..n]));
      StepAgrees(Fold(start, seen), before, cmds[n], Clock(now, cmds[..n]));
      FoldSplit(start, seen, EventsOf(before, cmds[n]));
      LogPieces(s, before, cmds[n]);
    }
  }

  lemma LogPieces(s: System, before: System, cmd: Command)
    requires s.hub.log <= before.hub.log <= Execute(before, cmd).system.hub.log
    ensures Execute(before, cmd).system.hub.log[|s.hub.log|..] == before.hub.log[|s.hub.log|..] + EventsOf(before, cmd)
  {
    hide Execute;
  }

  // Where channels lie closer than the tolerance the agreement breaks, and exactly there: after a
  // successful channel command the page shows the commanded channel's frequency, REST the one of the
  // first channel within tolerance.
  lemma ChannelReplicaExact(c: Client, s: System, cmd: Command, now: nat)
    requires FleetSound(s.fleet, now) && now <= cmd.env.gate && cmd.action.SetChannel? && cmd.radioId != ""
    ensures var x := Execute(s, cmd);
            x.code == Ok ==>
              && cmd.radioId in x.system.fleet
              && var t := x.system.fleet[cmd.radioId].adapter.table;
                 var i := cmd.action.index;
                 && 1 <= i <= |t|
                 && (Shows(Fold(c, EventsOf(s, cmd)), cmd.radioId, RestView(x.system.fleet[cmd.radioId]))
                     <==> (i == 1 || t[i - 1] - t[i - 2] >= TOLERANCE))
  {
    hide Execute, FleetSound, RestView, Shows, Fold, EventsOf;
    CommandEmits(s, cmd, now);
    if Execute(s, cmd).code != Ok {
      return;
    }
    var l := Execute(s, cmd).system.fleet[cmd.radioId];
    var events := EventsOf(s, cmd);
    var shown := RestView(l).(frequency := Some(l.adapter.table[cmd.action.index - 1]));
    StatusNeverEmpty(l);
    assert events == [events[0], events[1]];
    PairShown(c, events[0], cmd.radioId, shown, events[1].channelIndex, cmd.radioId, shown);
    ShowsOne(Fold(c, events), cmd.radioId, shown, RestView(l));
  }

  lemma ShowsOne(c: Client, id: string, v: T.View, w: T.View)
    requires Shows(c, id, v)
    ensures Shows(c, id, w) <==> v == w
  {
    hide Position;
  }

  // The hub repeats the snapshot it remembered at start. A page that receives it again agrees with
  // REST exactly when every radio is back in the view it had then.
  lemma RepeatedReadyRollsBack(c: Client, snapshot: T.Snapshot, then0: map<string, Link>, fleet: map<string, Link>)
    requires SnapshotMatches(snapshot, then0) && fleet.Keys == then0.Keys
    ensures AgreesAll(ApplyEvent(c, T.Event.Ready(snapshot)), fleet)
       <==> (forall id | id in fleet :: RestView(fleet[id]) == RestView(then0[id]))
  {
    hide RestView, Shows, ApplyEvent;
    var c1 := ApplyEvent(c, T.Event.Ready(snapshot));
    ReadyAgrees(c, snapshot, then0);
    forall id | id in fleet ensures Shows(c1, id, RestView(fleet[id])) <==> RestView(fleet[id]) == RestView(then0[id]) {
      ShowsOne(c1, id, RestView(then0[id]), RestView(fleet[id]));
    }
  }

  // Fresh adapters that have been connected once are sound, so runs may start from them.
  lemma StartedFleetSound(fleet: map<string, Link>, envs: map<string, Env>, now: nat)
    requires fleet.Keys == envs.Keys
    requires forall id | id in fleet ::
      envs[id].done <= now && exists range, recovery :: fleet[id].adapter == NewAdapter(range, recovery)
    ensures FleetSound(map id | id in fleet :: Connected(fleet[id], envs[id]).link, now)
  {
    hide Connected, Sound, NewAdapter;
    forall id | id in fleet ensures Sound(Connected(fleet[id], envs[id]).link.adapter, now) {
      var range, recovery :| fleet[id].adapter == NewAdapter(range, recovery);
      BootSound(range, recovery, fleet[id].radio, envs[id]);
      assert fleet[id] == Link(NewAdapter(range, recovery), fleet[id].radio);
      SoundLater(Connected(fleet[id], envs[id]).link.adapter, envs[id].done, now);
    }
  }

  // ---- accounting ----

  // The record the i-th command of a run leaves.
  function RecordOf(s: System, cmds: seq<Command>, i: nat): AuditRecord
    requires i < |cmds|
  {
    AuditRecord(cmds[i].action, cmds[i].radioId, AuditCode(Execute(RunAll(s, cmds[..i]), cmds[i]).code))
  }

  function Records(s: System, cmds: seq<Command>, n: nat): seq<AuditRecord>
    requires n <= |cmds|
  {
    seq(n, i requires 0 <= i < n => RecordOf(s, cmds, i))
  }

  // What the first n commands of a run put on the bus, in order.
  function Emitted(s: System, cmds: seq<Command>, n: nat): seq<T.Event>
    requires n <= |cmds|
  {
    if n == 0 then [] else Emitted(s, cmds, n - 1) + EventsOf(RunAll(s, cmds[..n - 1]), cmds[n - 1])
  }

  lemma OneRecord(s: System, c: Command)
    ensures Execute(s, c).system.audit == s.audit + [AuditRecord(c.action, c.radioId, AuditCode(Execute(s, c).code))]
  {
    hide PowerSet, ChannelSet, T.NormalizeStatus, T.StatusText, T.PowerDbmJson, FrequencyAt, Below, Above, AuditCode;
  }

  lemma RunStep(s: System, cmds: seq<Command>, n: nat)
    requires n < |cmds|
    ensures RunAll(s, cmds[..n + 1]) == Execute(RunAll(s, cmds[..n]), cmds[n]).system
  {
    hide Execute;
    assert cmds[..n + 1][..n] == cmds[..n];
  }

  lemma {:induction false} AccountingUpTo(s: System, cmds: seq<Command>, n: nat)
    requires n <= |cmds|
    ensures RunAll(s, cmds[..n]).audit == s.audit + Records(s, cmds, n)
    ensures RunAll(s, cmds[..n]).hub.log == s.hub.log + Emitted(s, cmds, n)
  {
    hide Execute, AuditCode, EventsOf, RunAll;
    if n == 0 {
      NoCommands(s, cmds);
    } else {
      var before := RunAll(s, cmds[..n - 1]);
      AccountingUpTo(s, cmds, n - 1);
      RunStep(s, cmds, n - 1);
      OneRecord(before, cmds[n - 1]);
      LogGrows(before, cmds[n - 1]);
      LogPieces(before, before, cmds[n - 1]);
      assert Records(s, cmds, n) == Records(s, cmds, n - 1) + [RecordOf(s, cmds, n - 1)];
    }
  }

  lemma NoCommands(s: System, cmds: seq<Command>)
    ensures RunAll(s, cmds[..0]) == s
  {
  }

  // Accounting over any run: the audit log gains exactly one record per command, in order and with
  // its outcome, and the event log exactly what each command emits, in order.
  lemma CommandAccounting(s: System, cmds: seq<Command>)
    ensures RunAll(s, cmds).audit == s.audit + Records(s, cmds, |cmds|)
    ensures RunAll(s, cmds).hub.log == s.hub.log + Emitted(s, cmds, |cmds|)
  {
    hide RunAll, Records, Emitted;
    assert cmds[..|cmds|] == cmds;
    AccountingUpTo(s, cmds, |cmds|);
  }

  lemma {:induction false} RunFleetSound(s: System, cmds: seq<Command>, now: nat)
    requires FleetSound(s.fleet, now) && TimedCommands(now, cmds)
    ensures FleetSound(RunAll(s, cmds).fleet, Clock(now, cmds))
    decreases |cmds|
  {
    hide Execute, FleetSound;
    if cmds != [] {
      var n := |cmds| - 1;
      RunFleetSound(s, cmds[..n], now);
      FleetKept(RunAll(s, cmds[..n]), cmds[n], Clock(now, cmds[..n]));
    }
  }

  lemma {:induction false} TimedPrefix(now: nat, cmds: seq<Command>, i: nat)
    requires TimedCommands(now, cmds) && i < |cmds|
    ensures TimedCommands(now, cmds[..i]) && Clock(now, cmds[..i]) <= cmds[i].env.gate <= cmds[i].env.done
    decreases |cmds|
  {
    var n := |cmds| - 1;
    if i < n {
      TimedPrefix(now, cmds[..n], i);
      assert cmds[..n][..i] == cmds[..i];
    }
  }

  // What each command of a run emits: nothing from failures and selections, otherwise its change
  // event followed by its state event.
  lemma EachEmits(s: System, cmds: seq<Command>, now: nat, i: nat)
    requires FleetSound(s.fleet, now) && TimedCommands(now, cmds) && i < |cmds|
    ensures var before := RunAll(s, cmds[..i]);
            var x := Execute(before, cmds[i]);
            Emits(cmds[i], x.code, x.system.fleet, EventsOf(before, cmds[i]))
  {
    hide Execute, FleetSound, Emits, EventsOf, RunAll, TimedCommands;
    TimedPrefix(now, cmds, i);
    RunFleetSound(s, cmds[..i], now);
    CommandEmits(RunAll(s, cmds[..i]), cmds[i], Clock(now, cmds[..i]));
  }
}
