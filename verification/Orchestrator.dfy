// The radios under management and the three commands: each calls the adapter, publishes events on
// success, and always leaves one audit record.
module Orchestrator {
  import opened Basics
  import opened Power
  import opened Adapter
  import opened Protocol
  import T = Telemetry

  datatype Action = SelectRadio | SetPower(watts: Watts) | SetChannel(index: int)

  datatype AuditRecord = AuditRecord(action: Action, radioId: string, result: Code)

  datatype System = System(fleet: map<string, Link>, active: Option<string>, hub: T.Hub, audit: seq<AuditRecord>)

  datatype Command = Command(action: Action, radioId: string, env: Env)

  datatype Executed = Executed(system: System, code: Code)

  // The audit log has no code for an unknown radio.
  function AuditCode(code: Code): Code {
    if code == NotFound then InternalError else code
  }

  function Audited(s: System, c: Command, code: Code): Executed {
    Executed(s.(audit := s.audit + [AuditRecord(c.action, c.radioId, AuditCode(code))]), code)
  }

  function Publish2(h: T.Hub, e: T.Event, e2: T.Event): T.Hub {
    T.HubStep(T.HubStep(h, T.Publish(e)), T.Publish(e2))
  }

  // The frequency of a cached channel, 0 when there is none.
  function FrequencyAt(table: seq<int>, channel: Option<int>): int {
    if channel.Some? && 1 <= channel.value <= |table| then table[channel.value - 1] else 0
  }

  // What follows the adapter's answer to a power command: nothing but the audit record on failure,
  // the change event and the state event on success.
  function FinishPower(s: System, c: Command, w: Watts, table: seq<int>, a: Adapter, code: Code): Executed {
    if code != Ok then Audited(s, c, code)
    else
      var view := T.View(T.NormalizeStatus(T.StatusText(a.status)), T.PowerDbmJson(w),
                         T.PositiveOnly(FrequencyAt(table, a.channel)));
      var index := if a.channel.Some? then a.channel.value else -1;
      Audited(s.(hub := Publish2(s.hub, T.PowerChanged(c.radioId, T.PowerDbmJson(w)),
                                 T.State(c.radioId, view, T.PositiveOnly(index)))), c, Ok)
  }

  function FinishChannel(s: System, c: Command, index: int, f: int, a: Adapter, code: Code): Executed {
    if code != Ok then Audited(s, c, code)
    else
      var w := if a.power.Some? then a.power.value else NotPositive;
      var view := T.View(T.NormalizeStatus(T.StatusText(a.status)), T.PowerDbmJson(w), T.PositiveOnly(f));
      Audited(s.(hub := Publish2(s.hub, T.ChannelChanged(c.radioId, f, index),
                                 T.State(c.radioId, view, T.PositiveOnly(index)))), c, Ok)
  }

  function ExecutePower(s: System, c: Command, w: Watts): Executed {
    if c.radioId !in s.fleet then Audited(s, c, NotFound)
    else
      var l := s.fleet[c.radioId];
      if Below(w, l.adapter.minPower) || Above(w, l.adapter.maxPower) then Audited(s, c, InvalidRange)
      else DrivenPower(s, c, w)
  }

  // A power command that reaches the adapter.
  function DrivenPower(s: System, c: Command, w: Watts): Executed
    requires c.radioId in s.fleet
  {
    var l := s.fleet[c.radioId];
    var d := PowerSet(l, w, c.env);
    FinishPower(s.(fleet := s.fleet[c.radioId := d.link]), c, w, l.adapter.table, d.link.adapter, d.code)
  }

  function ExecuteChannel(s: System, c: Command, index: int): Executed {
    if c.radioId !in s.fleet then Audited(s, c, NotFound)
    else
      var l := s.fleet[c.radioId];
      if index < 1 || index > |l.adapter.table| then Audited(s, c, InvalidRange)
      else DrivenChannel(s, c, index, l.adapter.table[index - 1])
  }

  function DrivenChannel(s: System, c: Command, index: int, f: int): Executed
    requires c.radioId in s.fleet
  {
    var d := ChannelSet(s.fleet[c.radioId], index, f, c.env);
    FinishChannel(s.(fleet := s.fleet[c.radioId := d.link]), c, index, f, d.link.adapter, d.code)
  }

  function Execute(s: System, c: Command): Executed {
    match c.action
    case SelectRadio =>
      if c.radioId !in s.fleet then Audited(s, c, NotFound) else Audited(s.(active := Some(c.radioId)), c, Ok)
    case SetPower(w) => ExecutePower(s, c, w)
    case SetChannel(index) => ExecuteChannel(s, c, index)
  }

  // Every adapter under management is sound at time now.
  predicate FleetSound(fleet: map<string, Link>, now: nat) {
    forall id | id in fleet :: Sound(fleet[id].adapter, now)
  }

  // What REST reports of a radio.
  function MapRadioStatus(status: string): string {
    if status == "ready" || status == "discovering" || status == "busy" then "online"
    else if status == "recovering" then "recovering"
    else "offline"
  }

  function RestPower(power: Option<Watts>): Option<int> {
    match power
    case None => None
    case Some(NotPositive) => Some(-100)
    case Some(Dbm(level)) => Some(Round(level))
  }

  function RestView(l: Link): T.View {
    T.View(MapRadioStatus(T.StatusText(l.adapter.status)), RestPower(l.adapter.power),
           T.PositiveOnly(FrequencyAt(l.adapter.table, l.adapter.channel)))
  }

  // Cached powers are positive, as in every sound adapter; only there does the snapshot's own
  // rounding agree with REST.
  predicate PositivePowers(fleet: map<string, Link>) {
    forall id | id in fleet :: fleet[id].adapter.power.Some? ==> fleet[id].adapter.power.value.Dbm?
  }

  predicate ItemsMatch(items: seq<T.Item>, fleet: map<string, Link>) {
    forall i | 0 <= i < |items| ::
      items[i].id in fleet && items[i] == T.Item(items[i].id, "Silvus-" + items[i].id, RestView(fleet[items[i].id]))
  }

  predicate ItemsCover(items: seq<T.Item>, ids: set<string>) {
    forall id | id in ids :: exists i :: 0 <= i < |items| && items[i].id == id
  }

  // The snapshot holds items of all radios and of no others, each with what REST reports.
  predicate SnapshotMatches(snapshot: T.Snapshot, fleet: map<string, Link>) {
    ItemsMatch(snapshot.radios, fleet) && ItemsCover(snapshot.radios, fleet.Keys)
  }

  lemma NoItems(fleet: map<string, Link>)
    ensures ItemsMatch([], fleet) && ItemsCover([], {})
  {
  }

  lemma ItemsGrow(items: seq<T.Item>, item: T.Item, fleet: map<string, Link>, ids: set<string>)
    requires ItemsMatch(items, fleet) && ItemsCover(items, ids)
    requires item.id in fleet && item == T.Item(item.id, "Silvus-" + item.id, RestView(fleet[item.id]))
    ensures ItemsMatch(items + [item], fleet) && ItemsCover(items + [item], ids + {item.id})
  {
    hide RestView;
    var more := items + [item];
    assert more[|items|].id == item.id;
    forall id | id in ids ensures exists i :: 0 <= i < |more| && more[i].id == id {
      var i :| 0 <= i < |items| && items[i].id == id;
      assert more[i].id == id;
    }
  }

  class RadioManager {
    const adapters: map<string, SilvusAdapter>
    var activeRadio: Option<string>
    // The state of every adapter and its radio.
    ghost var fleet: map<string, Link>

    ghost function Repr(): set<object> {
      (set id | id in adapters :: adapters[id] as object) + (set id | id in adapters :: adapters[id].radio as object)
    }

    // Every radio has its own adapter and its own endpoint.
    ghost predicate Separate() {
      this !in Repr() && forall i, j | i in adapters && j in adapters && i != j ::
        adapters[i] != adapters[j] && adapters[i].radio != adapters[j].radio
    }

    ghost predicate Valid()
      reads this`fleet, Repr()
    {
      Separate() && fleet.Keys == adapters.Keys && forall id | id in adapters :: fleet[id] == adapters[id].Linked()
    }

    constructor (loaded: map<string, SilvusAdapter>)
      requires forall i, j | i in loaded && j in loaded && i != j ::
                 loaded[i] != loaded[j] && loaded[i].radio != loaded[j].radio
      ensures Valid() && adapters == loaded && activeRadio == None
      ensures fleet == map id | id in loaded :: loaded[id].Linked()
    {
      adapters := loaded;
      activeRadio := None;
      fleet := map id | id in loaded :: loaded[id].Linked();
    }

    // Records the state one adapter has reached.
    ghost method Settle(id: string)
      requires Separate() && fleet.Keys == adapters.Keys && id in adapters
      requires forall j | j in adapters && j != id :: fleet[j] == adapters[j].Linked()
      modifies this`fleet
      ensures Valid() && fleet == old(fleet)[id := adapters[id].Linked()]
    {
      hide SilvusAdapter.Linked;
      fleet := fleet[id := adapters[id].Linked()];
    }

    method ConnectOne(id: string, e: Env)
      requires Valid() && id in adapters
      modifies this`fleet, Repr()
      ensures Valid() && fleet == old(fleet)[id := Connected(old(fleet)[id], e).link]
    {
      hide Connected, SilvusAdapter.Linked;
      var _ := adapters[id].Connect(e);
      forall j | j in adapters && j != id ensures adapters[j].Linked() == fleet[j] {
        assert unchanged(adapters[j]) && unchanged(adapters[j].radio);
      }
      Settle(id);
    }

    // A power command to a radio under management.
    method DrivePower(id: string, watts: Watts, e: Env) returns (code: Code)
      requires Valid() && id in adapters
      modifies this`fleet, Repr()
      ensures var d := PowerSet(old(fleet)[id], watts, e);
              Valid() && fleet == old(fleet)[id := d.link] && code == d.code
    {
      hide PowerSet, SilvusAdapter.Linked;
      code := adapters[id].SetPower(watts, e);
      forall j | j in adapters && j != id ensures adapters[j].Linked() == fleet[j] {
        assert unchanged(adapters[j]) && unchanged(adapters[j].radio);
      }
      Settle(id);
    }

    method DriveChannel(id: string, index: int, frequency: int, e: Env) returns (code: Code)
      requires Valid() && id in adapters
      modifies this`fleet, Repr()
      ensures var d := ChannelSet(old(fleet)[id], index, frequency, e);
              Valid() && fleet == old(fleet)[id := d.link] && code == d.code
    {
      hide ChannelSet, SilvusAdapter.Linked;
      code := adapters[id].SetChannel(index, frequency, e);
      forall j | j in adapters && j != id ensures adapters[j].Linked() == fleet[j] {
        assert unchanged(adapters[j]) && unchanged(adapters[j].radio);
      }
      Settle(id);
    }

    // Connects every radio, in no particular order.
    method Start(envs: map<string, Env>)
      requires Valid() && envs.Keys == adapters.Keys
      modifies this`fleet, Repr()
      ensures Valid() && fleet == map id | id in old(fleet) :: Connected(old(fleet)[id], envs[id]).link
    {
      hide Connected, Valid;
      assert fleet.Keys == adapters.Keys by { ValidKeys(); }
      ghost var start := fleet;
      var todo := adapters.Keys;
      while todo != {}
        invariant todo <= adapters.Keys && Valid()
        invariant fleet == map id | id in start :: if id in todo then start[id] else Connected(start[id], envs[id]).link
        decreases todo
      {
        var id :| id in todo;
        ConnectOne(id, envs[id]);
        todo := todo - {id};
      }
    }

    lemma ValidKeys()
      requires Valid()
      ensures fleet.Keys == adapters.Keys
    {
    }

    method Stop()
      modifies this`activeRadio
      ensures activeRadio == None
    {
      activeRadio := None;
    }

    method SetActiveRadio(id: string) returns (found: bool)
      modifies this`activeRadio
      ensures found == (id in adapters)
      ensures activeRadio == if found then Some(id) else old(activeRadio)
    {
      if id !in adapters {
        return false;
      }
      activeRadio := Some(id);
      return true;
    }

    // The snapshot announced at start: one item per radio, in no particular order.
    method BuildReadySnapshot() returns (snapshot: T.Snapshot)
      requires Valid() && PositivePowers(fleet)
      ensures snapshot.activeRadioId == activeRadio && SnapshotMatches(snapshot, fleet)
      ensures |snapshot.radios| == |adapters|
    {
      hide Valid, RestView, ItemsMatch, ItemsCover, PositivePowers;
      ValidKeys();
      var items: seq<T.Item> := [];
      var todo := adapters.Keys;
      ghost var seen: set<string> := {};
      NoItems(fleet);
      while todo != {}
        invariant Valid() && todo <= adapters.Keys
        invariant |items| + |todo| == |adapters.Keys| && seen + todo == adapters.Keys
        invariant ItemsMatch(items, fleet) && ItemsCover(items, seen)
        decreases todo
      {
        var id :| id in todo;
        var item := SnapshotItem(id);
        ItemsGrow(items, item, fleet, seen);
        items := items + [item];
        todo := todo - {id};
        seen := seen + {id};
      }
      return T.Snapshot(activeRadio, items);
    }

    method SnapshotItem(id: string) returns (item: T.Item)
      requires Valid() && PositivePowers(fleet) && id in adapters
      ensures Valid() && item == T.Item(id, "Silvus-" + id, RestView(fleet[id]))
    {
      hide Round;
      var a := adapters[id];
      var frequency := 0;
      if a.channelIndex.Some? && a.supportedFrequencies != [] {
        var idx := a.channelIndex.value;
        if idx >= 1 && idx <= |a.supportedFrequencies| {
          frequency := a.supportedFrequencies[idx - 1];
        }
      }
      var status := if a.status == Ready || a.status == Discovering || a.status == Status.Busy then "online"
                    else if a.status == Recovering then "recovering" else "offline";
      var watts := a.powerWatts;
      var power := if watts.Some? && watts.value.Dbm? then Some(Round(watts.value.level)) else None;
      return T.Item(id, "Silvus-" + id, T.View(status, power, if frequency > 0 then Some(frequency) else None));
    }
  }

  class Orchestrator {
    const radios: RadioManager
    const telemetry: T.TelemetryHub
    var auditLog: seq<AuditRecord>

    constructor (manager: RadioManager, hub: T.TelemetryHub)
      ensures radios == manager && telemetry == hub && auditLog == []
    {
      radios := manager;
      telemetry := hub;
      auditLog := [];
    }

    ghost predicate Valid()
      reads radios, radios.Repr()
    {
      radios.Valid() && this !in radios.Repr() && telemetry !in radios.Repr()
    }

    ghost function Value(): System
      reads this, radios, telemetry
    {
      System(radios.fleet, radios.activeRadio, telemetry.Value(), auditLog)
    }

    method Record(action: Action, radioId: string, code: Code)
      modifies this`auditLog
      ensures auditLog == old(auditLog) + [AuditRecord(action, radioId, AuditCode(code))]
    {
      auditLog := auditLog + [AuditRecord(action, radioId, AuditCode(code))];
    }

    // A command that ends before the adapter is asked.
    method Refuse(action: Action, radioId: string, code: Code, ghost e: Env)
      requires Valid()
      modifies this`auditLog
      ensures Valid() && Executed(Value(), code) == Audited(old(Value()), Command(action, radioId, e), code)
    {
      hide AuditCode;
      Record(action, radioId, code);
    }

    method SelectRadio(radioId: string, ghost e: Env) returns (code: Code)
      requires Valid()
      modifies this`auditLog, radios`activeRadio
      ensures Valid()
      ensures Executed(Value(), code) == Execute(old(Value()), Command(Action.SelectRadio, radioId, e))
    {
      hide ExecutePower, ExecuteChannel;
      code := Ok;
      var found := radios.SetActiveRadio(radioId);
      if !found {
        code := NotFound;
      }
      Record(Action.SelectRadio, radioId, code);
    }

    method SetPower(radioId: string, watts: Watts, e: Env, ghost now: nat) returns (code: Code)
      requires Valid() && FleetSound(radios.fleet, now) && now <= e.gate <= e.done
      modifies this`auditLog, telemetry, radios`fleet, radios.Repr()
      ensures Valid() && FleetSound(radios.fleet, e.done)
      ensures Executed(Value(), code) == Execute(old(Value()), Command(Action.SetPower(watts), radioId, e))
    {
      hide Sound, FleetSound, Below, Above, DrivenPower, Audited, ExecuteChannel;
      FleetLater(radios.fleet, now, e.done);
      if radioId !in radios.adapters {
        Refuse(Action.SetPower(watts), radioId, NotFound, e);
        return NotFound;
      }
      var adapter := radios.adapters[radioId];
      if Below(watts, adapter.minPower) || Above(watts, adapter.maxPower) {
        Refuse(Action.SetPower(watts), radioId, InvalidRange, e);
        return InvalidRange;
      }
      code := DrivePower(radioId, watts, e, now);
    }

    method DrivePower(radioId: string, watts: Watts, e: Env, ghost now: nat) returns (code: Code)
      requires Valid() && FleetSound(radios.fleet, now) && now <= e.gate <= e.done && radioId in radios.adapters
      modifies this`auditLog, telemetry, radios`fleet, radios.Repr()
      ensures Valid() && FleetSound(radios.fleet, e.done)
      ensures radioId in old(radios.fleet)
      ensures Executed(Value(), code) == DrivenPower(old(Value()), Command(Action.SetPower(watts), radioId, e), watts)
    {
      hide PowerSet, Sound, FleetSound, FinishPower;
      ghost var start := Value();
      FleetLater(start.fleet, now, e.done);
      var adapter := radios.adapters[radioId];
      var table := adapter.supportedFrequencies;
      FleetMember(start.fleet, radioId, now);
      PowerSound(start.fleet[radioId], watts, e, now);
      code := radios.DrivePower(radioId, watts, e);
      ghost var link := radios.fleet[radioId];
      FleetSoundAt(start.fleet, radioId, link, e.done);
      assert Value() == start.(fleet := start.fleet[radioId := link]) && adapter.Value() == link.adapter;
      SoundIndex(link.adapter, e.done);
      ReportPower(radioId, watts, table, adapter, code, e);
    }

    // The lookup of the channel's frequency is unchecked in the program; it is in bounds because the
    // adapter is sound.
    method ReportPower(radioId: string, watts: Watts, table: seq<int>, adapter: SilvusAdapter, code: Code, ghost e: Env)
      requires Valid()
      requires adapter.channelIndex.Some? ==> 1 <= adapter.channelIndex.value <= |table|
      modifies this`auditLog, telemetry
      ensures Valid()
      ensures var c := Command(Action.SetPower(watts), radioId, e);
              Executed(Value(), code) == FinishPower(old(Value()), c, watts, table, adapter.Value(), code)
    {
      hide T.NormalizeStatus, T.StatusText, T.PowerDbmJson, T.PositiveOnly, T.HubStep, AuditCode;
      if code == Ok {
        var frequency := if adapter.channelIndex.Some? then table[adapter.channelIndex.value - 1] else 0;
        var index := if adapter.channelIndex.Some? then adapter.channelIndex.value else -1;
        telemetry.PublishPowerChanged(radioId, watts);
        telemetry.PublishRadioState(radioId, T.StatusText(adapter.status), index, watts, frequency);
      }
      Record(Action.SetPower(watts), radioId, code);
    }

    method SetChannel(radioId: string, index: int, e: Env, ghost now: nat) returns (code: Code)
      requires Valid() && FleetSound(radios.fleet, now) && now <= e.gate <= e.done
      modifies this`auditLog, telemetry, radios`fleet, radios.Repr()
      ensures Valid() && FleetSound(radios.fleet, e.done)
      ensures Executed(Value(), code) == Execute(old(Value()), Command(Action.SetChannel(index), radioId, e))
    {
      hide Sound, FleetSound, DrivenChannel, Audited, ExecutePower;
      FleetLater(radios.fleet, now, e.done);
      if radioId !in radios.adapters {
        Refuse(Action.SetChannel(index), radioId, NotFound, e);
        return NotFound;
      }
      var adapter := radios.adapters[radioId];
      if index < 1 || index > |adapter.supportedFrequencies| {
        Refuse(Action.SetChannel(index), radioId, InvalidRange, e);
        return InvalidRange;
      }
      var frequency := adapter.supportedFrequencies[index - 1];
      code := DriveChannel(radioId, index, frequency, e, now);
    }

    method DriveChannel(radioId: string, index: int, frequency: int, e: Env, ghost now: nat) returns (code: Code)
      requires Valid() && FleetSound(radios.fleet, now) && now <= e.gate <= e.done && radioId in radios.adapters
      modifies this`auditLog, telemetry, radios`fleet, radios.Repr()
      ensures Valid() && FleetSound(radios.fleet, e.done)
      ensures radioId in old(radios.fleet)
      ensures var c := Command(Action.SetChannel(index), radioId, e);
              Executed(Value(), code) == DrivenChannel(old(Value()), c, index, frequency)
    {
      hide ChannelSet, Sound, FleetSound, FinishChannel;
      ghost var start := Value();
      FleetLater(start.fleet, now, e.done);
      var adapter := radios.adapters[radioId];
      FleetMember(start.fleet, radioId, now);
      ChannelSound(start.fleet[radioId], index, frequency, e, now);
      code := radios.DriveChannel(radioId, index, frequency, e);
      ghost var link := radios.fleet[radioId];
      FleetSoundAt(start.fleet, radioId, link, e.done);
      assert Value() == start.(fleet := start.fleet[radioId := link]) && adapter.Value() == link.adapter;
      ReportChannel(radioId, index, frequency, adapter, code, e);
    }

    method ReportChannel(radioId: string, index: int, frequency: int, adapter: SilvusAdapter, code: Code, ghost e: Env)
      requires Valid()
      modifies this`auditLog, telemetry
      ensures Valid()
      ensures var c := Command(Action.SetChannel(index), radioId, e);
              Executed(Value(), code) == FinishChannel(old(Value()), c, index, frequency, adapter.Value(), code)
    {
      hide T.NormalizeStatus, T.StatusText, T.PowerDbmJson, T.PositiveOnly, T.HubStep, AuditCode;
      if code == Ok {
        var watts := if adapter.powerWatts.Some? then adapter.powerWatts.value else NotPositive;
        telemetry.PublishChannelChanged(radioId, index, frequency);
        telemetry.PublishRadioState(radioId, T.StatusText(adapter.status), index, watts, frequency);
      }
      Record(Action.SetChannel(index), radioId, code);
    }
  }

  lemma FleetMember(fleet: map<string, Link>, id: string, now: nat)
    requires FleetSound(fleet, now) && id in fleet
    ensures Sound(fleet[id].adapter, now)
  {
  }

  lemma FleetSoundAt(fleet: map<string, Link>, id: string, l: Link, now: nat)
    requires FleetSound(fleet, now) && Sound(l.adapter, now)
    ensures FleetSound(fleet[id := l], now)
  {
    hide Sound;
  }

  lemma FleetLater(fleet: map<string, Link>, now: nat, later: nat)
    requires FleetSound(fleet, now) && now <= later
    ensures FleetSound(fleet, later)
  {
    hide Sound;
    forall id | id in fleet ensures Sound(fleet[id].adapter, later) {
      SoundLater(fleet[id].adapter, now, later);
    }
  }

  lemma SoundIndex(a: Adapter, now: nat)
    requires Sound(a, now)
    ensures a.channel.Some? ==> 1 <= a.channel.value <= |a.table|
    ensures FrequencyAt(a.table, a.channel) == if a.channel.Some? then a.table[a.channel.value - 1] else 0
  {
  }
}
