// The monitor page's copy of the radios, rebuilt from telemetry events.
module Monitor {
  import opened Basics
  import T = Telemetry

  // A property of a script object: absent, null or a number.
  datatype Field = Undefined | Nothing | Number(n: int)

  datatype Entry = Entry(
    id: string, model: string, status: string, powerDbm: Field, frequency: Field, channelIndex: Field)

  datatype Client = Client(activeRadioId: Option<string>, cache: seq<Entry>)

  function FieldOf(v: Option<int>): Field {
    match v
    case Some(n) => Number(n)
    case None => Nothing
  }

  // The first entry with this id, or |cache|.
  function Position(cache: seq<Entry>, id: string): (k: nat)
    ensures k <= |cache|
    ensures k < |cache| ==> cache[k].id == id
    ensures forall i | 0 <= i < k :: cache[i].id != id
  {
    if cache == [] || cache[0].id == id then 0 else 1 + Position(cache[1..], id)
  }

  // a || b on strings: the empty string is falsy.
  function Or(a: string, b: string): string {
    if a != "" then a else b
  }

  function MergeItem(cache: seq<Entry>, item: T.Item): seq<Entry> {
    var k := Position(cache, item.id);
    if k == |cache| then
      var v := item.view;
      cache + [Entry(item.id, item.model, v.status, FieldOf(v.powerDbm), FieldOf(v.frequency), Undefined)]
    else
      var e := cache[k];
      cache[k := e.(model := Or(item.model, e.model), status := Or(item.view.status, e.status),
                    powerDbm := FieldOf(item.view.powerDbm), frequency := FieldOf(item.view.frequency))]
  }

  function MergeItems(cache: seq<Entry>, items: seq<T.Item>): seq<Entry> {
    if items == [] then cache else MergeItem(MergeItems(cache, items[..|items| - 1]), items[|items| - 1])
  }

  function Truthy(a: Option<string>, b: Option<string>): Option<string> {
    if a.Some? && a.value != "" then a else b
  }

  // Adds a placeholder for a radio the page has not seen yet.
  function Known(cache: seq<Entry>, id: string): (known: seq<Entry>)
    ensures Position(known, id) < |known|
  {
    if Position(cache, id) < |cache| then cache
    else
      var known := cache + [Entry(id, id, "offline", Undefined, Undefined, Undefined)];
      assert known[|cache|].id == id;
      known
  }

  function ApplyEvent(c: Client, e: T.Event): Client {
    match e
    case Ready(s) => Client(Truthy(s.activeRadioId, c.activeRadioId), MergeItems(c.cache, s.radios))
    case Heartbeat => c
    case _ =>
      if e.radioId == "" then c
      else
        var cache := Known(c.cache, e.radioId);
        var k := Position(cache, e.radioId);
        var prior := cache[k];
        var entry :=
          (match e
           case State(_, view, channel) =>
             prior.(status := Or(view.status, prior.status), powerDbm := FieldOf(view.powerDbm),
                  frequency := FieldOf(view.frequency), channelIndex := FieldOf(channel))
           case ChannelChanged(_, f, i) => prior.(frequency := Number(f), channelIndex := Number(i))
           case PowerChanged(_, power) => prior.(powerDbm := FieldOf(power))
           case _ => prior);
        c.(cache := cache[k := entry])
  }

  function Fold(c: Client, events: seq<T.Event>): Client {
    if events == [] then c else ApplyEvent(Fold(c, events[..|events| - 1]), events[|events| - 1])
  }

  class MonitorPage {
    var radiosCache: seq<Entry>
    var activeRadioId: Option<string>

    constructor ()
      ensures Value() == Client(None, [])
    {
      radiosCache, activeRadioId := [], None;
    }

    ghost function Value(): Client
      reads this
    {
      Client(activeRadioId, radiosCache)
    }

    method Find(id: string) returns (k: nat)
      ensures k == Position(radiosCache, id)
    {
      k := 0;
      while k < |radiosCache| && radiosCache[k].id != id
        invariant k <= |radiosCache|
        invariant forall i | 0 <= i < k :: radiosCache[i].id != id
      {
        k := k + 1;
      }
      PositionIs(radiosCache, id, k);
    }

    method ApplyReadySnapshot(snapshot: T.Snapshot)
      modifies this
      ensures Value() == ApplyEvent(old(Value()), T.Event.Ready(snapshot))
    {
      hide MergeItem, Position;
      if snapshot.activeRadioId.Some? && snapshot.activeRadioId.value != "" {
        activeRadioId := snapshot.activeRadioId;
      }
      ghost var start := radiosCache;
      var items := snapshot.radios;
      for i := 0 to |items|
        invariant radiosCache == MergeItems(start, items[..i])
        invariant activeRadioId == Truthy(snapshot.activeRadioId, old(activeRadioId))
      {
        assert items[..i + 1][..i] == items[..i];
        Merge(items[i]);
      }
      assert items[..|items|] == items;
    }

    method Merge(incoming: T.Item)
      modifies this`radiosCache
      ensures radiosCache == MergeItem(old(radiosCache), incoming)
    {
      hide Position;
      var k := Find(incoming.id);
      if k == |radiosCache| {
        radiosCache := radiosCache + [Entry(incoming.id, incoming.model, incoming.view.status,
          FieldOf(incoming.view.powerDbm), FieldOf(incoming.view.frequency), Undefined)];
        return;
      }
      var existing := radiosCache[k];
      existing := existing.(model := Or(incoming.model, existing.model));
      existing := existing.(status := Or(incoming.view.status, existing.status));
      existing := existing.(powerDbm := FieldOf(incoming.view.powerDbm), frequency := FieldOf(incoming.view.frequency));
      radiosCache := radiosCache[k := existing];
    }

    method ApplyTelemetryEvent(e: T.Event)
      modifies this
      ensures Value() == ApplyEvent(old(Value()), e)
    {
      hide Position, MergeItems;
      if e.Ready? {
        ApplyReadySnapshot(e.snapshot);
        return;
      }
      if e.Heartbeat? || e.radioId == "" {
        return;
      }
      var k := Find(e.radioId);
      if k == |radiosCache| {
        radiosCache := Known(radiosCache, e.radioId);
        k := Find(e.radioId);
      }
      var radio := radiosCache[k];
      match e {
        case State(_, view, channelIndex) =>
          radio := radio.(status := Or(view.status, radio.status));
          radio := radio.(frequency := FieldOf(view.frequency));
          radio := radio.(powerDbm := FieldOf(view.powerDbm));
          radio := radio.(channelIndex := FieldOf(channelIndex));
        case ChannelChanged(_, frequency, index) =>
          radio := radio.(frequency := Number(frequency));
          radio := radio.(channelIndex := Number(index));
        case PowerChanged(_, powerDbm) =>
          radio := radio.(powerDbm := FieldOf(powerDbm));
      }
      radiosCache := radiosCache[k := radio];
    }
  }

  lemma {:induction false} PositionIs(cache: seq<Entry>, id: string, k: nat)
    requires k <= |cache| && (k < |cache| ==> cache[k].id == id) && forall i | 0 <= i < k :: cache[i].id != id
    ensures Position(cache, id) == k
  {
    hide Position;
    var j := Position(cache, id);
    assert !(j < k);
  }

  // ---- what the page shows of one radio ----

  // The page shows exactly this view of the radio called id.
  predicate Shows(c: Client, id: string, v: T.View) {
    var k := Position(c.cache, id);
    k < |c.cache| && c.cache[k].status == v.status &&
    c.cache[k].powerDbm == FieldOf(v.powerDbm) && c.cache[k].frequency == FieldOf(v.frequency)
  }

  // An event about one radio leaves what is shown of every other radio alone.
  lemma OthersUntouched(c: Client, e: T.Event, id: string, v: T.View)
    requires !e.Ready? && (e.Heartbeat? || e.radioId != id)
    ensures Shows(ApplyEvent(c, e), id, v) <==> Shows(c, id, v)
  {
    hide Position;
    if !e.Heartbeat? && e.radioId != "" {
      KnownElsewhere(c.cache, e.radioId, id);
      var cache := Known(c.cache, e.radioId);
      PositionKept(cache, ApplyEvent(c, e).cache, id);
    }
  }

  lemma KnownElsewhere(cache: seq<Entry>, id: string, other: string)
    requires id != other
    ensures var known := Known(cache, id);
            var k := Position(cache, other);
            if k < |cache| then Position(known, other) == k && known[k] == cache[k]
            else Position(known, other) == |known|
  {
    hide Position;
    var known := Known(cache, id);
    var k := Position(cache, other);
    PositionIs(known, other, if k < |cache| then k else |known|);
  }

  lemma PositionKept(a: seq<Entry>, b: seq<Entry>, id: string)
    requires |a| == |b| && forall i | 0 <= i < |a| :: a[i].id == b[i].id
    ensures Position(a, id) == Position(b, id)
  {
    hide Position;
    PositionIs(b, id, Position(a, id));
  }

  // After a state event the page shows its view, whatever it showed before.
  lemma StateShown(c: Client, id: string, v: T.View, channel: Option<int>)
    requires id != "" && v.status != ""
    ensures Shows(ApplyEvent(c, T.State(id, v, channel)), id, v)
  {
    hide Position;
    var cache := Known(c.cache, id);
    PositionKept(cache, ApplyEvent(c, T.State(id, v, channel)).cache, id);
  }

  // After a ready event the page shows, for each radio in the snapshot, the view of the last item
  // that names it; when all items of a radio agree, that view.
  lemma {:induction false} ReadyShown(cache: seq<Entry>, items: seq<T.Item>, id: string, v: T.View)
    requires v.status != "" && forall i | 0 <= i < |items| && items[i].id == id :: items[i].view == v
    requires exists i :: 0 <= i < |items| && items[i].id == id
    ensures Shows(Client(None, MergeItems(cache, items)), id, v)
  {
    hide MergeItem, Position, Shows;
    var n := |items| - 1;
    var before := MergeItems(cache, items[..n]);
    if items[n].id == id {
      MergeShows(before, items[n], v);
    } else {
      var i :| 0 <= i < |items| && items[i].id == id;
      assert items[..n][i].id == id;
      ReadyShown(cache, items[..n], id, v);
      MergeElsewhere(before, items[n], id, v);
    }
  }

  lemma MergeShows(cache: seq<Entry>, item: T.Item, v: T.View)
    requires item.view == v && v.status != ""
    ensures Shows(Client(None, MergeItem(cache, item)), item.id, v)
  {
    hide Position;
    var merged := MergeItem(cache, item);
    PositionIs(merged, item.id, Position(cache, item.id));
  }

  lemma MergeElsewhere(cache: seq<Entry>, item: T.Item, id: string, v: T.View)
    requires item.id != id
    ensures Shows(Client(None, MergeItem(cache, item)), id, v) <==> Shows(Client(None, cache), id, v)
  {
    hide Position;
    var merged := MergeItem(cache, item);
    var k := Position(cache, id);
    PositionIs(merged, id, if k < |cache| then k else |merged|);
  }

  // ---- the channel index and the active radio of the page ----

  predicate ShowsIndex(c: Client, id: string, channel: Option<int>) {
    var k := Position(c.cache, id);
    k < |c.cache| && c.cache[k].channelIndex == FieldOf(channel)
  }

  lemma IndexShown(c: Client, id: string, v: T.View, channel: Option<int>)
    requires id != ""
    ensures ShowsIndex(ApplyEvent(c, T.State(id, v, channel)), id, channel)
  {
    hide Position;
    var cache := Known(c.cache, id);
    PositionKept(cache, ApplyEvent(c, T.State(id, v, channel)).cache, id);
  }

  lemma OtherIndexUntouched(c: Client, e: T.Event, id: string, channel: Option<int>)
    requires !e.Ready? && (e.Heartbeat? || e.radioId != id)
    ensures ShowsIndex(ApplyEvent(c, e), id, channel) <==> ShowsIndex(c, id, channel)
  {
    hide Position;
    if !e.Heartbeat? && e.radioId != "" {
      KnownElsewhere(c.cache, e.radioId, id);
      PositionKept(Known(c.cache, e.radioId), ApplyEvent(c, e).cache, id);
    }
  }

  // Events other than ready never change which radio the page takes for active, and ready does when it
  // names one.
  lemma {:induction false} PageActive(c: Client, events: seq<T.Event>)
    ensures (forall i | 0 <= i < |events| :: !events[i].Ready?) ==> Fold(c, events).activeRadioId == c.activeRadioId
    ensures forall snapshot: T.Snapshot ::
              ApplyEvent(c, T.Event.Ready(snapshot)).activeRadioId
              == match snapshot.activeRadioId
                 case Some(id) => if id == "" then c.activeRadioId else Some(id)
                 case None => c.activeRadioId
  {
    hide MergeItems, Position;
    if events != [] {
      PageActive(c, events[..|events| - 1]);
    }
  }

  // A stretch of events none of which is about the radio leaves what is shown of it alone.
  lemma {:induction false} StretchUntouched(c: Client, events: seq<T.Event>, id: string, v: T.View)
    requires forall e | e in events :: !e.Ready? && (e.Heartbeat? || e.radioId != id)
    ensures Shows(Fold(c, events), id, v) <==> Shows(c, id, v)
  {
    hide ApplyEvent, Shows;
    if events != [] {
      var n := |events| - 1;
      StretchUntouched(c, events[..n], id, v);
      OthersUntouched(Fold(c, events[..n]), events[n], id, v);
    }
  }

  // ---- which radios the page knows ----

  predicate UniqueIds(cache: seq<Entry>) {
    forall i, j | 0 <= i < j < |cache| :: cache[i].id != cache[j].id
  }

  predicate Lists(cache: seq<Entry>, id: string) {
    exists i :: 0 <= i < |cache| && cache[i].id == id
  }

  predicate HasItem(items: seq<T.Item>, id: string) {
    exists i :: 0 <= i < |items| && items[i].id == id
  }

  predicate Mentions(e: T.Event, id: string) {
    match e
    case Ready(s) => HasItem(s.radios, id)
    case Heartbeat => false
    case _ => id != "" && e.radioId == id
  }

  lemma ListedAt(cache: seq<Entry>, id: string)
    ensures Lists(cache, id) <==> Position(cache, id) < |cache|
  {
    hide Position;
  }

  lemma MergeIds(cache: seq<Entry>, item: T.Item)
    requires UniqueIds(cache)
    ensures var merged := MergeItem(cache, item);
            && UniqueIds(merged) && forall id :: Lists(merged, id) <==> Lists(cache, id) || id == item.id
  {
    hide Position;
    var k := Position(cache, item.id);
    var merged := MergeItem(cache, item);
    assert merged[k].id == item.id;
    forall id ensures Lists(merged, id) <==> Lists(cache, id) || id == item.id {
      if i :| 0 <= i < |cache| && cache[i].id == id {
        assert merged[i].id == id;
      }
    }
  }

  lemma {:induction false} MergeAllIds(cache: seq<Entry>, items: seq<T.Item>)
    requires UniqueIds(cache)
    ensures UniqueIds(MergeItems(cache, items))
    ensures forall id :: Lists(MergeItems(cache, items), id) <==> Lists(cache, id) || HasItem(items, id)
  {
    hide MergeItem, UniqueIds, Lists;
    if items != [] {
      var n := |items| - 1;
      MergeAllIds(cache, items[..n]);
      MergeIds(MergeItems(cache, items[..n]), items[n]);
      forall id ensures HasItem(items, id) <==> HasItem(items[..n], id) || items[n].id == id {
        if i :| 0 <= i < |items| && items[i].id == id {
          assert i < n ==> items[..n][i].id == id;
        }
        if i :| 0 <= i < n && items[..n][i].id == id {
          assert items[i].id == id;
        }
      }
    }
  }

  // The page never lists a radio twice, and lists exactly those it knew and those events named.
  lemma PageLists(c: Client, e: T.Event)
    requires UniqueIds(c.cache)
    ensures var cache := ApplyEvent(c, e).cache;
            UniqueIds(cache) && forall id :: Lists(cache, id) <==> Lists(c.cache, id) || Mentions(e, id)
  {
    hide Position;
    match e
    case Ready(s) => MergeAllIds(c.cache, s.radios);
    case Heartbeat =>
    case _ =>
      if e.radioId != "" {
        NamedEvent(c, e);
      }
  }

  lemma NamedEvent(c: Client, e: T.Event)
    requires UniqueIds(c.cache) && !e.Ready? && !e.Heartbeat? && e.radioId != ""
    ensures var cache := ApplyEvent(c, e).cache;
            UniqueIds(cache) && forall id :: Lists(cache, id) <==> Lists(c.cache, id) || id == e.radioId
  {
    hide Position;
    var cache := ApplyEvent(c, e).cache;
    var known := Known(c.cache, e.radioId);
    assert |cache| == |known| && forall i | 0 <= i < |known| :: cache[i].id == known[i].id;
    forall id ensures Lists(cache, id) <==> Lists(c.cache, id) || id == e.radioId {
      ListedAt(c.cache, e.radioId);
      if i :| 0 <= i < |c.cache| && c.cache[i].id == id {
        assert cache[i].id == id;
      }
      if id == e.radioId {
        assert cache[Position(known, id)].id == id;
      }
    }
  }

  // A radio the page learns of from an event other than ready is called by its id and is offline until
  // told otherwise; a ready item brings its model.
  lemma Newcomer(c: Client, e: T.Event, item: T.Item)
    ensures !e.Ready? && !e.Heartbeat? && !e.State? && e.radioId != "" && !Lists(c.cache, e.radioId) ==>
              var cache := ApplyEvent(c, e).cache;
              |cache| == |c.cache| + 1 && cache[|c.cache|].model == e.radioId && cache[|c.cache|].status == "offline"
    ensures item.model != "" ==>
              var merged := MergeItem(c.cache, item);
              Position(merged, item.id) < |merged| && merged[Position(merged, item.id)].model == item.model
  {
    hide Position;
    if !e.Ready? && !e.Heartbeat? {
      ListedAt(c.cache, e.radioId);
      KnownNew(c.cache, e.radioId);
    }
    var merged := MergeItem(c.cache, item);
    PositionIs(merged, item.id, Position(c.cache, item.id));
  }

  lemma KnownNew(cache: seq<Entry>, id: string)
    ensures Position(cache, id) == |cache| ==> Position(Known(cache, id), id) == |cache|
  {
    hide Position;
    if Position(cache, id) == |cache| {
      PositionIs(Known(cache, id), id, |cache|);
    }
  }
}
