// Concrete cases in which a promise one might expect does not hold; the runs start from a fresh adapter.
// The exact conditions are in the lemmas each example belongs to.
module Examples {
  import opened Basics
  import opened ChannelTable
  import opened Decimal
  import opened FrequencyProfile
  import opened Power
  import opened Radio
  import opened Adapter
  import opened Protocol
  import opened Coherence
  import opened Text

  // A radio that offers exactly the frequencies fs, with the durations of the original.
  function RadioFor(fs: seq<int>): Radio {
    var texts := seq(|fs|, i requires 0 <= i < |fs| => CompactText(fs[i]));
    Radio("4700.0", 30, false, 0, 30_000, 0, 60_000, [Profile(texts, "-1", "15")])
  }

  // An operation in which nothing is lost, delayed or interleaved.
  function Instant(t: nat): Env {
    var trip := Trip([], Delivered, t, t);
    Env(t, trip, trip, trip, t)
  }

  function Fresh(r: Radio): Link {
    Link(NewAdapter(None, 30_000), r)
  }

  // A fresh adapter that has connected to such a radio.
  function Started(fs: seq<int>): Link {
    Connected(Fresh(RadioFor(fs)), Instant(0)).link
  }

  lemma CompactTextExpands(v: int)
    ensures Expand(AdapterSpec(CompactText(v))) == [v]
  {
    hide AdapterSpec;
    PrintedValue(v);
  }

  lemma ListedTexts(fs: seq<int>)
    ensures forall i | 0 <= i < |fs| :: CompactText(fs[i]) in Listed(RadioFor(fs).profiles)
    ensures forall text | text in Listed(RadioFor(fs).profiles) ::
              exists i :: 0 <= i < |fs| && text == CompactText(fs[i])
  {
    hide CompactText;
    var profiles := RadioFor(fs).profiles;
    assert profiles[..0] == [] && Listed(profiles[..0]) == [];
    var texts := profiles[0].frequencies;
    assert Listed(profiles) == texts;
    forall text | text in texts ensures exists i :: 0 <= i < |fs| && text == CompactText(fs[i]) {
      var i :| 0 <= i < |texts| && texts[i] == text;
      assert text == CompactText(fs[i]);
    }
    forall i | 0 <= i < |fs| ensures CompactText(fs[i]) in Listed(profiles) {
      assert texts[i] == CompactText(fs[i]);
    }
  }

  // The channel table of such a radio is fs, and it accepts them all.
  lemma TableFor(fs: seq<int>)
    requires StrictlyIncreasing(fs)
    ensures Table(Published(RadioFor(fs).profiles)) == fs
    ensures forall f | f in fs :: Accepted(RadioFor(fs).profiles, f)
  {
    hide CompactText, Table, Listed, ReplyTexts, Accepted, Expand, AdapterSpec, RadioFor;
    var profiles := RadioFor(fs).profiles;
    var table := Table(Published(profiles));
    TableIsUnion(Published(profiles));
    PublishedTexts(profiles);
    ListedTexts(fs);
    forall f ensures f in table <==> f in fs {
      if f in fs {
        var i :| 0 <= i < |fs| && fs[i] == f;
        CompactTextExpands(f);
        assert CompactText(f) in Listed(profiles);
      }
      if f in table {
        var text :| text in ReplyTexts(Published(profiles)) && f in Expand(AdapterSpec(text));
        var i :| 0 <= i < |fs| && text == CompactText(fs[i]);
        CompactTextExpands(fs[i]);
      }
    }
    IncreasingDetermined(table, fs);
    forall f | f in fs ensures Accepted(profiles, f) {
      OfferedIsAccepted(profiles, f);
    }
  }

  lemma StartedIs(fs: seq<int>)
    requires StrictlyIncreasing(fs) && fs != []
    ensures var a := NewAdapter(None, 30_000).(table := fs, enableMaxPower := Some(false), status := Ready);
            Started(fs) == Link(a, RadioFor(fs))
  {
    hide Exchange, Table, NoteFlag, TableOf;
    TableFor(fs);
    AnsweredConnect(Fresh(RadioFor(fs)), 0);
  }

  // A connect that is answered at once.
  lemma AnsweredConnect(l: Link, t: nat)
    requires l.radio.blackout <= t && Table(Published(l.radio.profiles)) != []
    ensures var d := Connected(l, Instant(t));
            && d.code == Ok && d.link.radio == l.radio
            && d.link.adapter == l.adapter.(table := Table(Published(l.radio.profiles)), deadline := 0, status := Ready,
                                            enableMaxPower := Some(l.radio.maxPower), manual := !l.radio.maxPower)
  {
    hide Connected, Table;
    ConnectDecision(l, Instant(t));
  }

  // The reply to an accepted frequency change is lost: two milliseconds later the radio is in
  // blackout and the gate is open (Disruptions.LostFrequencyReply).
  lemma LostReplyOpensGate()
    ensures var f := 2412 * MICRO;
            var w := World(Started([f]), 0, 0);
            var late := Trip([], Delivered, 2, 2);
            var s := Operate(OpChannel(1, f), Env(0, Trip([], ReplyLost, 1, 1), late, late, 2));
            var w1 := Apply(w, s);
            && Safe(w) && Config(w.link) && Legal(w, s)
            && w1.link.radio.blackout == 30_001 && !WindowActive(w1.link.adapter, w1.now) && !Safe(w1)
  {
    hide CompactText, Accepted, Started, ChannelSet, RadioFor, ChannelOf;
    var f := 2412 * MICRO;
    StartedIs([f]);
    TableFor([f]);
    RadioForIs([f]);
    assert f in [f];
    assert [f][0] == f && Near(f, f) && ChannelOf([f], f).Some?;
    var late := Trip([], Delivered, 2, 2);
    ChannelDecision(Started([f]), 1, f, Env(0, Trip([], ReplyLost, 1, 1), late, late, 2));
  }

  // Another client resets the radio while a refresh reads the flag: the refresh succeeds and the gate
  // is open for the whole of the reset (Disruptions.RefreshOpensGate).
  lemma ResetDuringRefresh()
    ensures var w := World(Started([2412 * MICRO]), 0, 0);
            var trip := Trip([], Delivered, 1, 1);
            var e := Env(1, trip, trip, Trip([Arrival(RadioReset, [], 1, 1)], Delivered, 2, 2), 2);
            var w1 := Apply(w, Operate(OpRefresh, e));
            && Safe(w) && Config(w.link) && Legal(w, Operate(OpRefresh, e)) && Refreshed(w.link, e).code == Ok
            && w1.link.radio.blackout == 60_001 && !WindowActive(w1.link.adapter, w1.now) && !Safe(w1)
  {
    hide CompactText, Started, Table, IntText, ParseInt, ParseDecimal, ChannelOf;
    StartedIs([2412 * MICRO]);
    assert [Arrival(RadioReset, [], 1, 1)][..0] == [];
  }

  // At maximum power with both flag reads lost, a request for 20 dBm is reported as done while the
  // radio stays at 30 dBm (Coherence.LostFlagRead).
  lemma LostFlagLies()
    ensures var r := RadioFor([2412 * MICRO]).(maxPower := true);
            var trip := Trip([], Delivered, 1, 1);
            var e := Env(1, trip, Trip([], ReplyLost, 1, 1), trip, 1);
            var l := Connected(Fresh(r), e).link;
            var e2 := Env(2, Trip([], ReplyLost, 2, 2), Trip([], Delivered, 2, 2), Trip([], Delivered, 2, 2), 2);
            var d := PowerSet(l, Dbm(20.0), e2);
            && Connected(Fresh(r), e).code == Ok && Kept(l)
            && d.code == Ok && d.link.radio.power == 30 && d.link.adapter.power == Some(Dbm(20.0)) && !Coherent(d.link)
  {
    hide Connected, PowerSet, RadioFor, Exchange;
    var r := RadioFor([2412 * MICRO]).(maxPower := true);
    RadioForIs([2412 * MICRO]);
    var trip := Trip([], Delivered, 1, 1);
    var e := Env(1, trip, Trip([], ReplyLost, 1, 1), trip, 1);
    StartCoherent(None, 30_000, r, e);
    ConnectKeepsLimits(Fresh(r), e);
    var e2 := Env(2, Trip([], ReplyLost, 2, 2), Trip([], Delivered, 2, 2), Trip([], Delivered, 2, 2), 2);
    LostFlagRead(Connected(Fresh(r), e).link, Dbm(20.0), e2);
    RoundInteger(20);
  }

  lemma RadioForIs(fs: seq<int>)
    ensures var r := RadioFor(fs);
            r.power == 30 && r.blackout == 0 && r.softBoot == 30_000 && r.powerPause == 0
  {
  }

  lemma ConnectKeepsLimits(l: Link, e: Env)
    ensures var a := Connected(l, e).link.adapter;
            && a.minPower == l.adapter.minPower && a.maxPower == l.adapter.maxPower
            && (a.deadline == 0 || a.deadline == l.adapter.deadline)
  {
    hide Exchange, TableOf, ParseBoolean;
  }

  // Two channels half a kilohertz apart: channel 2 is commanded and set, channel 1 is cached
  // (ChannelTable.LookupOwnFrequency, Coherence.ChannelRoundTrip).
  lemma CloseChannelsConfused()
    ensures var f := 2412 * MICRO + 500;
            var l := Started([f - 500, f]);
            var d := ChannelSet(l, 2, f, Instant(0));
            && OffersProfiles(l) && l.adapter.table == [f - 500, f]
            && d.code == Ok && d.link.radio.freq == CompactText(f) && d.link.adapter.channel == Some(1)
  {
    hide CompactText, Accepted, Started, RadioFor, ChannelSet, Table, ChannelOf;
    var f := 2412 * MICRO + 500;
    StartedIs([f - 500, f]);
    TableFor([f - 500, f]);
    RadioForIs([f - 500, f]);
    var table := [f - 500, f];
    assert table[1] == f && f in table;
    assert Near(table[0], f) && ChannelOf(table, f) == Some(1);
    ChannelDecision(Started([f - 500, f]), 2, f, Instant(0));
  }

  // A range with a step of one micro-MHz: the radio accepts the point in the slack above the range,
  // the adapter does not offer it (FrequencyProfile.SpecAgreement).
  lemma UnitStepDisagrees()
    ensures Accepts(Grid(100, 1, 105), 106) && 106 !in Expand(Grid(100, 1, 105))
  {
    UnitGridEnds(100, 105);
    AcceptedIsExpanded(Grid(100, 1, 105), 106);
  }

  // The first connect does not reach a radio that offers 2462 MHz alone. The adapter keeps its default
  // channels, the third of which the radio accepts; a second connect after the boot succeeds and
  // leaves index 3 with a table of one channel (Protocol.ReconnectExact).
  lemma ReconnectLosesChannel()
    ensures var f := 2462 * MICRO;
            var lost := Trip([], RequestLost, 0, 0);
            var first := Connected(Fresh(RadioFor([f])), Env(0, lost, lost, lost, 0));
            var set3 := ChannelSet(first.link, 3, first.link.adapter.table[2], Instant(1));
            var again := Connected(set3.link, Instant(40_000));
            && first.code == Unavailable && set3.code == Ok && Sound(set3.link.adapter, 40_000) && again.code == Ok
            && again.link.adapter.table == [f] && again.link.adapter.channel == Some(3)
            && !Sound(again.link.adapter, 40_000)
  {
    hide CompactText, Accepted, RadioFor, ChannelSet, Table;
    var f := 2462 * MICRO;
    var table := [2412 * MICRO, 2437 * MICRO, f];
    TableFor([f]);
    RadioForIs([f]);
    assert f in [f];
    assert table[2..] == [f] && table[1..][1..] == [f] && ChannelOf([f], f) == Some(1);
    assert ChannelOf(table[1..], f) == Some(2) && ChannelOf(table, f) == Some(3);
    ChannelDecision(Fresh(RadioFor([f])), 3, f, Instant(1));
    AnsweredConnect(ChannelSet(Fresh(RadioFor([f])), 3, f, Instant(1)).link, 40_000);
  }
}
