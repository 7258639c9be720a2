// When exactly a step leaves adapter and radio safe: for every operation, every loss, every delay and
// everything other clients do, inside an operation and between operations.
module Disruptions {
  import opened Adapter
  import opened ChannelTable
  import opened Decimal
  import opened Json
  import opened Power
  import opened Protocol
  import opened Radio
  import opened Text

  // ---- the requests a step brings to the radio ----

  // Those of one exchange: other clients' and then the adapter's own, unless it is lost.
  function Posts(m: Method, params: seq<Json>, t: Trip): seq<Arrival> {
    t.others + (if t.fate.RequestLost? then [] else [Arrival(m, params, t.checked, t.applied)])
  }

  function PowerPosts(l: Link, w: Watts, e: Env): seq<Arrival> {
    var a := NoteFlag(l.adapter, Exchange(l.radio, EnableMaxPower, [], e.first).answer);
    Posts(EnableMaxPower, [], e.first) +
    if !a.manual || Below(w, a.minPower) || Above(w, a.maxPower) then []
    else Posts(PowerDbm, Texts([IntText(Round(w.level))]), e.second)
  }

  function RefreshPosts(r: Radio, e: Env): seq<Arrival> {
    var power := Exchange(r, PowerDbm, [], e.first);
    Posts(PowerDbm, [], e.first) +
    if Failure(power.answer).Some? then []
    else
      var freq := Exchange(power.radio, Freq, [], e.second);
      Posts(Freq, [], e.second) + if Failure(freq.answer).Some? then [] else Posts(EnableMaxPower, [], e.third)
  }

  function ConnectPosts(r: Radio, e: Env): seq<Arrival> {
    Posts(SupportedProfiles, [], e.first) +
    if Failure(Exchange(r, SupportedProfiles, [], e.first).answer).Some? then []
    else Posts(EnableMaxPower, [], e.second)
  }

  function Journal(l: Link, s: Step): seq<Arrival> {
    match s
    case Outside(c) => [c]
    case Operate(OpConnect, e) => ConnectPosts(l.radio, e)
    case Operate(OpPower(w), e) => if WindowActive(l.adapter, e.gate) then [] else PowerPosts(l, w, e)
    case Operate(OpChannel(i, f), e) =>
      if PassesChecks(l.adapter, i, f, e.gate) then Posts(Freq, Texts([CompactText(f)]), e.first) else []
    case Operate(OpRefresh, e) => if WindowActive(l.adapter, e.gate) then [] else RefreshPosts(l.radio, e)
  }

  lemma {:induction false} InterfereAppend(r: Radio, a: seq<Arrival>, b: seq<Arrival>)
    ensures Interfere(r, a + b) == Interfere(Interfere(r, a), b)
  {
    hide Serve;
    if b == [] {
      assert a + b == a;
    } else {
      assert (a + b)[..|a| + |b| - 1] == a + b[..|b| - 1];
      InterfereAppend(r, a, b[..|b| - 1]);
    }
  }

  lemma {:induction false} TimedAppend(a: seq<Arrival>, b: seq<Arrival>, from: nat, mid: nat, upto: nat)
    requires TimedCalls(a, from, mid) && TimedCalls(b, mid, upto)
    ensures TimedCalls(a + b, from, upto)
  {
    if b == [] {
      assert a + b == a;
      TimedLater(a, from, mid, upto);
    } else {
      assert (a + b)[..|a| + |b| - 1] == a + b[..|b| - 1];
      TimedAppend(a, b[..|b| - 1], from, mid, b[|b| - 1].checked);
    }
  }

  lemma TimedLater(calls: seq<Arrival>, from: nat, upto: nat, later: nat)
    requires TimedCalls(calls, from, upto) && upto <= later
    ensures TimedCalls(calls, from, later)
  {
  }

  lemma PostsServed(r: Radio, m: Method, params: seq<Json>, t: Trip, from: nat)
    requires TimedTrip(t, from)
    ensures Exchange(r, m, params, t).radio == Interfere(r, Posts(m, params, t))
    ensures TimedCalls(Posts(m, params, t), from, t.applied)
  {
    hide Serve;
    var own := Arrival(m, params, t.checked, t.applied);
    assert (t.others + [own])[..|t.others|] == t.others;
    assert t.others + [] == t.others;
    TimedLater(t.others, from, t.checked, t.applied);
  }

  // The journal is complete: the radio ends as if it had served exactly these requests, and they
  // arrive in the order of time.
  lemma JournalComplete(w: World, s: Step)
    requires Legal(w, s)
    ensures Apply(w, s).link.radio == Interfere(w.link.radio, Journal(w.link, s))
    ensures exists from :: TimedCalls(Journal(w.link, s), from, Apply(w, s).now)
  {
    match s
    case Outside(c) => OneCall(w.link.radio, c, Apply(w, s).now);
    case Operate(OpConnect, e) => ConnectJournal(w.link, e);
    case Operate(OpPower(watts), e) => PowerJournal(w.link, watts, e);
    case Operate(OpChannel(i, f), e) => ChannelJournal(w.link, i, f, e);
    case Operate(OpRefresh, e) => RefreshJournal(w.link, e);
  }

  lemma OneCall(r: Radio, c: Arrival, upto: nat)
    requires c.checked <= c.applied <= upto
    ensures Interfere(r, [c]) == Serve(r, c.m, c.params, c.checked, c.applied).radio
    ensures TimedCalls([c], c.checked, upto)
  {
    hide Serve;
    assert [c][..0] == [];
  }

  lemma NoCalls(r: Radio, e: Env)
    requires TimedEnv(e)
    ensures Interfere(r, []) == r && TimedCalls([], e.gate, e.done)
  {
    TimedEnvOrder(e);
  }

  lemma ConnectJournal(l: Link, e: Env)
    requires TimedEnv(e)
    ensures Connected(l, e).link.radio == Interfere(l.radio, ConnectPosts(l.radio, e))
    ensures TimedCalls(ConnectPosts(l.radio, e), e.gate, e.done)
  {
    hide Exchange, Posts, Interfere, TimedCalls, Failure, NoteFlag, TableOf;
    TimedEnvOrder(e);
    PostsServed(l.radio, SupportedProfiles, [], e.first, e.gate);
    var p, q := Posts(SupportedProfiles, [], e.first), Posts(EnableMaxPower, [], e.second);
    var r1 := Exchange(l.radio, SupportedProfiles, [], e.first).radio;
    PostsServed(r1, EnableMaxPower, [], e.second, e.first.applied);
    Joined(l.radio, p, q, e.gate, e.first.applied, e.second.applied, e.done);
  }

  // Requests p, alone or followed by q.
  lemma Joined(r: Radio, p: seq<Arrival>, q: seq<Arrival>, from: nat, mid: nat, end: nat, upto: nat)
    requires TimedCalls(p, from, mid) && TimedCalls(q, mid, end) && mid <= end <= upto
    ensures TimedCalls(p, from, upto) && TimedCalls(p + q, from, upto)
    ensures Interfere(r, p + q) == Interfere(Interfere(r, p), q)
    ensures p + [] == p
  {
    hide Interfere;
    InterfereAppend(r, p, q);
    TimedAppend(p, q, from, mid, end);
    TimedLater(p, from, mid, upto);
    TimedLater(p + q, from, end, upto);
  }

  lemma PowerJournal(l: Link, w: Watts, e: Env)
    requires TimedEnv(e)
    ensures var posts := if WindowActive(l.adapter, e.gate) then [] else PowerPosts(l, w, e);
            PowerSet(l, w, e).link.radio == Interfere(l.radio, posts) && TimedCalls(posts, e.gate, e.done)
  {
    hide Exchange, Posts, Interfere, TimedCalls, Failure, NoteFlag, IntText, Round;
    TimedEnvOrder(e);
    NoCalls(l.radio, e);
    PostsServed(l.radio, EnableMaxPower, [], e.first, e.gate);
    var r1 := Exchange(l.radio, EnableMaxPower, [], e.first).radio;
    var params := Texts([IntText(Round(if w.Dbm? then w.level else 0.0))]);
    PostsServed(r1, PowerDbm, params, e.second, e.first.applied);
    Joined(l.radio, Posts(EnableMaxPower, [], e.first), Posts(PowerDbm, params, e.second),
           e.gate, e.first.applied, e.second.applied, e.done);
  }

  lemma ChannelJournal(l: Link, i: int, f: int, e: Env)
    requires TimedEnv(e)
    ensures var posts := Journal(l, Operate(OpChannel(i, f), e));
            ChannelSet(l, i, f, e).link.radio == Interfere(l.radio, posts) && TimedCalls(posts, e.gate, e.done)
  {
    hide Exchange, Posts, Interfere, TimedCalls, Failure, CompactText, ChannelOf;
    TimedEnvOrder(e);
    NoCalls(l.radio, e);
    var params := Texts([CompactText(f)]);
    PostsServed(l.radio, Freq, params, e.first, e.gate);
    TimedLater(Posts(Freq, params, e.first), e.gate, e.first.applied, e.done);
  }

  lemma RefreshJournal(l: Link, e: Env)
    requires TimedEnv(e)
    ensures var posts := if WindowActive(l.adapter, e.gate) then [] else RefreshPosts(l.radio, e);
            Refreshed(l, e).link.radio == Interfere(l.radio, posts) && TimedCalls(posts, e.gate, e.done)
  {
    hide Exchange, Posts, Interfere, TimedCalls, Failure, NoteFlag, ParsePower, ParseFrequency, ChannelOf;
    TimedEnvOrder(e);
    NoCalls(l.radio, e);
    var p, q, z := Posts(PowerDbm, [], e.first), Posts(Freq, [], e.second), Posts(EnableMaxPower, [], e.third);
    PostsServed(l.radio, PowerDbm, [], e.first, e.gate);
    var r1 := Exchange(l.radio, PowerDbm, [], e.first).radio;
    PostsServed(r1, Freq, [], e.second, e.first.applied);
    var r2 := Exchange(r1, Freq, [], e.second).radio;
    PostsServed(r2, EnableMaxPower, [], e.third, e.second.applied);
    Joined(r1, q, z, e.first.applied, e.second.applied, e.third.applied, e.third.applied);
    Joined(l.radio, p, q, e.gate, e.first.applied, e.second.applied, e.done);
    Joined(l.radio, p, q + z, e.gate, e.first.applied, e.third.applied, e.done);
  }

  // ---- blackouts begun ----

  // The k-th request starts a blackout.
  predicate DisruptsAt(r: Radio, calls: seq<Arrival>, k: nat)
    requires k < |calls|
  {
    Disrupts(Interfere(r, calls[..k]), calls[k].m, calls[k].params, calls[k].checked)
  }

  // Every blackout the requests start is over at time x.
  predicate AllOver(r: Radio, calls: seq<Arrival>, x: nat) {
    forall k | 0 <= k < |calls| && DisruptsAt(r, calls, k) :: calls[k].applied + Pause(r, calls[k].m) <= x
  }

  lemma ServeBlackout(r: Radio, c: Arrival)
    ensures var r1 := Serve(r, c.m, c.params, c.checked, c.applied).radio;
            && SameDevice(r1, r)
            && (Disrupts(r, c.m, c.params, c.checked) ==> r1.blackout == c.applied + Pause(r, c.m))
            && (!Disrupts(r, c.m, c.params, c.checked) ==> r1.blackout <= r.blackout)
            && (r.blackout > c.checked ==> r1 == r)
  {
    hide ValidFrequency, AsInt, Dump, IntText;
  }

  // A blackout that lasts beyond the last request shuts out everything after it, so the radio's
  // deadline is past x exactly when some blackout begun is not over by then.
  lemma {:induction false} BlackoutOver(r: Radio, calls: seq<Arrival>, from: nat, upto: nat, x: nat)
    requires TimedCalls(calls, from, upto) && upto <= x
    ensures SameDevice(Interfere(r, calls), r)
    ensures Interfere(r, calls).blackout <= x <==> r.blackout <= x && AllOver(r, calls, x)
    ensures r.blackout > x ==> Interfere(r, calls) == r
  {
    hide Serve, Disrupts;
    if calls != [] {
      var n := |calls| - 1;
      var before := Interfere(r, calls[..n]);
      BlackoutOver(r, calls[..n], from, calls[n].checked, x);
      ServeBlackout(before, calls[n]);
      AllOverStep(r, calls, x);
    }
  }

  lemma AllOverStep(r: Radio, calls: seq<Arrival>, x: nat)
    requires calls != []
    ensures AllOver(r, calls, x) ==> AllOver(r, calls[..|calls| - 1], x)
    ensures var n := |calls| - 1;
            AllOver(r, calls[..n], x) ==>
              (AllOver(r, calls, x) <==> (DisruptsAt(r, calls, n) ==> calls[n].applied + Pause(r, calls[n].m) <= x))
  {
    hide Interfere, Disrupts, Pause;
    var n := |calls| - 1;
    forall k | 0 <= k < n ensures DisruptsAt(r, calls[..n], k) <==> DisruptsAt(r, calls, k) {
      assert calls[..n][..k] == calls[..k];
    }
    assert forall k | 0 <= k < n :: calls[..n][k] == calls[k];
  }

  // ---- exact safety ----

  function Later(a: nat, b: nat): nat {
    if a > b then a else b
  }

  // Every blackout begun in the step is over when it ends, or is outlasted by the gate it leaves.
  predicate Covered(w: World, s: Step) {
    var w1 := Apply(w, s);
    AllOver(w.link.radio, Journal(w.link, s), Later(w1.now, w1.link.adapter.deadline))
  }

  // An operation that takes back the adapter's deadline has had an answer from the radio, which was
  // therefore up.
  lemma DeadlineKept(w: World, s: Step)
    requires Legal(w, s) && w.link.radio.blackout > Apply(w, s).now
    ensures Apply(w, s).link.adapter.deadline == w.link.adapter.deadline
  {
    hide ChannelOf, CompactText, Round, IntText, ParsePower, ParseFrequency, ParseBoolean, TableOf, TimedEnv;
    hide TimedCalls;
    if s.Operate? {
      var e := s.env;
      hide Interfere;
      TimedEnvOrder(e);
      Frozen(w.link.radio, e);
    }
  }

  lemma Frozen(r: Radio, e: Env)
    requires TimedEnv(e) && r.blackout > e.done
    ensures forall m, params :: Failure(Exchange(r, m, params, e.first).answer).Some?
  {
    hide TimedCalls;
    TimedEnvOrder(e);
    BlackoutOver(r, e.first.others, e.gate, e.first.checked, e.done);
  }

  // The exact form of soft-boot safety. From a safe world a step ends in a safe one if and only if
  // every blackout begun in it, by the adapter or by another client, is over or covered by the gate.
  lemma StepSafeExact(w: World, s: Step)
    requires Safe(w) && Legal(w, s)
    ensures Safe(Apply(w, s)) <==> Covered(w, s)
  {
    hide Apply, Journal, AllOver, Interfere, TimedCalls;
    var w1 := Apply(w, s);
    var x := Later(w1.now, w1.link.adapter.deadline);
    JournalComplete(w, s);
    var from :| TimedCalls(Journal(w.link, s), from, w1.now);
    BlackoutOver(w.link.radio, Journal(w.link, s), from, w1.now, x);
    ClockForward(w, s);
    if w.link.radio.blackout > x {
      DeadlineKept(w, s);
    }
  }

  lemma ClockForward(w: World, s: Step)
    requires Legal(w, s)
    ensures w.now <= Apply(w, s).now
  {
    if s.Operate? {
      TimedEnvOrder(s.env);
    }
  }

  // Over whole runs: every boundary is safe if and only if every step covers its blackouts.
  predicate SafeThroughout(w: World, steps: seq<Step>) {
    forall k | 0 <= k <= |steps| :: Safe(Run(w, steps[..k]))
  }

  predicate CoveredThroughout(w: World, steps: seq<Step>) {
    forall k | 0 <= k < |steps| :: Covered(Run(w, steps[..k]), steps[k])
  }

  lemma {:induction false} RunSafeExact(w: World, steps: seq<Step>)
    requires Safe(w) && LegalRun(w, steps)
    ensures SafeThroughout(w, steps) <==> CoveredThroughout(w, steps)
  {
    hide Apply, Legal, Safe, Covered, Run;
    if steps == [] {
      NoSteps(w, steps);
    } else {
      var n := |steps| - 1;
      RunSafeExact(w, steps[..n]);
      forall k | 0 <= k <= n ensures steps[..n][..k] == steps[..k] {
      }
      assert steps[..n + 1] == steps;
      if Safe(Run(w, steps[..n])) {
        StepSafeExact(Run(w, steps[..n]), steps[n]);
        LastStep(w, steps);
      }
    }
  }

  // ---- the particular losses and calls ----

  // A call of another client between two operations.
  lemma OutsideDisruption(w: World, c: Arrival)
    requires Safe(w) && Legal(w, Outside(c))
    ensures var r := w.link.radio;
            var over := c.applied + Pause(r, c.m);
            Safe(Apply(w, Outside(c)))
            <==> (Disrupts(r, c.m, c.params, c.checked) ==>
                    Pause(r, c.m) == 0 || over <= w.now || over <= w.link.adapter.deadline)
  {
    hide Serve, Disrupts, Pause;
    ServeBlackout(w.link.radio, c);
  }

  // A call of another client during a refresh. A refresh that succeeds has had both its answers, so
  // what was begun before the second is over; but it opens the gate, whatever happens while it reads
  // the flag. It leaves the pair safe if and only if what other clients begin then is over on return.
  lemma RefreshOpensGate(w: World, e: Env)
    requires Legal(w, Operate(OpRefresh, e))
    ensures var power := Exchange(w.link.radio, PowerDbm, [], e.first);
            var freq := Exchange(power.radio, Freq, [], e.second);
            Refreshed(w.link, e).code == Ok ==>
              (Safe(Apply(w, Operate(OpRefresh, e))) <==> AllOver(freq.radio, e.third.others, e.done))
  {
    hide Serve, Interfere, AllOver, TimedEnv, ParsePower, ParseFrequency, ChannelOf, ParseBoolean;
    TimedEnvOrder(e);
    if Refreshed(w.link, e).code != Ok {
      return;
    }
    var r1 := Exchange(w.link.radio, PowerDbm, [], e.first).radio;
    var r2 := Exchange(r1, Freq, [], e.second).radio;
    AnsweredRead(r1, Freq, e.second);
    FlagReadKeeps(r2, e.third);
    ThirdTimed(e);
    BlackoutOver(r2, e.third.others, e.second.applied, e.third.checked, e.done);
  }

  lemma ThirdTimed(e: Env)
    requires TimedEnv(e)
    ensures TimedTrip(e.third, e.second.applied)
  {
    hide TimedTrip;
  }

  lemma AnsweredRead(r: Radio, m: Method, t: Trip)
    requires m.Freq? && Failure(Exchange(r, m, [], t).answer).None?
    ensures Exchange(r, m, [], t).radio.blackout <= t.checked
  {
    hide Interfere;
  }

  lemma FlagReadKeeps(r: Radio, t: Trip)
    ensures Exchange(r, EnableMaxPower, [], t).radio == Interfere(r, t.others)
  {
    hide Interfere;
  }

  // The adapter's own frequency change, accepted by the radio.
  predicate AcceptsChange(r: Radio, f: int, t: Trip) {
    !t.fate.RequestLost? && Disrupts(Interfere(r, t.others), Freq, Texts([CompactText(f)]), t.checked)
  }

  // When the reply to it is lost or garbled the pair is left safe if and only if the operation
  // returns after the soft boot.
  lemma LostFrequencyReply(w: World, i: int, f: int, e: Env)
    requires Legal(w, Operate(OpChannel(i, f), e)) && !e.first.fate.Delivered?
    ensures PassesChecks(w.link.adapter, i, f, e.gate) && AcceptsChange(w.link.radio, f, e.first) ==>
              (Safe(Apply(w, Operate(OpChannel(i, f), e)))
               <==> e.first.applied + w.link.radio.softBoot <= e.done)
  {
    hide AcceptsChange, Exchange, ChannelOf, CompactText, TimedEnv;
    TimedEnvOrder(e);
    if AcceptsChange(w.link.radio, f, e.first) {
      FrequencyServed(w.link.radio, f, e);
    }
  }

  // When it arrives the pair is left safe if and only if the recovery window, which starts on return,
  // lasts as long as the soft boot, which starts at the radio.
  lemma RecoveryMustCoverBoot(w: World, i: int, f: int, e: Env)
    requires Legal(w, Operate(OpChannel(i, f), e)) && e.first.fate.Delivered?
    ensures PassesChecks(w.link.adapter, i, f, e.gate) && AcceptsChange(w.link.radio, f, e.first) ==>
              (Safe(Apply(w, Operate(OpChannel(i, f), e)))
               <==> e.first.applied + w.link.radio.softBoot <= e.done + w.link.adapter.recovery)
  {
    hide AcceptsChange, Exchange, ChannelOf, CompactText, TimedEnv;
    TimedEnvOrder(e);
    if AcceptsChange(w.link.radio, f, e.first) {
      FrequencyServed(w.link.radio, f, e);
    }
  }

  lemma FrequencyServed(r: Radio, f: int, e: Env)
    requires TimedEnv(e) && AcceptsChange(r, f, e.first)
    ensures var p := Exchange(r, Freq, Texts([CompactText(f)]), e.first);
            && p.radio.blackout == e.first.applied + r.softBoot
            && (e.first.fate.Delivered? <==> Failure(p.answer).None?)
  {
    hide ValidFrequency, CompactText, TimedCalls, Interfere, TimedEnv;
    FirstTimed(e);
    BlackoutOver(r, e.first.others, e.gate, e.first.checked, e.first.checked);
  }

  lemma FirstTimed(e: Env)
    requires TimedEnv(e)
    ensures TimedTrip(e.first, e.gate)
  {
    hide TimedTrip;
  }
}
