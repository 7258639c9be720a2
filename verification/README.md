# Radio control: a verified model of the control loop

The radio control container (RCC) drives Silvus radios. Per radio it keeps an adapter with a cached
state, a channel table and a recovery deadline; the radio itself has a frequency, a power and a
blackout deadline of its own. Commands come in over REST, go through an orchestrator that audits them
and publishes events, and a browser page rebuilds the radios' state from those events. This project
models that loop, the pure code it depends on, and proves what the parts promise each other.

## How it is modelled

- Frequencies are integers in micro-MHz (10^-6 MHz). Printing shows six decimals, the expander and the
  acceptor use a slack of one unit, and lookups a tolerance of 1000 units, so this grid is exact.
- A positive power is named by its level in dBm, a real. `Power` shows that this loses nothing:
  comparing milliwatts is comparing levels and `round(10*log10(mw))` is rounding the level, stated
  with integer powers instead of logarithms.
- Time is a natural number of milliseconds. An operation receives the clock at its gate, the clock at
  the radio for each HTTP exchange, the clock at its return, the fate of each exchange (delivered,
  request lost, reply lost, reply garbled) and the requests of other clients the radio serves before
  each exchange.
- The classes `SilvusMock`, `SilvusAdapter`, `RadioManager`, `Orchestrator`, `TelemetryHub`,
  `MonitorPage`, `SseReader` and `ApiGateway` keep the fields of the programs' objects. Each of their
  methods is proved to do what a function on values says, and the theorems are about those functions
  and about runs of them.

| file | what it holds |
|---|---|
| Text, Decimal, Json, Basics | decimal text, compact frequency text, JSON values |
| FrequencyProfile, ChannelTable | profile entries, the two readings of them, the channel table, lookup |
| Power | levels, rounding, milliwatts |
| Radio | the JSON-RPC radio and its batches |
| Adapter | the four adapter operations over a lossy network |
| Protocol, Disruptions | runs of adapter and radio: soundness, safety, and when exactly a step is safe |
| Coherence | when exactly the adapter's cache is truthful; round trips |
| Telemetry, Orchestrator, Gateway | events and heartbeats, commands and audit, request checks |
| Outcomes | what each command and request comes to, from body to radio, events and audit |
| Monitor, Replica, PageTruth | the page's copy, its agreement with REST and with the radios themselves |
| Base64Url, SseFrames, HttpExchange | the three codecs |
| Examples | concrete cases in which what the theorems exclude does go wrong |

## Main results

- Soft-boot safety (`Protocol.SoftBootSafety`): whenever the radio is in blackout the adapter's gate
  stays closed at least as long, over every run without lost frequency replies and without disruptions
  from outside. `Disruptions.StepSafeExact` and `RunSafeExact` drop these exclusions: for every
  operation, loss, delay and outside call, between operations or inside one, the pair stays safe if and
  only if every blackout begun is over on return or outlasted by the gate. `LostFrequencyReply`,
  `RecoveryMustCoverBoot`, `OutsideDisruption` and `RefreshOpensGate` spell out single cases.
- Cache coherence (`Coherence.CacheCoherence`, `InformedCoherence`) over every run of the only client,
  with the losses that do no harm allowed. `RunCoherentExact` takes any losses and delays: the cache is
  truthful at every boundary if and only if no operation meets one of the cases `KeepsTruth` lists.
  `LostFlagRead`, `LostPowerReply` and `LostChannelReply` spell out the harmful losses, and
  `RefreshRestores` says that an answered refresh repairs any cache.
- Commands decide as `PowerDecision` and `ChannelDecision` say, whatever is lost, with exact round trips
  for channels and power.
- Requests end to end (`Outcomes.PowerRequest`, `ChannelRequest`): which answer a body gets, exactly when
  it succeeds, and what radio, cache, events and audit log then hold; a refusal changes nothing, a failure
  leaves only its record. `AuditTruthful` and `ActiveRadio` say what any run leaves behind.
- What a profile entry means (`FrequencyProfile.EntryMeaning`, `ChannelTable.TableMeaning`,
  `ReplyMeaning`): for every text, reply and radio the channels are exactly the points the entries name.
- Expander and acceptor agree (`FrequencyProfile.SpecAgreement`) on an entry exactly when its step is
  not 10^-6 MHz, and over a whole radio exactly when the slack points of such entries are covered
  (`ChannelTable.ProfileAgreement`).
- The page agrees with REST after any run of commands (`Replica.ReplicaAgreement`); with channels closer
  than 0.001 MHz, and when the remembered `ready` is repeated, it agrees only under the exact
  conditions of `ChannelReplicaExact` and `RepeatedReadyRollsBack`.
- The whole chain (`PageTruth.PageTellsTruth`): after any run of commands with harmless losses the page
  shows each radio's own power setting and a frequency within 0.001 MHz of its own; a radio in blackout
  shows as recovering (`BlackoutShown`), the channel index is the cached one (`ChannelIndexAgreement`), and
  a page that joins late finds the announced snapshot in the buffer (`LatePage`).
- Power in milliwatts (`Gateway.MilliwattsPath`): the integer computed from a request's milliwatts is the
  one sent, set, published and reported.
- `Examples` gives concrete cases, the runs among them from a fresh adapter: a lost reply that opens the
  gate during a boot, a reset during a refresh, lost flag reads behind which a power the radio ignored is
  reported as done, two channels half a kilohertz apart, a unit-step range and a later connect.
- The codecs are inverse to independent readers or definitions, in both directions for base64url.

Where documents and code differ the model follows the code. The architecture document gives a
requested frequency precedence over an index; the gateway refuses a mismatch (`Gateway.BothMustMatch`).
The periodic `ready` repeats the snapshot of the start, not the current state. `connect` replaces the
channel table and keeps the cached index; it runs only at start, and `Protocol.ReconnectExact` says when
a later connect would be harmless. A JSON-RPC batch with an unreadable element is answered as a whole
with one internal error although its earlier elements have taken effect (`Radio.SilvusMock.HandleBatch`).

## Model

| member | source | states |
|---|---|---|
| Decimal.FormatSilvusNumber | rcc/src/adapter/silvus_adapter.cpp:159-170 | the stripping loop leaves the shortest decimal text: sign, integer part and only significant fraction digits |
| Decimal.CompactTextRoundTrip | rcc/src/adapter/silvus_adapter.cpp:159-170 | reading the printed text gives the value back, for every value |
| Decimal.CompactTextCanonical | rcc/src/adapter/silvus_adapter.cpp:159-170 | the integer part is never touched; a point is followed by one to six digits, the last not zero |
| Decimal.CompactTextInjective | rcc/src/adapter/silvus_adapter.cpp:159-170 | different values print differently |
| FrequencyProfile.SameReading | rcc/src/adapter/silvus_adapter.cpp:233-253 | finding two colons and splitting at every colon classify every entry alike, malformed ones included |
| FrequencyProfile.AddFrequencySpec | rcc/src/adapter/silvus_adapter.cpp:232-264 | appends the expansion of the entry, nothing for a malformed one |
| FrequencyProfile.FrequencyMatchesProfile | silvus-mock/src/silvus_mock.cpp:67-112 | the scan for colons and the nearest-step test decide acceptance of the entry |
| FrequencyProfile.EntryMeaning | rcc/src/adapter/silvus_adapter.cpp:232-264 | a text is the range low:step:high if and only if it is three numbers between exactly two colons, the step positive and low at most high; a value if and only if it is a number without colons |
| FrequencyProfile.PrintedRange | silvus-mock/src/silvus_mock.cpp:78-99 | both programs read printed low, step and high as that range, or as malformed when step or order are wrong |
| FrequencyProfile.ExpandMeaning | rcc/src/adapter/silvus_adapter.cpp:245-261 | the adapter offers exactly the value or the points low + step*k from low up to the end slack |
| FrequencyProfile.AcceptsMeaning | silvus-mock/src/silvus_mock.cpp:94-111 | the radio accepts exactly the value or the points low + step*k within one unit of the range |
| FrequencyProfile.ExpandedGrid | rcc/src/adapter/silvus_adapter.cpp:251-261 | the counted loop yields exactly the grid points up to the end slack, which a unit step does not reach |
| FrequencyProfile.AcceptedGrid | silvus-mock/src/silvus_mock.cpp:101-111 | rounding to the nearest step accepts exactly the grid points within one unit of the range |
| FrequencyProfile.ExpandedIsAccepted | silvus-mock/src/silvus_mock.cpp:67-112 | every expanded frequency is accepted |
| FrequencyProfile.AcceptedIsExpanded | rcc/src/adapter/silvus_adapter.cpp:251-261 | an accepted frequency is expanded unless the step is one unit and it is one of the two slack points |
| FrequencyProfile.SpecAgreement | rcc/src/adapter/silvus_adapter.cpp:232-264 | the two sets are equal if and only if the step is not one unit |
| ChannelTable.ParseSupportedFrequencies | rcc/src/adapter/silvus_adapter.cpp:266-290 | skips non-objects and non-strings and yields the table of the reply |
| ChannelTable.TableIsUnion | rcc/src/adapter/silvus_adapter.cpp:266-290 | the table is strictly increasing and is exactly the union of the entries' expansions |
| ChannelTable.ReplyMeaning | rcc/src/adapter/silvus_adapter.cpp:266-290 | for any reply the table has exactly the frequencies offered by the strings in the frequencies arrays of its objects |
| ChannelTable.TableMeaning | silvus-mock/src/silvus_mock.cpp:49-65 | over all profiles the channels are exactly the points the entries offer, and the radio accepts exactly those they admit |
| ChannelTable.IncreasingDetermined | rcc/src/adapter/silvus_adapter.cpp:287-288 | sorting and removing duplicates has only one possible result |
| ChannelTable.OfferedIsAccepted | silvus-mock/src/silvus_mock.cpp:49-65 | every channel derived from what a radio publishes is accepted by that radio |
| ChannelTable.ProfileAgreement | silvus-mock/src/silvus_mock.cpp:49-65 | over all profiles offered and accepted frequencies coincide if and only if the slack points of unit-step ranges are offered otherwise |
| ChannelTable.FindChannelIndex | rcc/src/adapter/silvus_adapter.cpp:381-388 | finds the first channel within 0.001 MHz, if any |
| ChannelTable.LookupOwnFrequency | rcc/src/api/api_gateway.cpp:82-90 | looking up a channel's own frequency gives no later channel, and the same one if and only if the channel below is 0.001 MHz away |
| Power.RoundingIsNearest | rcc/src/adapter/silvus_adapter.cpp:494 | in milliwatts the rounded logarithm exists, is unique and is the nearest integer to the level |
| Power.MilliwattsRound | rcc/src/adapter/silvus_adapter.cpp:488-494 | for every rational level std::round(10*log10(mw)) is the level rounded |
| Power.MilliwattsOrder | rcc/src/adapter/silvus_adapter.cpp:488-489 | comparing milliwatts with a limit is comparing levels |
| Power.LevelOrder | rcc/src/adapter/silvus_adapter.cpp:488-489 | comparing milliwatts is comparing levels |
| Power.RoundIsNearest | rcc/src/telemetry/telemetry_hub.cpp:53-58 | rounding a real level agrees with rounding its milliwatts |
| Power.RoundQuantises | rcc/src/adapter/silvus_adapter.cpp:494-499 | the rounded level is within half a dB, unique, monotone and inside integer limits |
| Radio.SilvusMock.constructor | silvus-mock/src/silvus_mock.cpp:8-39 | the radio's initial state, durations and profiles |
| Radio.SilvusMock.ValidateFrequency | silvus-mock/src/silvus_mock.cpp:49-65 | accepts a text if and only if it is a number some entry accepts |
| Radio.SilvusMock.Dispatch | silvus-mock/src/silvus_mock.cpp:178-329 | the whole new state and the reply of each method, UNAVAILABLE during a blackout |
| Radio.SilvusMock.HandleJsonrpc | silvus-mock/src/silvus_mock.cpp:157-333 | envelope checks, then the method; malformed envelopes raise or are refused |
| Radio.SilvusMock.HandleBatch | silvus-mock/src/silvus_mock.cpp:353-378 | replies equal running the requests one by one; if one raises, a single error and only the earlier effects remain |
| Radio.BatchFailsExactly | silvus-mock/src/silvus_mock.cpp:158-160 | a batch fails as a whole if and only if some element cannot be read as a request |
| Radio.RepliesKeepIds | silvus-mock/src/silvus_mock.cpp:162-165 | the reply to each well-formed request carries its id |
| Radio.ReplyIds | silvus-mock/src/silvus_mock.cpp:157-169 | a reply carries the request's id once version and method are there, even with a wrong method, and null before |
| Radio.CallMeaning | silvus-mock/src/silvus_mock.cpp:157-177 | which requests are calls, with which method and parameters, and which cannot be read |
| Radio.MethodNames | silvus-mock/src/silvus_mock.cpp:183-324 | each method answers to its own name |
| Radio.FrequencySetting | silvus-mock/src/silvus_mock.cpp:183-194 | a frequency is taken if and only if some entry accepts it, and reads back as given |
| Radio.PowerSetting | silvus-mock/src/silvus_mock.cpp:196-220 | a power is taken if and only if it is an integer in 0..39, and reads back unless the radio is at maximum power |
| Radio.FlagSetting | silvus-mock/src/silvus_mock.cpp:222-236 | 1, true and on set the flag, 0, false and off clear it, all else is refused; it reads back |
| Radio.IntegerParameter | silvus-mock/src/silvus_mock.cpp:200-205 | text, 32-bit numbers and fractions are read as the integers they mean |
| Radio.FactorySettings | silvus-mock/src/silvus_mock.cpp:309-327 | resets restore the factory settings; only a radio reset starts a blackout |
| Radio.RefusedChangesNothing | silvus-mock/src/silvus_mock.cpp:178-329 | errors and reads change nothing; writing to a read-only method is refused |
| Radio.RequestsInRange | silvus-mock/src/silvus_mock.cpp:157-378 | over any requests the power stays in 0..39 and the frequency is one the radio accepts or the reset one |
| Radio.BlackoutFreezes | silvus-mock/src/silvus_mock.cpp:179-181 | during a blackout no request changes any field, and all well-formed ones are UNAVAILABLE |
| Radio.DisruptionSilencesRest | silvus-mock/src/silvus_mock.cpp:183-220 | after an accepted frequency change, pausing power change or reset every later element inside the window leaves radio and deadline as they are |
| Radio.OneByOneSplit | silvus-mock/src/silvus_mock.cpp:356-362 | a batch is its first part followed by the rest from the state reached |
| Adapter.SilvusAdapter.constructor | rcc/src/adapter/silvus_adapter.cpp:397-418 | default channels, limits, offline, no window |
| Adapter.SilvusAdapter.SendHttpPost | rcc/src/adapter/silvus_adapter.cpp:66-157 | one request reaches the radio or not, and its reply arrives, is lost or is garbled |
| Adapter.SilvusAdapter.ReadEnableMaxPower | rcc/src/adapter/silvus_adapter.cpp:355-379 | updates the flag and manual control together, only from a readable reply |
| Adapter.SilvusAdapter.Connect | rcc/src/adapter/silvus_adapter.cpp:429-467 | new adapter and radio state and result of connect, on every path |
| Adapter.SilvusAdapter.SetPower | rcc/src/adapter/silvus_adapter.cpp:469-522 | the same for a power command |
| Adapter.SilvusAdapter.SetChannel | rcc/src/adapter/silvus_adapter.cpp:524-572 | the same for a channel command |
| Adapter.SilvusAdapter.RefreshState | rcc/src/adapter/silvus_adapter.cpp:574-647 | the same for a refresh, the power cached even when the frequency read fails |
| Adapter.RequestIsCall | silvus-mock/src/silvus_mock.cpp:157-177 | the radio reads the adapter's request objects as the calls they mean |
| Adapter.ReplyForms | rcc/src/adapter/silvus_adapter.cpp:292-353 | powers and frequencies are read alike as numbers and as text |
| Adapter.FlagForms | rcc/src/adapter/silvus_adapter.cpp:314-338 | flags are read from booleans, integers and eight words in any case, and from nothing else |
| Adapter.ErrorForms | rcc/src/adapter/silvus_adapter.cpp:203-230 | the result code each error of the radio becomes |
| Protocol.SoftBootSafety | rcc/src/adapter/silvus_adapter.cpp:524-572 | over every run without a lost frequency reply or an outside frequency change or reset, a blackout never outlasts the gate |
| Protocol.ConnectSafe | rcc/src/adapter/silvus_adapter.cpp:429-467 | the ungated connect cannot open the gate during a blackout |
| Protocol.PastGateAvailable | rcc/src/adapter/silvus_adapter.cpp:472-476 | past the gate the radio is up, and an operation whose messages arrive is not answered UNAVAILABLE |
| Disruptions.JournalComplete | rcc/src/adapter/silvus_adapter.cpp:429-647 | the radio ends each step as if it had served exactly the requests the step brings, in the order of time |
| Disruptions.BlackoutOver | silvus-mock/src/silvus_mock.cpp:179-194 | the radio's deadline is past a time if and only if some blackout begun by the requests is |
| Disruptions.StepSafeExact | rcc/src/adapter/silvus_adapter.cpp:524-572 | with any losses, delays and outside calls, a step keeps the pair safe if and only if every blackout begun in it is over or covered by the gate |
| Disruptions.RunSafeExact | rcc/src/adapter/silvus_adapter.cpp:429-647 | the same at every boundary of every run, connect included |
| Disruptions.OutsideDisruption | silvus-mock/src/silvus_mock.cpp:183-194 | when exactly any call of another client between operations leaves the pair safe |
| Disruptions.RefreshOpensGate | rcc/src/adapter/silvus_adapter.cpp:639-646 | a successful refresh leaves the pair safe if and only if what others begin during its flag read is over on return |
| Disruptions.LostFrequencyReply | rcc/src/adapter/silvus_adapter.cpp:552-555 | a lost or garbled reply to an accepted change leaves the pair safe if and only if the operation returns after the boot |
| Disruptions.RecoveryMustCoverBoot | rcc/src/adapter/silvus_adapter.cpp:569 | with any delays an answered change leaves the pair safe if and only if the recovery window from its return covers the boot from the radio |
| Protocol.RunSound | rcc/src/adapter/silvus_adapter.cpp:469-647 | with any losses and other clients: table kept, index inside it, open window means recovering, never offline again |
| Protocol.BootSound | rcc/src/radio/radio_manager.cpp:15-23 | fresh adapters are sound before and after their first connect |
| Protocol.ReconnectExact | rcc/src/adapter/silvus_adapter.cpp:455-466 | a later connect keeps soundness if and only if the cached index fits the new table |
| Protocol.RunConfigured | rcc/src/adapter/silvus_adapter.cpp:397-418 | over any run an adapter keeps its configured range, or 0..39 dBm, and its recovery time |
| Protocol.ConfiguredPower | rcc/src/adapter/silvus_adapter.cpp:488-492 | so it never sets a power outside that range, and a channel change closes the gate for that time |
| Coherence.OperationCoherentExact | rcc/src/adapter/silvus_adapter.cpp:429-647 | with any losses and delays an operation of the only client keeps the cache truthful if and only if it meets none of the listed cases |
| Coherence.RunCoherentExact | rcc/src/adapter/silvus_adapter.cpp:429-647 | over any run of the only client, connects included, the cache is truthful at every boundary if and only if no operation meets one |
| Coherence.CacheCoherence | rcc/src/adapter/silvus_adapter.cpp:478-521 | coherent over every run without connect whose changes are answered or never arrive, refreshes losing anything, flag reads lost once the adapter is informed |
| Coherence.InformedCoherence | rcc/src/adapter/silvus_adapter.cpp:478-487 | the same for an informed adapter with no assumption on time, gate or flag reads |
| Coherence.StartCoherent | rcc/src/radio/radio_manager.cpp:15-23 | a connect to a radio that is up succeeds and starts such runs; it informs the adapter if and only if the flag is read or the radio is not at maximum power |
| Coherence.LostFlagRead | rcc/src/adapter/silvus_adapter.cpp:478-487 | at maximum power, a believed manual control and a lost flag read report success for a change the radio ignored; coherent if and only if it asked for the radio's setting |
| Coherence.LostPowerReply | rcc/src/adapter/silvus_adapter.cpp:502-505 | a lost or garbled reply to a power change breaks coherence if and only if a cached power rounds differently |
| Coherence.LostChannelReply | rcc/src/adapter/silvus_adapter.cpp:552-562 | a lost or garbled reply to a frequency change breaks coherence if and only if a cached channel is not near the new frequency |
| Coherence.PowerDecision | rcc/src/adapter/silvus_adapter.cpp:469-522 | which outcome a power command has in terms of window, flag, limits and losses, and exactly what changes |
| Coherence.ChannelDecision | rcc/src/adapter/silvus_adapter.cpp:524-572 | a channel command succeeds if and only if gate, positivity, table, network and radio allow it; the cached index is the table's, never the fallback |
| Coherence.ConnectDecision | rcc/src/adapter/silvus_adapter.cpp:429-467 | which outcome a connect has in terms of losses, and exactly what it changes |
| Coherence.RefreshDecision | rcc/src/adapter/silvus_adapter.cpp:574-647 | which outcome a refresh has in terms of window and losses, and exactly what it changes |
| Coherence.RefreshReads | rcc/src/adapter/silvus_adapter.cpp:583-646 | an answered refresh takes over power, channel and any readable flag, is ready with an open gate, and leaves the radio alone |
| Coherence.RefreshRestores | rcc/src/adapter/silvus_adapter.cpp:604-638 | an answered refresh makes any cache coherent |
| Coherence.ConnectOffersProfiles | rcc/src/adapter/silvus_adapter.cpp:455-458 | after connect the table is what the radio's profiles offer |
| Coherence.ChannelRoundTrip | rcc/src/adapter/silvus_adapter.cpp:524-638 | index to frequency, text, radio and back: success if and only if the frequency is positive, the same index if and only if the channel below is 0.001 MHz away |
| Coherence.PowerRoundTrip | rcc/src/adapter/silvus_adapter.cpp:494-608 | a level is read back rounded, an integer level unchanged |
| Telemetry.TelemetryHub.OnHeartbeat | rcc/src/telemetry/telemetry_hub.cpp:144-169 | one heartbeat, and the remembered ready when the wrapped counter is a multiple of 12 |
| Telemetry.TelemetryHub.PublishReady | rcc/src/telemetry/telemetry_hub.cpp:218-222 | remembers the snapshot and publishes it |
| Telemetry.TelemetryHub.PublishRadioState | rcc/src/telemetry/telemetry_hub.cpp:224-245 | one state event with normalised status, null for missing power, channel or frequency |
| Telemetry.TwelveHeartbeats | rcc/src/telemetry/telemetry_hub.cpp:157-166 | any stretch with twelve heartbeats contains a ready, across the wrap-around of the 64-bit counter too |
| Telemetry.RepeatsAnnounced | rcc/src/telemetry/telemetry_hub.cpp:157-165 | until the next announcement every ready event carries the snapshot announced last |
| Telemetry.TwelveHeartbeatsRepeat | rcc/src/telemetry/telemetry_hub.cpp:157-166 | any twelve heartbeats after an announcement bring that snapshot again |
| Telemetry.ReadyAlwaysBuffered | rcc/src/telemetry/telemetry_hub.cpp:153-156 | with at most k other events between two ready events a buffer of 13 + k always holds one |
| Telemetry.BufferHoldsAnnounced | rcc/src/telemetry/telemetry_hub.cpp:153-165 | and the last ready event it holds carries the announced snapshot |
| Telemetry.StoppedSilent | rcc/src/telemetry/telemetry_hub.cpp:148-152 | a stopped hub emits nothing |
| Telemetry.AnnounceOnSchedule | rcc/src/telemetry/telemetry_hub.cpp:218-222 | announcing a snapshot starts the schedule |
| Telemetry.BoundIsTight | rcc/src/telemetry/telemetry_hub.cpp:171 | for every k, with k other events a buffer of 12 + k can lose the ready event |
| Orchestrator.RadioManager.Start | rcc/src/radio/radio_manager.cpp:15-23 | connects every radio once, whatever the order |
| Orchestrator.RadioManager.SetActiveRadio | rcc/src/radio/radio_manager.cpp:45-52 | selects known radios only |
| Orchestrator.RadioManager.BuildReadySnapshot | rcc/src/core/application.cpp:32-71 | one item per radio, each with what REST reports |
| Orchestrator.Orchestrator.SelectRadio | rcc/src/command/orchestrator.cpp:49-63 | new system state and result of a selection |
| Orchestrator.Orchestrator.SetPower | rcc/src/command/orchestrator.cpp:65-115 | new fleet, events, audit and result; the unchecked frequency lookup is in bounds |
| Orchestrator.Orchestrator.SetChannel | rcc/src/command/orchestrator.cpp:117-166 | new fleet, events, audit and result |
| Gateway.ApiGateway.HandleSetPower | rcc/src/api/api_gateway.cpp:562-583 | refused bodies change nothing; others are the orchestrator's command |
| Gateway.ApiGateway.HandleSetChannel | rcc/src/api/api_gateway.cpp:585-638 | refused bodies change nothing; others dispatch the checked channel |
| Gateway.BothMustMatch | rcc/src/api/api_gateway.cpp:616-628 | index and frequency together pass if and only if the lookup gives that index |
| Gateway.ToleranceLookup | rcc/src/api/api_gateway.cpp:607-630 | the dispatched channel is near any requested frequency, its exact entry is sent, the cached index is no later and equal if and only if the channel below is 0.001 MHz away |
| Gateway.PowerPath | rcc/src/api/api_gateway.cpp:571-580 | a passing request is sent within half a dB, in 0..39, monotone, integers unchanged |
| Gateway.PowerSentIsPublished | rcc/src/command/orchestrator.cpp:92-111 | the integer sent is the radio's setting, the published power and the one REST reports |
| Gateway.MilliwattsPath | rcc/src/api/api_gateway.cpp:571-580 | for a body's milliwatts between the limits, std::round(10*log10(mw)) is the integer sent, set, published and reported |
| Outcomes.NotFoundExactly | rcc/src/command/orchestrator.cpp:49-83 | a command is NotFound if and only if its radio is unknown, and then changes only the audit log |
| Outcomes.ActiveRadio | rcc/src/command/orchestrator.cpp:49-63 | after any run the active radio is that of the last successful selection |
| Outcomes.AuditTruthful | rcc/src/command/orchestrator.cpp:23-34 | over any run the i-th record is Ok if and only if the i-th command succeeded, names its failure, and is an internal error for an unknown radio |
| Outcomes.PowerOutcome | rcc/src/command/orchestrator.cpp:65-115 | code, cached power and the radio's setting after a power command, in terms of limits, window, flag and losses |
| Outcomes.ChannelOutcome | rcc/src/command/orchestrator.cpp:117-166 | code, the radio's frequency and the cached index after a channel command, on every path |
| Outcomes.PowerBody | rcc/src/api/api_gateway.cpp:568-576 | a body is refused without a number or outside 0..39, and otherwise asks for its own level |
| Outcomes.ChannelBody | rcc/src/api/api_gateway.cpp:591-628 | what passes is exactly the channel and frequency the body picks by index, by first near channel, or by both |
| Outcomes.PowerRequest | rcc/src/api/api_gateway.cpp:562-583 | the level is answered if and only if the write was sent and acknowledged; then radio, events, REST and audit have it, otherwise only an audit record is left |
| Outcomes.PowerRequestMalformed | rcc/src/api/api_gateway.cpp:568-569 | a body without a number is refused and changes nothing |
| Outcomes.ChannelRequest | rcc/src/api/api_gateway.cpp:585-638 | the same for a channel request and the channel and frequency it picks |
| Outcomes.ChannelRequestRefused | rcc/src/api/api_gateway.cpp:591-626 | which refusal a body that picks nothing gets; the system is left alone |
| Monitor.MonitorPage.ApplyReadySnapshot | rcc/include/rcc/api/monitor_page.hpp:713-735 | merges every item of the snapshot into the page's entries |
| Monitor.MonitorPage.ApplyTelemetryEvent | rcc/include/rcc/api/monitor_page.hpp:737-793 | the page's whole new state for every event |
| Monitor.StateShown | rcc/include/rcc/api/monitor_page.hpp:768-778 | after a state event the page shows its view, whatever came before |
| Monitor.OthersUntouched | rcc/include/rcc/api/monitor_page.hpp:747-790 | an event about one radio leaves what is shown of the others |
| Monitor.ReadyShown | rcc/include/rcc/api/monitor_page.hpp:718-733 | after a ready event the page shows the snapshot's view of each radio |
| Monitor.IndexShown | rcc/include/rcc/api/monitor_page.hpp:776-778 | after a state event the page has its channel index |
| Monitor.PageActive | rcc/include/rcc/api/monitor_page.hpp:717 | only a ready event that names a radio changes which one the page takes for active |
| Monitor.PageLists | rcc/include/rcc/api/monitor_page.hpp:718-758 | the page lists exactly the radios it knew or events named, each once |
| Monitor.Newcomer | rcc/include/rcc/api/monitor_page.hpp:749-758 | a radio first met in an event is called by its id and offline; a ready item brings its model |
| Replica.ReplicaAgreement | rcc/include/rcc/api/monitor_page.hpp:713-793 | after a ready event and any run of commands the page shows of every radio what REST reports |
| Replica.FailureChangesNothing | rcc/src/command/orchestrator.cpp:77-99 | a command that fails publishes nothing and changes no REST view |
| Replica.ChannelReplicaExact | rcc/src/command/orchestrator.cpp:155-162 | after a channel command page and REST agree if and only if the channel below is 0.001 MHz away |
| Replica.RepeatedReadyRollsBack | rcc/src/telemetry/telemetry_hub.cpp:157-165 | a page that gets the remembered snapshot again agrees if and only if every radio is back in its view of the start |
| Replica.StartedFleetSound | rcc/src/core/application.cpp:192-226 | radios connected once at start are sound, so runs may begin |
| PageTruth.PageTellsTruth | rcc/include/rcc/api/monitor_page.hpp:713-793 | after any run of commands with harmless losses, power and frequency shown are the radio's own |
| PageTruth.StartedFleetTruthful | rcc/src/radio/radio_manager.cpp:15-23 | fleets whose radios answered the first connect may start such runs |
| PageTruth.BlackoutShown | rcc/include/rcc/api/monitor_page.hpp:768-769 | after any run without lost frequency replies and outside disruptions a radio in blackout shows as recovering |
| PageTruth.LatePage | rcc/src/telemetry/telemetry_hub.cpp:157-165 | a page that replays the buffer at any time finds the announced snapshot and shows it as later state events changed it |
| PageTruth.ChannelIndexAgreement | rcc/src/command/orchestrator.cpp:106-110 | from the first successful command on a radio the page has the channel index the adapter has cached |
| Replica.CommandAccounting | rcc/src/command/orchestrator.cpp:49-166 | over any run one audit record per command in order, and the event log is what the commands emit, in order |
| Replica.EachEmits | rcc/src/command/orchestrator.cpp:92-165 | a failure or selection emits nothing, a success its change event and then its state event |
| Base64Url.B64Url | rcc/src/api/api_gateway.cpp:151-164 | the streaming loop with a 32- or 64-bit wrapping accumulator equals the definition by three-byte groups |
| Base64Url.DecodeEncode | rcc/src/api/api_gateway.cpp:151-164 | a strict decoder undoes it |
| Base64Url.EncodeDecode | rcc/src/api/api_gateway.cpp:151-164 | no other text decodes to the same bytes |
| Base64Url.EncodedShape | rcc/src/api/api_gateway.cpp:152-162 | ceil(8n/6) characters, within the reserved size, URL-safe, no padding |
| Base64Url.KnownTexts | rcc/src/api/api_gateway.cpp:152-162 | the test vectors of section 10 of RFC 4648 and the two URL-safe characters |
| SseFrames.SseReader.Feed | rcc/include/rcc/api/monitor_page.hpp:1106-1147 | one chunk yields the frames of the completed parts and keeps the rest |
| SseFrames.ChunkIndependence | rcc/include/rcc/api/monitor_page.hpp:1106-1147 | however the stream is cut the frames and the rest are those of the whole stream; the rest holds no separator |
| SseFrames.SameStreamSameFrames | rcc/include/rcc/api/monitor_page.hpp:1109-1112 | two ways of cutting the same stream leave the same reader state and frames |
| SseFrames.PartsRejoin | rcc/include/rcc/api/monitor_page.hpp:1111-1112 | the parts with their separators and the rest are the stream |
| SseFrames.TrimMeaning | rcc/include/rcc/api/monitor_page.hpp:1115-1131 | trimming removes white space at both ends and nothing else |
| SseFrames.FrameData | rcc/include/rcc/api/monitor_page.hpp:1123-1131 | a frame has all data lines of its part in order |
| SseFrames.FrameTag | rcc/include/rcc/api/monitor_page.hpp:1119-1126 | its tag is that of the last event line, SYSTEM without one |
| SseFrames.FrameId | rcc/include/rcc/api/monitor_page.hpp:1120-1128 | its id is that of the last id line, none without one |
| SseFrames.Delivery | docs/radio_control_telemetry_sse_v_1.md:50-85 | events sent as an optional id line, an event and a data line arrive exactly, in order, under any cutting |
| HttpExchange.ReadResponse | rcc/src/adapter/silvus_adapter.cpp:100-156 | the header loop reads status, length and body as specified, with each way to fail |
| HttpExchange.ReadHeaderBlock | rcc/src/adapter/silvus_adapter.cpp:117-135 | any block of header lines is read to its end; the last content-length in any spelling decides |
| HttpExchange.AnyResponse | rcc/src/adapter/silvus_adapter.cpp:100-156 | for any status, header lines and body: a short body is a failed read, another status an error, otherwise the body as the length says |
| HttpExchange.LengthLine | rcc/src/adapter/silvus_adapter.cpp:121-134 | a content-length line in any spelling and with any blanks gives its number |
| HttpExchange.NegativeLength | rcc/src/adapter/silvus_adapter.cpp:128-133 | a negative length wraps around as an unsigned number |
| HttpExchange.LastLength | rcc/src/adapter/silvus_adapter.cpp:117-135 | the last length decides |
| HttpExchange.CutResponse | rcc/src/adapter/silvus_adapter.cpp:138-145 | a response cut off inside its body is a failed read, never a shorter body |
| HttpExchange.ResponseRoundTrip | silvus-mock/src/http_server.cpp:14-21 | the reader returns exactly the body the radio wrote, for every body |
| Examples.LostReplyOpensGate | rcc/src/adapter/silvus_adapter.cpp:552-555 | from a connected pair, a lost reply to an accepted change leaves the radio in blackout with the gate open |
| Examples.ResetDuringRefresh | rcc/src/adapter/silvus_adapter.cpp:639-646 | a reset by another client during a refresh leaves the gate open for the whole reset |
| Examples.LostFlagLies | rcc/src/adapter/silvus_adapter.cpp:478-487 | with lost flag reads 20 dBm is reported as set while the radio stays at 30 dBm |
| Examples.CloseChannelsConfused | rcc/src/adapter/silvus_adapter.cpp:568 | on the published table of two channels 500 units apart, commanding channel 2 sets the radio to it and caches channel 1 |
| Examples.UnitStepDisagrees | silvus-mock/src/silvus_mock.cpp:104-111 | a range with a step of one unit accepts a frequency the adapter does not offer |
| Examples.ReconnectLosesChannel | rcc/src/adapter/silvus_adapter.cpp:455-466 | after a lost first connect and a default channel, a second connect leaves a sound adapter with an index outside its table |

## Left out

- Radio.SilvusMock.HandleJsonrpc: the text after "Internal error: " and the data member of errors are not modelled, and link distance, GPS and power in milliwatts answer with a reply that is not detailed, because they touch no tracked field.
- Radio.SilvusMock.Dispatch: the same three method groups answer with a reply that is not detailed.
- Radio.SilvusMock.HandleBatch: parsing and printing of the JSON text are not modelled; a payload that is not an array is HandleJsonrpc. That value() raises on a non-object and on a wrongly typed member is the documented behaviour of the JSON library, which is not part of this model.
- Decimal.CompactTextRoundTrip: reading accepts a strict decimal grammar with at most six fraction digits; std::stod also takes leading space, exponents and a numeric prefix.
- FrequencyProfile.FrequencyMatchesProfile: the same decimal grammar stands for std::stod.
- Radio.SilvusMock.ValidateFrequency: the same decimal grammar stands for std::stod.
- Gateway.CheckPower: a body's powerDbm is an integer or a multiple of 10^-6 dBm; from the orchestrator inward, and in Power.RoundQuantises, the level is any real.
- Gateway.PowerPath: the same grid of 10^-6 dBm.
- Power.MilliwattsRound: levels are rational, and that every level has its milliwatts is not shown, since it takes roots of reals.
- Adapter.SilvusAdapter.SendHttpPost: sockets and time-outs are reduced to the fate of the exchange; parsing of the endpoint is not modelled.
- Adapter.SilvusAdapter.SetPower: result messages and vendor payloads are not modelled; vendor errors are classified by their code, to which the text search amounts for every error this radio sends.
- Adapter.SilvusAdapter.SetChannel: result messages and vendor payloads are not modelled, as for SetPower.
- FrequencyProfile.AddFrequencySpec: the decimal grammar stands for std::stod; the number of steps is unbounded, where the program casts it to int; binary floating-point rounding is not modelled anywhere.
- Orchestrator.RadioManager.BuildReadySnapshot: stated for positive cached powers, which every sound adapter has.
- Orchestrator.RadioManager.Start: the map of adapters is given to the constructor, each with its own endpoint; loading it from the configuration is not modelled.
- Telemetry.ReadyAlwaysBuffered: the ring buffer is a bounded FIFO; its retention time, the event bus threads and the SSE server are library code and not part of this model.
- Monitor.MonitorPage.ApplyTelemetryEvent: entries are updated by position instead of through shared object references, and their channel lists are left out because no event changes them.
- SseFrames.SseReader.Feed: works on decoded characters; UTF-8 decoding and JSON parsing of the payload are not modelled.
- Radio selection over REST is modelled from the orchestrator inward only: the body of that request holds just the id.
- Authentication, tokens and roles, discovery, configuration files, health reports, audit file rotation and HTML are not modelled.
- Commands run one at a time, as on the service's single thread; two commands interleaving inside the orchestrator are not modelled.
