# A verified model of the vehicle HAL's protocols

This project models, in Dafny, the parts of the vehicle HAL server, its gateway and its gRPC bridge
in which state is kept across calls, and proves what they promise over whole runs.

Each component is a value with functions that say what every operation does, lemmas about all runs
of those functions, and, where the program updates an object in place, a class whose methods are
proved to compute exactly those functions. `dafny verify dfyconfig.toml` checks everything.

| file | component |
|---|---|
| VehicleTypes | property addresses, configs, sample rates and intervals |
| RefreshTables | the fake hardware's two refresh tables and its timer registrations |
| SubscriptionModel, SubscriptionSafety, SubscriptionEffects, SubscriptionHistory, SubscriptionLimits, SubscriptionStatus | the subscription manager over the hardware: the functions, what every run keeps, what one call promises, what the calls alone decide, where code and comments part, and when a call succeeds |
| Rounding, Delivery | rounding and filtering of updates, client by client |
| SubscriptionManager | the manager as an object |
| SubscribeOptionParsing, SubscribePath | checking and splitting of options, and a subscribe call from the top to the bottom |
| SupportedValues, SupportedValueQueries | subscriptions to supported values, and the queries that compact and scatter |
| Requests, RequestLifecycle | pending get and set requests: replies, timeouts and hardware errors racing for an id |
| Gateway | replication of polled values to remote nodes |
| EventWriter | the gRPC server's event writer |
| RemoteTimestamps | the gRPC client's timestamps and its retries |
| Replay, Scheduler, SchedulerReuse | the replay generator, the hub that merges generators, and what the hub does when ids are reused |
| Obd2, Strings, HvacTemperature | sensor masks, string functions and temperature suggestions |

Every hardware call of the subscription stack is numbered and may be rejected, as a function of its
number; a run is any list of calls, in any order of the hash sets the code iterates over.

## Where the code and its comments disagree

The model does what the code does. In each case an input shows the difference and a condition says,
for all inputs, when the intent is met.

- The delivery loop looks a config up with an inserting `[]` although its comment says an on-change
  property has none (SubscriptionManager.cpp:535-538). Later departures then take the continuous
  branch: `SubscriptionLimits.OnChangeAgreesExactly`, `DeliveryCutsOffOtherClients`.
- A rejection half way through a whole-client unsubscribe leaves stale entries, so a retry is not
  harmless (SubscriptionManager.cpp:385-391): `InverseIsKeptExactly`, `DepartureIsSafeExactly`,
  `RetryCutsOffOtherClients`.
- The VUR history keeps the first value of a property, not the last (SubscriptionManager.cpp:496-516):
  `Delivery.FilterIsAsIntendedExactly`, `FilterRepeatsAndMisses`, `FilterSendsOutdated`.
- `retryCount++` passes the old count on, so the retry bound is never reached
  (GRPCVehicleHardware.cpp:264): `RemoteTimestamps.BoundIsKeptExactly`, `CanRetryForEver`.
- Overriding a live generator keeps the old queued event and drops the new generator's first
  (GeneratorHub.cpp:57-61), and the next may be sooner than the old one:
  `SchedulerReuse.OverrideKeepsPrefixExactly`, `OverrideKeepsOrderExactly`, `OverrideGoesBack`.
- An event of an unregistered generator comes to life again when its id is registered before it is
  popped (GeneratorHub.cpp:83-87): `SchedulerReuse.ReuseKeepsPrefixExactly`, `GoesWrong`.
- A last time of zero means "no event yet" to the replay generator, which then asks the clock again
  (JsonFakeValueGenerator.cpp:222-226): `Replay.ReplayIsExactly`, `ZeroStartExactly`,
  `ZeroStartAsksAgain`.
- The local timestamp is read before the lock is taken (GRPCVehicleHardware.cpp:275-279), so a newer
  value can carry an older one: `RemoteTimestamps.LocalTimesInOrderExactly`, `LocalTimesCanGoBack`.
- A request id that occurs twice in one hardware callback is answered twice
  (ConnectedClient.cpp:141-152): `Requests.CallbackIsSafeExactly`, `DuplicateIsAnsweredTwice`.

## Model

| member | source | states |
|---|---|---|
| `SubscriptionSafety.PolledIsWhatClientsAskedFor` | packages/vhal-server/aidl/impl/4/vhal/src/SubscriptionManager.cpp:177-258 | After any run of subscribes, unsubscribes and deliveries, with any hardware calls rejected: a continuous [propId, areaId] is in the refresh table exactly when it has a client, at the period in whole nanoseconds of its fastest client (no longer than any client asked for, and within 64 bits), on value change exactly when all clients enable VUR and the first config of the area supports it |
| `SubscriptionSafety.RunKeepsInv` | packages/vhal-server/aidl/impl/4/vhal/src/SubscriptionManager.cpp:260-407 | Over any run: no forward entry is empty, every client under a [propId, areaId] has it in its own set, a cached aggregate is the maximum, minimum and conjunction over the clients, the config clients of a continuous property are its indexed clients, and nothing else is refreshed |
| `SubscriptionSafety.UpdateReachesHardware` | packages/vhal-server/aidl/impl/4/vhal/src/SubscriptionManager.cpp:216-258 | A changed config either reaches the hardware completely or, when a call is rejected, leaves the configs and the hardware as they were |
| `SubscriptionEffects.SubscribeGivesWhatWasAsked` | packages/vhal-server/aidl/impl/4/vhal/src/SubscriptionManager.cpp:260-314 | A successful subscribe adds exactly what was asked, the last request for a [propId, areaId] counting; an invalid option fails the call with nothing done; even on failure no other client moves, and the caller only where it asked |
| `SubscriptionStatus.SubscribeSucceedsExactly` | packages/vhal-server/aidl/impl/4/vhal/src/SubscriptionManager.cpp:158-314 | From any reachable state a subscribe succeeds if and only if every option lists an area and, for continuous ones, has a rate whose period fits 64 bits and a valid resolution, the hardware knows every property, and none of its hardware calls is rejected, which are counted from the rates, resolutions and VUR flags of the clients before and after each request; an invalid option fails it with nothing done, otherwise the first rejection is the answer, and a success grants every request, in order, and nothing else |
| `SubscriptionEffects.UnsubscribeLeavesWhatWasAsked` | packages/vhal-server/aidl/impl/4/vhal/src/SubscriptionManager.cpp:345-377 | A successful unsubscribe removes the client from all areas of the named properties and from nothing else; no other client moves, even on failure |
| `SubscriptionEffects.UnsubscribeClientLeavesEverything` | packages/vhal-server/aidl/impl/4/vhal/src/SubscriptionManager.cpp:379-392 | A successful whole-client unsubscribe leaves no trace of the client; no other client moves, even on failure |
| `SubscriptionStatus.DepartureSucceedsExactly` | packages/vhal-server/aidl/impl/4/vhal/src/SubscriptionManager.cpp:316-392 | A departure, from some properties or from all, is answered what the first rejected of its hardware calls is, and so succeeds if and only if none of them, counted from the state, is rejected |
| `SubscriptionLimits.LastOneLeavesNothing` | packages/vhal-server/aidl/impl/4/vhal/src/SubscriptionManager.cpp:334-341 | When the last client of a [propId, areaId] leaves it, the manager keeps neither an entry nor a config for it |
| `SubscriptionHistory.RecordsWhatCallsWanted` | packages/vhal-server/aidl/impl/4/vhal/src/SubscriptionManager.cpp:260-407 | Over any run in which every call that concerns a [propId, areaId] is granted: its clients, and the configs recorded of a continuous one, are those a fold over the calls alone gives |
| `SubscriptionHistory.PolledIsWhatCallsWanted` | packages/vhal-server/aidl/impl/4/vhal/src/SubscriptionManager.cpp:177-407 | Over such a run the refresh of a continuous [propId, areaId], there or not, its interval and its mode, is a function of the calls alone: deliveries and failed calls about anything else leave no trace |
| `SubscriptionHistory.OnlyTheCallsMatter` | packages/vhal-server/aidl/impl/4/vhal/src/SubscriptionManager.cpp:260-407 | Two such runs in which every client makes the same calls one after the other, interleaved in any way, with any deliveries, visiting orders and other rejections, end with the same clients, the same recorded configs and the same refresh |
| `SubscriptionLimits.InverseIsKeptExactly` | packages/vhal-server/aidl/impl/4/vhal/src/SubscriptionManager.cpp:379-392 | From a reachable state with exactly inverse indices a call keeps them so if and only if it is not a whole-client unsubscribe whose hardware calls for the first [propId, areaId] are all accepted and one of those for the rest, counted from the state, is rejected |
| `SubscriptionLimits.DepartureIsSafeExactly` | packages/vhal-server/aidl/impl/4/vhal/src/SubscriptionManager.cpp:385-391 | A whole-client unsubscribe keeps the indices exactly inverse whatever the hardware rejects if and only if, after the first [propId, areaId] it visits, none needs a hardware call |
| `SubscriptionLimits.UnsubscribeOneCalls` | packages/vhal-server/aidl/impl/4/vhal/src/SubscriptionManager.cpp:191-258 | How many hardware calls leaving one [propId, areaId] takes is known from the state, and the first rejected one is the answer, so it succeeds exactly when none is |
| `SubscriptionLimits.OnChangeAgreesExactly` | packages/vhal-server/aidl/impl/4/vhal/src/SubscriptionManager.cpp:199-214 | Unsubscribing from an on-change property keeps the hardware in agreement with the subscriptions if and only if it makes a hardware call that is rejected, or a guard on the entry the delivery loop inserted, its cached VUR flag and the number of clients holds |
| `SubscriptionLimits.IndicesAreInverseInUncutRuns` | packages/vhal-server/aidl/impl/4/vhal/src/SubscriptionManager.cpp:260-407 | Over any run without a whole-client departure that is rejected half way, as InverseIsKeptExactly counts it, the two indices are exact inverses |
| `SubscriptionLimits.OnChangeAgreesInCleanRuns` | packages/vhal-server/aidl/impl/4/vhal/src/SubscriptionManager.cpp:158-214 | In such runs without a delivery of the property the hardware reports an on-change property exactly when it has a client |
| `SubscriptionLimits.DeliveryCutsOffOtherClients` | packages/vhal-server/aidl/impl/4/vhal/src/SubscriptionManager.cpp:538 | A concrete run of accepted calls: the lookup inserts an empty config, so one delivered event followed by one departure silences the clients that remain |
| `SubscriptionLimits.RetryCutsOffOtherClients` | packages/vhal-server/aidl/impl/4/vhal/src/SubscriptionManager.cpp:385-391 | A concrete run: retrying a departure that was cut short silences a client that subscribed in between |
| `SubscriptionModel.Combine` | packages/vhal-server/aidl/impl/4/vhal/src/SubscriptionManager.cpp:98-120 | The recomputed aggregate is an upper bound that is attained for rates, a lower bound that is attained for resolutions, and the conjunction of the VUR flags |
| `SubscriptionModel.AggregateIsUnique` | packages/vhal-server/aidl/impl/4/vhal/src/SubscriptionManager.cpp:98-120 | For a non-empty set of clients those bounds determine the aggregate, so the order of the hash map does not matter |
| `SubscriptionManager.RefreshCombinedConfig` | packages/vhal-server/aidl/impl/4/vhal/src/SubscriptionManager.cpp:98-120 | The brute-force loop computes that aggregate in any iteration order |
| `SubscriptionManager.HardwareLink.Subscribe` | packages/vhal-server/aidl/impl/4/vhal/src/SubscriptionManager.cpp:239-247 | A hardware subscribe is let through or rejected; rejected it leaves the hardware as it was |
| `SubscriptionManager.HardwareLink.Unsubscribe` | packages/vhal-server/aidl/impl/4/vhal/src/SubscriptionManager.cpp:248-255 | The same for unsubscribe |
| `SubscriptionManager.Manager.UpdateContSubConfigs` | packages/vhal-server/aidl/impl/4/vhal/src/SubscriptionManager.cpp:216-258 | The method has exactly the specified effect on the configs, the hardware and the status |
| `SubscriptionManager.Manager.AddContinuousSubscriber` | packages/vhal-server/aidl/impl/4/vhal/src/SubscriptionManager.cpp:177-189 | Same, for adding a client to the configs of a continuous property |
| `SubscriptionManager.Manager.RemoveContinuousSubscriber` | packages/vhal-server/aidl/impl/4/vhal/src/SubscriptionManager.cpp:191-197 | Same, for removing a client |
| `SubscriptionManager.Manager.AddOnChangeSubscriber` | packages/vhal-server/aidl/impl/4/vhal/src/SubscriptionManager.cpp:158-175 | Same: the hardware is called for the first client only |
| `SubscriptionManager.Manager.RemoveOnChangeSubscriber` | packages/vhal-server/aidl/impl/4/vhal/src/SubscriptionManager.cpp:199-214 | Same: the hardware is called for the last client only |
| `SubscriptionManager.Manager.SubscribeOne` | packages/vhal-server/aidl/impl/4/vhal/src/SubscriptionManager.cpp:296-310 | One [propId, areaId] of a subscribe: indexed only when the hardware accepted |
| `SubscriptionManager.Manager.SubscribeOption` | packages/vhal-server/aidl/impl/4/vhal/src/SubscriptionManager.cpp:288-312 | The areas of one option in order, up to the first failure |
| `SubscriptionManager.Manager.Subscribe` | packages/vhal-server/aidl/impl/4/vhal/src/SubscriptionManager.cpp:260-314 | The whole call has exactly the specified effect, validation of every option first |
| `SubscriptionManager.Manager.UnsubscribePropArea` | packages/vhal-server/aidl/impl/4/vhal/src/SubscriptionManager.cpp:316-343 | One [propId, areaId] of an unsubscribe has exactly the specified effect |
| `SubscriptionManager.Manager.UnsubscribeProps` | packages/vhal-server/aidl/impl/4/vhal/src/SubscriptionManager.cpp:345-377 | Unsubscribing by property ids has exactly the specified effect, for the order in which the client's set was visited |
| `SubscriptionManager.Manager.UnsubscribeClient` | packages/vhal-server/aidl/impl/4/vhal/src/SubscriptionManager.cpp:379-392 | Unsubscribing a whole client has exactly the specified effect, for the order in which its set was visited |
| `SubscriptionManager.Manager.IsValueUpdatedForClient` | packages/vhal-server/aidl/impl/4/vhal/src/SubscriptionManager.cpp:492-518 | The filter compares with the recorded value and records a value only where there is none |
| `SubscriptionManager.Manager.GetSubscribedClients` | packages/vhal-server/aidl/impl/4/vhal/src/SubscriptionManager.cpp:520-556 | For every client the delivered list is the specified one, the histories and configs change as specified and the subscriptions do not change |
| `Delivery.SentExactly` | packages/vhal-server/aidl/impl/4/vhal/src/SubscriptionManager.cpp:534-553 | A client that is not filtered at a [propId, areaId] gets every matching update exactly once, in order, rounded as SanitizedIs says by its own resolution; a filtered one exactly what differs from the first reading it was compared with; anyone else nothing |
| `Delivery.SentIsSubsequence` | packages/vhal-server/aidl/impl/4/vhal/src/SubscriptionManager.cpp:520-556 | Across all its properties a client gets a subsequence of its matching updates |
| `Delivery.DeliveredExactly` | packages/vhal-server/aidl/impl/4/vhal/src/SubscriptionManager.cpp:492-556 | In any reachable state, of a [propId, areaId] a client that does not subscribe is sent nothing, and one that does the updates one for one, in order and rounded to its recorded resolution; one that wants changes only while another does not, of these those that differ in value or status from the first it was compared with and are not older; that one is recorded for good |
| `Delivery.SanitizedIs` | packages/vhal-types/aidl/impl/4/utils/common/include/VehicleUtils.h:352-368 | For a resolution other than zero each float becomes the nearest multiple of it, of two equally near ones the one further from zero, and each integer such a multiple without its fraction; zero changes nothing; lengths, bytes, string, [propId, areaId], timestamp and status stay |
| `Rounding.NearestIsUnique` | packages/vhal-types/aidl/impl/4/utils/common/include/VehicleUtils.h:352-361 | Nothing else is that multiple |
| `Delivery.FilterIsAsIntendedExactly` | packages/vhal-server/aidl/impl/4/vhal/src/SubscriptionManager.cpp:496-516 | On any stream, in time order or not, the filter sends what its comments intend if and only if every outdated reading is older than the first or the same as it, and no other reading, once the value has left the first, repeats the last one that was not outdated or returns to the first |
| `Delivery.FilteredClientGetsIntendedExactly` | packages/vhal-server/aidl/impl/4/vhal/src/SubscriptionManager.cpp:534-553 | The same of everything a filtered client is sent of a [propId, areaId] from its first update on |
| `Delivery.FilterRepeatsAndMisses` | packages/vhal-server/aidl/impl/4/vhal/src/SubscriptionManager.cpp:505-516 | A concrete stream on which it does not: a repeated reading is sent again and a change back is not sent |
| `Delivery.FilterSendsOutdated` | packages/vhal-server/aidl/impl/4/vhal/src/SubscriptionManager.cpp:500-503 | A concrete stream on which an outdated reading is sent, because it is compared with the first reading and not with the last |
| `VehicleTypes.IntervalFits` | packages/vhal-server/aidl/impl/4/vhal/src/SubscriptionManager.cpp:77-87 | An accepted rate has an interval that fits a signed 64-bit integer, and a faster rate never has a longer one |
| `VehicleTypes.RateIsAcceptedExactly` | packages/vhal-server/aidl/impl/4/vhal/src/SubscriptionManager.cpp:73-87 | A rate is accepted if and only if it is positive and its period in nanoseconds is below the largest signed 64-bit integer |
| `VehicleTypes.IntervalIs` | packages/vhal-server/aidl/impl/4/vhal/src/SubscriptionManager.cpp:77-87 | The interval is the period of the rate in whole nanoseconds |
| `SubscribePath.SubscribedMeansPolled` | packages/vhal-server/aidl/impl/4/vhal/src/DefaultVehicleHal.cpp:927-980 | From top to bottom, in every reachable state: after a successful subscribe every area an option means has the client, and a continuous one has it at the clamped rate, the resolution and the supported VUR of the last option that means it, and is refreshed at least as often as that rate demands |
| `SubscribePath.SubscribedMeansAsked` | packages/vhal-server/aidl/impl/4/vhal/src/DefaultVehicleHal.cpp:927-980 | A successful subscribe asks for nothing the options do not mean and moves no other client |
| `SubscribePath.HalSubscribeSucceedsExactly` | packages/vhal-server/aidl/impl/4/vhal/src/DefaultVehicleHal.cpp:792-980 | From any reachable state the whole call succeeds if and only if every option passes the check and asks for some area, or is for a continuous property with VUR, and none of the hardware calls it takes, on-change options first, is rejected |
| `SubscribePath.HalSubscribeIsARun` | packages/vhal-server/aidl/impl/4/vhal/src/DefaultVehicleHal.cpp:927-980 | Whatever options a client passes in, the call takes the manager from a reachable state to a reachable one |
| `SubscribePath.SubscribeClient` | packages/vhal-server/aidl/impl/4/vhal/src/DefaultVehicleHal.cpp:927-980 | The call, made on the manager object, has exactly the specified effect on manager and hardware, whose success HalSubscribeSucceedsExactly decides |
| `SubscribePath.ParsedRequests` | packages/vhal-server/aidl/impl/4/vhal/src/DefaultVehicleHal.cpp:863-925 | The manager is asked for a [propId, areaId] exactly when an option means it, and last for the clamped rate, the resolution and the supported VUR of the last option that does |
| `RefreshTables.TablesAreInverse` | packages/vhal-server/aidl/impl/4/fake_impl/hardware/src/FakeVehicleHardware.cpp:2783-2829 | The interval table is determined by the property table: its keys are the intervals in use, its sets list exactly their properties, and each interval in use has exactly one timer callback and no other exists |
| `RefreshTables.SubscribedExactly` | packages/vhal-server/aidl/impl/4/fake_impl/hardware/src/FakeVehicleHardware.cpp:2670-2689 | A subscribe takes up exactly the areas an option lists, a continuous one with the period of the rate and on value change exactly where that is asked for and the first config of the area supports it, an on-change one in the on-change set, a static one nowhere; an unknown property or a zero rate is an invalid argument with nothing done |
| `RefreshTables.FakeVehicleHardware.RegisterRefresh` | packages/vhal-server/aidl/impl/4/fake_impl/hardware/src/FakeVehicleHardware.cpp:2783-2812 | Replaces the entry of a property, keeping both tables and the timer consistent |
| `RefreshTables.FakeVehicleHardware.EnterRefresh` | packages/vhal-server/aidl/impl/4/fake_impl/hardware/src/FakeVehicleHardware.cpp:2789-2811 | Enters a property, with a new callback exactly when its interval is new |
| `RefreshTables.FakeVehicleHardware.UnregisterRefresh` | packages/vhal-server/aidl/impl/4/fake_impl/hardware/src/FakeVehicleHardware.cpp:2814-2829 | Removes a property, and its interval and callback with the last one |
| `RefreshTables.FakeVehicleHardware.RefreshTimestampForInterval` | packages/vhal-server/aidl/impl/4/fake_impl/hardware/src/FakeVehicleHardware.cpp:2756-2781 | A tick touches exactly the properties of its interval, each in its own mode, and its inserting lookups insert nothing |
| `RefreshTables.FakeVehicleHardware.IsVariableUpdateRateSupported` | packages/vhal-server/aidl/impl/4/fake_impl/hardware/src/FakeVehicleHardware.cpp:2741-2754 | Reads the flag of the first config of the area, false when there is none |
| `RefreshTables.FakeVehicleHardware.SubscribePropArea` | packages/vhal-server/aidl/impl/4/fake_impl/hardware/src/FakeVehicleHardware.cpp:2831-2862 | One area by change mode: nothing, the on-change set, or a refresh entry unless the rate is zero |
| `RefreshTables.FakeVehicleHardware.Subscribe` | packages/vhal-server/aidl/impl/4/fake_impl/hardware/src/FakeVehicleHardware.cpp:2670-2689 | All areas of an option in order, up to the first failure; an unknown property is an invalid argument |
| `RefreshTables.FakeVehicleHardware.Unsubscribe` | packages/vhal-server/aidl/impl/4/fake_impl/hardware/src/FakeVehicleHardware.cpp:2864-2875 | Removes the [propId, areaId] from both tables and from the on-change set |
| `SupportedValues.HardwareAgreesAlways` | packages/vhal-server/aidl/impl/4/vhal/src/SubscriptionManager.cpp:409-490 | After any run, any call rejected and any list repeating ids: the hardware is subscribed to exactly the keys of the client map, and the two indices are exact inverses without empty entries |
| `SupportedValues.IndicesAreWhatCallsWanted` | packages/vhal-server/aidl/impl/4/vhal/src/SubscriptionManager.cpp:394-490 | After any run a client is under a [propId, areaId], by both indices, if and only if the calls that were let through, folded one by one, have put it there, and otherwise by neither |
| `SupportedValues.SubscribeGivesExactly` | packages/vhal-server/aidl/impl/4/vhal/src/SubscriptionManager.cpp:409-433 | A subscribe makes one hardware call and is answered what that is; rejected it changes nothing, accepted it puts the client under what it listed, in both indices, and moves nobody else |
| `SupportedValues.UnsubscribeTakesExactly` | packages/vhal-server/aidl/impl/4/vhal/src/SubscriptionManager.cpp:435-490 | A departure makes a hardware call only when it leaves something without a client; rejected it changes nothing, otherwise it takes the client from under what it listed, in both indices, and moves nobody else |
| `SupportedValues.ChosenIsWhatBecomesEmpty` | packages/vhal-server/aidl/impl/4/vhal/src/SubscriptionManager.cpp:448-488 | The set chosen before the hardware call is exactly the set that loses its last client after it |
| `SupportedValues.SupportedValueSubscriptions.Subscribe` | packages/vhal-server/aidl/impl/4/vhal/src/SubscriptionManager.cpp:409-433 | The loop over a list, repetitions included, has the specified effect on both indices; a rejected call has none |
| `SupportedValues.SupportedValueSubscriptions.ChooseSole` | packages/vhal-server/aidl/impl/4/vhal/src/SubscriptionManager.cpp:448-461 | Chooses the asked ids whose only client is this one |
| `SupportedValues.SupportedValueSubscriptions.RemoveOne` | packages/vhal-server/aidl/impl/4/vhal/src/SubscriptionManager.cpp:475-488 | Removes one id from both indices, erasing entries that become empty |
| `SupportedValues.SupportedValueSubscriptions.RemoveFromIndices` | packages/vhal-server/aidl/impl/4/vhal/src/SubscriptionManager.cpp:475-488 | Removes a list of ids, whatever its order and repetitions |
| `SupportedValues.SupportedValueSubscriptions.Unsubscribe` | packages/vhal-server/aidl/impl/4/vhal/src/SubscriptionManager.cpp:445-490 | The whole call has the specified effect; a rejected one has none |
| `SupportedValues.SupportedValueSubscriptions.UnsubscribeClient` | packages/vhal-server/aidl/impl/4/vhal/src/SubscriptionManager.cpp:394-405 | The part of a whole-client departure about supported values |
| `SubscribeOptionParsing.CheckedOptionsAreAccepted` | packages/vhal-server/aidl/impl/4/vhal/src/DefaultVehicleHal.cpp:792-925 | Options that pass the check, for configs that list an area, become options the manager's own validation accepts, split by change mode |
| `SubscribeOptionParsing.ParsedOptionIsValidExactly` | packages/vhal-server/aidl/impl/4/vhal/src/DefaultVehicleHal.cpp:863-925 | A checked option becomes valid options if and only if it requests some area |
| `SubscribeOptionParsing.ParsedAreasAreRequested` | packages/vhal-server/aidl/impl/4/vhal/src/DefaultVehicleHal.cpp:873-919 | The options made of one name each area exactly as often as asked: of a global property area 0 once, the areas of the config when none is listed, otherwise the listed ones |
| `SubscribeOptionParsing.ParsedFieldsAreRequested` | packages/vhal-server/aidl/impl/4/vhal/src/DefaultVehicleHal.cpp:885-919 | They keep property and resolution, their rate is the one asked for brought into the range of the config, and VUR is set for an area exactly when asked for and supported by the config the area goes by |
| `SubscribeOptionParsing.CheckedEach` | packages/vhal-server/aidl/impl/4/vhal/src/DefaultVehicleHal.cpp:792-861 | The check passes exactly when it passes for every option |
| `SubscribeOptionParsing.CheckOptionExactly` | packages/vhal-server/aidl/impl/4/vhal/src/DefaultVehicleHal.cpp:792-861 | An option passes if and only if its property is known, every listed area is in the config or is area 0 of a config without areas, the change mode is on-change or continuous, the property has access read or read-write or some area is meant and all that are have it, and, for a continuous one, the rate brought into range has a period that fits and the resolution is zero or a power of ten; access is denied exactly when only the access is missing |
| `SubscribeOptionParsing.FirstFailureDecides` | packages/vhal-server/aidl/impl/4/vhal/src/DefaultVehicleHal.cpp:792-861 | Options are checked in order and the first that fails decides |
| `SubscribeOptionParsing.FindListedAreas` | packages/vhal-server/aidl/impl/4/vhal/src/DefaultVehicleHal.cpp:803-822 | Finds the first config of each listed area, or fails on an area that is not listed; area 0 is allowed where no area is listed |
| `SubscribeOptionParsing.AreaConfigsHaveRequiredAccess` | packages/vhal-server/aidl/impl/4/vhal/src/DefaultVehicleHal.cpp:779-790 | All area configs, and at least one, have the access, which IsReadableExactly spells out |
| `SubscribeOptionParsing.CheckOptions` | packages/vhal-server/aidl/impl/4/vhal/src/DefaultVehicleHal.cpp:792-861 | The loop returns the first failure of the check that CheckOptionExactly spells out |
| `SubscribeOptionParsing.ParseOptions` | packages/vhal-server/aidl/impl/4/vhal/src/DefaultVehicleHal.cpp:863-925 | The loop splits the options as specified |
| `SubscribeOptionParsing.SplitAreasByVur` | packages/vhal-server/aidl/impl/4/vhal/src/DefaultVehicleHal.cpp:893-906 | Splits areas by whether they support VUR, in order |
| `SupportedValueQueries.EachAsIfAlone` | packages/vhal-server/aidl/impl/4/vhal/src/DefaultVehicleHal.cpp:1029-1139 | With hardware that answers pointwise, the i-th result is exactly what handling request i alone gives, for any mix of local and hardware-bound requests |
| `SupportedValueQueries.SplitCallsAgree` | packages/vhal-server/aidl/impl/4/vhal/src/DefaultVehicleHal.cpp:1029-1139 | Asking together and asking one by one give the same results |
| `SupportedValueQueries.EachIsAnswered` | packages/vhal-server/aidl/impl/4/vhal/src/DefaultVehicleHal.cpp:1029-1139 | A request whose area says nothing of supported values is an invalid argument; one whose area has the list, or a minimum or a maximum, is answered by the hardware as if asked alone; any other is answered Ok and nothing |
| `SupportedValueQueries.CompactedExactly` | packages/vhal-server/aidl/impl/4/vhal/src/DefaultVehicleHal.cpp:1032-1058 | The compacted call is made of exactly the requests whose area has what is asked for, each once and in order |
| `SupportedValueQueries.CompactedAtRank` | packages/vhal-server/aidl/impl/4/vhal/src/DefaultVehicleHal.cpp:1032-1058 | The compacted call holds each hardware-bound request at its rank |
| `SupportedValueQueries.AnswerLocally` | packages/vhal-server/aidl/impl/4/vhal/src/DefaultVehicleHal.cpp:1032-1058 | The first loop answers what needs no hardware and compacts the rest with their positions |
| `SupportedValueQueries.ScatterResults` | packages/vhal-server/aidl/impl/4/vhal/src/DefaultVehicleHal.cpp:1073-1075 | The second loop puts each answer at the position its request came from and touches no local answer |
| `SupportedValueQueries.GetSupportedValues` | packages/vhal-server/aidl/impl/4/vhal/src/DefaultVehicleHal.cpp:1029-1076 | The whole call: an internal error exactly when the numbers of answers and requests differ, the scattered results otherwise |
| `Requests.RepliesAreSafeAlways` | packages/vhal-server/aidl/impl/4/vhal/src/DefaultVehicleHal.cpp:541-604 | Over any interleaving of calls, hardware callbacks, hardware errors and timeouts that names no id twice in one callback: the pool holds exactly the ids registered and not settled, at most the limit per client, and ids are answered or withdrawn only while pending |
| `Requests.ReplyFollowsItsRegistration` | packages/vhal-server/aidl/impl/4/vhal/src/ConnectedClient.cpp:113-157 | Every reply is preceded by a registration of its id with no other event of that id between |
| `Requests.AtMostOneReply` | packages/vhal-types/aidl/impl/4/utils/common/include/PendingRequestPool.h:44-64 | Two replies to one id have a new registration of it between them |
| `Requests.CallbackIsSafeExactly` | packages/vhal-server/aidl/impl/4/vhal/src/ConnectedClient.cpp:130-157 | A callback keeps that property if and only if, among its ids that are still pending, none occurs twice |
| `Requests.DuplicateIsAnsweredTwice` | packages/vhal-server/aidl/impl/4/vhal/src/ConnectedClient.cpp:141-152 | A callback that carries one pending id twice is answered twice |
| `Requests.CountUnlessDuplicate` | packages/vhal-types/aidl/impl/4/utils/common/src/PendingRequestPool.cpp:81-104 | Finds out whether an id is pending already, and counts the pending ones |
| `Requests.PendingRequestPool.AddRequests` | packages/vhal-types/aidl/impl/4/utils/common/src/PendingRequestPool.cpp:81-118 | All ids are added, as one request with one deadline, or none, for a duplicate or too many |
| `Requests.PendingRequestPool.TryFinishRequests` | packages/vhal-types/aidl/impl/4/utils/common/src/PendingRequestPool.cpp:203-233 | Takes out and returns exactly the ids that were pending, for this client only, keeping order and deadlines of the rest |
| `Requests.Strip` | packages/vhal-types/aidl/impl/4/utils/common/src/PendingRequestPool.cpp:213-230 | Takes ids out of a client's list, dropping emptied requests and keeping the rest in order |
| `Requests.PendingRequestPool.CheckTimeout` | packages/vhal-types/aidl/impl/4/utils/common/src/PendingRequestPool.cpp:168-201 | Takes out exactly the requests at the front of each list that have timed out, drops clients left with none, and reports the ids of exactly the overdue requests |
| `Requests.ExpiredExactly` | packages/vhal-types/aidl/impl/4/utils/common/src/PendingRequestPool.cpp:168-201 | An id leaves a list at a timeout if and only if the deadline of its request and those of all before it have passed |
| `Requests.UnexpiredExactly` | packages/vhal-types/aidl/impl/4/utils/common/src/PendingRequestPool.cpp:178-185 | What is left are the requests from the first on whose deadline has not passed |
| `Requests.StrippedExactly` | packages/vhal-types/aidl/impl/4/utils/common/src/PendingRequestPool.cpp:213-230 | What is left when ids are taken out are the requests that keep an id, in order and with their deadlines |
| `Requests.StillPendingExactly` | packages/vhal-server/aidl/impl/4/vhal/src/ConnectedClient.cpp:130-157 | Of the keys a callback names exactly those that are pending are answered, in order |
| `Requests.SplitExpired` | packages/vhal-types/aidl/impl/4/utils/common/src/PendingRequestPool.cpp:178-185 | Splits a list at the first request that has not timed out |
| `RequestLifecycle.DefaultVehicleHal.Call` | packages/vhal-server/aidl/impl/4/vhal/src/DefaultVehicleHal.cpp:541-604 | A call that cannot be registered sends nothing, neither refusals nor hardware requests; otherwise the ids are registered, refusals sent and the rest handed to the hardware |
| `RequestLifecycle.CallIsRegisteredExactly` | packages/vhal-types/aidl/impl/4/utils/common/src/PendingRequestPool.cpp:81-118 | The ids of a call are registered, all of them, if and only if none is pending already and the client will have at most ten thousand pending; otherwise none is |
| `RequestLifecycle.RefusedExactly` | packages/vhal-server/aidl/impl/4/vhal/src/DefaultVehicleHal.cpp:541-604 | Each request that is refused, and no other, is answered with its id, its own refusal and no value, in order |
| `RequestLifecycle.AllowedExactly` | packages/vhal-server/aidl/impl/4/vhal/src/DefaultVehicleHal.cpp:541-604 | Every other goes to the hardware, in order |
| `RequestLifecycle.DefaultVehicleHal.OnHardwareResults` | packages/vhal-server/aidl/impl/4/vhal/src/ConnectedClient.cpp:130-157 | The callback sends, in order, exactly the results whose id was pending, and is a step of the protocol |
| `RequestLifecycle.KeptExactly` | packages/vhal-server/aidl/impl/4/vhal/src/ConnectedClient.cpp:141-152 | Exactly the results whose id was pending are passed on, unchanged and in order |
| `RequestLifecycle.DefaultVehicleHal.OnHardwareFailure` | packages/vhal-server/aidl/impl/4/vhal/src/DefaultVehicleHal.cpp:593-603 | A failed hardware call withdraws what is pending of it without a reply, and is a step of the protocol |
| `RequestLifecycle.DefaultVehicleHal.OnTimeout` | packages/vhal-server/aidl/impl/4/vhal/src/ConnectedClient.cpp:113-126 | A timeout answers exactly the expired ids that were pending, and is a step of the protocol |
| `Gateway.DrainedNodesConverge` | packages/vhal-gateway/src/VhalGateway.cpp:55-97 | After any run of polls and sends, a node with a drained queue was sent every watched property ever polled, and where the latest batch of a property was sent successfully the remote has the value the last successful poll saw |
| `Gateway.RunKeepsInv` | packages/vhal-gateway/src/NodeForwarder.cpp:83-120 | Over any run: the latest batch of each watched property, sent or queued, carries the remembered value, and a successful latest send is what the remote has |
| `Gateway.EarlyExitIsHarmless` | packages/vhal-gateway/src/NodeForwarder.cpp:51-80 | The early exit queues exactly what the partition loop alone would |
| `Gateway.ScanTracks` | packages/vhal-gateway/src/VhalGateway.cpp:72-87 | Skipping unchanged values loses nothing: what is remembered is what the last poll saw |
| `Gateway.ChangedExactly` | packages/vhal-gateway/src/VhalGateway.cpp:72-87 | What a poll sends on are exactly the successful results with a value other than the one last seen of their property, each once and in order |
| `Gateway.LatestInPartition` | packages/vhal-gateway/src/NodeForwarder.cpp:66-79 | Partitioning by message group keeps the latest value of every property some group watches |
| `Gateway.PartitionExactly` | packages/vhal-gateway/src/NodeForwarder.cpp:66-79 | A batch is queued for each message group that some value concerns, in order, under the id of the group and with the values it selects |
| `Gateway.SelectExactly` | packages/vhal-gateway/src/NodeForwarder.cpp:68-74 | A group selects exactly the values of its properties, in order |
| `Gateway.RemoteHoldsWhatArrived` | packages/vhal-gateway/src/NodeForwarder.cpp:96-119 | Over any run a remote holds of each property the last value of the last successful send that had it; a failed send leaves no trace |
| `Gateway.FiltersAre` | packages/vhal-gateway/src/NodeForwarder.cpp:17-30 | A config declares its groups in order, each under its own id with the properties it lists |
| `Gateway.NodeForwarder.Forward` | packages/vhal-gateway/src/NodeForwarder.cpp:51-81 | The early exit and the loops queue one batch for each group with a matching value, in order |
| `Gateway.NodeForwarder.WorkOnce` | packages/vhal-gateway/src/NodeForwarder.cpp:96-119 | One turn of the worker sends the oldest batch; a failed one is dropped |
| `Gateway.NodeForwarder.constructor` | packages/vhal-gateway/src/NodeForwarder.cpp:17-30 | A forwarder watches the union of its message groups |
| `Gateway.VhalGateway.PollOnce` | packages/vhal-gateway/src/VhalGateway.cpp:55-97 | A failed poll changes nothing; a successful one remembers and forwards the changed values to every node |
| `EventWriter.ConnectionsReceiveRuns` | packages/vhal-ipc-grpc/aidl/impl/4/grpc/GRPCVehicleProxyServer.cpp:307-390 | Over any run and for both kinds of event: what a connection received is a gap-free, duplicate-free run of what was enqueued from where it joined, complete so far unless its stream refused a write, which is what ShutExactly says of the flag; when the writer has exited, all that was enqueued before the stop has been offered in order |
| `EventWriter.ShutExactly` | packages/vhal-ipc-grpc/aidl/impl/4/grpc/GRPCVehicleProxyServer.cpp:451-468 | Over any run a connection is shut if and only if its stream has refused an event of its kind since it joined |
| `EventWriter.ReceivedUntilRefused` | packages/vhal-ipc-grpc/aidl/impl/4/grpc/GRPCVehicleProxyServer.cpp:365-390 | And it has then received all that had been offered since it joined, up to the first event it refused |
| `EventWriter.EveryoneIsKept` | packages/vhal-ipc-grpc/aidl/impl/4/grpc/GRPCVehicleProxyServer.cpp:264-268 | Over any run every connection that ever joined is there, served or removed |
| `EventWriter.EachIsServed` | packages/vhal-ipc-grpc/aidl/impl/4/grpc/GRPCVehicleProxyServer.cpp:352-390 | Of a batch every connection gets exactly the events before the first it refuses; it is still served if it refuses none, and otherwise removed |
| `EventWriter.ExitsExactly` | packages/vhal-ipc-grpc/aidl/impl/4/grpc/GRPCVehicleProxyServer.cpp:333-363 | A turn ends the loop if and only if the stop flag was set as the turn took the queues |
| `EventWriter.RunKeepsInv` | packages/vhal-ipc-grpc/aidl/impl/4/grpc/GRPCVehicleProxyServer.cpp:333-390 | Every step keeps: enqueued is offered, batch and queue in order; each connection's share is gap-free; ids are distinct; a broken connection is shut |
| `EventWriter.ShutIsFinal` | packages/vhal-ipc-grpc/aidl/impl/4/grpc/GRPCVehicleProxyServer.cpp:451-468 | From its first failed write on, over the rest of any run, a connection gets nothing more: it stays the only one with its id, exactly as it was, removed or not |
| `EventWriter.WriteToEach` | packages/vhal-ipc-grpc/aidl/impl/4/grpc/GRPCVehicleProxyServer.cpp:369-380 | Each connection whose stream takes the event has received it, each other is shut and reported |
| `EventWriter.RemoveBroken` | packages/vhal-ipc-grpc/aidl/impl/4/grpc/GRPCVehicleProxyServer.cpp:384-389 | Removes exactly the connections that failed, keeping the order of the others |
| `EventWriter.EventStream.Push` | packages/vhal-ipc-grpc/aidl/impl/4/grpc/GRPCVehicleProxyServer.cpp:307-331 | Enqueues at the end |
| `EventWriter.EventStream.Connect` | packages/vhal-ipc-grpc/aidl/impl/4/grpc/GRPCVehicleProxyServer.cpp:264-268 | A connection joins with nothing received |
| `EventWriter.EventStream.SwapOut` | packages/vhal-ipc-grpc/aidl/impl/4/grpc/GRPCVehicleProxyServer.cpp:342-348 | Takes the whole queue and leaves it empty |
| `EventWriter.EventStream.WriteToStream` | packages/vhal-ipc-grpc/aidl/impl/4/grpc/GRPCVehicleProxyServer.cpp:365-390 | A connection whose stream takes the event has it and stays; every other is shut and removed |
| `EventWriter.EventStream.WriteBatch` | packages/vhal-ipc-grpc/aidl/impl/4/grpc/GRPCVehicleProxyServer.cpp:352-359 | Offers a batch in order, removing broken connections after every event: each connection ends with the events before the first it refuses and stays exactly when it refuses none, and no connection comes from elsewhere |
| `EventWriter.ProxyServer.EventWriterTurn` | packages/vhal-ipc-grpc/aidl/impl/4/grpc/GRPCVehicleProxyServer.cpp:333-363 | One turn does that with all that is queued of both kinds, before the stop flag read with the queues ends the loop |
| `Replay.ReplayIs` | packages/vhal-server/aidl/impl/4/fake_impl/GeneratorHub/src/JsonFakeValueGenerator.cpp:215-250 | With k iterations of m events with increasing times and a positive first clock reading exactly k * m calls yield an event, and the n-th, n = q * m + r, is event r at T0 + q * (ts[m-1] - ts[0] + 1000000) + ts[r] - ts[0]; a negative k never ends |
| `Replay.ReplayIsExactly` | packages/vhal-server/aidl/impl/4/fake_impl/GeneratorHub/src/JsonFakeValueGenerator.cpp:222-238 | For any clock that closed form holds of all calls if and only if the clock, asked again wherever the closed form passes through zero, shows the next time of the closed form |
| `Replay.ZeroStartExactly` | packages/vhal-server/aidl/impl/4/fake_impl/GeneratorHub/src/JsonFakeValueGenerator.cpp:222-226 | For a clock that does not start below zero: if and only if it starts above zero, there is no second event, or the second reading is the time of the second event |
| `Replay.TimesIncrease` | packages/vhal-server/aidl/impl/4/fake_impl/GeneratorHub/src/JsonFakeValueGenerator.cpp:215-250 | Generated times strictly increase, across iterations too |
| `Replay.AbortsUnlessIncreasing` | packages/vhal-server/aidl/impl/4/fake_impl/GeneratorHub/src/JsonFakeValueGenerator.cpp:225-237 | For a positive first clock reading the overflow assertion never fails if and only if the times in the file strictly increase |
| `Replay.ZeroStartAsksAgain` | packages/vhal-server/aidl/impl/4/fake_impl/GeneratorHub/src/JsonFakeValueGenerator.cpp:222-226 | A concrete replay whose clock first reads zero and is asked a second time |
| `Replay.JsonFakeValueGenerator.NextEvent` | packages/vhal-server/aidl/impl/4/fake_impl/GeneratorHub/src/JsonFakeValueGenerator.cpp:215-250 | One call does exactly the specified step |
| `Replay.JsonFakeValueGenerator.HasNext` | packages/vhal-server/aidl/impl/4/fake_impl/GeneratorHub/src/JsonFakeValueGenerator.cpp:252-254 | There is a next event exactly when the next call is not exhausted, whatever the clock |
| `Scheduler.DeliveriesAreOrderedAlways` | packages/vhal-server/aidl/impl/4/fake_impl/GeneratorHub/src/GeneratorHub.cpp:50-126 | When ids are not reused while live or queued, generators do not go back in time and new ones do not start in the past: over any run deliveries are in time order, each generator's are a prefix of its output, and a registered generator always has a queued event |
| `SchedulerReuse.OverrideKeepsPrefixExactly` | packages/vhal-server/aidl/impl/4/fake_impl/GeneratorHub/src/GeneratorHub.cpp:57-61 | Overriding a live id splices the old queued event into the place of the new output's first: over every continuation until the id is registered again, what is delivered is a prefix of that splice, and so, once anything is delivered, a prefix of the new output if and only if those two events are equal |
| `SchedulerReuse.OverrideKeepsOrderExactly` | packages/vhal-server/aidl/impl/4/fake_impl/GeneratorHub/src/GeneratorHub.cpp:57-61 | All such continuations in which everybody else starts in time deliver in time order if and only if the new output has no second event or that is not sooner than the old queued event |
| `SchedulerReuse.OverrideOrderFollows` | packages/vhal-server/aidl/impl/4/fake_impl/GeneratorHub/src/GeneratorHub.cpp:57-61 | Each single one of them does if and only if it does not deliver the second event of the new output or that is not sooner than the old one |
| `SchedulerReuse.OverrideGoesBack` | packages/vhal-server/aidl/impl/4/fake_impl/GeneratorHub/src/GeneratorHub.cpp:57-61 | A concrete run: an override delivers the event at 100 and then one at 20 |
| `SchedulerReuse.ReuseKeepsPrefixExactly` | packages/vhal-server/aidl/impl/4/fake_impl/GeneratorHub/src/GeneratorHub.cpp:50-126 | Registering an id again while an event of its former generator is queued: all continuations until it is registered once more, races of deliveries with unregistration included, deliver prefixes of the new output if and only if the old event equals every event of the output that it can be delivered before |
| `SchedulerReuse.GoesWrong` | packages/vhal-server/aidl/impl/4/fake_impl/GeneratorHub/src/GeneratorHub.cpp:83-124 | Otherwise a continuation that delivers something else is constructed, from any such hub |
| `SchedulerReuse.DeliveriesStayInTime` | packages/vhal-server/aidl/impl/4/fake_impl/GeneratorHub/src/GeneratorHub.cpp:50-126 | Deliveries are in time order over all runs, however often ids are overridden or reused, in which generators do not go back in time, new ones do not start in the past and overriding ones do not continue before what is queued of their id |
| `SchedulerReuse.InvIsInTime` | packages/vhal-server/aidl/impl/4/fake_impl/GeneratorHub/src/GeneratorHub.cpp:50-126 | Every state of a run whose ids are never reused is a starting point for that |
| `SchedulerReuse.LiveHasOneEvent` | packages/vhal-server/aidl/impl/4/fake_impl/GeneratorHub/src/GeneratorHub.cpp:50-126 | In every such state a live id has exactly one event queued, as the statements about overriding assume |
| `Scheduler.GeneratorHub.RegisterGenerator` | packages/vhal-server/aidl/impl/4/fake_impl/GeneratorHub/src/GeneratorHub.cpp:50-66 | Registers a generator that yields an event, queueing it only for a new id |
| `Scheduler.GeneratorHub.UnregisterGenerator` | packages/vhal-server/aidl/impl/4/fake_impl/GeneratorHub/src/GeneratorHub.cpp:68-77 | Removes a generator and says whether there was one; its queued event stays |
| `Scheduler.GeneratorHub.PopDeadEvents` | packages/vhal-server/aidl/impl/4/fake_impl/GeneratorHub/src/GeneratorHub.cpp:83-87 | Pops soonest events of generators that are gone until none is or the queue is empty, by steps of the specified machine |
| `Scheduler.GeneratorHub.BeginToWait` | packages/vhal-server/aidl/impl/4/fake_impl/GeneratorHub/src/GeneratorHub.cpp:88-99 | The hub waits only with an empty queue or with a live event on top |
| `Scheduler.GeneratorHub.WakeUp` | packages/vhal-server/aidl/impl/4/fake_impl/GeneratorHub/src/GeneratorHub.cpp:99-109 | Anything that happens while it waits sends it back to the head of the loop |
| `Scheduler.GeneratorHub.DeliverTop` | packages/vhal-server/aidl/impl/4/fake_impl/GeneratorHub/src/GeneratorHub.cpp:110-124 | Hands out a soonest event, whose generator is live or was unregistered during the wait, and queues that generator's next event or removes it |
| `Obd2.EncodersAgree` | packages/vhal-server/aidl/impl/4/fake_impl/GeneratorHub/src/JsonFakeValueGenerator.cpp:77-100 | Without vendor sensors the generated mask is byte for byte that of a store in which exactly the non-zero sensors were set, and each byte the sum of the powers of two of its sensors |
| `Obd2.EncodingIsUnique` | packages/vhal-server/aidl/impl/4/fake_impl/obd2frame/src/Obd2SensorStore.cpp:42-67 | A mask is determined by its length and the set of bits it encodes |
| `Obd2.EncodesExactly` | packages/vhal-server/aidl/impl/4/fake_impl/obd2frame/src/Obd2SensorStore.cpp:47-67 | A mask encodes a set if and only if byte k of it is the sum of 2 to the power i % 8 over the positions i in the set with i / 8 == k |
| `Obd2.SetOneBit` | packages/vhal-server/aidl/impl/4/fake_impl/obd2frame/src/Obd2SensorStore.cpp:47-57 | Setting or clearing a bit changes that bit and no other |
| `Obd2.BitmaskInVector.Set` | packages/vhal-server/aidl/impl/4/fake_impl/obd2frame/src/Obd2SensorStore.cpp:47-57 | Sets one bit of the encoded set and disturbs no other; out of bounds nothing changes |
| `Obd2.BitmaskInVector.Get` | packages/vhal-server/aidl/impl/4/fake_impl/obd2frame/src/Obd2SensorStore.cpp:59-67 | Reads the bit, or fails out of bounds |
| `Obd2.BitmaskInVector.constructor` | packages/vhal-server/aidl/impl/4/fake_impl/obd2frame/src/Obd2SensorStore.cpp:37-45 | Starts with no bit set |
| `Obd2.Obd2SensorStore.SetIntegerSensor` | packages/vhal-server/aidl/impl/4/fake_impl/obd2frame/src/Obd2SensorStore.cpp:90-101 | Records sensor i at bit i and stores its value; out of bounds nothing changes |
| `Obd2.Obd2SensorStore.SetFloatSensor` | packages/vhal-server/aidl/impl/4/fake_impl/obd2frame/src/Obd2SensorStore.cpp:103-114 | Records float sensor j at bit integer count + j and stores its value; out of bounds nothing changes |
| `Obd2.SetBit` | packages/vhal-server/aidl/impl/4/fake_impl/GeneratorHub/src/JsonFakeValueGenerator.cpp:51-54 | Adds one bit to the encoded set |
| `Obd2.GenerateDiagnosticBytes` | packages/vhal-server/aidl/impl/4/fake_impl/GeneratorHub/src/JsonFakeValueGenerator.cpp:77-100 | The mask encodes exactly the positions of the non-zero values, also of arrays longer than there are sensors, as long as these lie within the mask |
| `Strings.JoinOfSplit` | packages/vhal-types/stubs/android-base/strings.h:11-31 | Joining what was split gives the string back, for every string and non-empty delimiter |
| `Strings.SplitOfJoinExactly` | packages/vhal-types/stubs/android-base/strings.h:11-31 | Splitting what was joined gives the pieces back if and only if no piece but the last hides an earlier match and the last has none |
| `Strings.SplitIsClean` | packages/vhal-types/stubs/android-base/strings.h:11-22 | A split never produces a piece that hides an earlier match |
| `Strings.ReplacementIsUndone` | packages/vhal-types/stubs/android-base/strings.h:61-73 | Replacing back restores the string when the new text hides in none of the pieces |
| `Strings.ReplacedFirstExactly` | packages/vhal-types/stubs/android-base/strings.h:61-73 | Replacing once exchanges the first match and changes nothing where there is none |
| `Strings.ReplacedAllExactly` | packages/vhal-types/stubs/android-base/strings.h:61-73 | Replacing everywhere puts the new text between the pieces that the old one joins to the string, none of which hides an earlier match |
| `Strings.FindIsFirst` | packages/vhal-types/stubs/android-base/strings.h:15 | A search finds the first match at or after its start, or there is none |
| `Strings.Split` | packages/vhal-types/stubs/android-base/strings.h:11-22 | The loop over positions computes the pieces and terminates |
| `Strings.Join` | packages/vhal-types/stubs/android-base/strings.h:24-31 | The loop computes the joined string |
| `Strings.StringReplace` | packages/vhal-types/stubs/android-base/strings.h:61-73 | Replacing in place terminates; replacing all is splitting and joining, replacing one changes the first match only |
| `RemoteTimestamps.TableIs` | packages/vhal-ipc-grpc/aidl/impl/4/grpc/GRPCVehicleHardware.cpp:270-294 | For any run and any clock the table holds the newest server timestamp of each [propId, areaId] and the local time at which it was first received |
| `RemoteTimestamps.AcceptedExactly` | packages/vhal-ipc-grpc/aidl/impl/4/grpc/GRPCVehicleHardware.cpp:279-294 | A value is accepted exactly when nothing newer was received before, accepted or not |
| `RemoteTimestamps.StampIsFirstSight` | packages/vhal-ipc-grpc/aidl/impl/4/grpc/GRPCVehicleHardware.cpp:279-290 | An accepted value gets the local time at which its server timestamp was first received |
| `RemoteTimestamps.AcceptedInOrder` | packages/vhal-ipc-grpc/aidl/impl/4/grpc/GRPCVehicleHardware.cpp:234-294 | Over any interleaving of stream and getValues, accepted server timestamps of a [propId, areaId] never decrease and equal ones map to the same local timestamp |
| `RemoteTimestamps.LocalTimesInOrderExactly` | packages/vhal-ipc-grpc/aidl/impl/4/grpc/GRPCVehicleHardware.cpp:275-290 | The local timestamps of a [propId, areaId] never go back if and only if the clock does not between its records, the values strictly newer than all before them |
| `RemoteTimestamps.LocalTimesInOrder` | packages/vhal-ipc-grpc/aidl/impl/4/grpc/GRPCVehicleHardware.cpp:275-290 | In particular with a clock that does not go back at all |
| `RemoteTimestamps.LocalTimesCanGoBack` | packages/vhal-ipc-grpc/aidl/impl/4/grpc/GRPCVehicleHardware.cpp:275-280 | The clock is read before the lock is taken, and then they can |
| `RemoteTimestamps.BoundIsKeptExactly` | packages/vhal-ipc-grpc/aidl/impl/4/grpc/GRPCVehicleHardware.cpp:196-268 | getValues returns what it would with the bound in force, to the same answer and the same state, if and only if the server does not leave something to retry after each of its first five calls |
| `RemoteTimestamps.GivesUpExactly` | packages/vhal-ipc-grpc/aidl/impl/4/grpc/GRPCVehicleHardware.cpp:196-205 | TRY_AGAIN is returned if and only if the first call already carries the maximal count, which getValues never does |
| `RemoteTimestamps.CanRetryForEver` | packages/vhal-ipc-grpc/aidl/impl/4/grpc/GRPCVehicleHardware.cpp:263-265 | For any n there is a server that is called n times without the call returning |
| `RemoteTimestamps.EachRequestIsAnsweredOnce` | packages/vhal-ipc-grpc/aidl/impl/4/grpc/GRPCVehicleHardware.cpp:196-268 | When every reply answers exactly the requests of its call, a successful getValues has exactly one result for each request, however many retries it took |
| `RemoteTimestamps.ResultsAreFaithful` | packages/vhal-ipc-grpc/aidl/impl/4/grpc/GRPCVehicleHardware.cpp:196-268 | Every result of a getValues, however many retries it took, has the id and status of some reply of the server, no timestamp when there was no value, and otherwise the local time of the first sight of its server timestamp, nothing newer having come in before |
| `RemoteTimestamps.RetriesAreOutdated` | packages/vhal-ipc-grpc/aidl/impl/4/grpc/GRPCVehicleHardware.cpp:239-256 | What is asked for again are requests of the call, unchanged, whose value came in after a newer one |
| `RemoteTimestamps.GRPCVehicleHardware.SetAndroidTimestamp` | packages/vhal-ipc-grpc/aidl/impl/4/grpc/GRPCVehicleHardware.cpp:270-294 | Accepts and restamps as specified over the whole history of received values |
| `RemoteTimestamps.GRPCVehicleHardware.PollValue` | packages/vhal-ipc-grpc/aidl/impl/4/grpc/GRPCVehicleHardware.cpp:438-462 | Passes on exactly the accepted values of a batch, restamped, in order |
| `RemoteTimestamps.GRPCVehicleHardware.HandleReply` | packages/vhal-ipc-grpc/aidl/impl/4/grpc/GRPCVehicleHardware.cpp:223-261 | Sorts a reply into results and requests to retry as specified, ignoring unknown ids |
| `RemoteTimestamps.GRPCVehicleHardware.Retry` | packages/vhal-ipc-grpc/aidl/impl/4/grpc/GRPCVehicleHardware.cpp:196-268 | The recursion against a server that answers its calls in turn |
| `HvacTemperature.SuggestionIsNearest` | packages/vhal-server/aidl/impl/4/fake_impl/hardware/src/FakeVehicleHardware.cpp:705-711 | The suggestion is a whole number of increments above the minimum, and of those the nearest to the request brought into range, the higher of two equally near ones |
| `HvacTemperature.SuggestionIsMonotone` | packages/vhal-server/aidl/impl/4/fake_impl/hardware/src/FakeVehicleHardware.cpp:705-711 | A higher request never gets a lower suggestion |
| `HvacTemperature.SuggestionsStayInRangeExactly` | packages/vhal-server/aidl/impl/4/fake_impl/hardware/src/FakeVehicleHardware.cpp:705-735 | No suggestion leaves the range if and only if the last partial increment is less than half of one, in particular when the increment divides the range |
| `HvacTemperature.SuggestionIsFixed` | packages/vhal-server/aidl/impl/4/fake_impl/hardware/src/FakeVehicleHardware.cpp:705-735 | A suggestion requested again is a fixed point, even outside the range |
| `HvacTemperature.UnitsAgree` | packages/vhal-server/aidl/impl/4/fake_impl/hardware/src/FakeVehicleHardware.cpp:713-742 | When both ranges have the same whole number of increments, the pair of suggestions lies in both, and requesting either half in its unit gives the same pair |
| `HvacTemperature.GetHvacTempNumIncrements` | packages/vhal-server/aidl/impl/4/fake_impl/hardware/src/FakeVehicleHardware.cpp:705-711 | The clamped request in increments, rounded to a nearest one |
| `HvacTemperature.UpdateSuggestionInput` | packages/vhal-server/aidl/impl/4/fake_impl/hardware/src/FakeVehicleHardware.cpp:713-742 | Writes the two suggestions and leaves the request and its unit |
| `HvacTemperature.SetHvacTemperatureValueSuggestion` | packages/vhal-server/aidl/impl/4/fake_impl/hardware/src/FakeVehicleHardware.cpp:756-778 | Rejects a vector of the wrong size or unit unchanged, and updates any other |

## Left out

- Floating point: rates, resolutions, temperatures and float sensors are reals, without rounding, infinities or NaN; the test that a resolution is a power of ten, made with a logarithm, is a parameter.
- Integer overflow: timestamps, counters and intervals are unbounded. That an accepted rate's interval fits 64 bits is proved; sums of timestamps are assumed to.
- Real clocks, threads, condition variables, sleeps, sockets, gRPC, protobuf and binder: a clock is an argument, a thread a step of the machine, a connection or a send an argument that says whether it succeeds.
- Death recipients and logging.
- A client is identified with its callback; the VUR history, kept by callback in the code, is kept by client.
- The two pairs of indices of the subscription manager are in two modules. A whole-client unsubscribe is the property part followed by the supported-value part, each proved on its own.
- The hash of a value in the VUR history is taken to be that of its [propId, areaId], as its equality is.
- Delivery of property-set errors and of supported-value events to clients: lookups in the same indices.
- A config the inserting lookup creates has its VUR flag cleared, as value initialisation does.
- The values carried by get results: only their [propId, areaId] and timestamps are kept in the model of the retries.
- The refresh callback's write into the property store: a tick says which properties are refreshed and in which mode.
- SubscriptionHistory.RecordsWhatCallsWanted: assumes that no call about the [propId, areaId] is rejected half done; what such a call leaves is said for single calls only, as far as SubscriptionEffects does.
- Requests.RepliesAreSafeAlways: assumes that one hardware callback names no id twice; CallbackIsSafeExactly says exactly when a single callback is safe without that assumption.
- The check that ids are distinct within one call: the code rejects a call that names a property value twice, not an id twice, and so does the model; the ids of a call are registered as a set.
- Scheduler.DeliveriesAreOrderedAlways: assumes that an id is not registered again while it is live or has an event queued; what happens otherwise is the subject of SchedulerReuse.
- SchedulerReuse.OverrideKeepsPrefixExactly: the overridden id has one event queued, as in every run without reuse; what is delivered of an id with several queued events that is overridden or reused once more is not characterised, only its time order is.
- The hub's reference to the top of its queue is held while it waits; that an event pushed in the meantime moves it is not modelled, a delivery is of a soonest event then in the queue, whose generator is live or was unregistered during the wait. The queue is a bag, so events of equal time may leave it in any order.
- The gateway's request list and the poll itself: the results of a poll are arguments. All requests are for area 0, so remotes and remembered values are kept by property id.
- The remote node of the gateway: a successful send is taken to store the values in order.
- The periodic timer of the request pool: CheckTimeout is called with the time.
- The large-parcelable transport of results: a call returns the list itself.
- RemoteTimestamps.EachRequestIsAnsweredOnce: assumes that each reply of the server answers exactly the requests of its call; the client code does not check this.
- Obd2.GenerateDiagnosticBytes: a non-zero value whose bit lies past the mask is excluded; the code then writes past its vector.
- RemoteTimestamps.GRPCVehicleHardware.Retry: the server's answers are a finite list of rounds; a call that needs more has not returned yet.
- Getting the temperature config and writing the value to the store, around the suggestion arithmetic.
- JSON parsing, dump and debug commands, directory scanning, generated property tables.
- The linear generator, user HAL replies, power-state and ADAS special cases: single branches with only easy claims.
- ConcurrentQueue and BatchingConsumer: plain queues.
