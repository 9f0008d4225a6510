# 2112 space lab: event pipeline and test-harness core in Dafny

This project models the sequential core of the 2112 space lab services and proves properties of it.

- **Event pipeline.**
  - The propagator service's Python `EventMonitor` and `EventEmitter`.
  - The generated `EventBuilder`.
  - The application service's Go `EventProcessor` and `EventMonitor`.
  - Covered: the handler registry, the FIFO buffers, the bounded queue that drops when full, the capped reconnect backoff, the event envelope with its base 64 payload (section 4 of RFC 4648), and the routing key.
- **Test-harness state.**
  - The propagator event store and callback results.
  - Occurrence matching over received events.
  - Time-checkpoint expressions and the checkpoint and background-operation registries.
  - The database handler's begin/commit/rollback state machine.
- **Helpers.**
  - Error flattening.
  - Slice and map combinators.
  - The lock-guarded map.
  - The handler-state enum.
  - Camel-case splitting and flag sifting.
  - Godog table parsing.
  - Resource-name parsing.
  - Connection-string building.
  - Database-name normalisation.
- **Satellite domain.** Satellite-type validation, and the TLE list kept newest first.

Goroutine and asyncio task starts are appended to a `launched` (or `running`) list, and a wait-group counter is an integer field. A mutex only serialises a method, so each method is one atomic step. Library calls the code relies on are parameters:
- `json.loads` / `json.Unmarshal` / `json.dumps`;
- `time.ParseDuration`;
- the clock;
- `uuid`;
- the jsonata evaluator;
- the database driver's answers.

Go's unordered map iteration is a ghost `order` result, and every result is stated in that order. Times are integer nanoseconds. Case mapping and character classes are the ASCII ones.

Files (one module each):
- Shared helpers: `wrappers.dfy`, `strings.dfy`, `base64.dfy`, `envelope.dfy`, `registry.dfy`, `occurrence.dfy`.
- Everything else models one source file.

## Model

| member | source | states |
|---|---|---|
| Registry.RegisterAppends | org/propagator-service/app/core/event_monitor.py:28-38 | registering appends the handler at the end of its type's list, leaves other types alone, and never leaves an empty list |
| Registry.RegisterAllOrder | org/app-service/internal/events/event_processor.go:28-34 | after a sequence of registrations a type's handlers are exactly those registered for it, in registration order |
| PropagatorEventMonitor.EventMonitor.RegisterHandler | org/propagator-service/app/core/event_monitor.py:28-38 | the list of the type gains the handler class at its end; nothing else changes |
| PropagatorEventMonitor.EventMonitor.ConsumeMessages | org/propagator-service/app/core/event_monitor.py:40-62 | every delivered body is put at the buffer's tail in arrival order, and every failed connection is followed by one 5 second sleep |
| PropagatorEventMonitor.EventMonitor.EnqueueAll | org/propagator-service/app/core/event_monitor.py:55-57 | the bodies of one connection are appended to the buffer in order, nothing else changes |
| PropagatorEventMonitor.Dispatch | org/propagator-service/app/core/event_monitor.py:64-84 | a body that parses to an event with a text type launches one task per class registered for it, in order, or warns when there is none; a malformed body or an unhashable type is dropped and launches nothing |
| PropagatorEventMonitor.EventMonitor.ProcessOne | org/propagator-service/app/core/event_monitor.py:64-84 | the oldest body leaves the buffer and the launched list grows by exactly its dispatch |
| PropagatorEventMonitor.EventMonitor.ProcessEvents | org/propagator-service/app/core/event_monitor.py:64-84 | draining the buffer launches the tasks of every buffered body, body after body |
| PropagatorEventMonitor.DroppedBodyIsSkipped | org/propagator-service/app/core/event_monitor.py:70-84 | a malformed body contributes nothing: the rest of the buffer is processed as if it were absent |
| AppEventProcessor.EventProcessor.constructor | org/app-service/internal/events/event_processor.go:20-25 | a new processor has no handlers, an empty open queue and a zero wait group |
| AppEventProcessor.EventProcessor.RegisterHandler | org/app-service/internal/events/event_processor.go:28-34 | the handler is appended to its type's list |
| AppEventProcessor.Offer | org/app-service/internal/events/event_processor.go:37-44 | an emit appends the event when fewer than 100 are queued and drops it otherwise |
| AppEventProcessor.OfferAllKeepsPrefix | org/app-service/internal/events/event_processor.go:37-44 | a burst of emits keeps exactly the first events that fit, in order, and drops the rest |
| AppEventProcessor.EventProcessor.EmitEvent | org/app-service/internal/events/event_processor.go:37-44 | queued, dropped when full, or a panic on a closed queue, with the queue updated accordingly |
| AppEventProcessor.Runs | org/app-service/internal/events/event_processor.go:63-82 | an event starts one run per handler of its type, in registration order |
| AppEventProcessor.EventProcessor.ProcessEvent | org/app-service/internal/events/event_processor.go:63-82 | the running list grows by the event's runs and the wait group counts each of them |
| AppEventProcessor.EventProcessor.ProcessNext | org/app-service/internal/events/event_processor.go:47-60 | the oldest queued event is taken and processed |
| AppEventProcessor.EventProcessor.Finish | org/app-service/internal/events/event_processor.go:75-77 | a finished handler leaves the running list and decrements the wait group |
| AppEventProcessor.EventProcessor.Shutdown | org/app-service/internal/events/event_processor.go:85-90 | the queue is closed, every running handler has finished and the wait group is zero; queued events stay unprocessed |
| AppEventMonitor.EventMonitor.constructor | org/app-service/internal/events/event_monitor.go:24-30 | a new monitor has no handlers and an empty buffer |
| AppEventMonitor.EventMonitor.RegisterHandler | org/app-service/internal/events/event_monitor.go:33-38 | the handler is appended to its type's list |
| AppEventMonitor.NextBackoff | org/app-service/internal/events/event_monitor.go:62 | the next backoff doubles the current one but never exceeds 60 seconds |
| AppEventMonitor.BackoffIsCappedPower | org/app-service/internal/events/event_monitor.go:46-66 | the backoff is 2 to the number of failures since the last success, capped at 60 |
| AppEventMonitor.SleepsBounded | org/app-service/internal/events/event_monitor.go:58-62 | every sleep lasts between 1 and 60 seconds |
| AppEventMonitor.EventMonitor.Attempt | org/app-service/internal/events/event_monitor.go:57-80 | a failure sleeps for the backoff and doubles it; a success resets it to 1 and buffers the bodies |
| AppEventMonitor.EventMonitor.StartMonitoring | org/app-service/internal/events/event_monitor.go:41-83 | as written: failures back off; after the first success no further consume call is made |
| AppEventMonitor.AttemptsAsWritten | org/app-service/internal/events/event_monitor.go:48-81 | the number of consume calls the loop as written makes: up to and including the first success |
| AppEventMonitor.ClosedChannelStopsConsuming | org/app-service/internal/events/event_monitor.go:77 | an empty closed channel followed by a delivering connection: the body is never buffered |
| AppEventMonitor.EventMonitor.StartMonitoringReconnecting | org/app-service/internal/events/event_monitor.go:41-83 | with reconnection, every consume result is handled and every delivered body is buffered in order |
| AppEventMonitor.Dispatch | org/app-service/internal/events/event_monitor.go:86-108 | a body that unmarshals starts one goroutine per handler of its type; otherwise none |
| AppEventMonitor.EventMonitor.ProcessOne | org/app-service/internal/events/event_monitor.go:86-108 | the oldest body is taken and the launched list grows by its dispatch |
| AppEventMonitor.EventMonitor.ProcessEvents | org/app-service/internal/events/event_monitor.go:86-108 | draining launches the goroutines of all buffered bodies in order |
| AppEventMonitor.EventMonitor.Push | org/app-service/internal/events/event_monitor.go:79 | the buffer never exceeds 100; a full buffer first lets the processor take its oldest body |
| AppEventMonitor.EventMonitor.Deliver | org/app-service/internal/events/event_monitor.go:68-81 | every body of a delivery is taken or buffered, in order |
| Base64.Encode | org/packages/graphql-apis/python-generator/models/event_builder.py:39-41 | four characters for every three bytes, rounded up |
| Base64.EncodeAlphabet | org/packages/graphql-apis/python-generator/models/event_builder.py:39-41 | every character is in the alphabet except padding at the end |
| Base64.DecodeEncode | org/packages/graphql-apis/python-generator/models/event_builder.py:39-41 | decoding an encoding gives back exactly the encoded bytes |
| Envelope.ParseEventRoot | org/packages/graphql-apis/python-generator/models/event_root.py:36-37 | a value parses exactly when it is an object using only the dataclass's keywords and giving the required ones |
| Envelope.ParseToJson | org/packages/graphql-apis/python-generator/models/event_root.py:36-41 | a serialised envelope parses back to the same fields |
| Envelope.EncodeModel | org/packages/graphql-apis/python-generator/models/event_builder.py:32-41 | only a serialisable dataclass instance is encoded, and its payload decodes to its JSON |
| EventBuilder.Build | org/packages/graphql-apis/python-generator/models/event_builder.py:27-46 | a non-dataclass raises; otherwise the envelope carries the type, comment, clock and uid, and a payload decoding to the model's JSON |
| EventBuilder.BuildThenParse | org/packages/graphql-apis/python-generator/models/event_builder.py:27-46 | a consumer parsing a built envelope sees the type and comment unchanged and the model's JSON in the payload |
| EventEmitter.RoutingKey | org/propagator-service/app/core/event_emitter.py:46 | "events." followed by the lower-cased type value |
| EventEmitter.Emit | org/propagator-service/app/core/event_emitter.py:23-53 | a non-member type or non-dataclass model publishes nothing; otherwise the built envelope is published under the routing key |
| EventEmitter.RoutingKeyIgnoresCase | org/propagator-service/app/core/event_emitter.py:46 | type values differing only in case share a routing key |
| Occurrence.NthWhere | org/testing/pkg/testing/state-service/propagator.go:88-100 | the n-th match's index, with n-1 matches before it; none when n is not positive or too large |
| Occurrence.ScanForNth | org/testing/pkg/testing/state-service/propagator.go:88-100 | the counting scan finds exactly the n-th match |
| Occurrence.NthWherePrefix | org/testing/pkg/testing/resources/test-service/rabbitmq_stream.go:346-349 | the scan stops at the index where the running count reaches n |
| StateService.PropagatorState.constructor | org/testing/pkg/testing/state-service/propagator.go:29-40 | a new state is empty |
| StateService.PropagatorState.GetPropagatorServiceContainer | org/testing/pkg/testing/state-service/propagator.go:43-48 | the registered container, or an error for an unknown service |
| StateService.PropagatorState.RegisterPropagatorServiceContainer | org/testing/pkg/testing/state-service/propagator.go:51-55 | the container is stored under the service |
| StateService.PropagatorState.SaveReceivedEvent | org/testing/pkg/testing/state-service/propagator.go:58-62 | the event is appended to its service's list |
| StateService.SaveKeepsOthers | org/testing/pkg/testing/state-service/propagator.go:58-62 | other services' events are unchanged and the saved event is last |
| StateService.PropagatorState.RegisterCallbackResult | org/testing/pkg/testing/state-service/propagator.go:65-75 | the error if any, else the response, is stored under "uid_action" |
| StateService.LookupCallback | org/testing/pkg/testing/state-service/propagator.go:78-102 | an unknown service and too few events of the type are errors; otherwise the event returned is the occurrence-th of the type, with the stored response, the stored error, or neither when no result is stored under its uid and action |
| StateService.PropagatorState.GetCallbackResult | org/testing/pkg/testing/state-service/propagator.go:78-102 | the counting scan returns the occurrence-th event of the type and its stored result, as the lookup characterises |
| StateService.Between | org/testing/pkg/testing/state-service/propagator.go:105-120 | the events strictly inside the time window, in received order |
| StateService.BetweenMembership | org/testing/pkg/testing/state-service/propagator.go:114-118 | an event is returned exactly when it was received and falls strictly inside the window |
| StateService.PropagatorState.GetReceivedEvents | org/testing/pkg/testing/state-service/propagator.go:105-120 | the loop returns the window's events |
| StateService.PropagatorState.RegisterNamedEventReference | org/testing/pkg/testing/state-service/propagator.go:123-127 | the JSON is stored under the reference |
| StateService.PropagatorState.GetNamedEventByReference | org/testing/pkg/testing/state-service/propagator.go:130-135 | the stored JSON, or none |
| StateService.PropagatorState.RegisterCancelV2Stream | org/testing/pkg/testing/state-service/propagator.go:138-142 | the subscriber's cancel function replaces any earlier one |
| StateService.PropagatorState.CancelAllV2Stream | org/testing/pkg/testing/state-service/propagator.go:145-152 | every registered cancel function is called once, in map order, and the registry is then empty |
| RabbitStream.FilterQueueNames | org/testing/pkg/testing/resources/test-service/rabbitmq_stream.go:164-173 | keeps, in order, the names whose trimmed lower-case form contains the trimmed lower-case filter |
| RabbitStream.BlankFilterKeepsAll | org/testing/pkg/testing/resources/test-service/rabbitmq_stream.go:166-169 | a blank filter keeps every queue |
| RabbitStream.ReverseInPlace | org/testing/pkg/testing/resources/test-service/rabbitmq_stream.go:309-310 | the clone is reversed element by element |
| RabbitStream.ContainsExpectedEvent | org/testing/pkg/testing/resources/test-service/rabbitmq_stream.go:300-352 | the n-th matching event in received order, or the n-th from the end for a negative occurrence; occurrence 0 finds nothing |
| RabbitStream.FindNth | org/testing/pkg/testing/resources/test-service/rabbitmq_stream.go:314-351 | the loop finds exactly the n-th match |
| RabbitStream.FromTheEnd | org/testing/pkg/testing/resources/test-service/rabbitmq_stream.go:308-313 | a negative occurrence finds the match with that many matches counted from the end |
| RabbitStream.ReplaceAllRemoves | org/testing/pkg/testing/resources/test-service/rabbitmq_stream.go:355-357 | after replacing every occurrence, none is left when the replacement shares no character with the pattern |
| RabbitStream.ReplaceAllIdentity | org/testing/pkg/testing/resources/test-service/rabbitmq_stream.go:355-357 | text without the pattern is unchanged |
| RabbitStream.SanitizeRemovesEscapes | org/testing/pkg/testing/resources/test-service/rabbitmq_stream.go:354-359 | the result holds none of the three escape sequences |
| RabbitStream.SanitizeClean | org/testing/pkg/testing/resources/test-service/rabbitmq_stream.go:354-359 | text holding none of the three escape sequences is unchanged |
| Checkpoint.ParseExpression | org/testing/pkg/testing/x-test-time/checkpoint.go:46-55 | parses exactly when splitting on '>' gives two or three parts; no part holds '>', and a three-part expression is rebuilt from its parts |
| Checkpoint.ParseFormatted | org/testing/pkg/testing/x-test-time/checkpoint.go:46-55 | a formatted expression parses back to its parts |
| Checkpoint.Evaluate | org/testing/pkg/testing/x-test-time/checkpoint.go:42-72 | succeeds exactly when the expression parses, the offset parses, the base is known and the output name is empty or unused; the result is then base plus offset, registered under the output name if given; a malformed expression, bad offset or unknown base reports the current time, an output name already set reports the computed instant |
| Checkpoint.EvaluateCheckpoint | org/testing/pkg/testing/x-test-time/checkpoint.go:42-72 | the instant, the error and the new checkpoints are those the evaluation characterises, and the background state is untouched |
| Checkpoint.EvaluateOptionalCheckpoint | org/testing/pkg/testing/x-test-time/checkpoint.go:13-19 | an empty expression is no instant, no error and no change; otherwise an instant with the error and checkpoints the evaluation characterises |
| CheckpointState.TimeCheckpointState.constructor | org/testing/pkg/testing/x-test-state/time_checkpoint.go:21-27 | empty registries |
| CheckpointState.TimeCheckpointState.RegisterCheckpoint | org/testing/pkg/testing/x-test-state/time_checkpoint.go:29-39 | a new name is stored; an existing name is an error and nothing changes |
| CheckpointState.TimeCheckpointState.GetCheckpointValue | org/testing/pkg/testing/x-test-state/time_checkpoint.go:41-46 | the registered value, or an error for an unknown name |
| CheckpointState.TimeCheckpointState.RegisterBackgroundOperation | org/testing/pkg/testing/x-test-state/time_checkpoint.go:48-57 | a new key is stored and the wait group incremented; a duplicate is an error |
| CheckpointState.TimeCheckpointState.RegisterBackgroundOperationComplete | org/testing/pkg/testing/x-test-state/time_checkpoint.go:59-68 | an unknown key is an error; a known one is replaced and the wait group decremented, or panics at zero |
| CheckpointState.TimeCheckpointState.GetBackgroundOperations | org/testing/pkg/testing/x-test-state/time_checkpoint.go:70-76 | the copy holds exactly the registered operations |
| CheckpointState.TimeCheckpointState.ReportBackgroundError | org/testing/pkg/testing/x-test-state/time_checkpoint.go:78-82 | the error is appended |
| CheckpointState.TimeCheckpointState.GetBackgroundErrors | org/testing/pkg/testing/x-test-state/time_checkpoint.go:84-88 | all reported errors, in order |
| DbTransaction.HandlerDB.BeginTx | org/testing/pkg/database/handler_transaction.go:108-122 | an active transaction is an error; otherwise the driver's answer opens one or reports its failure |
| DbTransaction.HandlerDB.CommitIfTxOrErr | org/testing/pkg/database/handler_transaction.go:125-135 | no transaction is an error; otherwise commit and clear the transaction in every case |
| DbTransaction.HandlerDB.RollbackIfTxOrErr | org/testing/pkg/database/handler_transaction.go:138-148 | rolls back and clears an open transaction; the result keeps the initial error |
| DbTransaction.HandlerDB.WrapInTx | org/testing/pkg/database/handler_transaction.go:74-89 | begin, run, then commit on success or roll back on failure; no error exactly when all three succeed; an already open transaction is refused, and one it opens is closed before it returns |
| DbTransaction.HandlerDB.UseExistingTxOrWrap | org/testing/pkg/database/handler_transaction.go:92-97 | with a transaction the callback runs in it and only its error comes back; otherwise it runs in a new transaction with the history and error of the wrap, succeeding exactly when begin, callback and commit succeed, and that transaction is closed on return |
| DbConfig.ResourceNameToID | org/testing/pkg/database/db_config.go:209-225 | empty name is 0; wrong part count, bad index or non-integer is -1 with an error; an index past the parts panics |
| DbConfig.ResourceNameRoundTrip | org/testing/pkg/database/db_config.go:209-225 | a name built with an integer at the index parses back to it |
| DbConfig.PostgresConnDefault | org/testing/pkg/database/db_config.go:78-87 | the string starts with the host and port settings |
| DbConfig.EmptySslModeIsDisable | org/testing/pkg/database/db_config.go:81-83 | an unset SSL mode is exactly "disable" |
| DbConfig.PostgresConnSplits | org/testing/pkg/database/db_config.go:78-87 | without spaces in values, splitting on spaces gives back the nine settings |
| Flags.KeepKongFlags | org/testing/integration/flags.go:77-79 | true exactly for arguments starting with "--tapp" |
| Flags.GodogFlags | org/testing/integration/flags.go:81-83 | true exactly when the kong filter is false |
| Flags.FlagsPartition | org/testing/integration/flags.go:77-83 | the two filters split the arguments: nothing lost, nothing duplicated |
| Flags.SiftStrings | org/testing/integration/flags.go:175-185 | the in-place compaction returns the kept strings in order |
| Flags.CamelCase | org/testing/integration/flags.go:187-230 | invalid UTF-8 is one entry; otherwise the camel-case words |
| Flags.SplitByClass | org/testing/integration/flags.go:196-214 | the loop splits the text into maximal runs of one character class |
| Flags.MoveCapitals | org/testing/integration/flags.go:217-222 | the adjustment pass moves the last capital of an upper run onto a following lower run |
| Flags.KeepNonEmpty | org/testing/integration/flags.go:224-228 | the non-empty runs become the entries, in order |
| Flags.CamelCaseWordsCover | org/testing/integration/flags.go:187-230 | the words concatenate back to the input and none is empty |
| Flags.UpperThenLower | org/testing/integration/flags.go:217-222 | an upper run followed by a lower run splits before the last capital |
| Flags.CamelCaseExample | org/testing/integration/flags.go:187-230 | "PDFLoader" gives "PDF" and "Loader" |
| GodogTable.KeyValuesSucceeds | org/testing/integration/steps/godog_table.go:17-34 | succeeds exactly when every row has two cells, and then the keys are the rows' keys |
| GodogTable.KeyValuesContents | org/testing/integration/steps/godog_table.go:17-34 | on success every row has two cells and its key maps to that row's value (success already requires distinct keys, see KeyValuesSucceeds) |
| GodogTable.GodogTableToKeyValueMap | org/testing/integration/steps/godog_table.go:17-34 | the loop computes the key/value map of the data rows, skipping the header |
| GodogTable.SingleColumnSpec | org/testing/integration/steps/godog_table.go:36-49 | succeeds exactly when every row has one cell, giving the cells in order |
| GodogTable.GodogTableToSingleColumnSlice | org/testing/integration/steps/godog_table.go:36-49 | the loop computes the column of the data rows |
| HandlerStateEnum.String | org/app-service/internal/domain/domain-enums/handler_state.go:25-30 | "UNKNOWN" exactly for the zero state, otherwise its name |
| HandlerStateEnum.FromString | org/app-service/internal/domain/domain-enums/handler_state.go:52-62 | a valid state exactly when the upper-cased text matches one; otherwise Unknown and an error |
| HandlerStateEnum.FromStringString | org/app-service/internal/domain/domain-enums/handler_state.go:25-62 | parsing a valid state's name gives it back |
| HandlerStateEnum.FromStringUpperCase | org/app-service/internal/domain/domain-enums/handler_state.go:52-62 | parsing ignores letter case |
| HandlerStateEnum.MarshalJSON | org/app-service/internal/domain/domain-enums/handler_state.go:65-67 | the name as a quoted JSON string |
| HandlerStateEnum.UnmarshalJSON | org/app-service/internal/domain/domain-enums/handler_state.go:70-86 | null is Unknown; an undecodable or invalid value keeps the state and reports an error |
| HandlerStateEnum.MarshalRoundTrip | org/app-service/internal/domain/domain-enums/handler_state.go:65-86 | a valid state written and read back is itself |
| HandlerStateEnum.UnknownDoesNotRoundTrip | org/app-service/internal/domain/domain-enums/handler_state.go:25-30 | Unknown is written as "UNKNOWN", which reads back as an error |
| FxFlattenErrors.FlattenErrorsIfAny | org/testing/pkg/fx/flatten_errors.go:6-21 | the loop builds the newest-first ranked text of the non-nil errors |
| FxFlattenErrors.NilIffNoErrors | org/testing/pkg/fx/flatten_errors.go:6-21 | the result is nil exactly when every input is nil |
| FxFlattenErrors.NilsDoNotCount | org/testing/pkg/fx/flatten_errors.go:9-12 | nil entries neither appear nor advance the rank |
| FxFlattenErrors.TwoErrors | org/testing/pkg/fx/flatten_errors.go:6-21 | two errors give "[2:b] [1:a]" |
| FxFlattenErrors.FlattenErrorsAsStringIfAny | org/testing/pkg/fx/flatten_errors.go:24-31 | the text, or "" when nil |
| FxFlattenErrors.FlattenErrorsIfAnyWithPath | org/testing/pkg/fx/flatten_errors.go:34-40 | nil when nothing to report; otherwise the path followed by the flattened text |
| FxSlices.ConcatSlices | org/testing/pkg/fx/slices.go:4-20 | the new array holds all slices one after another |
| FxSlices.CopyInto | org/testing/pkg/fx/slices.go:16-18 | a slice is copied in at the running offset, the elements before it kept |
| FxSlices.NegateFilter | org/testing/pkg/fx/slices.go:22-27 | the negation holds exactly where the filter does not |
| FxSlices.FilterSlice | org/testing/pkg/fx/slices.go:30-38 | the kept items in order |
| FxSlices.FilterMembership | org/testing/pkg/fx/slices.go:30-38 | an item is kept exactly when it is in the input and satisfies the filter |
| FxSlices.FilterPartition | org/testing/pkg/fx/slices.go:22-38 | filtering with a predicate and its negation splits the input |
| FxSlices.SliceContains | org/testing/pkg/fx/slices.go:58-65 | true exactly when the item is in the slice |
| FxValues.Values | org/testing/pkg/fx/values.go:4-10 | one value per key, in iteration order |
| FxValues.ValuesInMembership | org/testing/pkg/fx/values.go:4-10 | every key's value is listed and every listed value belongs to a key |
| FxValues.FilterValues | org/testing/pkg/fx/values.go:13-21 | the values satisfying the filter, in iteration order |
| FxValues.MapValues | org/testing/pkg/fx/values.go:44-59 | every value mapped in order; the error flattens the failures and is nil exactly when none failed |
| FxValues.MergeAllSpec | org/testing/pkg/fx/values.go:62-70 | the merged keys are the union, and each value comes from the last map holding the key |
| FxValues.MergeMaps | org/testing/pkg/fx/values.go:62-70 | the loop computes the left-to-right merge |
| FxSafeMap.SafeMap.Read | org/testing/pkg/fx/safe_map.go:21-26 | the stored value, or none |
| FxSafeMap.SafeMap.Write | org/testing/pkg/fx/safe_map.go:29-33 | the key now maps to the value |
| FxSafeMap.SafeMap.Delete | org/testing/pkg/fx/safe_map.go:36-40 | the key is removed |
| FxSafeMap.SafeMap.Clear | org/testing/pkg/fx/safe_map.go:43-47 | the map is empty |
| FxSafeMap.SafeMap.Size | org/testing/pkg/fx/safe_map.go:50-54 | the number of keys |
| FxSafeMap.SafeMap.CopyToSnapshot | org/testing/pkg/fx/safe_map.go:57-65 | the snapshot equals the contents |
| FxSafeMap.WriteThenRead | org/testing/pkg/fx/safe_map.go:21-33 | `Read` after `Write` on a safe map gives the written value; other keys read as before |
| FxSafeMap.DeleteThenRead | org/testing/pkg/fx/safe_map.go:36-40 | after `Delete` on a safe map, `Read` finds nothing under the key, other keys read as before, and `Size` drops by one exactly when the key was present |
| SatelliteDomain.IsValid | org/app-service/internal/domain/satellite.go:27-34 | no error exactly for "ACTIVE" and "OTHER" |
| SatelliteDomain.NewSatellite | org/app-service/internal/domain/satellite.go:107-125 | an invalid type is an error; otherwise the arguments are stored and the creation time stamps update and processing |
| SatelliteDomain.SortNewestFirst | org/app-service/internal/domain/satellite.go:158-160 | the TLEs end up newest first and are a permutation of the input |
| SatelliteDomain.SatelliteInfo.constructor | org/app-service/internal/domain/satellite.go:157-166 | the caller's TLEs are sorted in place, newest first, and kept |
| SatelliteDomain.SatelliteInfo.GetMostRecentTLE | org/app-service/internal/domain/satellite.go:169-174 | none for no TLEs, otherwise the first, which is the newest of a sorted list |
| SatelliteDomain.SatelliteInfo.AddTLE | org/app-service/internal/domain/satellite.go:177-182 | one more TLE, the old ones plus the new one, newest first |
| SatelliteDomain.AddedTleNotNewerThanHead | org/app-service/internal/domain/satellite.go:169-182 | after adding a TLE, the most recent is at least as new as it |
| DbNameNormalize.NormalizeDatabaseName | org/testing/pkg/testing/x-test-db/utils.go:33-34 | only characters in [a-z0-9_], never longer than the input |
| DbNameNormalize.DeleteDisallowedAppend | org/testing/pkg/testing/x-test-db/utils.go:15 | the deletion works character by character, keeping order |
| DbNameNormalize.NormalizeAppend | org/testing/pkg/testing/x-test-db/utils.go:33-34 | normalising a concatenation normalises each part |
| DbNameNormalize.NormalizeKeepsNormal | org/testing/pkg/testing/x-test-db/utils.go:33-34 | a name already in [a-z0-9_] is unchanged |
| DbNameNormalize.DeleteDisallowedDrops | org/testing/pkg/testing/x-test-db/utils.go:15 | disallowed characters all disappear |
| DbNameNormalize.NormalizeIdempotent | org/testing/pkg/testing/x-test-db/utils.go:33-34 | normalising twice is normalising once |
| DbNameNormalize.NormalizeIgnoresCase | org/testing/pkg/testing/x-test-db/utils.go:33 | upper-case letters are kept as lower case |
| DbNameNormalize.NormalizeExceedsMaxLength | org/testing/pkg/testing/x-test-db/utils.go:21-23 | a 64-character name comes back 64 characters long |
| DbNameNormalize.NormalizeDatabaseNameTruncated | org/testing/pkg/testing/x-test-db/utils.go:21-34 | at most 63 characters, all in [a-z0-9_] |
| DbNameNormalize.TruncatedIdempotent | org/testing/pkg/testing/x-test-db/utils.go:21-34 | the corrected normaliser is idempotent |
| ConnectionInfo.NewDatabaseConnectionInfo | org/testing/pkg/testing/x-test-db/models/connection_info.go:17-39 | every argument is stored unchanged in its field |
| ConnectionInfo.PreparePostgreConnectionString | org/testing/pkg/testing/x-test-db/models/connection_info.go:41-58 | the appends produce the settings joined by single spaces |
| ConnectionInfo.ConnectionStringStartsWithHead | org/testing/pkg/testing/x-test-db/models/connection_info.go:42-43 | the string starts with the host, user, password, port, database and sslmode segment |
| ConnectionInfo.TlsSettingsIffRootCA | org/testing/pkg/testing/x-test-db/models/connection_info.go:45-53 | all three TLS settings follow the head when a root CA path is set; otherwise there is no sslrootcert |
| ConnectionInfo.PoolSettingIffPositive | org/testing/pkg/testing/x-test-db/models/connection_info.go:54-56 | pool_max_conns comes last exactly when the pool size is positive |
| ConnectionInfo.ConnectionStringSplits | org/testing/pkg/testing/x-test-db/models/connection_info.go:41-58 | without spaces in values, splitting on spaces gives back the settings |

## Left out

- **Concurrency.**
  - Concurrency, goroutine scheduling, locks and asyncio interleavings are not modelled: each locked method is one atomic step, and handler bodies are not run.
  - `WaitBackgroundsCompletionWithTimeout` and `SleepUntilCheckpoint` are left out: both wait on clocks and timers.
- **Opaque library calls.**
  - Broker, database and network I/O; a failure to publish is logged and swallowed, as in the source.
  - The JSON text layer, uuid generation, the clock and `time.ParseDuration` are parameters, so their own behaviour is not modelled.
  - The jsonata evaluator is a parameter; a `MustCompile` panic on a malformed query is not modelled.
- **Case mapping.** Unicode case mapping and character classes are not modelled. `strings.ToLower`/`ToUpper`, `unicode.IsUpper`/`IsLower` and Python's `str.lower` are taken on ASCII letters only. Non-ASCII letters such as the Kelvin sign therefore behave differently.
- **Normaliser length.** `normalizeDatabaseName` measures and slices bytes in Go; the model uses characters. The two agree on ASCII names.
- **Python decoding.** Python's lenient base 64 decoding and JSON escapes inside the payload are not modelled. The decoder is the strict one of RFC 4648.
- **Event types.** `EventType` values are assumed to be strings; non-string enum values are not modelled.
- **Monitor loops.** The monitor loops run over a finite script of connections; the end of the script stands for cancellation.
- **Shutdown.** Events still queued at `shutdown` are simply left unprocessed, as in the source.
- **Not modelled from the fx package.** `FilterAndMapValues` and `ToSliceWithMapper` are out of scope.
- PropagatorEventMonitor.Dispatch: launches every registered class of the event's type. In the source a handler constructor that raises ends the loop, so the later classes for that body are never launched and the exception is logged; the model does not capture this early stop.
- StateService.LookupCallback: a nil callback response is not distinguished from a missing one; both come back as no response and no error.
- **Transactions.**
  - `WrapInTxReturning` and `useExistingTxOrWrapReturning` are not modelled; they differ from the modelled functions only by also returning the callback's value.
  - The `SQLTxOpt` options are not modelled.
  - The callback is assumed not to open or close transactions itself.
- **Configuration.** Loading kong and environment configuration (`DefaultEnvarsApp`, `GetDatabaseConnectionInfo`) is not modelled.
- SatelliteDomain.SatelliteInfo.AddTLE: the TLE list is a sequence value, so the aliasing of Go's `append`, which may write into a backing array shared with the caller's slice, is not captured.
- **Other constructors.** `NewSatelliteFromParameters` and the floating-point orbital fields of `Satellite` are not modelled.
- **Integer widths.** Times are integer nanoseconds, with no overflow; ports are unbounded integers, and the pool size is a 32-bit integer.
- **Connection string layout.** `ConnectionInfo.PreparePostgreConnectionString` writes the head as six successive appends rather than one format call. The resulting string is the same.

## Findings

| source | as written | input that shows it | evidently intended | confidence | as-written member | corrected member |
|---|---|---|---|---|---|---|
| org/app-service/internal/events/event_monitor.go:77 | `break` on a closed delivery channel leaves only the `select`, so the inner loop keeps receiving from the closed channel and never reconnects | a connection whose channel closes with no messages, followed by one that would deliver a body: the body is never buffered | go back to `ConsumeMessages` when the channel closes | medium, not executed | AppEventMonitor.ClosedChannelStopsConsuming | AppEventMonitor.EventMonitor.StartMonitoringReconnecting |
| org/testing/pkg/testing/x-test-db/utils.go:21-23,33 | the truncated name is computed and logged, but the lower-casing step uses the original name, so the result is not truncated | a 64-character name of `a`s gives a 64-character database name, over PostgreSQL's 63 | normalise the truncated name, so the result has at most 63 characters | high, not executed | DbNameNormalize.NormalizeExceedsMaxLength | DbNameNormalize.NormalizeDatabaseNameTruncated |
