# Verified model of an OMA LwM2M client

This project models the four stateful parts of the client and proves what they
promise, for every input and every run:

- **The OMA-TLV codec** (format: section 6.3.3 of the OMA LightweightM2M Technical
  Specification). The serializer writes an object tree into a growing buffer of
  nested records. The deserializer applies a payload to a tree in two passes, a dry
  run and an update. Both are proved, over heap objects and arrays, to compute the
  functions of `TlvSemantics` and `TlvEncoding`; about those functions the project
  proves the round trips, the frame of the dry run, failure atomicity, and which
  record's error is reported.
- **The notification scheduler**, M2MReportHandler: values, triggers, thresholds,
  the pmin and pmax timers on a millisecond clock, and write-attributes queries. The
  class refines the functions of `ReportSemantics`; `ReportRuns` proves numbering, no
  lost ids, minimum spacing and valid attributes over all runs.
- **The client state machine**, M2MInterfaceImpl: 18 states, the re-entrant state
  engine, reconnection and its back-off. A library call may call the client back, to
  any depth, before it returns; what every call does is read from a tape that is
  arbitrary in every theorem. The class with its engine refines the direct-call
  functions of `ClientSemantics`, whose contracts carry the invariants; `ClientRuns`
  has the theorems about runs.
- **The arithmetic and containers underneath**: integer printing, integer arrays, the
  heap-backed String, refresh times, the path lookup and the callback list.

`dafny verify dfyconfig.toml` checks the whole project.

## How to read it

| files | content |
|---|---|
| `CommonTypes`, `Optional`, `Arithmetic`, `CText` | shared types, remainders and big-endian numbers, C text and decimal numbers |
| `TlvHeader`, `ObjectModel`, `TlvSemantics`, `TlvEncoding` | the codec as functions |
| `TlvFormat`, `TlvPasses`, `TlvRoundTrip`, `TlvOutcomes`, `TlvTheorems`, `TlvNames`, `TlvPermissions` | properties of the codec |
| `ObjectTree`, `TlvDeserializer`, `TlvSerializer` | the codec in place |
| `ReportSemantics`, `ReportRuns`, `ReportOutcomes`, `ReportQueries`, `ReportFloats`, `ReportHandler` | the scheduler as functions, its runs, what is sent when, the text of queries, saved periods, the class |
| `ClientSemantics`, `ClientRuns`, `ClientEvents`, `ClientStuck`, `Client` | the client as functions, its runs, what each event puts out, reconnections that come to nothing, the class |
| `IntegerText`, `IntegerArrays`, `StringBuffer`, `Registration`, `PathLookup`, `CallbackStorage` | the components underneath |

A method that changes state states its whole new state by equating it with a function
of the old one (`View() == F(old(View()))`); what that function is good for is proved
beside it.

In the rows on `ClientSemantics`, *the invariants* are two. `Settled`: the client never
rests in one of the seven states Unregister, Unregistered, SendingCoapData,
CoapDataSent, CoapDataReceived, ProcessingCoapData and CoapDataProcessed. `Sound`: it is
reconnecting exactly if the retry count is positive, a reconnecting client has a
reconnection state, the count is within its maximum and that of the last attempt, and
every start of the retry timer so far had the delay of its attempt. Each contract proves
them for that function and everything delivered inside it, from the contracts of the
functions it calls.

## What the code does not promise

These are properties one might expect and that fail. Each failure is proved with the
exact condition under which the expected property does hold.

- A refusal (`NotAllowed`, `NotFound`) of an earlier record is overwritten by the
  outcome of a later one. Each public call reports exactly the dry-run outcome of the
  record where reading stops, and applies the whole payload, refused records included,
  if and only if that is no error; a record of another kind after an object instance is
  none: `ResourcesCallOutcome`, `ObjectsCallOutcome`, `InstancesCallOutcome`,
  `EarlierRefusalIsLost`.
- INTEGER, BOOLEAN and TIME values are written in binary but read as raw bytes. A value
  arrives as it was if and only if its type is another one or its bytes are already those
  of the binary zero: `SentAsStoredExactlyWhen`, `PutMakesTreesEqual`,
  `NumbersDoNotTravel`.
- A resource whose name is a negative number is written under that number modulo 65536,
  and no payload at all can write it. What it sends goes to the receiver's resource of
  that other number, if there is one ready for it, and the call reports success; if there
  is none, a single resource is refused and a multiple one silently dropped. Sent alone, a
  single resource arrives where it should if and only if its number is not negative. In a
  list the last resource decides for all, so that one in last place makes the whole call
  fail and one anywhere else is dropped without an error:
  `NumberedResourceArrivesExactlyWhen`, `UnnumberedIsNeverWritten`,
  `NegativeNameTakesAnother`, `NegativeNameIsForbidden`, `NegativeNameIsNotFound`,
  `LastResourceDecides`.
- The nested reader runs past the end of its own record. Under Put this writes
  nothing, but it reads past the end of the payload exactly if what was written ends in
  an empty multiple resource or an empty object instance: `OverrunWritesNothing`,
  `ObjectTreeRoundTrip`, `ResourceListRoundTrip`.
- A value written directly can hide a pending trigger. The end of the minimum period
  reports the pending ids if and only if the value differs from the last one (which a
  trigger sets to 1) and the thresholds let it through, or the maximum period was exceeded
  before and there is still something to notify: the value is the last one again and a
  report was due, or pmin is positive and Pmax not set. In that second case the pending
  ids go out in a notification of the whole object: `ValueCanHideTrigger`,
  `PendingIsSentExactlyWhen`.
- A trigger after a changed value is reported at once, before the minimum period is over,
  if and only if the thresholds hold the value back:
  `TriggerAfterValueIsImmediateExactlyWhen`, `HeldBackValueEndsPeriod`.
- A query with several options of which one is refused puts pmin and pmax back through
  floats, so exactly if both are floats they are what they were; 16777217 is not. The
  request that owns the query then restores the defaults anyway:
  `SettingsAreRestoredExactlyWhen`.
- A reconnection can come to nothing: the client is at rest, still counts as reconnecting,
  and no retry timer runs. One event leaves it so if and only if it is reconnecting and
  either the retry timer fires while there is no security object, or the timer has fired
  before and the event ends the attempt: a refusal that is not to be retried, an
  unregistration, an update and registration that both could not be sent, a message or
  unregistration that could not be sent, a bootstrap or registration request that could not
  be set up, or an endpoint name too long to bootstrap with. From then on updates, messages
  and unregistrations start nothing, with or without a security object. With a TCP binding
  the timer of the flow starts another retry: `GetsStuckExactlyWhen`,
  `AnswerLeavesReconnectingExactlyWhen`, `RefusalGetsStuck`,
  `FailureAfterBootstrapGetsStuck`, `FailureBeforeRequestsGetsStuck`, `StuckStays`,
  `FlowTimerRetries`.
- An update request with a lifetime below 60 seconds is reported as invalid and treated
  like any other. It is sent if and only if the client is registered or waiting and not
  reconnecting: `UpdateIsSentExactlyWhen`, `ShortLifetimeIsSent`.
- An update request from Idle loses its lifetime: the client registers anew and, once the
  address is known, sends an update without it. A lifetime is sent if and only if the
  client is registered or waiting and not reconnecting: `LifetimeIsSentExactlyWhen`.
- A lifetime of 2^31 seconds or more is printed as a negative number and never
  refreshed in time: `RefreshedBeforeExpiryExactlyWhen`.
- The smallest 64-bit integer does not survive printing, and negative numbers do not
  survive the conversion to a byte array: `PrintingIsInvertible`,
  `IntegerArrayRoundTrip`.
- A callback added without removing the old one is returned if and only if the key was
  not there or read as that callback already. No caller in the client adds without
  removing: `AddIsReadExactlyWhen`.

## Model

| member | source | states |
|---|---|---|
| TlvHeader.MasksAreArithmetic | source/m2mtlvdeserializer.cpp:379-411 | for every type byte, the masks for kind, identifier size and length size are the divisions and remainders the model uses |
| TlvHeader.HeaderRoundTrip | source/m2mtlvserializer.cpp:212-281 | for every kind, identifier and value below 2^24 bytes, and whatever follows, parsing a written record recovers kind, identifier and length and lands on the first value byte |
| TlvFormat.KindCodes | mbed-client/m2mconstants.h:144-147 | for every type byte, the masked byte is 0x00, 0x40, 0x80 or 0xC0 exactly for an object instance, a resource instance, a multiple resource or a resource |
| TlvFormat.RecordFormat | source/m2mtlvserializer.cpp:212-281 | every byte of a written record, in numbers: the type byte with its four fields, the identifier in one or two bytes, the length in none to three, the value |
| TlvFormat.HeaderFormat | source/m2mtlvdeserializer.cpp:379-411 | what is read from any bytes, also from a header that is not the shortest: where the value starts, the identifier and the length, in numbers |
| Arithmetic.BigEndianRoundTrip | source/m2mtlvserializer.cpp:252-281 | the big-endian bytes of a number denote it modulo 256 to the size, so exactly the numbers that fit survive |
| TlvDeserializer.TypeIdLength.Deserialize | source/m2mtlvdeserializer.cpp:379-390 | the cursor ends behind the header, with kind, identifier and length as the specification's header parser finds them |
| TlvDeserializer.TypeIdLength.DeserializeId | source/m2mtlvdeserializer.cpp:392-398 | the identifier is the big-endian number of the bytes consumed |
| TlvDeserializer.TypeIdLength.DeserializeLength | source/m2mtlvdeserializer.cpp:400-411 | the length is the big-endian number of the bytes consumed, or stays as it was |
| TlvDeserializer.DeserializeResourceInstances | source/m2mtlvdeserializer.cpp:215-327 | both overloads: the resource's instances on the heap become what the recursive specification of one pass says, nothing else changes, and every step consumes at least a header |
| TlvDeserializer.DeserializeResources | source/m2mtlvdeserializer.cpp:143-213 | one pass over a resource list on the heap equals its specification, error included |
| TlvDeserializer.DeserializeObjectInstances | source/m2mtlvdeserializer.cpp:111-141 | one pass over an object on the heap equals its specification, error included |
| TlvDeserializer.DeserialiseObjectInstances | source/m2mtlvdeserializer.cpp:43-60 | the public call: result and tree of the two passes, or NotValid and an untouched tree |
| TlvDeserializer.DeserialiseResources | source/m2mtlvdeserializer.cpp:62-77 | the public call on a resource list |
| TlvDeserializer.DeserialiseResourceInstances | source/m2mtlvdeserializer.cpp:79-109 | the public call on the instances of one multiple resource |
| TlvDeserializer.ApplyToInstances | source/m2mtlvdeserializer.cpp:230-262 | one record applied to resource instances: first match only, permission in the dry run, creation under Post |
| TlvDeserializer.ApplyToResources | source/m2mtlvdeserializer.cpp:160-194 | one record applied to single resources |
| TlvDeserializer.ApplyToMultiple | source/m2mtlvdeserializer.cpp:195-201 | one record applied to every multiple resource it names, the last error winning |
| TlvDeserializer.ApplyToObjectInstances | source/m2mtlvdeserializer.cpp:128-133 | one record applied to every object instance it names |
| ObjectTree.M2MResourceInstance.Update | source/m2mtlvdeserializer.cpp:237-244 | set_value or clear_value: exactly the value changes |
| ObjectTree.M2MResource.UpdateInstance | source/m2mtlvdeserializer.cpp:232-245 | exactly one instance's value changes in the resource's view |
| ObjectTree.M2MResource.CreateInstance | source/m2mtlvdeserializer.cpp:251-259 | Post appends one writable instance with the record's identifier |
| ObjectTree.M2MObjectInstance.UpdateResource | source/m2mtlvdeserializer.cpp:166-176 | exactly one resource's value changes in the object instance's view |
| ObjectTree.M2MObjectInstance.CreateResource | source/m2mtlvdeserializer.cpp:185-191 | Post appends one writable resource named by the record's identifier |
| TlvSerializer.SerializeId | source/m2mtlvserializer.cpp:252-262 | one or two bytes, big-endian |
| TlvSerializer.SerializeLength | source/m2mtlvserializer.cpp:264-281 | zero to three bytes, big-endian |
| TlvSerializer.SerializeTILV | source/m2mtlvserializer.cpp:212-250 | the new buffer holds the old bytes followed by exactly one record |
| TlvSerializer.Append | source/m2mtlvserializer.cpp:231-249 | the parts of a record are copied behind the old bytes, in order, into a fresh buffer of exactly the new size |
| TlvSerializer.SerializeValue | source/m2mtlvserializer.cpp:126-209 | the value goes out as its type demands: binary for INTEGER, BOOLEAN and TIME, raw otherwise |
| TlvSerializer.SerializeMultipleResource | source/m2mtlvserializer.cpp:143-172 | appends the encoding of a multiple resource with its nested instances |
| TlvSerializer.SerializeResource | source/m2mtlvserializer.cpp:115-141 | appends the encoding of a resource, a negative number for a name modulo 65536, unless the name is no number |
| TlvSerializer.SerializeResources | source/m2mtlvserializer.cpp:61-90 | the encoding of all resources in order; invalid exactly if some name is not a number |
| TlvSerializer.SerializeObjectInstance | source/m2mtlvserializer.cpp:92-113 | appends an object instance's record; one with an unnumbered resource appends nothing |
| TlvSerializer.SerializeObjectInstances | source/m2mtlvserializer.cpp:46-59 | the encoding of a whole object, in order |
| TlvPasses.DryRunInstances | source/m2mtlvdeserializer.cpp:215-327 | a dry run never changes a resource instance; under Post it can only append |
| TlvPasses.DryRunResources | source/m2mtlvdeserializer.cpp:143-213 | a dry run over resources writes no value at any level, and under Put leaves the list as it was |
| TlvPasses.DryRunObjectInstances | source/m2mtlvdeserializer.cpp:111-141 | the same through all levels of an object |
| TlvPasses.FailureIsAtomic | source/m2mtlvdeserializer.cpp:43-109 | if the first pass fails, each public call returns that error and no value has changed; under Put the tree is identical |
| TlvPasses.ErrorIsTheLastOutcome | source/m2mtlvdeserializer.cpp:195-213 | the error of a pass is the outcome of the record where it stops, whatever earlier records gave |
| TlvOutcomes.InstancesErrorIsTheLastOutcome | source/m2mtlvdeserializer.cpp:215-327 | the same for resource instances |
| TlvOutcomes.ObjectsErrorIsTheLastOutcome | source/m2mtlvdeserializer.cpp:111-141 | the same for object instances, where a record of another kind ends the pass without an error |
| TlvOutcomes.ResourcesCallOutcome | source/m2mtlvdeserializer.cpp:62-77 | the public call on a resource list returns exactly the dry-run outcome of the record where reading stops, and applies the whole payload if that is no error and nothing otherwise |
| TlvOutcomes.ObjectsCallOutcome | source/m2mtlvdeserializer.cpp:43-60 | the same for the public call on an object |
| TlvOutcomes.InstancesCallOutcome | source/m2mtlvdeserializer.cpp:79-109 | the same for the public call on the instances of one resource |
| TlvOutcomes.EarlierRefusalIsLost | source/m2mtlvdeserializer.cpp:207-213 | for any list and any further payload whose last record is accepted, a refused record in front is written and the rest applied on top |
| TlvPermissions.InstancePermissionDecides | source/m2mtlvdeserializer.cpp:227-305 | for any written instances and any receiver: the call reports NotFound if the receiver has no instance with the last id, NotAllowed if it has one that may not be written, and no error otherwise; unless there is none, nothing is written |
| TlvPermissions.LastInstanceDecides | source/m2mtlvdeserializer.cpp:227-305 | the same for one dry run, also inside a resource list |
| TlvPermissions.LastMultipleDecides | source/m2mtlvdeserializer.cpp:143-213 | for any written list that ends in a multiple resource: its last instance decides in that way for the whole call, at the last multiple resource of the receiver with its number; if there is none the call succeeds |
| TlvPermissions.PostCreatesResource | source/m2mtlvdeserializer.cpp:178-191 | a Post of a single resource the receiver does not have appends it, writable, with the value sent, after whatever resources there are |
| TlvPermissions.PostWritesKnownResource | source/m2mtlvdeserializer.cpp:158-176 | sent to the only resource of that number, a value is written if that may be, under Put and Post alike, and refused otherwise |
| TlvPermissions.PostOfUnknownInstance | source/m2mtlvdeserializer.cpp:246-260 | a Post of an instance the one addressed resource does not have is refused |
| TlvPermissions.PostCreatesInstance | source/m2mtlvdeserializer.cpp:306-325 | inside a resource list it is appended, writable, with the value sent |
| TlvPermissions.OtherPayloadIsNotValid | source/m2mtlvdeserializer.cpp:43-109 | each public call, under Put and Post: a payload that is empty or starts with a record of another kind is not valid and writes nothing |
| TlvPermissions.OtherRecordEndsObjects | source/m2mtlvdeserializer.cpp:111-141 | an object instance the receiver does not have, and whatever record of another kind comes behind it, is passed over without an error |
| TlvPermissions.TruncatedResourceOverruns | source/m2mtlvdeserializer.cpp:158-176 | a record that announces more bytes than there are, for a resource that may be written, is read past the end of the payload |
| TlvPermissions.TruncatedInstanceOverruns | source/m2mtlvdeserializer.cpp:230-245 | the same for a resource instance |
| TlvRoundTrip.OverrunWritesNothing | source/m2mtlvdeserializer.cpp:195-201 | a nested pass that runs on into the records of the enclosing list, or of the next object instance, writes nothing |
| TlvRoundTrip.RecordAtFront | source/m2mtlvserializer.cpp:212-250 | a written record with anything behind it is read as that record and that rest |
| TlvRoundTrip.InstancesRoundTrip | source/m2mtlvdeserializer.cpp:215-327 | reading written instances, with any enclosing records behind them, stores exactly the wire values |
| TlvRoundTrip.ResourcesRoundTrip | source/m2mtlvdeserializer.cpp:143-213 | the same for resource lists, from any position and with the next object instance behind them |
| TlvRoundTrip.ObjectsRoundTrip | source/m2mtlvdeserializer.cpp:111-141 | the same for object instances; the reader stays in bounds exactly if the last one written ends readably |
| TlvTheorems.ObjectTreeRoundTrip | source/m2mtlvdeserializer.cpp:43-60 | deserialise_object_instances of serialize_object_instances under Put: NotValid for nothing; else in bounds exactly when readable, and then every written value arrives and nothing else changes |
| TlvTheorems.ResourceListRoundTrip | source/m2mtlvdeserializer.cpp:62-77 | the same for resource lists mixing single and multiple resources in any order |
| TlvTheorems.ResourceInstancesRoundTrip | source/m2mtlvdeserializer.cpp:79-109 | the same for the instances of one multiple resource |
| TlvTheorems.PutMakesTreesEqual | source/m2mtlvdeserializer.cpp:43-60 | between trees that differ in values only the call makes them equal if and only if every value is of a type not sent in binary or already the binary zero |
| TlvTheorems.SentAsStoredExactlyWhen | source/m2mtlvserializer.cpp:193-209 | for every type and all bytes, a value goes out as it is stored if and only if its type is not sent in binary, or it is the byte 0 of a BOOLEAN or eight zero bytes of an INTEGER or TIME |
| TlvNames.NegativeNameIsNotFound | source/m2mtlvserializer.cpp:115-172 | a resource named by a negative number and sent alone, to a receiver without a resource of that number modulo 65536: NotFound for a single one, silence for a multiple one, and nothing written |
| TlvNames.NegativeNameTakesAnother | source/m2mtlvserializer.cpp:115-172 | to a receiver with such a resource, single or multiple, ready for it: the values are written into that other resource and the call reports success |
| TlvNames.NegativeNameIsForbidden | source/m2mtlvserializer.cpp:126-141 | to a receiver with such a resource that may not be written: NotAllowed and nothing written |
| TlvNames.UnnumberedIsNeverWritten | source/m2mtlvdeserializer.cpp:143-213 | no payload, under Put or Post, in either pass, changes a resource whose name is no number from 0 to 65535 |
| TlvNames.WrittenAsRenamed | source/m2mtlvserializer.cpp:126-172 | a numbered resource is written exactly as the one named by its number modulo 65536 |
| TlvNames.LastResourceDecides | source/m2mtlvdeserializer.cpp:195-213 | for any written list that ends in a single resource, whatever comes before it: the call reports what is said to that one alone, and unless that is no error nothing is written |
| TlvNames.NumberedResourceArrivesExactlyWhen | source/m2mbase.cpp:349-360 | a numbered single resource sent alone arrives if and only if its number is not negative |
| TlvNames.NameOnTheWire | source/m2mtlvserializer.cpp:126-172 | a resource named by a 16-bit number goes out under it, one named by a negative number from -65536 under the number 65536 above it, and the kind says whether it is multiple |
| TlvNames.LeftOutExactlyWhen | source/m2mtlvserializer.cpp:92-113 | an object instance is left out of what is written if and only if some resource of it has no number for a name |
| TlvTheorems.IntegerOnTheWire | source/m2mtlvserializer.cpp:193-209 | every integer stored as text goes out in eight bytes that denote it modulo 2^64, most significant first |
| TlvTheorems.BooleanOnTheWire | source/m2mtlvserializer.cpp:193-209 | a boolean stored as the text of any integer goes out as the one byte that integer is modulo 256 |
| TlvTheorems.NumbersDoNotTravel | source/m2mtlvserializer.cpp:193-209 | no number stored as text arrives as that text, and small ones read back as 0 |
| ReportHandler.M2MReportHandler.constructor | source/m2mreporthandler.cpp:31-55 | the initial state |
| ReportHandler.M2MReportHandler.SetUnderObservation | source/m2mreporthandler.cpp:63-76 | timers are stopped, then restarted or everything is reset |
| ReportHandler.M2MReportHandler.SetValue | source/m2mreporthandler.cpp:78-102 | a changed value is scheduled or held back by the thresholds, and moves the step bounds |
| ReportHandler.M2MReportHandler.SetNotificationTrigger | source/m2mreporthandler.cpp:104-124 | the id is pending once, and a report is scheduled |
| ReportHandler.M2MReportHandler.ParseNotificationAttribute | source/m2mreporthandler.cpp:126-196 | accepted exactly if every option is and the settings are consistent; what a refused query leaves is that of its branch |
| ReportHandler.M2MReportHandler.SetAllOrRestore | source/m2mreporthandler.cpp:134-188 | all of at most five options of 19 characters are set, or the settings are put back, pmin and pmax as the floats they were saved in |
| ReportRuns.SettingsAreRestoredExactlyWhen | source/m2mreporthandler.cpp:135-188 | a refused query of several options leaves the settings as they were if and only if pmin and pmax are floats; up to 2^24 they are |
| ReportFloats.NearestIsNearest | source/m2mreporthandler.cpp:135-139 | the float a period is saved in is as near to it as any number with a significand of 24 bits |
| ReportFloats.NearestIsFloat | source/m2mreporthandler.cpp:135-139 | it is such a number itself |
| ReportFloats.NearestSignificand | source/m2mreporthandler.cpp:135-139 | it is off by at most half the spacing of the floats there, and by exactly half only if its significand is even |
| ReportQueries.OneOption | source/m2mreporthandler.cpp:225-292 | the bytes pmin=, pmax=, gt=, lt=, st= or stp= and a value set exactly that attribute to exactly that value and change nothing else but the bounds of a step; where it can be set it is accepted if and only if the settings are consistent then, where it cannot it is refused |
| ReportQueries.SeveralOptions | source/m2mreporthandler.cpp:134-188 | two or more options of up to 19 bytes, joined by ampersands: the first five take effect one after the other and are accepted if and only if the result is consistent; if one of them cannot be set here the settings are put back |
| ReportQueries.AnotherOptionIsRefused | source/m2mreporthandler.cpp:236-290 | an option of any other name, or without a value, is refused and sets nothing |
| ReportQueries.OptionsOfJoined | source/m2mreporthandler.cpp:141-166 | texts joined by ampersands are taken apart into the same texts, each cut to 19 bytes, as many as are asked for |
| ReportQueries.ConsistentMeansValid | source/m2mreporthandler.cpp:363-376 | settings are valid if and only if pmin does not exceed a pmax of at least -1 and between lt and gt there is room for more than two steps |
| ReportHandler.M2MReportHandler.SplitQuery | source/m2mreporthandler.cpp:145-164 | the options between the ampersands, cut to the buffer |
| ReportHandler.M2MReportHandler.SetNotificationAttribute | source/m2mreporthandler.cpp:225-292 | one option: its name and value, and the check against non-numeric resources |
| ReportHandler.M2MReportHandler.TimerExpiredPmin | source/m2mreporthandler.cpp:201-210 | the effect of PMinTimer |
| ReportHandler.M2MReportHandler.TimerExpiredPmax | source/m2mreporthandler.cpp:211-219 | the effect of PMaxTimer |
| ReportHandler.M2MReportHandler.ScheduleReport | source/m2mreporthandler.cpp:294-302 | report now unless the minimum period still runs |
| ReportHandler.M2MReportHandler.Report | source/m2mreporthandler.cpp:304-334 | which notification is sent, what is cleared, which timers restart |
| ReportHandler.M2MReportHandler.HandleTimers | source/m2mreporthandler.cpp:336-361 | both timers, in milliseconds modulo 2^64 |
| ReportHandler.M2MReportHandler.CheckAttributeValidity | source/m2mreporthandler.cpp:363-376 | true exactly for consistent settings |
| ReportHandler.M2MReportHandler.CheckThresholdValues | source/m2mreporthandler.cpp:408-481 | true exactly if the thresholds let the value through |
| ReportHandler.M2MReportHandler.HandleObservationAttribute | source/m2mbase.cpp:442-461 | an accepted query is applied and a running observation restarted; a rejected one restores the defaults |
| ReportRuns.QueryLeavesValidSettings | source/m2mreporthandler.cpp:363-376 | after any query of any number of options the settings are consistent; a rejected one ends in the defaults |
| ReportRuns.SettingsStayValid | source/m2mbase.cpp:442-461 | in every reachable state pmax set with pmax >= -1 implies pmin <= pmax, and gt set implies lt + 2 st < gt |
| ReportRuns.NotificationsAreNumbered | source/m2mreporthandler.cpp:316-317 | the k-th notification of any run carries k modulo 65536 |
| ReportRuns.NoLostIds | source/m2mreporthandler.cpp:104-124 | in runs without set_value the pending ids are duplicate-free and exactly those triggered since the last notification or reset, each notification carries exactly the pending ones, and one sent for pmax carries none |
| ReportRuns.ValueCanHideTrigger | source/m2mreporthandler.cpp:78-102 | with set_value the guarantee fails: a pending trigger stays unsent when its period ends |
| ReportRuns.PendingIsSentExactlyWhen | source/m2mreporthandler.cpp:78-102 | in any state with the minimum period running, whether the period's end reports the pending ids after a value, as an if and only if, pmax notifications included, and which kind of notification it is |
| ReportRuns.StepKeepsPeriod | source/m2mreporthandler.cpp:294-361 | each step sends only when the minimum period is over, and restarts it |
| ReportOutcomes.ValueIsReportedExactlyWhen | source/m2mreporthandler.cpp:78-102 | unless the minimum period runs, a value is reported if and only if it differs from the last one and no threshold is set, or it is above gt, below lt, or at or beyond a bound of the step; nothing else is sent |
| ReportOutcomes.SecondValueIsReportedExactlyWhen | source/m2mreporthandler.cpp:408-466 | of two values written in a row the second is reported if and only if it differs from the first and no threshold is set, or it is above gt, below lt, or at least st away from the first |
| ReportOutcomes.MinimumPeriodIsReportedExactlyWhen | source/m2mreporthandler.cpp:198-210 | in any state, the end of the minimum period sends exactly one notification, with the pending ids, if and only if a change is due, or the maximum period was exceeded and something is left to notify |
| ReportOutcomes.MaximumPeriodIsReportedExactlyWhen | source/m2mreporthandler.cpp:211-219 | in any state, the end of the maximum period sends exactly one notification if and only if the minimum period is over or not set |
| ReportOutcomes.NotificationStartsPeriod | source/m2mreporthandler.cpp:304-361 | whatever event sends a notification, and whenever an observation starts, the maximum period's timer is due pmax seconds and the minimum period's pmin seconds later |
| ReportOutcomes.ReportEffect | source/m2mreporthandler.cpp:304-361 | the whole state after a report, in numbers: what was sent, what is still due, and when the timers end |
| ReportOutcomes.ObservationEffect | source/m2mreporthandler.cpp:63-76 | the whole state after observation is switched on or off: off forgets attributes, pending ids and last value and stops the timers |
| ReportOutcomes.QueryEffect | source/m2mbase.cpp:442-462 | a refused query forgets the same but leaves the timers running; an accepted one restarts an observation that is on |
| ReportOutcomes.HeldBackEffect | source/m2mreporthandler.cpp:78-102 | a value that is held back ends the minimum period, stops its timer and cancels a report that was due |
| ReportRuns.NotificationsAreSpaced | source/m2mreporthandler.cpp:294-361 | along any run with fixed attributes, Pmin set and pmin different from pmax, and no value held back by thresholds, consecutive notifications of whatever cause are at least 1000 * pmin milliseconds apart |
| ReportRuns.ExpiryBetweenNotifications | source/m2mreporthandler.cpp:198-223 | a PMinTimer expiry occurs between every two consecutive notifications |
| ReportRuns.NoExpiryNoNotification | source/m2mreporthandler.cpp:294-302 | without that expiry nothing is sent |
| ReportRuns.ObservationStartsPeriod | source/m2mreporthandler.cpp:63-76 | wherever an observation starts in a run, the spacing theorem applies from there |
| ReportRuns.UnspacedTriggersAreImmediate | source/m2mreporthandler.cpp:340-351 | without Pmin, or with pmin equal to pmax, two triggers are two notifications at one moment |
| ReportRuns.TriggerAfterValueIsImmediateExactlyWhen | source/m2mreporthandler.cpp:84-98 | with a minimum period, in any state, a trigger after a value is reported at once if and only if the thresholds held the changed value back, or the value was unchanged and the period over already |
| ReportRuns.HeldBackValueEndsPeriod | source/m2mreporthandler.cpp:91-97 | with thresholds, values held back between triggers defeat the spacing |
| ClientSemantics.Call | source/m2minterfaceimpl.cpp:271-285 | a library call with whatever it calls back keeps the reconnection invariant and a settled state |
| ClientSemantics.Run | source/m2minterfaceimpl.cpp:381-539 | any sequence of events keeps the reconnection invariant and a settled state |
| ClientSemantics.Go | source/m2minterfaceimpl.cpp:955-981 | entering any state ends in a settled state, never one of the seven transient ones; Registered clears the counters and changes nothing else, every other state keeps the reconnection invariant |
| ClientSemantics.EnterBootstrap | source/m2minterfaceimpl.cpp:547-615 | keeps the invariants through address resolution or its failure |
| ClientSemantics.EnterBootstrapAddressResolved | source/m2minterfaceimpl.cpp:617-676 | keeps the invariants |
| ClientSemantics.EnterRegister | source/m2minterfaceimpl.cpp:692-760 | keeps the invariants through either branch |
| ClientSemantics.EnterRegisterAddressResolved | source/m2minterfaceimpl.cpp:782-819 | keeps the invariants |
| ClientSemantics.EnterUpdateRegistration | source/m2minterfaceimpl.cpp:829-853 | keeps the invariants, the fall-back to a full registration included |
| ClientSemantics.EnterUnregister | source/m2minterfaceimpl.cpp:855-864 | keeps the invariants |
| ClientSemantics.EnterCoapDataReceived | source/m2minterfaceimpl.cpp:884-916 | keeps the invariants |
| ClientSemantics.Attempt | source/m2minterfaceimpl.cpp:112-136 | keeps the invariants; without a transition the request is reported as not allowed and nothing else changes |
| ClientSemantics.Update | source/m2minterfaceimpl.cpp:1053-1089 | keeps the invariants |
| ClientSemantics.SendMessage | source/m2minterfaceimpl.cpp:271-286 | keeps the invariants |
| ClientSemantics.HandleSocketError | source/m2minterfaceimpl.cpp:393-472 | keeps the invariants: the count stays that of the attempt, within the maximum |
| ClientSemantics.HandleRegistrationError | source/m2minterfaceimpl.cpp:308-319 | keeps the invariants |
| ClientSemantics.HandleBootstrapError | source/m2minterfaceimpl.cpp:354-364 | keeps the invariants |
| ClientSemantics.HandleBootstrapDone | source/m2minterfaceimpl.cpp:329-343 | ends every reconnection: bootstrapped, counters clear, the application told last, invariants kept |
| ClientSemantics.HandleRegistered | source/m2minterfaceimpl.cpp:288-306 | the server's answer ends every reconnection: registered, counters clear, invariants kept |
| ClientSemantics.Retry | source/m2minterfaceimpl.cpp:448-455 | arming the timer for the right count re-establishes the invariants |
| ClientSemantics.Fail | source/m2minterfaceimpl.cpp:462-471 | a named failure leaves the client idle with its counters clear and re-establishes the invariants from any counters; an unnamed one changes nothing |
| ClientSemantics.RetryOrFail | source/m2minterfaceimpl.cpp:430-471 | keeps the invariants at the wrap-around and at the last attempt |
| ClientSemantics.RegisterNow | source/m2minterfaceimpl.cpp:804-811 | keeps the invariants |
| ClientSemantics.RegisterFirst | source/m2minterfaceimpl.cpp:696-743 | keeps the invariants |
| ClientSemantics.HandleDataSent | source/m2minterfaceimpl.cpp:491-514 | keeps the invariants |
| ClientSemantics.Handle | source/m2minterfaceimpl.cpp:101-539 | every API call, library callback, socket callback and timer, at any moment and any depth, keeps the invariants |
| ClientSemantics.NextCount | source/m2minterfaceimpl.cpp:431-449 | counting up to the maximum and starting over is counting modulo the maximum |
| ClientRuns.EveryRunIsSound | source/m2minterfaceimpl.cpp:393-472 | after any events, however nested, the state is settled, reconnecting holds exactly if the retry count is positive, reconnecting implies a reconnection state, and the count is at most the maximum |
| ClientRuns.RetriesBackOff | source/m2minterfaceimpl.cpp:452-456 | at every moment of every run, the n-th failure in a row arms the timer with interval * N * ((n-1) mod N + 1) * 1000 ms; without the loop n is at most N |
| ClientRuns.SocketErrorOutcome | source/m2minterfaceimpl.cpp:393-472 | the timer is armed once if the failure is retried and never otherwise; the application hears of it exactly once, under the code of the network, the security or the name lookup, if it is neither retried nor ignored and has one, and of a retried one exactly when the count starts over; and the counters, state and reconnection afterwards, for every code |
| ClientEvents.SocketErrorEffect | source/m2minterfaceimpl.cpp:393-472 | the whole new state and every output for every code, in any state: the retry timer's delay in numbers, or listening and the timer stopped, the error told and the protocol's timers stopped |
| ClientEvents.RefusalIsFailure | source/m2minterfaceimpl.cpp:308-319 | a refusal that is not final, and a registration that takes too long, is a failure to send after which a full registration is due |
| ClientEvents.FinalRefusalEffect | source/m2minterfaceimpl.cpp:308-319 | a final refusal is told to the application under its own code, and changes nothing but the state |
| ClientEvents.BootstrapFailureIsFailure | source/m2minterfaceimpl.cpp:354-364 | a bootstrap that fails or takes too long is a failure to receive of a client that is not bootstrapped |
| ClientEvents.SuccessIsAnnounced | source/m2minterfaceimpl.cpp:288-343 | a registration, an update, an unregistration and a bootstrap are each announced as what they are, as the last output, with the whole state they leave |
| ClientEvents.DataSentEffect | source/m2minterfaceimpl.cpp:491-514 | the whole effect of a message that has gone out: the sleep timer of queue mode, the end of a bootstrap, or waiting |
| ClientEvents.FailedCallIsReported | source/m2minterfaceimpl.cpp:271-916 | what the application hears, in numbers, when an unregistration or a message cannot be sent or what was received cannot be parsed, when the call delivers nothing |
| ClientEvents.LifetimeIsCheckedExactlyWhen | source/m2minterfaceimpl.cpp:1053-1061 | while reconnecting, a lifetime is reported as invalid if and only if it is from 1 to 59 seconds |
| ClientEvents.NewClientRegisters | source/m2minterfaceimpl.cpp:35-90 | a new client counts as bootstrapped, so that a retry registers |
| ClientEvents.FlowTimerIsRestarted | source/m2minterfaceimpl.cpp:578-583 | with a TCP binding each lookup restarts the timer of the flow for eight times the delay of a first retry; without one it does not run |
| ClientEvents.RequestLooksUpAgain | source/m2minterfaceimpl.cpp:547-760 | a request of a client that has a security object looks its server up with that one, whatever the request brings, the objects taken over before |
| ClientEvents.RequestIsRefused | source/m2minterfaceimpl.cpp:101-189 | a request without a security object, or in a state that does not allow it, is reported as what is wrong and changes nothing else |
| ClientRuns.RetryLooksUpAgain | source/m2minterfaceimpl.cpp:525-532 | with a security object the retry timer leads to the address lookup of the right server and to nothing else but what the lookup delivers |
| ClientStuck.GetsStuckExactlyWhen | source/m2minterfaceimpl.cpp:101-539 | for every state and every event, when the calls deliver nothing: the event leaves the client at rest, reconnecting, with the retry timer spent, if and only if a condition on the event, the state before and the library's answers holds |
| ClientStuck.AnswerLeavesReconnectingExactlyWhen | source/m2minterfaceimpl.cpp:288-319 | the server's answer to an attempt leaves the client reconnecting with no new retry if and only if it is an error that is not to be retried |
| ClientStuck.RefusalGetsStuck | source/m2minterfaceimpl.cpp:308-319 | the whole way there for a client with a security object: failure, timer, lookup, address, refusal |
| ClientStuck.StuckStays | source/m2minterfaceimpl.cpp:1053-1061 | from a stuck state, through any run of updates, messages, unregistrations, sleep timers and requests without a security object, and retry timers that find none, the client stays stuck, calls no library and starts no retry timer; valid updates and messages change nothing at all |
| ClientStuck.FailureAfterBootstrapGetsStuck | source/m2minterfaceimpl.cpp:505-510 | in any state, a bootstrap that ends with the last message, then a retried failure and the retry timer lead there |
| ClientStuck.FailureBeforeRequestsGetsStuck | source/m2minterfaceimpl.cpp:393-472 | a failure before any request and the retry timer lead there |
| ClientStuck.FlowTimerRetries | source/m2minterfaceimpl.cpp:535-537 | a stuck client starts another retry when the timer of the flow expires, as long as attempts are left |
| ClientRuns.AddressReadyOutcome | source/m2minterfaceimpl.cpp:782-853 | what is sent once the address is known, for any answers and whatever the calls deliver: an update when reconnecting, a full registration if that fails or otherwise, and giving up |
| ClientRuns.ReconnectionCompletes | source/m2minterfaceimpl.cpp:393-853 | failure, retry timer, lookup, update or registration, answer: when the calls themselves deliver nothing, the client ends registered with its counters cleared |
| ClientRuns.LookupMayCallBack | source/m2minterfaceimpl.cpp:745-759 | events delivered during the lookup have the same effect as after it |
| ClientRuns.BootstrapEndsWithTheLastMessage | source/m2minterfaceimpl.cpp:345-513 | the application hears of the end of the bootstrap only when the last message has been sent, and the bootstrap's security object is given up |
| ClientRuns.FirstRegistrationOutcome | source/m2minterfaceimpl.cpp:692-743 | the whole new state, whatever the calls deliver: the server is looked up if and only if the security object is an LwM2M server's with an address and the object list was taken over |
| ClientRuns.ShortLifetimeIsSent | source/m2minterfaceimpl.cpp:1053-1058 | a lifetime below the minimum is reported and sent all the same, with or without new objects, whatever the library answers and delivers |
| ClientRuns.UpdateIsSentExactlyWhen | source/m2minterfaceimpl.cpp:1053-1089 | in every state, for every lifetime and all answers, when the calls deliver nothing: the request adds a call to send an update with its lifetime if and only if the client is registered or waiting and not reconnecting; from Idle it looks the server up instead |
| ClientRuns.LifetimeIsSentExactlyWhen | source/m2minterfaceimpl.cpp:812-815 | over the request and the address that follows, when the calls deliver nothing: a lifetime is sent if and only if the client was registered or waiting and not reconnecting; from Idle an update without it is sent |
| ClientRuns.UpdatesWaitForReconnection | source/m2minterfaceimpl.cpp:1058-1061 | while reconnecting an update request does nothing but report a bad lifetime |
| ClientInterface.M2MInterfaceImpl.constructor | source/m2minterfaceimpl.cpp:35-90 | the initial state |
| ClientInterface.M2MInterfaceImpl.InternalEvent | source/m2minterfaceimpl.cpp:955-963 | the event flag, event data and engine together have the effect of calling the state function, and leave flag and data clear |
| ClientInterface.M2MInterfaceImpl.StateEngine | source/m2minterfaceimpl.cpp:966-981 | the loop body runs exactly once, however events nest |
| ClientInterface.M2MInterfaceImpl.StateFunction | source/m2minterfaceimpl.cpp:983-1051 | the dispatch |
| ClientInterface.M2MInterfaceImpl.ExternalEvent | source/m2minterfaceimpl.cpp:937-951 | ignored exactly if the transition map says so, and then nothing changes |
| ClientInterface.M2MInterfaceImpl.TryTransition | source/m2minterfaceimpl.cpp:112-136 | a request with its refusal |
| ClientInterface.M2MInterfaceImpl.StateBootstrap | source/m2minterfaceimpl.cpp:547-615 | state_bootstrap |
| ClientInterface.M2MInterfaceImpl.StateBootstrapAddressResolved | source/m2minterfaceimpl.cpp:617-676 | state_bootstrap_address_resolved |
| ClientInterface.M2MInterfaceImpl.StateRegister | source/m2minterfaceimpl.cpp:692-760 | state_register |
| ClientInterface.M2MInterfaceImpl.StateRegisterAddressResolved | source/m2minterfaceimpl.cpp:782-819 | state_register_address_resolved |
| ClientInterface.M2MInterfaceImpl.StateRegistered | source/m2minterfaceimpl.cpp:821-827 | state_registered |
| ClientInterface.M2MInterfaceImpl.StateUpdateRegistration | source/m2minterfaceimpl.cpp:829-853 | state_update_registration |
| ClientInterface.M2MInterfaceImpl.StateUnregister | source/m2minterfaceimpl.cpp:855-864 | state_unregister |
| ClientInterface.M2MInterfaceImpl.StateCoapDataReceived | source/m2minterfaceimpl.cpp:884-916 | state_coap_data_received |
| ClientInterface.M2MInterfaceImpl.BootstrapWith | source/m2minterfaceimpl.cpp:101-141 | bootstrap |
| ClientInterface.M2MInterfaceImpl.RegisterObject | source/m2minterfaceimpl.cpp:150-189 | register_object |
| ClientInterface.M2MInterfaceImpl.StartRegisterUpdate | source/m2minterfaceimpl.cpp:1053-1089 | update_registration |
| ClientInterface.M2MInterfaceImpl.CoapMessageReady | source/m2minterfaceimpl.cpp:271-286 | coap_message_ready |
| ClientInterface.M2MInterfaceImpl.OnClientRegistered | source/m2minterfaceimpl.cpp:288-299 | client_registered |
| ClientInterface.M2MInterfaceImpl.OnRegistrationUpdated | source/m2minterfaceimpl.cpp:301-306 | registration_updated |
| ClientInterface.M2MInterfaceImpl.OnRegistrationError | source/m2minterfaceimpl.cpp:308-319 | registration_error |
| ClientInterface.M2MInterfaceImpl.OnClientUnregistered | source/m2minterfaceimpl.cpp:321-327 | client_unregistered |
| ClientInterface.M2MInterfaceImpl.OnBootstrapDone | source/m2minterfaceimpl.cpp:329-343 | bootstrap_done |
| ClientInterface.M2MInterfaceImpl.OnBootstrapError | source/m2minterfaceimpl.cpp:354-364 | bootstrap_error |
| ClientInterface.M2MInterfaceImpl.OnSocketError | source/m2minterfaceimpl.cpp:393-472 | socket_error |
| ClientInterface.M2MInterfaceImpl.OnAddressReady | source/m2minterfaceimpl.cpp:474-489 | address_ready |
| ClientInterface.M2MInterfaceImpl.OnDataSent | source/m2minterfaceimpl.cpp:491-514 | data_sent |
| ClientInterface.M2MInterfaceImpl.OnRetryTimer | source/m2minterfaceimpl.cpp:525-532 | timer_expired for the retry timer |
| ClientInterface.M2MInterfaceImpl.HandleEvent | source/m2minterfaceimpl.cpp:101-539 | every event on the object equals its specification and leaves the event flag, data and ignored flag clear |
| CText.DecimalRoundTrip | source/m2mresourcebase.cpp:321-331 | decimal text is read back as its number, whatever non-digit follows |
| CText.TextFitsBuffer | source/m2mresourcebase.cpp:160-170 | every 64-bit integer prints in at most 20 characters |
| CText.NumberInText | source/m2mresourcebase.cpp:321-331 | a number in text is read behind spaces, with either sign or none, up to the first byte that is no digit |
| IntegerText.Reverse | source/m2mstring.cpp:347-357 | the first bytes are reversed in place, the others stay |
| IntegerText.WriteDigits | source/m2mstring.cpp:367-370 | the digit loop leaves the digits backwards |
| IntegerText.ItoaC | source/m2mstring.cpp:359-381 | the canonical decimal text, its length and a NUL; nothing behind it is touched |
| IntegerText.PrintingIsInvertible | source/m2mstring.cpp:359-381 | the text fits 20 characters and reads back as the number if and only if it is not the smallest int64 |
| IntegerText.SetIntegerValue | source/m2mresourcebase.cpp:160-170 | set_value of an integer, then get_value_int: the value set, unless it is the smallest |
| IntegerArrays.SizeIsNearlyMinimal | source/m2mstring.cpp:391-407 | the size suffices, and is one byte more than needed exactly for numbers of one to seven 0xFF bytes |
| IntegerArrays.NegativeIsCutToOneByte | source/m2mstring.cpp:391-407 | of a negative number only the last byte is stored |
| IntegerArrays.ConvertIntegerToArray | source/m2mstring.cpp:383-418 | the big-endian two's complement bytes of the value, or of the array given |
| IntegerArrays.ConvertArrayToInteger | source/m2mstring.cpp:420-427 | the signed 64-bit number of up to eight big-endian bytes |
| IntegerArrays.IntegerArrayRoundTrip | source/m2mstring.cpp:383-427 | writing and reading returns the value if and only if it is not negative |
| IntegerArrays.SecurityNumberRoundTrip | source/m2msecurity.cpp:184-203 | any uint32_t stored in a security object is read back unchanged |
| StringBuffer.String.constructor | source/m2mstring.cpp:38-41 | an empty text |
| StringBuffer.String.FromText | source/m2mstring.cpp:59-62 | a copy of a C string |
| StringBuffer.String.FromBytes | source/m2mstring.cpp:64-72 | a copy of n bytes |
| StringBuffer.String.Copy | source/m2mstring.cpp:49-57 | a copy in a buffer of its own |
| StringBuffer.String.NewRealloc | source/m2mstring.cpp:302-308 | a moved buffer keeps the bytes that fit |
| StringBuffer.String.Reserve | source/m2mstring.cpp:310-315 | room for n characters and a NUL; the text stays |
| StringBuffer.String.PushBack | source/m2mstring.cpp:129-140 | the text with one byte more; the buffer moves only when full, and then at least doubles |
| StringBuffer.String.AppendString | source/m2mstring.cpp:94-102 | the text followed by the other's, also for a string appended to itself |
| StringBuffer.String.AppendText | source/m2mstring.cpp:105-121 | the text followed by a C string, also one inside its own buffer |
| StringBuffer.String.AppendRaw | source/m2mstring.cpp:236-245 | the text followed by n bytes, NULs included |
| StringBuffer.String.Append | source/m2mstring.cpp:222-234 | the text followed by at most n characters of a C string |
| StringBuffer.String.AppendInt | source/m2mstring.cpp:247-254 | the text followed by a number's decimal text |
| StringBuffer.String.Swap | source/m2mstring.cpp:335-339 | the two texts change places |
| StringBuffer.String.Clear | source/m2mstring.cpp:160-164 | empty, in the same buffer |
| StringBuffer.String.Resize | source/m2mstring.cpp:321-333 | truncation, or filling up with one character |
| StringBuffer.String.Erase | source/m2mstring.cpp:198-220 | exactly the given range is deleted |
| StringBuffer.String.Substr | source/m2mstring.cpp:166-186 | a new string holding the given range, as far as it exists |
| StringBuffer.String.Assign | source/m2mstring.cpp:74-87 | the text becomes a C string, also one inside its own buffer |
| Registration.RefreshMargin | source/m2mnsdlinterface.cpp:938-952 | for lifetimes below 2^31 the refresh comes min(900, ceil(lifetime/4)) seconds early, and not before three quarters |
| Registration.RefreshedBeforeExpiryExactlyWhen | source/m2mnsdlinterface.cpp:938-952 | refresh precedes expiry if and only if the lifetime is from 1 to 2^31 - 1 |
| Registration.RefreshIsMonotone | source/m2mnsdlinterface.cpp:945-949 | a longer lifetime is never refreshed sooner, also across 3600 seconds |
| Registration.LifetimeComesBack | source/m2mnsdlinterface.cpp:155-169 | the printed lifetime reads back as itself below 2^31 and as a huge number from there on |
| Registration.M2MNsdlInterface.constructor | source/m2mnsdlinterface.cpp:121-153 | only a positive lifetime is kept |
| Registration.M2MNsdlInterface.SetEndpointLifetimeBuffer | source/m2mnsdlinterface.cpp:155-169 | the endpoint holds the lifetime's text |
| Registration.M2MNsdlInterface.RegistrationTime | source/m2mnsdlinterface.cpp:938-952 | the refresh time of the stored text |
| Registration.M2MNsdlInterface.SendUpdateRegistration | source/m2mnsdlinterface.cpp:256-289 | 0 keeps lifetime and timer; any other lifetime is stored and arms the timer with its refresh time |
| PathLookup.FindObject | source/m2mnsdlinterface.cpp:954-994 | the first hit of the whole tree in depth-first order |
| PathLookup.FindObjectInstance | source/m2mnsdlinterface.cpp:996-1038 | the first hit below an object |
| PathLookup.FindResource | source/m2mnsdlinterface.cpp:1040-1083 | the first hit below an object instance |
| PathLookup.FindResourceInstance | source/m2mnsdlinterface.cpp:1085-1109 | the first instance of a multiple resource with the path |
| PathLookup.PathSearchIsExact | source/m2mnsdlinterface.cpp:954-1109 | a node is returned if and only if some node of the tree has the path, and the node returned has it |
| PathLookup.TokenSearchIsExact | source/m2mnsdlinterface.cpp:975-1080 | by token: if and only if some object, object instance or resource is observed under it |
| PathLookup.EmptyTokenSearchIsExact | source/m2mnsdlinterface.cpp:954-1083 | by a token without a length: if and only if an object has the path, or an object instance or resource the empty token |
| PathLookup.SearchIsDepthFirst | source/m2mnsdlinterface.cpp:954-1109 | the order in which a hit is the first: a node before what is below it, and that before the next node of the same level |
| PathLookup.FirstHitIsUnique | source/m2mnsdlinterface.cpp:954-1109 | the contract of the searches determines their result |
| PathLookup.OwnPathFindsNode | source/m2mnsdlinterface.cpp:591-612 | with distinct paths, looking up a node's own path finds that node |
| CallbackStorage.Vector.PushBack | mbed-client/m2mvector.h:102-108 | one entry more |
| CallbackStorage.Vector.Reserve | mbed-client/m2mvector.h:68-81 | a moved array keeps its entries |
| CallbackStorage.Vector.Erase | mbed-client/m2mvector.h:141-148 | the entry is gone and the order kept |
| CallbackStorage.M2MCallbackStorage.DoAddCallback | source/m2mcallbackstorage.cpp:67-80 | adds unless the very association is there, and says which |
| CallbackStorage.M2MCallbackStorage.DoRemoveCallback | source/m2mcallbackstorage.cpp:117-129 | removes and returns the first callback with the key |
| CallbackStorage.M2MCallbackStorage.DoRemoveCallbacks | source/m2mcallbackstorage.cpp:92-102 | erasing while scanning leaves exactly the other objects' entries, in order |
| CallbackStorage.M2MCallbackStorage.DoGetCallback | source/m2mcallbackstorage.cpp:142-157 | the first callback with the key, or null |
| CallbackStorage.M2MCallbackStorage.DoesCallbackExist | source/m2mcallbackstorage.cpp:159-166 | a stored null pointer reads as absent |
| CallbackStorage.M2MCallbackStorage.IsStored | source/m2mcallbackstorage.cpp:168-185 | whether the very association is there |
| CallbackStorage.M2MCallbackStorage.SetFunction | source/m2mbase.cpp:636-652 | with unique keys a setter always succeeds and replaces the callback |
| CallbackStorage.SetUpdatesMap | source/m2mbase.cpp:636-652 | a setter updates the map at its key and keeps keys unique |
| CallbackStorage.RemoveDropsKey | source/m2mcallbackstorage.cpp:117-129 | removal deletes exactly the key |
| CallbackStorage.WithoutDropsOwner | source/m2mcallbackstorage.cpp:92-102 | removing an object's callbacks deletes exactly its keys |
| CallbackStorage.GetReadsMap | source/m2mcallbackstorage.cpp:142-157 | reading the list reads the map |
| CallbackStorage.ListIsMap | source/m2mcallbackstorage.cpp:67-157 | after any run of setters and removals the list has unique keys and stands for the map of last values set |
| CallbackStorage.FirstIsReadAndRemoved | source/m2mcallbackstorage.cpp:117-157 | in any list, with whatever duplicates, exactly the first entry with the key is read and removed |
| CallbackStorage.WithoutFilters | source/m2mcallbackstorage.cpp:92-102 | in any list removing an object's callbacks goes part by part, so that the others stay in order |
| CallbackStorage.AddStoresOnce | source/m2mcallbackstorage.cpp:67-80 | adding keeps the entries and their places, and never stores one twice |
| CallbackStorage.AddIsReadExactlyWhen | source/m2mcallbackstorage.cpp:67-80 | for any list, a callback that is added is the one read afterwards if and only if the key was not there or read as it already; otherwise reading is unchanged |

## Left out

- Sockets, TLS, address resolution, the nsdl/CoAP library, message building: calls into them are tape entries with an arbitrary answer and arbitrary events delivered meanwhile.
- Timers: starting a timer replaces its deadline, and it expires once; in the client, timer events may come at any time, which is more than the timers allow.
- Memory: allocation succeeds and freeing is not modelled; pointers that may be null are optional values.
- Timer intervals are unbounded numbers: the products of reconnection interval and count, of type int in the code, do not overflow.
- Sizes and offsets are unbounded numbers: a TLV payload or a string of 2^32 bytes or more does not wrap around.
- Reading out of bounds: the specification of a pass says whether it stays inside the payload (`safe`); the methods require it, because the code checks no bounds.
- A null payload is the empty sequence.
- Float attributes are real numbers, and atof is an arbitrary function; rounding is not modelled.
- atoi, atol and atoll on text that does not fit their type give the mathematical number, reduced where it is stored.
- The overflow of the 20-byte option buffers by a single long option without an ampersand.
- Notifications and server messages that setting a resource value causes; the tree's values alone are modelled.
- TlvTheorems.ObjectTreeRoundTrip: trees with resources named by negative numbers are not covered, nor by the other round trips; `TlvNames` says what such resources do.
- Names of resources: only the number name_id returns for a name, or that it returns none.
- Restoring a saved pmin or pmax of 2^31 - 64 or more: its float is 2^31, whose conversion back to int32_t is undefined; here it is 2^31.
- Post during parsing: its creations are modelled, the dry run is shown to do nothing else, and `TlvPermissions` says what a Post of one record creates and writes; the round trips of whole trees are for Put, since Post changes the tree in the first pass.
- ReportHandler.M2MReportHandler.ParseNotificationAttribute: the attribute fields of the scheduler are one field holding a record, because they are saved and restored together.
- ClientSemantics.EnterRegister: an update request from Idle hands its event data to state_register, which casts it to another class; the security object coincides in the two layouts and the object list does not, so the list is not modelled there.
- ClientSemantics.RegisterFirst: the address of the security object is read before the object list is created; a callback that takes the security object away in between is not modelled.
- Parsing of the server URI: a security object says whether its URI names an address.
- Erase of a range beyond the end and AppendRaw from a string's own moving buffer: the code reads or writes outside its memory, so callers must not.
- compare, find_last_of, at and the comparison operators of String: read-only loops.
- The enum-to-name tables of M2MDevice, M2MFirmware, M2MServer and M2MSecurity, the CoAP request handlers, mutexes and tracing.
