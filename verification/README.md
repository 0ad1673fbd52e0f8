# Swarmada in Dafny: the harness, the reference adapter and the report pipeline

Swarmada drives robot fleets through adapters. A conformance harness plays the control plane for one
adapter, a reference adapter shows the fencing and lease protocol, a profile layer grades what the
harness recorded, and a simulated plant stands in for a robot. This project models the parts of that
code whose correctness is not visible from one function, and proves what they promise.

`dafny verify dfyconfig.toml` checks the whole project.

| file | what it models |
|---|---|
| `StreamCustody.dfy` | several stream handlers draining one outbound queue: admission, liveness re-check, give-back |
| `DriverInbox.dfy` | the driver's waits over a pushback list in front of an inbox |
| `LeaseProtocol.dfy` | the reference adapter: fencing marks, re-delivery, leases as timers that may fire after being cancelled |
| `MotionWitness.dfy` | grading an early STOPPED against a record of the robot's speed |
| `Base64.dfy`, `Json.dfy`, `JsonText.dfy`, `ActionPayload.dfy` | the two spellings of an action payload, over bytes, with a JSON reader and the texts of the JSON grammar |
| `Kinematics.dfy` | the simulated plant: stopping and driving for any sequence of tick lengths |
| `SkipCauses.dfy`, `Reports.dfy`, `Grading.dfy` | skip causes in two vocabularies, recorded rows, levels, sheet and verdict |
| `GateReachability.dfy`, `GateRegister.dfy` | which gates something invokes, and the register of gate debt |
| `Scenario.dfy` | fault timelines and delta-compressed hardware reports |
| `FloorMapping.dfy` | exploration segments and the map they save |

Protocols are written as a pure step function on a state, with theorems over every sequence of
events, and as a class whose methods each perform one such step on the fields they mutate. Threads,
timers, the network and the clock appear only as the free choice of the next event, or as parameters.

## Where the code and what is said of it differ

- A handler's take and give-back are two critical sections. Between them the live stream can send a
  later message, or a second stale handler can take one and give it back last, which leaves the queue
  itself inverted. So order is kept only while takes do not overlap:
  `StreamCustody.TwoStreamsCanInvert`, `StreamCustody.OverlapKeepsOrderOnlyForEqualItems`,
  `StreamCustody.GiveBacksCanInvert`, `StreamCustody.OverlappingGiveBacksKeepOrderIff`.
- A stream that drops between the liveness check and the send takes the message with it, and nothing
  else does: `StreamCustody.SentItemsReachTheirStreamIff`, `StreamCustody.CutCanHappen`.
- A new assignment without a lease leaves the old timer and epoch in place. It is covered only when
  that timer names the same action, and that timer then ends it: `LeaseProtocol.AlwaysLeasedIff`,
  `LeaseProtocol.OldLeaseCanStopUnleasedWork`. Otherwise it runs with no timer at all:
  `LeaseProtocol.UnleasedWorkHasNoTimer`.
- A cancel ignores the action id and token it carries; the model does the same.
- An early STOPPED is meant to be failed only when a later sample shows motion. A record that is
  re-read can hide the motion that was seen first, and then the promise can fail:
  `MotionWitness.PromisedIff`, `MotionWitness.LateSamplesCanMisgrade`. The sample before the witnessed
  rest need not show motion when a moving sample has the time of the rest:
  `MotionWitness.TiedSamplesHideMotion`.
- The raw form is documented as a base64 string; `{"raw":null}` is read as the raw form of no bytes:
  `ActionPayloads.NullIsTakenForTheRawForm`. Empty bytes set in Go come back as `{}`:
  `ActionPayloads.BytesSurviveIff`.
- Waiting for an action status takes a close marker out of the inbox and does not put it back:
  `DriverInbox.Driver.AwaitActionStatus`.
- A hardware delta carries a component when its status changes. A new reason under the same status
  does not reach the receiver: `Scenario.ReasonIsCurrentIff`, `Scenario.ReasonCanBeStale`.
- A Core row recorded as harness context counts in its level and is missing from the sheet, so the two
  answers can differ, either way: `Grading.FailAgreesIff`, `Grading.ContextCoreDisagrees`,
  `Grading.ContextHidesAFail`.
- A negative tick length can divide by zero in the plant, part of the way through the robots:
  `Kinematics.KinematicSim.Tick`, `Kinematics.NegativeTimeDividesByZero`.

## Model

| member | source | states |
|---|---|---|
| StreamCustody.OneLiveStream | adapters/conformance/harness.py:617-648 | over every run, at most one admitted stream is up and it is the recorded live one |
| StreamCustody.NothingLost | adapters/conformance/harness.py:617-712 | over every interleaving, queued, held and delivered items together are exactly the items put |
| StreamCustody.GiveBacksBounded | adapters/conformance/harness.py:651-712 | a handler gives back at most once, so give-backs never outnumber the streams that arrived |
| StreamCustody.SerialRunsKeepOrder | adapters/conformance/harness.py:640-712 | while takes do not overlap, what all successive live streams were sent is a prefix of what was put, in order |
| StreamCustody.OneStreamRunsAreSerial | adapters/conformance/harness.py:698-712 | before a second stream is admitted takes cannot overlap |
| StreamCustody.OverlapKeepsOrderOnlyForEqualItems | adapters/conformance/harness.py:651-705 | when the live stream takes while any other handler still holds an item, checked or not, its send keeps the order exactly when the two items are equal |
| StreamCustody.OverlappingGiveBacksKeepOrderIff | adapters/conformance/harness.py:651-705 | when a handler whose stream is not the live one takes while a stale one still holds an item, giving back in the order of the takes keeps the order exactly when the two items are equal; the other way round always keeps it |
| StreamCustody.TwoStreamsCanInvert | adapters/conformance/harness.py:651-705 | a reachable run with two streams delivers two messages in the wrong order |
| StreamCustody.NextSendInverts | adapters/conformance/harness.py:651-705 | the exact condition, at a reachable state in order: the dropped stream's handler has taken message 1, and the next send breaks the order |
| StreamCustody.GiveBacksCanInvert | adapters/conformance/harness.py:651-705 | a reachable run after which nothing is held and the queue holds two messages in the wrong order |
| StreamCustody.SentItemsReachTheirStreamIff | adapters/conformance/harness.py:698-712 | over every run, everything sent or about to be is on a stream that was up exactly when no stream dropped between its handler's check and its send |
| StreamCustody.CutSpendsTheItem | adapters/conformance/harness.py:703-712 | a drop in that window spends the item on a dead stream and gives nothing back |
| StreamCustody.CutCanHappen | adapters/conformance/harness.py:698-712 | a reachable run in which message 1 is spent so while message 2 stays queued |
| StreamCustody.MarkersEndTheirStream | adapters/conformance/harness.py:706-711 | over every run, a close marker or an abort that was sent is the last delivery of its stream, whose handler has ended empty-handed and whose stream is down |
| StreamCustody.HandlersEndForAReason | adapters/conformance/harness.py:698-711 | over every run, a handler that ended empty-handed did so because the session is closing or because it was sent a marker |
| StreamCustody.AbortMakesRoom | adapters/conformance/harness.py:587-712 | a reachable run in which an abort ends the live stream, so that the next one is admitted |
| StreamCustody.ClosingIff | adapters/conformance/harness.py:592-604 | a run is closing exactly where it holds a close |
| StreamCustody.NoneParksAfterClosing | adapters/conformance/harness.py:698-702 | from the close on, every parked handler was parked at the close: none goes back to the queue |
| StreamCustody.ClosingEndsAParkedHandler | adapters/conformance/harness.py:698-702 | a parked handler whose wait times out then ends, and nothing else changes |
| StreamCustody.RefusalsAreCounted | adapters/conformance/harness.py:617-637 | over every run, the refusals counted are the streams refused |
| StreamCustody.Session.constructor | adapters/conformance/harness.py:548-585 | a new session is the initial state of the machine |
| StreamCustody.Session.Open | adapters/conformance/harness.py:667-675 | a new handler joins without a claim and disturbs nobody |
| StreamCustody.Session.Enqueue | adapters/conformance/harness.py:1100-1105 | a command joins the tail of the queue |
| StreamCustody.Session.ClaimStream | adapters/conformance/harness.py:617-637 | admits exactly when no admitted stream is up, and records the newcomer as the live one |
| StreamCustody.Session.Refuse | adapters/conformance/harness.py:617-637 | a claim that gives up leaves the live stream and the queue alone |
| StreamCustody.Session.Drop | adapters/conformance/harness.py:640-648 | an ended stream is never up again; what its handler holds stays held |
| StreamCustody.Session.Get | adapters/conformance/harness.py:698-702 | takes the head of the queue for this handler, or nothing from an empty queue |
| StreamCustody.Session.CheckMaySend | adapters/conformance/harness.py:640-648 | says whether this handler's stream is the live one and still up, and commits the handler to that answer |
| StreamCustody.Session.RequeueFront | adapters/conformance/harness.py:651-662 | the held item becomes the head of the queue and the handler exits |
| StreamCustody.Session.Yield | adapters/conformance/harness.py:706-712 | on the session's fields, delivering the held item does what the machine's step does, whose markers end their stream in every run |
| StreamCustody.Session.DropControl | adapters/conformance/harness.py:587-590 | puts an abort at the tail of the queue |
| StreamCustody.Session.CloseStreams | adapters/conformance/harness.py:592-607 | sets the closing flag and puts a close marker at the tail |
| StreamCustody.Session.TopOfLoop | adapters/conformance/harness.py:698-702 | a handler that sees the closing flag exits holding nothing |
| DriverInbox.PutBackKeepsTheRest | adapters/conformance/harness.py:893-928 | a wait that puts back the first m of the n messages it read loses exactly the others |
| DriverInbox.PutBackKeepsOrderIff | adapters/conformance/harness.py:893-928 | the survivors keep their order when nothing was put back or the reading went past the pushback list, and only then where messages can be told apart |
| DriverInbox.StatusesSurvive | adapters/conformance/harness.py:1107-1125 | a wait for a result loses no action status, and keeps their order once past the pushback list |
| DriverInbox.Driver.Read | adapters/conformance/harness.py:869-891 | reads the pushback list before the queue, and the arrivals after both |
| DriverInbox.Driver.AwaitActionStatus | adapters/conformance/harness.py:893-928 | finds the first status of the action in one of the states, if states are given, reading past no close marker; puts back everything read before it and loses exactly the match or the close marker |
| DriverInbox.Driver.NoteDecline | adapters/conformance/harness.py:1127-1139 | an unsupported answer adds exactly the arm its command was sent on |
| DriverInbox.Driver.AwaitResult | adapters/conformance/harness.py:1107-1125 | ends at the first result for the command, a close or an empty inbox, notes exactly the arm that an unsupported answer declines, loses no status whichever way it ends, and terminates |
| DriverInbox.Driver.MeasureControlBytes | adapters/conformance/harness.py:3501-3523 | totals the bytes up to a close marker and leaves the unread sequence as it was |
| DriverInbox.SumConcat | adapters/conformance/harness.py:3501-3523 | the total of two stretches of messages is the sum of their totals |
| LeaseProtocol.Unhonourable | adapters/example-noop/noop_adapter.py:100-110 | the subjects it lists are exactly those not honoured, and it lists none exactly when all are |
| LeaseProtocol.RunKeepsTimers | adapters/example-noop/noop_adapter.py:344-388 | over every run each arming has its own growing epoch and a recorded timer is the latest and uncancelled |
| LeaseProtocol.StepsAreLocal | adapters/example-noop/noop_adapter.py:191-388 | in every reachable state, no command or firing for one robot changes what another holds |
| LeaseProtocol.LiveActionsAreLeased | adapters/example-noop/noop_adapter.py:252-293 | while every accepted assignment carries a lease, a live action always has its pending timer at the current epoch |
| LeaseProtocol.FiringStopsTheCurrentLeaseOnly | adapters/example-noop/noop_adapter.py:374-388 | in every run, a firing does something exactly when it is of the latest arming and names the live action |
| LeaseProtocol.EarlierArmingsAreInert | adapters/example-noop/noop_adapter.py:344-388 | while an action is live, every other timer of its robot, cancelled or not, fires into nothing |
| LeaseProtocol.AcceptIsCoveredIff | adapters/example-noop/noop_adapter.py:252-271 | an accepted assignment is covered exactly when it carries a lease, names no action, or the old pending timer names the same action |
| LeaseProtocol.AlwaysLeasedIff | adapters/example-noop/noop_adapter.py:252-388 | over every run, a robot's live action had its pending timer all along exactly when each assignment newly accepted for it was covered |
| LeaseProtocol.UnleasedWorkHasNoTimer | adapters/example-noop/noop_adapter.py:252-271 | a reachable run in which a first assignment without a lease leaves its action live with no timer |
| LeaseProtocol.OldLeaseStopsUnleasedWork | adapters/example-noop/noop_adapter.py:269-271 | in that last case the old timer ends the new work, under its new token |
| LeaseProtocol.OldLeaseCanStopUnleasedWork | adapters/example-noop/noop_adapter.py:252-388 | a reachable run in which it does |
| LeaseProtocol.AcceptedTokensIncrease | adapters/example-noop/noop_adapter.py:197-271 | over every run, the tokens newly accepted for a robot strictly increase up to its mark |
| LeaseProtocol.RunKeepsMarks | adapters/example-noop/noop_adapter.py:197-271 | over every run, what is held for a robot is what its last accepted assignment said |
| LeaseProtocol.AssignmentOutcomes | adapters/example-noop/noop_adapter.py:197-271 | a refusal and a re-delivery change nothing but the outbox; any other accept is above every accepted token |
| LeaseProtocol.RedeliveryIsRecognised | adapters/example-noop/noop_adapter.py:215-251 | an assignment is acknowledged as a re-delivery exactly when it is the last accepted one at its token |
| LeaseProtocol.AcceptedIff | adapters/example-noop/noop_adapter.py:197-271 | in every run, an assignment is newly accepted exactly where its token is present and above every token accepted for the robot, its type is in the catalog and every constraint is honoured, and is re-acknowledged exactly where it repeats the last accepted one |
| LeaseProtocol.RejectedIff | adapters/example-noop/noop_adapter.py:197-251 | in every run, each reason is given exactly under its own condition with those before it in the source's order excluded |
| LeaseProtocol.ConstraintUnmetIff | adapters/example-noop/noop_adapter.py:240-251 | a refusal for constraints lists exactly the subjects not honoured, in the order given, repeats included |
| LeaseProtocol.EmptyCatalogAcceptsNothing | adapters/example-noop/noop_adapter.py:228-239 | with the empty catalog the adapter ships with, no run accepts an assignment, arms a timer or has a live action |
| LeaseProtocol.QueriesChangeNothing | adapters/example-noop/noop_adapter.py:294-325 | a scan answers the catalog, pause and resume answer that nothing was done, an optional command is declined, and none changes anything else |
| LeaseProtocol.OldTimersAreCancelled | adapters/example-noop/noop_adapter.py:344-365 | over every run, every timer but the one recorded for its robot was cancelled or has fired |
| LeaseProtocol.CancelEndsTheLease | adapters/example-noop/noop_adapter.py:272-279 | in every run, a cancel leaves the robot with no action and no recorded timer, and every timer of it that is still to fire fires into nothing |
| LeaseProtocol.RenewalsFollowTheLastLease | adapters/example-noop/noop_adapter.py:280-293 | in every run a renewal is granted exactly for the generation of the last accepted assignment that carried a lease; a refused one revives nothing |
| LeaseProtocol.RenewalsFollowTheLastAccept | adapters/example-noop/noop_adapter.py:280-293 | in a leased run that is the last accepted assignment |
| LeaseProtocol.StatusesCarryTheLastToken | adapters/example-noop/noop_adapter.py:329-342 | in every run, a status carries the token its action was last accepted under |
| LeaseProtocol.StopsAreFollowedByFailures | adapters/example-noop/noop_adapter.py:374-388 | in every outbox, each STOPPED is followed at once by that action's FAILED under the same token |
| LeaseProtocol.EveryStartIsAccountedFor | adapters/example-noop/noop_adapter.py:252-388 | RUNNING reports equal terminal reports, plus one while live, plus the times a newer assignment overtook the action |
| LeaseProtocol.NoopAdapter.HandleCommand | adapters/example-noop/noop_adapter.py:191-325 | on the adapter's dictionaries, one command does what the machine's step does, answer included |
| LeaseProtocol.NoopAdapter.JudgeAssignment | adapters/example-noop/noop_adapter.py:197-251 | on the adapter's dictionaries, gives the judgement whose every outcome has its exact condition in every run |
| LeaseProtocol.NoopAdapter.AcceptAssignment | adapters/example-noop/noop_adapter.py:252-271 | raises the mark, reports RUNNING under it and arms a lease if there is one |
| LeaseProtocol.NoopAdapter.CancelTheAction | adapters/example-noop/noop_adapter.py:272-279 | ends whatever the robot executes, whatever the cancel names |
| LeaseProtocol.NoopAdapter.ArmTheLease | adapters/example-noop/noop_adapter.py:344-360 | cancels the recorded timer and starts one at the next epoch |
| LeaseProtocol.NoopAdapter.CancelTheLease | adapters/example-noop/noop_adapter.py:362-365 | forgets the recorded timer and cancels it, best effort |
| LeaseProtocol.NoopAdapter.RenewTheLease | adapters/example-noop/noop_adapter.py:367-372 | re-arms the live action exactly for the recorded generation |
| LeaseProtocol.NoopAdapter.LeaseExpired | adapters/example-noop/noop_adapter.py:374-388 | a timer callback acts only at the current epoch on the action it names |
| LeaseProtocol.NoopAdapter.EmitActionStatus | adapters/example-noop/noop_adapter.py:329-342 | queues one status under the current mark, or none for no action |
| MotionWitness.WitnessedRest | adapters/conformance/harness.py:409-420 | returns the time of the earliest sample from the stop on that begins a confirmed rest, None exactly when there is none |
| MotionWitness.PromisedIff | adapters/conformance/harness.py:2382-2386 | every early STOPPED is followed by a sample of motion exactly when the record shows motion no earlier than the tolerance before the rest |
| MotionWitness.PromisedFromIff | adapters/conformance/harness.py:2382-2386 | the same of every STOPPED not timed before some point: exactly then, or when none of those can be graded early |
| MotionWitness.LaterRestIsVouched | adapters/conformance/harness.py:2382-2386 | a rest that is not the first sample from the stop on always has such motion, wherever the record begins |
| MotionWitness.EarlyMeansMotionLater | adapters/conformance/harness.py:2382-2386 | there, on a record that reaches back to the stop and shows motion then, and for a STOPPED not timed before the stop, an early STOPPED fails only when a strictly later sample shows motion |
| MotionWitness.LateSamplesCanMisgrade | adapters/conformance/harness.py:2427-2441 | a record re-read after the stop can break the promise: it fails a STOPPED that no later sample contradicts |
| MotionWitness.MotionJustBeforeRest | adapters/conformance/harness.py:2382-2386 | unless motion is recorded at the time of the rest, the last sample before it is one of motion |
| MotionWitness.TiedSamplesHideMotion | adapters/conformance/harness.py:2454-2456 | with such a tie the last sample before the rest can be quiet |
| MotionWitness.EarlyIffBeforeLastMotion | adapters/conformance/harness.py:2454-2468 | without a tie, whatever the resolution, STOPPED fails exactly when it precedes the last sample of motion, and the rest by more than the resolution |
| MotionWitness.GradeIsExact | adapters/conformance/harness.py:2454-2468 | whatever the record and the resolution, STOPPED is early exactly when it precedes the rest by more than the resolution and precedes the last sample before the rest, if there is one; the tolerance reported is the larger of the two lengths |
| MotionWitness.ResolutionIsTolerated | adapters/conformance/harness.py:2454-2458 | a resolution wider than the sample gap passes a STOPPED that the gap alone would fail |
| MotionWitness.RestIsHeld | adapters/conformance/harness.py:409-420 | at a witnessed rest a sample is quiet, every sample within the hold is, and the record goes past the hold |
| MotionWitness.EarlierQuietWasBroken | adapters/conformance/harness.py:409-420 | a quiet sample from the stop on that comes before the witnessed rest was followed by motion within the hold |
| MotionWitness.GradeEarlyStopped | adapters/conformance/harness.py:2398-2472 | each grade is given exactly under its condition, on the first record that confirms a rest, early or not by that record's own samples; an early grade stands on later motion wherever the exact condition holds, which the first read always meets |
| Base64.DecodeEncode | api/v1/fleetaction_payload.go:68-86 | decoding the base64 of any bytes gives the bytes back |
| Base64.BreaksAreIgnored | api/v1/fleetaction_payload.go:82-86 | a line feed or a carriage return put anywhere in a text leaves what it decodes to |
| Base64.DecodeIff | api/v1/fleetaction_payload.go:82-86 | a text decodes exactly where, line breaks aside, it is digits in fours of which the last one or two may be padding |
| Base64.DecodedReencodes | api/v1/fleetaction_payload.go:82-86 | what a text decodes to encodes back to it, line breaks and the unused bits of its last digit aside |
| Base64.TestVectors | api/v1/fleetaction_payload.go:82-86 | the alphabet and padding are those of section 10 of RFC 4648 |
| Json.ValueCut | api/v1/fleetaction_payload.go:88-91 | what is read as a value depends on its own bytes only: the same value is read from any prefix that holds it |
| JsonText.TreeReads | api/v1/fleetaction_payload.go:68-91 | every JSON value written by the grammar of RFC 8259, nested within the limit, is read to exactly its end, whatever space stands at each place and whatever follows |
| JsonText.ValueIs | api/v1/fleetaction_payload.go:68-91 | whatever is read as a value is the text of a value of the grammar, nested within the limit |
| JsonText.ValidIff | api/v1/fleetaction_payload.go:88-91 | a document is valid exactly where it is a value of the grammar, nested within the limit, with space around it |
| JsonText.TopObjectIff | api/v1/fleetaction_payload.go:68-76 | a document is read as an object with certain members exactly where it is written as an object with those keys and values, in that order |
| ActionPayloads.TheObjectIsThePayload | api/v1/fleetaction_types.go:442-447 | a document is its own payload exactly where it is an object of the grammar, however spaced and nested, that does not spell the raw form; it is then written back byte for byte |
| ActionPayloads.RawFormIff | api/v1/fleetaction_payload.go:68-86 | the raw form is exactly an object whose keys are all `raw`, the last holding base64 or null |
| ActionPayloads.SoleRawKeyIff | api/v1/fleetaction_payload.go:69-76 | the map of an object has the one key `raw` exactly where every member is spelt so, escapes included, and there is one |
| ActionPayloads.StringsReadBack | api/v1/fleetaction_payload.go:68-86 | a string is read as its characters however each is spelt, as it is, by a short escape or by any of its hexadecimal ones |
| ActionPayloads.EscapesAreThoseSpelt | api/v1/fleetaction_payload.go:68-91 | the reader takes after a backslash exactly the letters and the hexadecimal digits that some character is spelt with |
| ActionPayloads.ObjectsPassTheTest | api/v1/fleetaction_payload.go:58-91 | whatever is read as an object passes isJSONObject, so that condition never hides an object |
| ActionPayloads.RawFormReadsBack | api/v1/fleetaction_payload.go:63-86 | any slice written in the raw form reads back as its bytes in the raw form |
| ActionPayloads.WriteReads | api/v1/fleetaction_payload.go:39-64 | what every payload reads back as, bytes and form |
| ActionPayloads.BytesSurviveIff | api/v1/fleetaction_payload.go:50-64 | writing and reading keeps the bytes exactly for non-empty payloads and those in the raw form |
| ActionPayloads.ReadWriteRead | api/v1/fleetaction_payload.go:39-64 | a payload read, written and read again is the same in bytes and form |
| ActionPayloads.ObjectsAreWrittenWhole | api/v1/fleetaction_payload.go:54-62 | an object that is its own payload is written byte for byte as read |
| ActionPayloads.WrittenAlikeCarriesAlike | api/v1/fleetaction_payload.go:50-64 | two payloads written alike carry the same bytes, empty non-raw ones aside |
| ActionPayloads.SecondWriteRepeatsIff | api/v1/fleetaction_payload.go:54-64 | a second write repeats the first exactly unless the slice is nil in the raw form |
| ActionPayloads.NullIsTakenForTheRawForm | api/v1/fleetaction_payload.go:78-86 | a null `raw` is read as the raw form of no bytes |
| ActionPayloads.ActionPayload.UnmarshalJSON | api/v1/fleetaction_payload.go:39-48 | fails exactly on a document that is not an object, leaving the payload alone; otherwise holds what was read |
| ActionPayloads.ActionPayload.MarshalJSON | api/v1/fleetaction_payload.go:54-64 | writes the form the payload's bytes and origin call for |
| Kinematics.StopSpeed | adapters/simulation/simulator.py:125-136 | for any tick lengths, a stopping robot's speed is its first speed less DECEL times the elapsed time, floored at zero |
| Kinematics.RestIff | adapters/simulation/simulator.py:125-158 | it is at rest exactly once DECEL times the elapsed time reaches the first speed |
| Kinematics.StopKeepsDirection | adapters/simulation/simulator.py:127-136 | braking keeps the direction of the velocity |
| Kinematics.StopDistance | adapters/simulation/simulator.py:125-149 | the path of a stop is at most (v0² - v²) / (2 DECEL) |
| Kinematics.StopIsStraight | adapters/simulation/simulator.py:127-149 | the displacement of a stop is its path along the first velocity |
| Kinematics.RestIsKept | adapters/simulation/simulator.py:125-149 | from the tick that brings rest on, pose and velocity are fixed |
| Kinematics.DriveRun | adapters/simulation/simulator.py:137-149 | on the segment at SPEED times the elapsed time until that covers the distance, then exactly at the target, at rest |
| Kinematics.BatteryDrains | adapters/simulation/simulator.py:149-149 | for any tick lengths and whatever the robot does, its battery falls by a hundredth of a percent a second, down to empty |
| Kinematics.RunIsSound | adapters/simulation/simulator.py:112-169 | over every run of commands and ticks, an idle robot is at rest, none exceeds SPEED, the battery stays within 0 and 100 |
| Kinematics.StopFromAnyRun | adapters/simulation/simulator.py:112-158 | a stop at any point of any run takes at most an eighth of a metre, ends exactly once braking from the speed the robot had has taken its time, a quarter of a second at most, and leaves no target |
| Kinematics.StopOnTheAxis | adapters/simulation/simulator.py:112-158 | the same for every run along an axis, with nothing asked of any length |
| Kinematics.MoveFromAnyRun | adapters/simulation/simulator.py:112-149 | a move at any point of any run, whatever the robot was doing: it cruises at SPEED along the segment to the target, as far as the elapsed time takes it, and is at the target, at rest, with no target left, once that covers the distance |
| Kinematics.MoveOnTheAxis | adapters/simulation/simulator.py:112-149 | the same for every run along an axis, with nothing asked of any length |
| Kinematics.ChargeFromAnyRun | adapters/simulation/simulator.py:166-169 | a charge at any point of any run fills the battery up to 100, which then drains by the time, and changes nothing of the motion |
| Kinematics.CommandsCostNothing | adapters/simulation/simulator.py:115-149 | a move or a stop at any point of any run leaves the battery to drain by the time alone |
| Kinematics.SpawnedStays | adapters/simulation/simulator.py:112-149 | a robot that is spawned and not commanded stays where it is and drains from full |
| Kinematics.KinematicSim.Tick | adapters/simulation/simulator.py:125-149 | every robot advances by its own law, none is added, lost or affected by another; it fails exactly where a robot divides by zero, which takes a negative time, and then leaves each robot advanced or as it was |
| Kinematics.NegativeTimeDividesByZero | adapters/simulation/simulator.py:125-149 | every negative time divides by zero for a spawned robot told to stop, or to drive to where it is |
| Kinematics.KinematicSim.Spawn | adapters/simulation/simulator.py:112-113 | puts a robot at rest with a full battery, replacing one of that name |
| Kinematics.KinematicSim.Charge | adapters/simulation/simulator.py:166-169 | raises that robot's battery, to at most 100 |
| Kinematics.KinematicSim.CommandMove | adapters/simulation/simulator.py:115-118 | on the named robot, the step whose effect on every run is the drive; an unknown robot changes nothing |
| Kinematics.KinematicSim.CommandStop | adapters/simulation/simulator.py:120-123 | clears that robot's target and begins its stop |
| Kinematics.KinematicSim.IsStopped | adapters/simulation/simulator.py:156-158 | says whether both components of the velocity are zero |
| SkipCauses.AtMostOneCause | conformance/model.py:57-197 | no spelling or alias begins another, so a detail names at most one cause |
| SkipCauses.CauseOf | conformance/model.py:176-197 | the first declared match is the only match: the result is a cause exactly where the detail names it |
| SkipCauses.HarnessCauseIsRead | conformance/model.py:176-197 | a detail beginning with a harness spelling, whatever follows, is read as that cause translated and as no other |
| SkipCauses.HarnessCauseOf | adapters/conformance/report.py:215-221 | the harness's own reading finds exactly the cause spelt |
| SkipCauses.ReadingsAgree | adapters/conformance/report.py:24-116 | reading an accepted detail in either vocabulary gives the same cause |
| SkipCauses.NotesKeepTheCause | conformance/adapter.py:150-152 | a note added after a semicolon neither gives nor takes a cause |
| SkipCauses.ObservationIsTheNote | conformance/model.py:600-609 | a skip written as any spelling of a cause, any colons, any space and a note is read back as that cause and the note, stripped |
| Reports.HarnessReport.Add | adapters/conformance/report.py:203-235 | records a row exactly when a skip names a cause and the id is unused; otherwise changes nothing |
| Reports.HarnessReport.ListSkips | adapters/conformance/report.py:237-253 | lists every skip with its cause, in order |
| Reports.ResultSet.Add | conformance/model.py:224-240 | the same rule in the profile layer's vocabulary |
| Reports.PreparationHasNoSay | conformance/adapter.py:25-50 | whatever the harness recorded of its own preparation, the verdict on the ingested report is the same |
| Reports.ResultSet.Ingest | conformance/adapter.py:25-50 | appends every row at its ingested level, in order |
| Reports.IngestedIsValid | conformance/adapter.py:33-43 | a report the harness accepted ingests to unique ids and enumerated skips |
| Reports.SkipsAreTranslated | conformance/adapter.py:33-43 | the skips listed after ingestion are the harness's, in order, each translated |
| Reports.ValidRowsAreEnumerated | conformance/model.py:357-366 | no row of a valid result set can make grading raise an unenumerated cause |
| Reports.NoRowIsHidden | conformance/model.py:224-254 | in a valid result set every row is the one graded under its id |
| Reports.ReadRow | conformance/model.py:600-630 | a row is graded from its status, its cause and what it observed |
| Reports.ResultSet.ApplyPlatformPrecondition | conformance/adapter.py:91-153 | where every odometry topic is derived from the commands, each of the five checks ends as a skip of the platform, its old detail kept; otherwise it keeps its status and cause; no other row changes; the finding is met exactly where a topic is measured and unmet exactly where all are derived |
| Reports.UnmetNeverPasses | conformance/adapter.py:138-153 | with the precondition unmet, no verdict short of pass becomes pass |
| Reports.OtherwiseVerdictStays | conformance/adapter.py:150-153 | otherwise the added notes leave the verdict as it was |
| Reports.DerivedOdometryNeverPasses | conformance/adapter.py:125-149 | from the odometry: where every topic is derived from the commands, the five checks are skips of the platform, and if the verdict reads one of them it is not pass, that check being graded as not supported by the platform |
| Reports.MeasuredOdometryChangesNothing | conformance/adapter.py:123-152 | where a topic is measured the finding is met, and no status, no cause and no verdict changes |
| Reports.DerivedOdometryIsGradable | conformance/adapter.py:142-149 | the re-recorded report stays gradable where the unlock of the platform's skip is on file for the five checks |
| Reports.FindingIs | conformance/adapter.py:118-134 | each finding is given exactly under its condition on the odometry topics |
| Grading.Level | conformance/model.py:347-396 | a level fails only in Core, is never pass with a standing skip, and raises exactly on an unenumerated skip |
| Grading.StatsAreTallies | conformance/model.py:353-370 | the statistics count each head and list the standing skips in order |
| Grading.TalliesAddUp | conformance/model.py:353-370 | every row is counted once |
| Grading.CauseGrade | conformance/model.py:437-471 | every cause has a grade that owes an unlock, and a cause that voids the obligation is graded as not supported |
| Grading.BuildSheet | conformance/model.py:612-651 | raises exactly where a counting row has no cause or no unlock |
| Grading.SheetIsOfLastRows | conformance/model.py:612-651 | the sheet holds the grade of the last counting row of each id and nothing else |
| Grading.SheetSays | conformance/model.py:612-651 | each row of the sheet says of the last counting row of its id whether it was measured on hardware or in simulation, failed, or is owed, with its cause, its unlock and what was observed |
| Grading.HardwareHasNoSay | conformance/model.py:618-630 | a sheet of a simulation claims nothing measured on hardware and the other way round; that apart the two sheets and the two verdicts are the same |
| Grading.ProfileResults | conformance/registry.py:139-211 | one result per profile, required and applicable as the tier and the driver say, graded from its recorded rows |
| Grading.ResultsSay | conformance/registry.py:161-211 | a profile applies by the driver's word or by being unconditional; one that does not is not required and has no levels; Extended never fails |
| Grading.GradeableIff | conformance/model.py:347-366 | grading a profile raises exactly where it applies and one of its checks is skipped without a cause |
| Grading.VerdictBlockers | conformance/model.py:723-743 | lists, in order, the Core checks of required applicable profiles that failed, stand unmeasured or were not recorded |
| Grading.FailIff | conformance/model.py:612-750 | the verdict is fail exactly where the last counting row of some Core check of a required applicable profile failed |
| Grading.PassIff | conformance/model.py:612-750 | the verdict is pass exactly where every such check has a counting row and its last one passed or is not applicable |
| Grading.PassIffPassedOrNeverOwed | conformance/model.py:325-331 | the verdict is pass exactly where every such check last passed or is skipped for one of the seven causes that say it was never owed |
| Grading.FailedCoreFailsTheRun | conformance/registry.py:151-177 | a failed Core check of a profile that applies fails the run if the profile is the edge profile of an adapter, or is not one that is never required and the tier names it or there are no tiers |
| Grading.OtherProfilesHaveNoSay | conformance/registry.py:151-177 | the verdict is that of the surface without a profile that does not apply, has no Core checks, or, edge aside, is never required or not named by the tier |
| Grading.FailAgreesIff | conformance/model.py:612-750 | verdict and Core levels agree on fail exactly where a last row of such a check failed just when a last counting row of one did |
| Grading.PassAgreesIff | conformance/model.py:612-750 | they agree on pass exactly where all last rows are clear just when all last counting rows are |
| Grading.VerdictAgrees | conformance/model.py:612-750 | where no such check has a row of harness context for its last, verdict and Core levels agree on fail and on pass |
| Grading.ContextCoreDisagrees | conformance/model.py:617-619 | a failed Core row marked as context gives a failed level and a verdict that is not fail |
| Grading.ContextHidesAFail | conformance/model.py:617-619 | a later context row under the id of a failed one gives a clear level and a verdict of fail |
| Grading.ContextHasNoSay | conformance/model.py:617-619 | rows of harness context change no verdict |
| Grading.RegradingNeverMakesAPass | conformance/adapter.py:138-153 | turning rows into standing skips never makes a pass |
| Grading.SameOutcomesSameVerdict | conformance/model.py:723-750 | what was observed has no say in the verdict |
| Grading.ApplicabilityComesFirst | conformance/__main__.py:173-193 | computed after re-grading, applicability would turn a failed edge check into a pass |
| Grading.EdgeAppliesWhereItRan | conformance/adapter.py:156-165 | the edge profile applies exactly where one of its three checks was recorded and not skipped |
| GateReachability.ReachableIsLeast | scripts/check-gate-integrity.py:566-616 | the reachable files are the least set holding the roots and closed under invocation |
| GateReachability.Walk | scripts/check-gate-integrity.py:601-615 | visits each file at most once, so it ends on cyclic call graphs |
| GateReachability.Reachability | scripts/check-gate-integrity.py:566-616 | returns exactly the names, and exactly the evidence calls, of the reachable files |
| GateReachability.Visit | scripts/check-gate-integrity.py:604-614 | one round names every call of a file and queues exactly the files named that were not seen |
| GateReachability.Index | scripts/check-gate-integrity.py:574-599 | groups the files by name and finds the roots |
| GateRegister.CheckGates | scripts/check-gate-integrity.py:722-752 | reports exactly the unregistered unreached gates and the unwired entries of reached ones |
| GateRegister.SetAside | scripts/check-gate-integrity.py:768-772 | removes exactly the swallows of exempt files from the observations |
| GateRegister.CheckObserved | scripts/check-gate-integrity.py:775-791 | reports exactly the new, worse and shrunk counts |
| GateRegister.CheckRegistered | scripts/check-gate-integrity.py:792-809 | reports exactly the entries nothing observes and the classified files that are no gates |
| GateRegister.CheckRegister | scripts/check-gate-integrity.py:697-809 | says of each entry and gate exactly whether it is new, worse, shrunk, repaired or unreferenced, and finds nothing exactly where counts, unwired gates and classified files all agree with the register |
| GateRegister.UnwiredAreTheUnreached | scripts/check-gate-integrity.py:722-752 | in an accurate register the unwired keys outside exempt files are exactly those of the unreached gates |
| GateRegister.Census | scripts/check-gate-integrity.py:463-532 | gives the gates exactly where no key and no name stands for two of them, each under its own key |
| Scenario.SortAscends | adapters/scenarios/loader.py:184-184 | the timeline is a permutation of the events in time order |
| Scenario.SortIsStable | adapters/scenarios/loader.py:184-184 | events at one time keep their order |
| Scenario.Evaluate | adapters/scenarios/loader.py:262-282 | lists every declared component once, in the order of the manifest, in the state of its last applying event |
| Scenario.TimelineGivesTheLatest | adapters/scenarios/loader.py:262-282 | the last applying event of the sorted timeline is the latest of the events as written |
| Scenario.StateIsTheEventInForce | adapters/scenarios/loader.py:262-282 | a component is in the state of the latest event at or before t, the last written of equals, else healthy |
| Scenario.AttributesNeverChange | adapters/scenarios/loader.py:274-282 | a component is listed exactly where it is declared, once, and a fault never changes or drops a physical attribute |
| Scenario.Preset.constructor | adapters/scenarios/loader.py:167-184 | a preset holds its events sorted |
| Scenario.Preset.ApplyOverrides | adapters/scenarios/loader.py:202-222 | fails, changing nothing, exactly for an undeclared component; otherwise the timeline is the retimed events sorted |
| Scenario.OverridesSetTheWindow | adapters/scenarios/loader.py:202-222 | with all overrides given, the component is at fault exactly in the window they set, equal times included |
| Scenario.OverridesLeaveTheRest | adapters/scenarios/loader.py:202-222 | each override bears on what it names alone, and with none the timeline stays as it was |
| Scenario.Telemetry.HardwareUpdates | adapters/simulation/sim_adapter.py:2048-2071 | sends the delta against what was last sent, everything after a reconnect, and remembers what it sent |
| Scenario.ReceiverIsCurrent | adapters/scenarios/loader.py:284-293 | after any samples and reconnects, a receiver folding the deltas holds exactly the statuses of the full evaluation |
| Scenario.ReceiverHoldsTheLastCarried | adapters/scenarios/loader.py:284-293 | what it holds of a component is the evaluation at the last sample that carried it |
| Scenario.ReasonIsCurrentIff | adapters/scenarios/loader.py:284-293 | after any samples, the reason the receiver holds is the current one exactly where it has not changed since the last sample that carried the component |
| Scenario.ReasonCanBeStale | adapters/scenarios/loader.py:284-293 | two events with one status and two reasons leave the receiver with the first |
| FloorMapping.SegmentReports | adapters/simulation/floor_mapping.py:326-371 | however it is ticked, a segment reports a prefix of 5, 80, end, or one failure, or one end at once, and observes one room once |
| FloorMapping.SegmentCanEnd | adapters/simulation/floor_mapping.py:352-371 | three long enough ticks end any segment |
| FloorMapping.ExploresFor | adapters/simulation/floor_mapping.py:352-360 | for any tick lengths, a segment explores from its first tick on exactly until those since take as long as exploring does |
| FloorMapping.ReturnsFor | adapters/simulation/floor_mapping.py:361-371 | and then returns exactly until the ticks since take as long as returning does |
| FloorMapping.ChainObservesRooms | adapters/simulation/floor_mapping.py:305-371 | a chain of one fresh and then resumed segments observes one room each, up to the room count |
| FloorMapping.ChainIsOverIff | adapters/simulation/floor_mapping.py:326-371 | the next segment of a chain ends at its first tick exactly once there were as many segments as rooms, and then reports every room and observes nothing |
| FloorMapping.ExploreJob.Tick | adapters/simulation/floor_mapping.py:326-371 | on the job and the shared graphs, a tick does what the machine's step does |
| FloorMapping.ExploreJob.Save | adapters/simulation/floor_mapping.py:373-397 | reports the rooms observed and whether a frontier is left |
| FloorMapping.Fill | adapters/simulation/floor_mapping.py:153-157 | exactly the cells of the box take the value |
| FloorMapping.RenderMap | adapters/simulation/floor_mapping.py:144-167 | a cell is free exactly where observed, occupied in the walls of an observed room, unknown elsewhere |
| FloorMapping.RoomsAppearInTurn | adapters/simulation/floor_mapping.py:144-167 | a cell of one room alone is free exactly once that many rooms are observed, a cell of the door alone once two are, and no other cell is |
| FloorMapping.WallsAppearInTurn | adapters/simulation/floor_mapping.py:144-167 | where nothing is free, the walls of a room are occupied exactly once that room is observed, and the rest is unknown |
| FloorMapping.BoxesTile | adapters/simulation/floor_mapping.py:153-157 | boxes side by side share no cell and leave none between them |
| FloorMapping.ClaimsAreNeverRetracted | adapters/simulation/floor_mapping.py:144-167 | observing more never takes a cell of the map from free to anything else, nor from known to unknown |

## Left out

- gRPC, sockets, threads, subprocesses, wall-clock waits: they are the free choice of the next event, or arrivals given as parameters.
- The safety and edge streams of the harness share the queue discipline of the control stream and are not repeated.
- StreamCustody.Session.CloseStreams: the close markers for the safety and edge queues are left out with those streams.
- The individual checks C0 to C19 and the compute-endpoint, control-plane and reactive suites: each row reads off one branch.
- Lease durations, heartbeats, the safety stream and message texts of the reference adapter.
- Floating-point rounding, in the plant, the witness and the scenario times: arithmetic is over the reals.
- Kinematics.DriveRun: math.hypot is a parameter; this and the other theorems on runs ask that it be exact at the vectors the run measures.
- Kinematics.KinematicSim.Tick: the order of the robots, yaw, floor and the witness file are not modelled.
- Json.ValueCut: characters past 127 stand for their bytes; replacing invalid UTF-8 is not modelled, as no property depends on it.
- ActionPayloads.ActionPayload.MarshalJSON: the compaction json.Marshal applies around it is not modelled.
- Grading.BuildSheet: the longest-prefix lookup of unlocks is a parameter, and measurements attached to rows are left out.
- Grading.ProfileResults: the lists of supported and unsupported extended features are left out.
- Reports.ResultSet.ApplyPlatformPrecondition: the wording of the re-recorded details is a parameter.
- Report rendering, fidelity and plant blocks of the conformance report.
- GateReachability.Reachability: call sites are inputs; the scanning of recipes, workflows and scripts is not modelled.
- GateRegister.Census: a key that a file which is no gate claims by its observations is left out.
- GateRegister.CheckRegister: observed counts are inputs; rule R2 and empty recipes are text scans and are left out.
- FloorMapping.ExploreJob.Save: writing the artifact directory, its digest and the covered area are left out.
- FloorMapping.RenderMap: boxes are given in cells; rounding metres to cells is not modelled.
- The charge job, and the battery curve, comms gaps and installed models of scenarios: each is one formula or one lookup.
- The model runtime, the Isaac Sim backend, the Helm scripts and the other repository gates are not part of this model.
