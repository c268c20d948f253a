# Verified model of ReefTank Hub

ReefTank Hub runs an aquarium: it records what the power outlets are doing, drives JEBAO pumps and a K7
lamp over the LAN, keeps the map of which device is plugged in where, and updates itself over the air.
This project models the parts where a mistake would go unnoticed for a long time, and proves properties of
them over every input and every run.

`dafny verify dfyconfig.toml` checks everything (Dafny 4.11).

## What is modelled

**Activity recorder** (`Activity*.dfy`). One reading at a time, the recorder opens an event at the first
running sample, closes it at the second low sample in a row, and splits it when the switch binding changes.
Tables are values, a transaction is all or nothing, and any statement may fail. The main results say that
the tables always hold a declarative segmentation of the readings that were accepted, whatever the order,
the duplicates, the number of devices, the crashes before commit and the backfills; and that losing the
checkpoint row, while the device's last two samples are kept, is invisible in a continuation of any devices and
bindings exactly when the first binding that arrives in it does not split an open event.

**JEBAO pumps** (`Jebao*.dfy`). The frame codec reads back every list of packets. The attribute decoder is
tied to the bits each attribute owns, so that a write is shown to change the decoded value of one attribute
and of no other, for every well-formed table and for the three product tables in use. The write
conversation runs over the bytes of an arbitrary peer: what it sends is a prefix of a fixed script, and its
success is characterised exactly. The monitor is a class, one method for each section under its lock, and
a state machine that interleaves refreshes, their per-device goroutines, device controls and settings
updates.

**K7 lamp** (`Lamp*.dfy`). Window clamping is shown to find the longest common arc of two circular windows;
the lighting computation stays in range, and is monotone through its roundings exactly when daylight cannot
switch moonlight off; rows rotated on their way to the lamp agree with resampling, and the rows baked from the
stored state are always accepted. The driver that decides between live output, overrides and the lamp's
own schedule is a class and a state machine over its actions, and once more at the grain of its lock
sections. The frame reader is shown to be independent of how TCP cuts the answer, exactly when the answer
is unambiguous.

**Equipment map** (`Equipment*.dfy`). The global check accepts exactly the valid maps; a rebinding keeps the
map valid, permutes the bindings and can be undone; replacing all settings goes through exactly on
acceptable inputs and matches inputs and devices one to one; two devices never share a physical outlet.

**Updates** (`Ota*.dfy`). File operations are single steps (a written file is truncated and then filled),
and a crash or power cut may fall between any two, in the update, in the confirmation and in the rollback.

## Where the code does less than it seems to

These are results about the code as it is, each with a concrete case or the exact condition.

- A ramp stop while the ramp is already off republishes the schedule without the engine noticing: an active
  feed or maintenance override stays hidden until it ends (`IdleStopHidesOverride`, `StopKeepsTruth`).
- A re-arm of the lamp's schedule that fails is never repeated, so that a hand value can stay on the lamp
  (`FailedRearmIsFinal`; exactly when: `RearmDecides`).
- When moonlight is due and daylight can get above the day threshold, more daylight can mean less light
  (`MonotoneExactly`, with a case in `MoonlightIsNotMonotone`).
- Equal night endpoints mean a whole day to the clamp and no minute to the membership test
  (`EqualNightEndpointsDoNotClamp`).
- Shifts add up in the row rotation exactly when their whole hours do, so ninety minutes twice are not three
  hours (`ComposeExactly`, `RotationsCompose`).
- A lamp answer whose name holds the terminator byte, or that follows a write acknowledgement with a third
  manual channel of 24, can be misread (`AmbiguousIsMisread`).
- A lost checkpoint shows, for ever, when the first binding that arrives later would have split an open event
  (`LossShowsExactly`, with a case in `LateBindingShows`).
- When the equipment file cannot be written, `Assign` reports a failure and keeps the change in memory;
  `UpdateSettings` does not.
- When PREVIOUS cannot be opened, which the update ignores, a rollback lands on whatever it named before
  (`UnnotedUpdateLandsElsewhere`; exactly when: `RollbackLandsExactly`); when it is emptied and not filled
  nothing is rolled back (`FailedUpdateIsRolledBack`).
- ROLLED_BACK is never cleared, so a version that fails a second time after a second install is left in place
  (`FailedUpdateIsRolledBack`).
- Suffixes of tags never count, so the final release is not offered while its candidate runs
  (`CandidateHidesItsRelease`; what is offered instead: `OffersGoByNumber`).

## Model

| member | source | states |
|---|---|---|
| ActivityRecorder.DB.RecordEquipmentReading | internal/storage/activity.go:87-170 | one transaction: if every statement succeeds the tables, the active flag and the created flag are those of the transition, which ActiveIsOpenRow and CreatedIsNewRow explain; if any fails the tables are unchanged |
| ActivityTables.RunningEdges | internal/storage/activity.go:20-22 | the edges of the voltage band and of the two thresholds are inside, and more current or power never stops a reading from running |
| ActivityOutcome.ActiveIsOpenRow | internal/storage/activity.go:99-169 | after every history, for rejected readings too, active is reported exactly when the device has a row without an end |
| ActivityOutcome.CreatedIsNewRow | internal/storage/activity.go:126-142 | on any tables created is reported exactly when the device has one row more, and that row is the reading's |
| ActivityRecorder.DB.RecordOutletSample | internal/storage/db.go:131-137 | a legacy raw sample replaces the row of its time and then expires old rows of every device, touching no event; a failed insert leaves the tables alone, a failed cleanup leaves the sample in |
| ActivityRecorder.DB.BackfillEquipmentEvents | internal/storage/db.go:158-198 | replays the retained samples in time order and counts the events opened; a failed query changes nothing, any failed statement leaves exactly a replayed prefix and its count |
| ActivityOutcome.InsertedIsGrowth | internal/storage/db.go:185-197 | on any tables the count of a replay is the number of rows the device gained |
| ActivitySegments.OnlyLastOpen | internal/storage/activity.go:115-154 | in the declarative segmentation only the last event can be open, and it is open exactly when the last two readings hold a running one after the last split |
| ActivitySegments.StartsAreComplete | internal/storage/activity.go:126-138 | the listed starts are all running readings with no fresh running reading before them, in order and once each |
| ActivitySegments.PeaksAreMaxima | internal/storage/activity.go:138-144 | an event's peaks are attained by, and bound, its running readings |
| ActivityHistory.EventsAreSegments | internal/storage/activity.go:87-170 | for every history of any devices, orders, duplicates and bindings, the rows of each device are the segmentation of the readings that advanced its latest time |
| ActivityHistory.RecordTracks | internal/storage/activity.go:87-170 | one call takes the entry exactly when it advances the device's time, and leaves rows and state of every other device alone |
| ActivityHistory.EventsAreDisjoint | internal/storage/activity.go:102-155 | events end no earlier than they start, with that duration, and strictly before the next one starts |
| ActivityHistory.SamplesAreConserved | internal/storage/activity.go:125-144 | the sample counts of all events add up to the running readings accepted |
| ActivityHistory.OneBindingPerEvent | internal/storage/activity.go:115-124 | no event counts readings under two different non-empty bindings |
| ActivityHistory.OpenRowIsNamed | internal/storage/activity.go:102-155 | after every history a device has at most one open row, the one its checkpoint names; the low counter is at most one, and zero when nothing is open or no row was ever opened |
| ActivityRecovery.SamplesAreSuffix | internal/storage/activity.go:155-168 | the stored samples of a device are always the latest readings it accepted |
| ActivityRecovery.IgnoreHolds | internal/storage/activity.go:163-165 | a sample goes in exactly when its time is free, and nothing else changes |
| ActivityRecovery.ReplaceHolds | internal/storage/db.go:132-134 | a legacy sample goes in for good and takes the place of the one at its time, and nothing else changes |
| ActivityRecovery.SinceHolds | internal/storage/activity.go:166-168 | the cleanup keeps exactly the samples that are not older than the cutoff |
| ActivityRecovery.BackfillIsIdle | internal/storage/db.go:158-198 | a backfill after live recording, from any time and stopped anywhere, inserts nothing and changes nothing |
| ActivityRecovery.CrashesAndReplaysAreInvisible | internal/storage/activity.go:85-169 | with crashes before commit and backfills at any moments, the tables depend on the committed readings alone |
| ActivityRecovery.BackfillIsSegmentation | internal/storage/db.go:158-198 | raw samples of any history, backfilled into fresh tables, give the segmentation of the samples that are left: those within a day of the last, from the given time on |
| ActivityRecovery.BackfillReproducesLive | internal/storage/db.go:158-198 | for readings within one day and without a change of binding these are the event rows that live recording gave |
| ActivityAdoption.RecoverState | internal/storage/activity.go:25-83 | after every history, of any bindings, adoption and replay bring back rows and state but for the binding, as long as the last two accepted samples are stored |
| ActivityCheckpointLoss.LossShowsExactly | internal/storage/activity.go:25-83 | over every history and every continuation, of any devices and bindings, the event tables with and without the loss are the same exactly when the first binding the device accepts in the continuation does not split an open event |
| ActivityCheckpointLoss.LostCheckpointIsInvisible | internal/storage/activity.go:25-83 | so under a constant binding the loss never shows |
| ActivityCheckpointLoss.LateBindingShows | internal/storage/activity.go:115-124 | a case in which it shows, and not at the first reading |
| ActivityAdoption.LegacyRunIsNotMerged | internal/storage/activity.go:106-114 | an event left open after two stored low samples is closed at the second one, and a new run becomes a new event |
| JebaoFrames.BuildPacket | internal/jebao/protocol.go:21-35 | the length loop writes header, unsigned LEB128 length and body |
| JebaoFrames.PacketOnTheWire | internal/jebao/protocol.go:21-35 | the bytes by their places: header, the length in one to three marked groups of seven bits, a zero, the command with its high byte first, the payload |
| JebaoFrames.Reader.ReadFrame | internal/jebao/protocol.go:37-67 | each way of reading or rejecting a frame, and how much input it consumes |
| JebaoFrames.PacketIsReadBack | internal/jebao/protocol.go:21-67 | a packet is read back as its command and payload, and nothing after it is touched |
| JebaoFrames.StreamIsReadBack | internal/jebao/protocol.go:21-67 | reading the concatenation of any packets gives exactly that list, with nothing left over |
| JebaoFrames.LongPacketsAreRejected | internal/jebao/protocol.go:45-66 | a packet is readable exactly when its payload and the three bytes before it are at most 65536 bytes |
| JebaoFrames.PacketsArePrefixFree | internal/jebao/protocol.go:37-67 | every proper prefix of a packet makes the reader ask for more |
| JebaoBits.BigEndianBit | internal/jebao/models.go:83-86 | each bit of the big-endian group value is a bit of one of its bytes |
| JebaoBits.FieldDependsOnItsBits | internal/jebao/models.go:86 | a shifted and masked field depends on its own bits only |
| JebaoAttributes.DecodeStatus | internal/jebao/models.go:42-104 | on every table the decoder's sizes, error cases and table of values |
| JebaoAttributes.DecodesExactly | internal/jebao/models.go:42-104 | on sized tables a status decodes exactly when it has the size, all positions are valid, the packed group has at most 64 bits, no field more than 32, and there is something to decode |
| JebaoAttributes.SizedStaysInside | internal/jebao/models.go:43-92 | with bools and enums in bits and 16-bit numbers in two bytes no status makes the decoder slice out of range |
| JebaoAttributes.ReadingDependsOnOwnBits | internal/jebao/models.go:70-92 | a decoded value depends on the bits the attribute owns and on no other |
| JebaoAttributes.OneAttributeChanges | internal/jebao/models.go:42-104 | a status that differs in the bits of one attribute decodes to the same table with that one entry replaced |
| JebaoAttributes.DecodeReads | internal/jebao/models.go:65-104 | the decoded table holds every attribute's own reading |
| JebaoPayloads.FlagsArePower | internal/jebao/flow.go:50-51 | the attribute set is 2 to the attribute's number as a big-endian 64-bit number |
| JebaoPayloads.BuildSpeed | internal/jebao/control.go:35-52 | when the speed payload is refused, and its bytes otherwise |
| JebaoPayloads.BuildFeeding | internal/jebao/feeding.go:14-35 | when the feeding payload is refused, and its bytes otherwise |
| JebaoPayloads.BuildFlow | internal/jebao/flow.go:23-55 | when the flow payload is refused, and its bytes otherwise |
| JebaoPayloads.SpeedChangesOnlySpeed | internal/jebao/control.go:35-52 | on every well-formed table the speed payload changes the decoded speed and nothing else, and its flags are 2 to the speed's number |
| JebaoPayloads.FeedingChangesOnlyFeedSwitch | internal/jebao/feeding.go:14-35 | on every well-formed table the feeding payload changes the decoded feed switch and nothing else |
| JebaoPayloads.FlowChangesOnlyFlow | internal/jebao/flow.go:23-55 | on every well-formed table the flow payload changes the decoded flow and nothing else |
| JebaoPayloads.SpeedGuardIsDecoded | internal/jebao/control.go:36-44 | the masks tested on the raw status are the decoded switch, feeding and timer flags |
| JebaoPayloads.SpeedRefusals | internal/jebao/control.go:36-44 | why a speed is refused, in terms of the decoded flags |
| JebaoPayloads.LengthsAreChecked | internal/jebao/control.go:35-37 | a status or token of another length, or a speed out of range, is not supported |
| JebaoPayloads.FeedingGuardIsDecoded | internal/jebao/feeding.go:14-25 | feeding may always be stopped, and started exactly when the decoded flags say on and not scheduled; why it may not otherwise |
| JebaoPayloads.FlowMessages | internal/jebao/flow.go:36-55 | the messages of the two wavemakers byte by byte: 464 and 413 bytes, attributes 4 and 8, one changed byte |
| JebaoFlowGuard.GmpGuardOnBytes | internal/jebao/flow.go:36-47 | on every status of the 30-series wavemaker the decoded conditions are exactly four bits of the first byte and a value of the second |
| JebaoFlowGuard.DlwGuardOnBytes | internal/jebao/flow.go:36-47 | on every status of the other wavemaker they are exactly five bits, the linkage field spanning two bytes |
| JebaoTables.MdpTable | internal/jebao/models.json:1 | the pump's table is well formed, 302 bytes long, with one byte of flags |
| JebaoTables.PumpWritesOneAttribute | internal/jebao/control.go:35-52 | on every 302-byte status of the pump an accepted speed or feeding write changes its own attribute only |
| JebaoTables.FlowWritesOneAttribute | internal/jebao/flow.go:23-55 | on every status of the two wavemakers an accepted flow write changes the decoded flow only |
| JebaoConversation.Connection.WriteModel | internal/jebao/control.go:68-144 | the conversation over the peer's bytes: result, what was sent, what was consumed; the next rows say on the bytes which answers pass |
| JebaoConversation.PasscodeIsChecked | internal/jebao/control.go:92-98 | an answered passcode is refused exactly when it is not 3 to 66 bytes whose first two count the rest; otherwise it is sent back as the login |
| JebaoConversation.LoginIsChecked | internal/jebao/control.go:99-105 | an answered login passes exactly when its first byte is there and zero |
| JebaoConversation.StatusIsChecked | internal/jebao/control.go:106-115 | an answered status passes exactly when it has the size and starts with 3 or 4 |
| JebaoConversation.AckIsChecked | internal/jebao/control.go:128-134 | an answered write is reported as a wrong acknowledgement exactly when that does not start with the four bytes of the token, and then nothing more is sent or read |
| JebaoConversation.SuccessOnBytes | internal/jebao/control.go:92-144 | what the five answers of a successful run are, byte by byte, the token in the acknowledgement among them |
| JebaoConversation.AwaitHears | internal/jebao/control.go:77-91 | an exchange takes the first wanted frame among the next 24 and reads no further |
| JebaoConversation.HeardIsAwaited | internal/jebao/control.go:77-91 | and whenever there is such a frame the exchange takes it |
| JebaoConversation.AwaitGivesUp | internal/jebao/control.go:77-91 | a failing exchange reads exactly 24 unwanted frames, or fewer and then one it cannot read |
| JebaoConversation.ExchangeReadsAtMost24 | internal/jebao/control.go:77-91 | in numbers, for every exchange and each way it ends |
| JebaoConversation.ScriptIsFollowed | internal/jebao/control.go:92-144 | against every peer the commands are a prefix of 6, 8, 0x90, 0x93, 0x90; the one write carries what the guards made of the status read on this connection; success sends all five |
| JebaoConversation.SuccessMeansVerified | internal/jebao/control.go:92-144 | success exactly when five writes went out and the peer gave acceptable answers, the acknowledgement carrying the token and the read-back passing the check |
| JebaoControls.SpeedSuccess | internal/jebao/control.go:54-64 | a reported speed change means the read-back shows that speed, switched on, not feeding, not scheduled |
| JebaoControls.FeedingSuccess | internal/jebao/feeding.go:37-48 | a reported feeding change means the read-back shows the asked switch, and power and timer as they were read |
| JebaoControls.FlowSuccess | internal/jebao/flow.go:56-70 | a reported flow change means the read-back shows that flow, and every attribute of the first two bytes as it was read |
| JebaoControls.SpeedCheckIsDecoded | internal/jebao/control.go:54-64 | a speed read-back passes exactly when it decodes to the speed and no bit of the flags changed |
| JebaoControls.FeedingCheckIsDecoded | internal/jebao/feeding.go:37-48 | a feeding read-back passes exactly when the switch decodes as asked and the three other flags as before |
| JebaoControls.FlowCheckIsDecoded | internal/jebao/flow.go:56-70 | a flow read-back passes exactly when it decodes to the flow and no bit of the first two bytes changed |
| JebaoMonitor.Monitor.TryEnter | internal/jebao/monitor.go:157-163 | the busy flag is taken exactly when it was free |
| JebaoMonitor.Monitor.Accept | internal/jebao/monitor.go:254-270 | every matching record takes the identity, and loses its attributes when the product key changes |
| JebaoMonitor.Monitor.Failed | internal/jebao/monitor.go:271-278 | a failure marks one record and no other |
| JebaoMonitor.Monitor.StoreReading | internal/jebao/monitor.go:233-241 | a reading is stored in one record and no other |
| JebaoMonitor.Monitor.StoreControl | internal/jebao/control.go:189-199 | a control's result is stored together with the identity it was read from |
| JebaoMonitor.Monitor.PutSettings | internal/jebao/monitor.go:352-377 | new hosts are taken exactly when nobody is busy, they are known and private, and the file was replaced |
| JebaoMonitor.ReadingIsFresh | internal/jebao/monitor.go:119-124 | a stored reading is shown as fresh for exactly ninety seconds |
| JebaoMonitor.FailureKeepsReading | internal/jebao/monitor.go:271-278 | after a failure nothing is fresh, but what was read stays to be shown |
| JebaoMonitor.AcceptForgets | internal/jebao/monitor.go:254-270 | what was read is forgotten exactly when the device answers under another product key |
| JebaoMonitor.ConfiguredHostWins | internal/jebao/control.go:159-166 | a configured host wins over the address a device last answered from |
| JebaoMonitor.CaseIsIgnored | internal/jebao/monitor.go:260 | hardware addresses are the same when they differ in the case of letters only |
| JebaoMonitorRuns.MonitorIsSafe | internal/jebao/monitor.go:156-278 | in every interleaving at most one operation is in, and attributes were read from the registered hardware address under the product key on record |
| JebaoMonitorRuns.HostsAreStable | internal/jebao/monitor.go:352-377 | hosts change only while nobody is in, so a refresh works on the hosts as they are |
| JebaoMonitorRuns.FreshMeansRead | internal/jebao/monitor.go:119-124 | a device shown as fresh is connected and has attributes read within ninety seconds |
| JebaoMonitorRuns.WorkerStoresReading | internal/jebao/monitor.go:195-242 | a goroutine whose device answers and is read stores the reading with that identity, fresh |
| JebaoMonitorRuns.ControlStoresReading | internal/jebao/control.go:152-200 | a control that finds its device and writes to it stores the reading and lets the next operation in |
| JebaoMonitorRuns.PickIsFirst | internal/jebao/monitor.go:200-210 | the first answer from the registered address is taken, unless it names no place to call |
| JebaoMonitorRuns.PickForControlIsFirst | internal/jebao/control.go:174-183 | a control takes the first answer from that very address under a known product key |
| JebaoMonitorRuns.ShippedAreRegistered | internal/jebao/monitor.go:74-79 | the four devices a monitor is opened with have distinct addresses, so the results apply to it |
| LampWindows.ClampWindowToNight | internal/engine/model.go:270-291 | the nested search returns the first largest overlap of the shifted windows |
| LampWindows.ClampIsLongestCommonArc | internal/engine/model.go:270-291 | fails exactly when the windows share no minute; otherwise its window lies in both and no common arc is longer |
| LampWindows.LunarWindow | internal/engine/model.go:229-268 | every active minute of a tracked moon window lies in the night window, whatever the moonrise shift, for night endpoints up to 24:00 |
| LampWindows.UntrackedWindow | internal/engine/model.go:229-252 | without tracking the window is the configured one |
| LampWindows.DefaultWindow | internal/engine/model.go:230-237 | an unreadable window is from half past six in the evening to half past six in the morning |
| LampWindows.TrackedWindowMoves | internal/engine/model.go:229-252 | tracking moves every minute of the configured window by the moonrise shift |
| LampWindows.DefaultNight | internal/engine/model.go:252-266 | an unreadable night keeps the moon to six in the evening until eight in the morning |
| LampWindows.EqualNightEndpointsDoNotClamp | internal/engine/model.go:105-121 | with equal night endpoints the clamp succeeds though no minute counts as night |
| LampModel.Interpolate | internal/engine/model.go:77-87 | each channel is the rounded, clamped mix of the two neighbouring rows; InterpolatedIsWeightedMean says which in integers |
| LampIntegers.InterpolatedIsWeightedMean | internal/engine/model.go:77-87 | m minutes past the hour a channel is the nearest percent to (60-m) parts of its row and m parts of the next |
| LampModel.EffectiveSchedule | internal/engine/model.go:163-180 | resampling by the total shift and scaling by the acclimation percentage |
| LampIntegers.EffectiveRowIsScaled | internal/engine/model.go:163-180 | a row is the nearest percent to the acclimation percentage of the schedule, read at its hour less the shift |
| LampIntegers.AcclimationInDays | internal/engine/model.go:128-145 | on each whole day the percentage is the nearest to the line from the start to a hundred |
| LampIntegers.SeasonIsNearest | internal/engine/model.go:148-159 | the seasonal shift is within half a minute of the cosine times the largest shift |
| LampModel.Compute | internal/engine/model.go:347-363 | channels and source in manual and automatic mode |
| LampIntegers.DaylightInIntegers | internal/engine/model.go:347-363 | outside the moon each channel is the effective schedule at this minute, less the siesta, and then times the master, to the nearest percent and at most a hundred |
| LampIntegers.SiestaBeforeMaster | internal/engine/model.go:347-363 | half of full light, doubled, is full light: the siesta comes before the master |
| LampIntegers.SiestaHours | internal/engine/model.go:197-212 | the siesta lasts its duration from its start, which all shifts move |
| LampIntegers.MoonlightLifts | internal/engine/model.go:310-330 | moonlight lifts the second channel, on the larger lamp the fifth to seven tenths of it, and no other |
| LampIntegers.MoonPercentIsNearest | internal/engine/model.go:310-317 | with k hundredths of the moon lit it is that part of the largest intensity, to the nearest percent |
| LampIntegers.NoMoonlight | internal/engine/model.go:312-314 | without a positive percentage nothing changes |
| LampIntegers.MoonlightIsUndimmed | internal/engine/model.go:347-363 | moonlight comes last: neither siesta nor master dims it |
| LampModel.AutoOutputInRange | internal/engine/model.go:347-363 | automatic output is a percentage for every integer schedule when the master is not negative |
| LampModel.RangeNeedsMaster | internal/engine/model.go:184-195 | without the other effects that range holds for every schedule exactly when the master is not negative |
| LampModel.DaylightMonotone | internal/engine/model.go:163-226 | without the moon a brighter schedule never gives a dimmer channel, through both interpolations and all roundings |
| LampModel.MonotoneExactly | internal/engine/model.go:299-363 | with the moon that holds for all schedules exactly when moonlight is not due or the acclimation percentage does not exceed the day threshold |
| LampModel.MoonlightIsNotMonotone | internal/engine/model.go:299-330 | a case in which it fails |
| LampModel.AcclimationNeverFalls | internal/engine/model.go:128-145 | the acclimation percentage never falls as time passes and never exceeds a hundred |
| LampPush.NormalizeSchedule | internal/httpapi/server.go:1042-1062 | rows are accepted exactly when there are 24, all values are percentages and the times are valid; then they are kept |
| LampPush.ScheduleFromRows | internal/piapi/piapi.go:217-225 | rows of any lengths fill the schedule, absent cells being zero |
| LampSnapshot.EngineSnapshot | internal/piapi/piapi.go:243-296 | the stored state becomes padded rows and channels and a configuration in which missing settings have their defaults |
| LampSnapshot.MissingSettings | internal/piapi/piapi.go:257-273 | a missing master counts as full, a missing moonlight intensity as fifteen percent, a missing siesta length as the older field |
| LampSnapshot.PresentSettings | internal/piapi/piapi.go:257-290 | settings that are there reach the computation as they are |
| LampSnapshot.SnapshotOutputInRange | internal/piapi/piapi.go:461-466 | whatever is stored, the master used is positive and automatic output is a percentage |
| LampSnapshot.PrebakePush | internal/piapi/piapi.go:145-213 | without the ramp an automatic push of 24 rows of any lengths becomes the baked rows of the padded schedule, which the validation accepts whatever the body and the stored state hold; any other body is left alone |
| LampPush.BakedRowsAreAccepted | internal/piapi/piapi.go:193-204 | with a master that is not negative the baked rows of every schedule pass the validation |
| LampPush.RewritePush | internal/piweb/piweb.go:106-121 | the rotation loop; the next rows say what it sends |
| LampPush.RowsMoveLater | internal/piweb/piweb.go:106-121 | a shift of k hours moves each row k hours later, with everything in it but the hour |
| LampPush.RotatedHours | internal/piweb/piweb.go:113-115 | the hour of a moved row is that of its new place |
| LampPush.RotationsKeepHours | internal/piweb/piweb.go:106-121 | rows that start as hours 0 to 23 are hours 0 to 23 after any rotations |
| LampPush.ComposeExactly | internal/piweb/piweb.go:106-121 | for all bodies of 24 rows two rotations are one by the sum exactly when the whole hours of the two shifts add up to those of the sum |
| LampPush.RotationsCompose | internal/piweb/piweb.go:106-121 | so whole-hour rotations of any sign and size add up, and ninety minutes twice are not three hours |
| LampPush.RotationIsResampling | internal/piweb/piweb.go:106-121 | for every whole-hour shift the rotated rows have the channel columns of the resampled schedule |
| LampBaking.BakeOfRotated | internal/piapi/piapi.go:190-204 | for every whole-hour shift, baking the rotated rows gives what the shifted schedule would show live, with all other effects, wherever the siesta is on or off alike |
| LampBaking.SiestaUnmovedExactly | internal/engine/model.go:197-212 | that is at every minute exactly when there is no siesta or the shift is of full days: a baked siesta is not moved with the rows |
| LampDriver.Engine.Step | internal/engine/engine.go:285-380 | what one tick does to the engine's fields, the lamp and the write counters |
| LampDriver.TickReports | internal/engine/engine.go:309-380 | the status names the target of every tick, and how its write went |
| LampDriver.InsaneClockIsIdle | internal/engine/engine.go:285-290 | without a sane clock a tick does nothing |
| LampDriver.RunningOverrideIsTarget | internal/engine/engine.go:299-317 | in every run a tick before an override's time is up drives towards it |
| LampDriver.EndedOverrideIsNotTarget | internal/engine/engine.go:299-317 | and from that time on towards the computed light |
| LampDriver.OverrideEnds | internal/engine/engine.go:309-337 | with the ramp off the first tick from then on makes one re-arm and no hand write, and the lamp is on its own schedule when that succeeds |
| LampDriver.ExpiredIsNone | internal/engine/engine.go:299-371 | an override that has expired is, for any ticks in any state, as if it were not there |
| LampDriver.ExpiredIsNeverWritten | internal/engine/engine.go:299-371 | so with the ramp off it is never written |
| LampDriver.Engine.SetLive | internal/engine/engine.go:148-160 | a change of the live flag forgets what was sent |
| LampDriver.Engine.SetOverride | internal/engine/engine.go:202-207 | only the override changes |
| LampDriver.Engine.RampStop | internal/piapi/effects.go:154-168 | the engine goes dormant and the lamp gets its schedule back, whether or not the ramp was on |
| LampDriver.DormantLampRunsItself | internal/engine/engine.go:319-353 | in every run whose schedule pushes succeed, after a tick that finds no override and no live mode the lamp is on its own schedule |
| LampDriver.RearmsAreDormantEdges | internal/engine/engine.go:309-337 | over every run the re-arms are exactly the dormant ticks at which an override is found to have ended |
| LampDriver.RearmDecides | internal/engine/engine.go:323-337 | over any later dormant ticks the lamp is on its own schedule exactly when that one re-arm succeeded or it was there already |
| LampDriver.FailedRearmIsFinal | internal/engine/engine.go:323-337 | a run from the start that leaves a hand value on the lamp for as long as nothing else happens |
| LampDriver.StopKeepsTruth | internal/piapi/effects.go:154-168 | a ramp stop keeps the engine's belief true exactly when the ramp was on or nothing counted as sent |
| LampDriver.RunsAreTruthful | internal/engine/engine.go:354-371 | in every run without such an idle stop that republishes, what counts as sent is what the lamp last accepted |
| LampDriver.DrivingTickShowsTarget | internal/engine/engine.go:339-371 | then a driving tick leaves its target on the lamp or a write was attempted and failed, and a mismatch is always written |
| LampDriver.IdleStopHidesOverride | internal/piapi/effects.go:154-168 | an idle ramp stop hides an active override for as long as it lasts, with every write succeeding |
| LampInterleaving.TracesAreConsistent | internal/engine/engine.go:285-380 | with SetLive and SetOverride between any two lock sections and any writes failing, what counts as sent is what the lamp accepted |
| LampInterleaving.DrivingStepShowsTarget | internal/engine/engine.go:354-371 | a driving step ends with its target on the lamp, or with a failed write |
| LampInterleaving.MismatchIsRetried | internal/engine/engine.go:354-360 | a step that finds another value on the lamp writes to it |
| LampInterleaving.UninterruptedStepIsAtomic | internal/engine/engine.go:285-380 | the lock sections of an undisturbed step compose to the atomic step |
| LampFrames.DecodeState | internal/k7tcp/client.go:241-287 | each error case, and the fields of a decoded frame |
| LampFrames.DecodesExactly | internal/k7tcp/client.go:241-262 | which frames decode, by their bytes |
| LampFrames.DecodedBytes | internal/k7tcp/client.go:262-287 | every field by the place of its bytes, rows that were not announced being zero |
| LampFrames.FrameStart | internal/k7tcp/readrobust.go:84-91 | the first place that looks like a state frame |
| LampFrames.ReadAllAttempt | internal/k7tcp/readrobust.go:49-77 | the accumulation loop over the reads returns the first look that decodes |
| LampFrames.ChunkingDoesNotMatter | internal/k7tcp/readrobust.go:49-77 | every split of an unambiguous answer is read as exactly the encoded state |
| LampFrames.AmbiguousIsMisread | internal/k7tcp/readrobust.go:79-91 | every ambiguous answer has a split that is not |
| LampFrames.ReaderIsChunkIndependent | internal/k7tcp/readrobust.go:49-91 | the answer is independent of the split exactly when the name holds no terminator byte and no acknowledgement passes for a frame |
| LampFrames.PushSchedule | internal/k7tcp/client.go:141-163 | the byte layout of a schedule push |
| LampFrames.PushBytes | internal/k7tcp/client.go:141-163 | all 208 bytes by their places, header, mode, clock and terminator included |
| LampFrames.PushIsReadBack | internal/k7tcp/client.go:141-163 | a state frame that repeats a push is read back as the pushed channels, rows and mode, in any chunks |
| EquipmentModel.Validate | internal/equipment/store.go:311-345 | accepts exactly the valid maps |
| EquipmentSort.SortPermutes | internal/equipment/store.go:379-385 | the copy holds the same devices, in slot order |
| EquipmentSort.SortFits | internal/equipment/store.go:379-385 | the copy passes the device checks when the original does |
| EquipmentStore.CloneIsValid | internal/equipment/store.go:379-385 | the snapshot handed out of a valid map is valid |
| EquipmentAssign.AssignKeepsValid | internal/equipment/store.go:196-211 | rebinding keeps the map valid, so the check after it cannot fail |
| EquipmentAssign.AssignPermutes | internal/equipment/store.go:196-206 | the bindings are permuted when the switch was bound, and otherwise one is replaced |
| EquipmentAssign.AssignTouchesBindingsOnly | internal/equipment/store.go:196-208 | the named device gets the switch and nothing but bindings changes |
| EquipmentAssign.AssignIsUndone | internal/equipment/store.go:196-206 | giving the device its old switch back restores all devices |
| EquipmentStore.Store.Assign | internal/equipment/store.go:180-217 | each error case; the new map in memory and on disk; a failed save keeps the change in memory |
| EquipmentStore.Store.UpdateSettings | internal/equipment/store.go:115-175 | the new map when accepted and saved; on any failure memory and disk are as they were |
| EquipmentSettings.AcceptedExactly | internal/equipment/store.go:115-166 | an update is accepted exactly when counts, distinct ids, names, poll times, coverage and distinct switches are right |
| EquipmentSettings.TrimTakesSpaceOff | internal/equipment/store.go:124-126 | trimming takes white space off both ends, only that and all of it |
| EquipmentSettings.DeviceInputOk | internal/equipment/store.go:127-132 | a device input is fine exactly with an id and a name of 1 to 60 characters |
| EquipmentSettings.StripInputOk | internal/equipment/store.go:145-152 | a strip input exactly with an id and a poll time of 1 to 3600 seconds |
| EquipmentSettings.FirstBadDecides | internal/equipment/store.go:123-134 | the first bad input decides the error |
| EquipmentSettings.FaultsAre | internal/equipment/store.go:130-152 | a device input has no other fault than its name, a strip input than its poll time |
| EquipmentSettings.MatchedOneToOne | internal/equipment/store.go:122-161 | the new map is valid, has the same devices in slot order with only the editable fields replaced, and matches inputs one to one |
| EquipmentSettings.StripsArePolled | internal/equipment/store.go:154-163 | the update counts one revision, and of a strip only the poll time changes, to what its input asks for |
| EquipmentOutlet.OutletsAreDistinct | internal/equipment/outlet.go:8-20 | in a valid map two devices never resolve to the same outlet of the same strip |
| EquipmentOutlet.CatalogDecides | internal/equipment/outlet.go:8-20 | a device resolves exactly when its switch is in the catalog, and then to an outlet the strip has |
| EquipmentOutlet.ResolvesToNamedOutlet | internal/equipment/outlet.go:8-20 | in a valid map the slot a device resolves to is the number in the name of its switch |
| OtaFiles.Root.Apply | internal/updater/updater.go:254-276 | the file operations of an update in their order, cut off where one fails or the power goes |
| OtaFiles.Root.Rollback | deploy/rollback.sh:16-48 | the guards, and then the file operations in their order, cut off likewise |
| OtaRuns.StepsPerformTheScript | internal/updater/updater.go:254-276 | the steps of an undisturbed update perform exactly that order |
| OtaRuns.CurrentIsInstalled | internal/updater/updater.go:254-276 | in every run with crashes anywhere `current` names a release whose binary is whole |
| OtaRuns.RollbackSparesConfirmed | deploy/rollback.sh:23-26 | a rollback never leaves the version on record as confirmed, nor one confirmed since it was installed |
| OtaRuns.RollbackMovesOnce | deploy/rollback.sh:31-38 | between two updates a rollback moves `current` at most once |
| OtaRuns.RollbackLandsOnSource | deploy/rollback.sh:44-46 | when PREVIOUS was written a rollback lands on the version that was running when the update was applied |
| OtaRuns.RollbackLandsExactly | deploy/rollback.sh:44-46 | in every run it lands there exactly when PREVIOUS was written in that update, or could not be opened and named that version before, or was written once more by the same service; emptied and not written again it moves nothing |
| OtaRuns.FailedUpdateIsRolledBack | deploy/rollback.sh:23-42 | a completed update that fails is rolled back to the version that ran exactly when that was noted, is another, installed version, the new one is not on record as confirmed, and this rollback was not made before; for each way the writing of PREVIOUS can go |
| OtaRuns.SecondFailureStays | deploy/rollback.sh:39-48 | after a completed rollback the same version, installed again, is not rolled back |
| OtaRuns.OtherFailureIsRolledBack | deploy/rollback.sh:39-48 | but any other version that is not on record as confirmed is |
| OtaRuns.ConfirmedStays | internal/updater/updater.go:285-308 | a confirmed version is not rolled back |
| OtaRuns.UnnotedUpdateLandsElsewhere | internal/updater/updater.go:271-273 | a run in which PREVIOUS could not be opened and the rollback lands on a version that was not running |
| OtaRuns.MovedRollbackStaysPut | deploy/rollback.sh:31-34 | after a rollback that crashed past its move, the next one does nothing |
| OtaCheck.Check | internal/updater/updater.go:155-192 | offers a newest eligible release, and only one newer than what runs; none is withheld otherwise |
| OtaCheck.OfferIsAllowed | internal/updater/updater.go:160-180 | what is offered is no draft, complete, one of ours, and a prerelease only when those are asked for |
| OtaCheck.NewerIsOffered | internal/updater/updater.go:155-192 | and something is offered whenever such a release is newer than what runs |
| OtaCheck.NewerByParts | internal/updater/updater.go:385-396 | newer means greater in the first number that differs |
| OtaCheck.TagsOrderByNumber | internal/updater/updater.go:385-409 | tags of three plain numbers compare as the numbers do, whatever suffixes follow a hyphen |
| OtaCheck.ShortTags | internal/updater/updater.go:397-409 | numbers that are left out count as zero |
| OtaCheck.OffersGoByNumber | internal/updater/updater.go:155-192 | a release is offered exactly when an eligible one has greater numbers than what runs, and then one with the greatest |
| OtaCheck.CandidateHidesItsRelease | internal/updater/updater.go:398-400 | while a candidate runs, no tag with its numbers is ever offered |

## Left out

- Sockets, deadlines, TLS, HTTP handlers, JSON and SQL text, systemd and logging: a connection is a sequence of bytes or chunks, a table a value, a transaction all or nothing.
- Timestamps as text: times are integers, although SQL compares the stored strings.
- IEEE rounding: arithmetic is over reals, rounding half away from zero; the cosine of the season, the moon phase and the illumination are parameters.
- Retention cleanup of events, and reading or exporting history: they would only add easy members.
- ActivityCheckpointLoss.LossShowsExactly: while the checkpoint is missing, the cleanup that another device's reading brings must not delete the last two stored samples, which are all that adoption has.
- ActivityRecovery.BackfillReproducesLive: older samples are deleted and a backfill carries no binding; without these limits BackfillIsSegmentation says what comes out.
- JebaoAttributes.DecodeStatus: a table that points past the status gives an error of its own, where the original stops or reads past it. The embedded tables do not.
- JebaoTables: of the embedded table file the three products that can be written to; display names and enum texts.
- JebaoFrames: discovery answers (parseIdentity) and the read-only status connection, which repeats the first three exchanges.
- JebaoConversation.Connection.WriteModel: deadlines and cancellation appear as failing writes and as input that ends.
- JebaoMonitorRuns: labels, device ids and firmware in identities, and the history store, which only reads snapshots.
- LampWindows.LunarWindow: clock texts past 24:00, which the engine's parser also accepts. In the running program the stored settings always have moonrise tracking cleared (internal/httpapi/server.go:1272), so only the untracked window is used.
- LampModel: parsing of clock texts, which gives minutes or -1; Compute takes the moon window of the moment as a parameter, LunarWindow computes it.
- LampDriver: a republish by the API or a hand value from the user while a step is past its snapshot, and the daily drift check.
- EquipmentStore: reading the file at start and upgrading older schemas, after which the same check runs.
- EquipmentModel: the sensor entities and hosts of power strips, which no check reads; Rename, SetHighFrequency and SetStripPollInterval change fields no check reads.
- OtaRuns: nothing is claimed about when the service is restarted. Writes reach the disk in order. A release's binary reports the tag it is filed under.
- OtaFiles.Root.Apply: download, checksum and the backup before the update only decide whether these operations begin.
- OtaCheck.Check: the second request for a release's assets is part of whether its assets are attached.
- Ring logs, tallies, temperature back-off, the HS300 stream, dosing, profiles, Home Assistant sync and all user interface code.
