# Container monitor: verified model

The firmware watches a shipping container. It reads sensors, keeps telemetry and alerts on an SD card
until a broker has them, takes commands over Bluetooth, remembers its stage in NVS across power cuts, and
finds other containers on the vessel by flooding ESP-NOW packets. These modules model the parts that hold
state and arithmetic, and prove what they keep over every input, every run or every interleaving.

| module | component |
|---|---|
| Crc8 | checksum loop and acceptance test of the humidity sensor |
| FanControl | the fan controller and its latch |
| CargoLoss | the loss recurrence |
| Lines, SdCard | JSONL files: append, read, split in place, flush through a temporary file |
| AlertQueue, FlushSteps, AlertCuts, AlertTask | the alert backlog: whole flushes, one flush cut at any step, runs with such cuts, and the rounds that raise and flush alerts |
| JsonText | JSON as cJSON prints it, and which of its prefixes close |
| TelemetryBatch, TelemetryPipeline, TelemetryTrigger, TelemetryTasks | the batch, producer and consumer interleaved, what a fired trigger means, one round of each side |
| DedupRing, MacText, Packets | duplicate buffer, addresses as text, packet layout and size |
| FloodNode, FloodNet | one node, and the network of nodes with copies in flight |
| FloodRadius, FloodTermination, FloodOnce, FloodBfs | how far, how long, how often and in which order a flood travels |
| DeviceState, StageMachine | globals and NVS, and the steps of stage task, BLE task and power cuts on them |
| StageRecovery, StageBoot | what a reboot restores, and what commands handled before boot recovery do to it |
| StageHandover, StageSkip | who authorised a handover, why the door alert is off, and when stage 3 comes without transport |
| StageWaits | what the stage task waits for before it goes on |
| StageTrip | whole trips from set-up to stage 3, with and without transport |
| DeviceTasks | the handlers and straight-line parts of the stage task on mutable state |

Whatever the source updates in place is a class whose methods are proved equal to specification functions;
tasks that run side by side are step functions over one state, with runs in any order.

## Where the code differs from its documentation

The model follows the code.

- The header says that every node on the path lights its PATH LED (components/local_network/espnow_manager.h:14-17).
  An ACK is addressed to the entry before last of a path that nobody shortens, which is the receiver itself, and
  the receiver suppresses it because REQ and ACK share one duplicate buffer: `FloodNet.AckInFlight`, `FloodOnce.AcksAreQuenched`.
- Every forwarder puts its address into the path twice, so a path has 2 * hop - 1 entries: `FloodNet.ReqInFlight`.
- The TTL is 8, but a packet of hop 5 or more never fits into 250 bytes: `FloodRadius.FloodRadiusIsFour`.
- The telemetry trigger is a counter of at least four; it guarantees three records on the card, and four exactly
  if the last reset of the counter did not leave a record uncounted that was already off the card:
  `TelemetryTrigger.TriggerMeansThreeRecords`, `TelemetryTrigger.FourRecordsIffNotLate`.
- The fan latch is not saved: it holds exactly until CMD 03 with value 1 or a reboot into transport that still finds
  the saved flag set: `FanControl.RisingHumidityLatches`, `FanControl.RebootForgetsLatch`.
- A flush cut exactly between remove and rename, with some publish failed, leaves alerts in a file that nothing reads
  back: `FlushSteps.UnpublishedStaysPendingIff`, `FlushSteps.StrandedAlertsAreErased`.
- Records go out twice exactly if no truncation succeeds between two publishes:
  `TelemetryPipeline.SentTwiceIffNotCleared`, `TelemetryTrigger.RecordCanBeSentTwice`.
- A power cut in transport with no CMD 01 in progress restores the route history exactly if the stored count is the
  count in RAM, which it is once a CMD 01 begun after boot recovery has finished; a CMD 01 caught by the reload
  leaves NVS with less than RAM: `StageRecovery.TransportSurvivesCrash`, `StageHandover.FinishedHistorySurvives`,
  `StageBoot.CaughtCommandLosesHistory`. Between the blob write and the count write the history is kept exactly if
  the stored count is the count in RAM and what the blob leaves out is blank: `StageRecovery.TornSaveKeepsHistoryIff`.
- A power cut inside CMD 00 leaves a mixture of old and new fields: `StageBoot.HalfSavedFieldsIff`,
  `StageBoot.SetupCutMidway`.
- A reboot outside transport leads to stage 1 within one round of the main loop only if no CMD 02 sets the stage
  variable first, and to stage 3 otherwise: `StageBoot.RebootEntersStage1Or3`.
- A confirmation by CMD 02 is overwritten, and so lost, exactly if it finds the stage task in stage 1 up to its write of
  TRANSPORT, at the first or the corrective write of the stage variable, or at the end of stage 3:
  `StageSkip.ConfirmationLostIff`.
- Over runs with power cuts an alert is published and kept exactly by a flush cut before its remove step after a
  successful publish, and lost exactly by one cut between remove and rename after a failed one:
  `AlertCuts.CutRunBalances`, `AlertCuts.PublishedAgainIff`, `AlertCuts.LostIff`.
- Boot recovery gives the saved route history back exactly if no CMD 01 has written its blob since power-on, or the
  early commands happen to spell it; and the saved configuration exactly if every field was spared by early CMD 00s,
  which save all five fields, empty where they were not given: `StageBoot.ReloadGivesHistoryIff`,
  `StageBoot.LoadGivesConfigIff`, `StageBoot.EarlySetupReplacesConfig`.
- A customer id of 32 or more characters is cut when it is stored, so the customer can never confirm with it:
  `DeviceState.SetupIdConfirmsIffShort`.
- Stage 3 comes without the transport loop of stage 2 exactly if RECEIVE was first written while the stage task was in
  boot recovery, at its dispatch, or between the last writes of stage 1: `StageSkip.TransportSkippedIff`. A device
  fresh from the factory can do so: `StageTrip.FactoryConfirmsEmptyId`, `StageTrip.TransportCanBeSkipped`.

## Model

| member | source | states |
|---|---|---|
| Crc8.ComputeChecksum | components/sensors/sensors.c:134-143 | the nested loop computes the register of the shift recurrence, for data of any length |
| Crc8.AcceptMeasurement | components/sensors/sensors.c:163-168 | a measurement is accepted exactly when both three-byte frames leave residue zero, and then yields two words whose quotient and remainder by 256 are the bytes in order |
| Crc8.ResidueZeroIffChecksumMatches | components/sensors/sensors.c:163-168 | comparing the stored byte with the checksum is the same test as residue zero over data and stored byte |
| Crc8.RegisterIsLinear | components/sensors/sensors.c:134-143 | two runs of the register, from any start values over any equally long data, superpose under exclusive or |
| Crc8.ChecksumDifference | components/sensors/sensors.c:134-143 | the exclusive or of two checksums depends only on the exclusive or of the data |
| Crc8.ShiftByteIsInjective | components/sensors/sensors.c:138-140 | the eight shifts of one byte map distinct register values to distinct ones |
| Crc8.SingleByteErrorIsCaught | components/sensors/sensors.c:163-168 | changing one byte of an accepted frame of any length keeps it accepted only if the byte is the same |
| Crc8.ChecksumParity | components/sensors/sensors.c:134-143 | the checksum has the bit parity of the data |
| Crc8.OddErrorIsCaught | components/sensors/sensors.c:163-168 | an accepted frame with an odd number of flipped bits, anywhere, is rejected |
| Crc8.ShiftInNumbers | components/sensors/sensors.c:134-143 | as a number the register is doubled modulo 256 and combined with 0x31 exactly from 128 on; it starts at 0xFF |
| Crc8.CheckValue | components/sensors/sensors.c:134-143 | the checksum of 0xBE 0xEF is 0x92, the check value of the sensor data sheet |
| FanControl.FanController.SetDuty | components/actuators/actuators.c:71-78 | the duty becomes the requested one clamped to full scale |
| FanControl.FanController.AutoControl | components/actuators/actuators.c:80-138 | one reading, field by field: disabled means off and nothing remembered; enabled, the humidity is remembered and the flag cleared exactly on a rise above a positive predecessor; otherwise the duty is 1023 from 5 degrees, the floor of delta/5 * 1023 above 2, 818 over the humidity threshold, else 0 |
| FanControl.FanController.Command03 | components/bluetooth/ble_handler.c:198-213 | CMD 03 sets the flag and its saved copy and leaves the duty to the next reading |
| FanControl.DemandRange | components/actuators/actuators.c:100-133 | the demanded duty is within 0..1023, positive exactly under the temperature or the humidity rule, full scale exactly from 5 degrees, at least 409 under the temperature rule and 818 under the humidity rule alone |
| FanControl.DutyInRange | components/actuators/actuators.c:71-138 | over any events the duty is within 0..1023 |
| FanControl.DutyAfterReading | components/actuators/actuators.c:80-138 | after any run that ends with a reading a positive duty means that the fan is enabled |
| FanControl.RisingHumidityLatches | components/actuators/actuators.c:80-138 | once a rising reading has cleared the flag, the fan is off after every later event if and only if no CMD 03 with value 1 comes and every reboot into transport follows a stage 3 reset or a CMD 03 with another value; as long as that holds the duty is zero |
| FanControl.RebootForgetsLatch | components/stage/stage_machine.c:368-373 | a reboot into transport re-enables a fan that the rising rule had switched off |
| FanControl.EnabledIffNotRising | components/actuators/actuators.c:80-138 | a stretch of readings leaves the fan enabled exactly when none rises above a positive predecessor |
| FanControl.EnabledStretchIsMonotone | components/actuators/actuators.c:80-138 | positive readings served with the fan staying enabled never rise, between any two of them |
| CargoLoss.LossIsFraction | components/telemetry/telemetry_engine.c:21-27 | the loss is the carried quantity times max(0, (h - thr)/100 * weight/20) |
| CargoLoss.RemainingIsProduct | components/telemetry/telemetry_engine.c:117-158 | after any records the carried quantity is the initial one times the product of max(0, 1 - f) |
| CargoLoss.RemainingNeverGrows | components/telemetry/telemetry_engine.c:117-158 | the carried quantity is never negative and never grows along a batch |
| CargoLoss.RemainingIgnoresOrder | components/telemetry/telemetry_engine.c:117-158 | reordering the records of a batch does not change what remains |
| CargoLoss.StepBalance | components/telemetry/telemetry_engine.c:117-158 | a record keeps loss plus remainder equal to the quantity exactly when its fraction is at most one or nothing was left |
| CargoLoss.LossBalance | components/telemetry/telemetry_engine.c:117-158 | losses plus remainder add up to the initial quantity exactly when it is zero or no record is overdrawn: none costs more than everything while something is left |
| Lines.FindNewline | components/storage/sd_manager.c:211-213 | strchr: the first newline before the terminator, with the C string cut there, or none in the C string |
| Lines.ReadString | components/storage/sd_manager.c:214-222 | the C string at a position of the buffer |
| Lines.TakeLine | components/storage/sd_manager.c:211-234 | one round of the in-place splitting loop takes the next line and leaves the lines still to come intact |
| Lines.SplitInvertsJoin | components/storage/sd_manager.c:107-123 | appending any non-empty lines without newline or NUL and then splitting visits exactly those lines, in order |
| Lines.SplitAfterJoin | components/storage/sd_manager.c:211-234 | splitting appended lines followed by any text visits the lines and then the lines of the text |
| SdCard.Card.AppendLine | components/storage/sd_manager.c:107-123 | status and new file contents of an append, and no other file changes |
| SdCard.Card.ReadAll | components/storage/sd_manager.c:133-149 | status and the first buffer-length - 1 bytes of the telemetry file |
| SdCard.Card.Clear | components/storage/sd_manager.c:151-160 | status and the truncated file; nothing changes if it cannot be opened |
| SdCard.Card.AlertFlush | components/storage/sd_manager.c:176-252 | the flush loop over the terminated buffer returns the documented status, publishes the lines whose callback succeeds in order, and leaves exactly the others in the file |
| SdCard.FlushTakesEach | components/storage/sd_manager.c:211-234 | line by line: the outcome of the k-th callback call decides whether line k is published or kept |
| SdCard.FlushSparesTelemetry | components/storage/sd_manager.c:236-249 | a flush leaves the telemetry file as it is |
| AlertQueue.FlushKeepsFailed | components/storage/sd_manager.c:206-249 | after a flush exactly the failed lines are pending, one storable line each and no temporary file, unless the flush drops them |
| AlertQueue.FlushLosesNothingIff | components/storage/sd_manager.c:206-249 | pending before equals sent plus pending after, as multisets, exactly when the temporary file opened or no publish failed (or there was nothing to flush) |
| AlertQueue.RunConserves | components/storage/sd_manager.c:107-123 | over any appends and flushes with any publish results every appended alert is published, pending or dropped exactly once, and the pending ones keep append order |
| AlertQueue.NothingDroppedIff | components/storage/sd_manager.c:206-249 | a run drops nothing exactly when no flush of it meets a failed publish with its temporary file closed |
| AlertQueue.AlertsAreConserved | components/storage/sd_manager.c:176-252 | when every temporary file opens, appended equals published plus pending, nothing is published twice, and pending is a subsequence of appended |
| AlertQueue.SuccessfulFlushDrains | components/storage/sd_manager.c:176-252 | a flush whose publishes all succeed publishes the whole backlog in order and empties it |
| FlushSteps.CutIsConsistent | components/storage/sd_manager.c:206-249 | after any number of steps files, position, published set and written lines are those of that prefix of the loop |
| FlushSteps.CutIsDurable | components/storage/sd_manager.c:206-249 | for any card contents: cut before the remove the original is unchanged; between remove and rename the temporary file holds all failed lines; afterwards they are pending |
| FlushSteps.UnpublishedSurvivesCut | components/storage/sd_manager.c:206-249 | wherever a flush is cut, every alert not yet published is on the card: in pending.jsonl or, without it, in pending.tmp |
| FlushSteps.UnpublishedStaysPendingIff | components/storage/sd_manager.c:206-249 | every alert not yet published is pending for the next flush if and only if the cut is not between remove and rename, or no publish failed |
| FlushSteps.PhaseAtStep | components/storage/sd_manager.c:206-249 | that cut is the one after one step per line, one per failed line and three more; one step later the flush is done |
| FlushSteps.StepsRefineFlush | components/storage/sd_manager.c:176-252 | uncut, the steps leave the same files and publish the same lines as the flush as a whole |
| FlushSteps.StrandedAlertsAreErased | components/storage/sd_manager.c:176-252 | a flush without pending.jsonl does nothing; the first flush after a new alert erases what was stranded in pending.tmp, unless its own temporary file does not open and its publish fails: then the stranded alerts come back and the new one is lost |
| AlertCuts.CutRunBalances | components/storage/sd_manager.c:176-252 | over any appends, flushes and flushes cut after any step, appended plus published-again equals published plus pending plus lost, as multisets |
| AlertCuts.EachOnceIff | components/storage/sd_manager.c:176-252 | over such runs published plus pending equals appended if and only if what was published again is what was lost |
| AlertCuts.PublishedAgainIff | components/storage/sd_manager.c:206-249 | nothing was published and kept if and only if no flush was cut before its remove step after a successful publish |
| AlertCuts.LostIff | components/storage/sd_manager.c:206-249 | nothing was lost if and only if no flush was cut between remove and rename after a failed publish |
| AlertTask.AlertHandler.FlushPending | components/alert/alert_manager.c:52-76 | the flush as the alert handler calls it is one flush of the queue, or nothing without a mounted card |
| AlertTask.AlertHandler.HandleAlert | components/alert/alert_manager.c:98-130 | an alert is appended first and flushed only when connected |
| AlertTask.AlertHandler.HandleRound | components/alert/alert_manager.c:90-151 | one round of the endless loop: the lines appended are those of a door signal with the door alert enabled and of a collision signal, with a container id set; the counter runs to 59 and back to 0; without a card nothing changes; and all operations are those its observations call for, in order |
| AlertTask.AlertIsStoredThenSent | components/alert/alert_manager.c:98-130 | an alert is in the file before anything is published: connected, backlog and alert go out in order and nothing stays pending; not connected, it joins the backlog |
| AlertTask.QuietRoundFlushesIff | components/alert/alert_manager.c:132-148 | a round without alerts flushes once if and only if it is the sixtieth, connected and configured |
| AlertTask.AlertLineText | components/alert/alert_manager.c:20-46 | the stored line is an object with the topic device/<id>/warning/<name> and the payload with the time, as JSON text inside JSON |
| AlertTask.AlertLineIsStorable | components/alert/alert_manager.c:20-46 | an alert line is non-empty and free of newline and NUL whatever the container id and timestamp hold |
| AlertTask.CounterIsRoundNumber | components/alert/alert_manager.c:132-148 | the flush counter after n rounds is n modulo 60 |
| AlertTask.TaskAppends | components/alert/alert_manager.c:90-151 | what the alert handler appends over any rounds is exactly the alert of each door and collision signal, in order |
| AlertTask.TaskConservesAlerts | components/alert/alert_manager.c:90-151 | over any rounds, with temporary files opening, the alerts raised equal the published plus the pending ones |
| JsonText.PrintIsBalanced | components/telemetry/telemetry_engine.c:32-58 | printed JSON closes every bracket it opens, never earlier than it opened it, whatever its strings contain |
| JsonText.PrefixClosesIffWhole | components/local_network/espnow_manager.c:206-212 | a prefix of a printed object closes it exactly when it is the whole text |
| JsonText.PrintedObjectIsStorable | components/telemetry/telemetry_engine.c:32-58 | a printed object is one storable line |
| JsonText.PrintIsPrintable | components/telemetry/telemetry_engine.c:32-58 | printed JSON holds no control character, so no newline and no NUL |
| JsonText.UnescapeInvertsEscape | components/local_network/espnow_manager.c:159-182 | reading a printed string back gives the string, whatever characters it holds |
| TelemetryBatch.BuildBatch | components/telemetry/telemetry_engine.c:115-159 | the loop over the buffer recomputes the loss of every record of the C string and skips what does not parse |
| TelemetryBatch.EntryOfLine | components/telemetry/telemetry_engine.c:115-159 | line by line: one that does not parse has no entry, one without telemetry goes in unchanged, and a reading goes in with its loss on what the readings before it left |
| TelemetryBatch.BatchTotals | components/telemetry/telemetry_engine.c:117-158 | the losses written into a batch add up to the total of the recurrence over its humidities |
| TelemetryBatch.BatchBalance | components/telemetry/telemetry_engine.c:117-158 | losses written plus what remains equal the configured weight exactly when no record is overdrawn |
| TelemetryBatch.SumStoredLosses | components/stage/stage_machine.c:242-276 | the stage 3 loop computes the sum, over all positions of the lines of the text read, of the loss stored there, zero where none is |
| TelemetryBatch.TotalOfOne | components/stage/stage_machine.c:250-258 | the total of a single line is the loss stored in it |
| TelemetryBatch.TotalIsAdditive | components/stage/stage_machine.c:242-276 | the total over lines one after another is the sum of their totals |
| TelemetryBatch.TotalAddsUp | components/stage/stage_machine.c:242-276 | the total is the sum over all positions |
| TelemetryBatch.HandoverTotal | components/stage/stage_machine.c:242-276 | over a file of appended records that is read whole, that sum is the sum over exactly those records, position by position |
| TelemetryPipeline.PrintedObjectIsRecord | components/telemetry/telemetry_engine.c:32-58 | a serialised record is a storable line that parses, while none of its proper prefixes does |
| TelemetryPipeline.WholeRecordsIff | components/storage/sd_manager.c:133-149 | a record is among those a read gets exactly when its last byte is within the bytes read |
| TelemetryPipeline.CutReadYieldsWholeRecords | components/telemetry/telemetry_engine.c:98-159 | a read cut anywhere yields exactly the whole records before the cut: the broken one does not parse |
| TelemetryPipeline.ReadYieldsRecords | components/telemetry/telemetry_engine.c:98-159 | a read yields the records within the limit, and all of them if the file fits |
| TelemetryPipeline.RunKeepsInv | components/telemetry/telemetry_engine.c:70-212 | in every interleaving the batch is the run of records within the read limit, completed cycles partition what is gone from the file, and the counter is at most one ahead of it |
| TelemetryPipeline.NoRecordIsSentTwice | components/telemetry/telemetry_engine.c:191-212 | in every interleaving without a failed truncation the published batches are consecutive disjoint stretches of the append sequence |
| TelemetryPipeline.RunExplainsMissing | components/telemetry/telemetry_engine.c:191-212 | in every interleaving a record that is gone went with one cycle, and was in its published batch if and only if it was appended before the read and ended within the bytes read |
| TelemetryPipeline.MissingRecordsAreExplained | components/telemetry/telemetry_engine.c:191-212 | the same for any partition of the append sequence into cycles |
| TelemetryPipeline.BatchesCoverPrefix | components/telemetry/telemetry_engine.c:191-212 | the batches concatenate to the records that are gone if and only if every cycle was clean, and are fewer otherwise |
| TelemetryPipeline.PipelineConserves | components/sensors/sensor_manager.c:183-190 | between cycles and without a failed truncation, batches followed by the file are the append sequence if and only if every cycle was clean: nothing was appended between its read and its clear, and every record ended within the bytes read |
| TelemetryPipeline.SentTwiceIffNotCleared | components/telemetry/telemetry_engine.c:191-212 | in every run two published batches share a record if and only if no clear succeeded between their publishes; then they begin with the same record, and otherwise the second begins behind the first |
| TelemetryTrigger.TriggerMeansThreeRecords | components/telemetry/telemetry_engine.c:71-78 | whenever the trigger has fired at least three records are on the card |
| TelemetryTrigger.TriggerMeansFourRecords | components/telemetry/telemetry_engine.c:71-78 | in a run without a late reset, one that leaves a record uncounted which is already off the card, a fired trigger means at least four |
| TelemetryTrigger.FourRecordsIffNotLate | components/telemetry/telemetry_engine.c:195-204 | after a reset, every trigger up to the next successful clear is sure to mean four records if and only if the reset was not late |
| TelemetryTrigger.ThreeRecordsCanTrigger | components/sensors/sensor_manager.c:183-190 | a run from boot with a late reset, after which three records fire the trigger |
| TelemetryTrigger.RecordCanBeSentTwice | components/telemetry/telemetry_engine.c:195-212 | a run from boot whose first truncation fails and whose first record is in both batches |
| TelemetryTasks.Tasks.SensorRound | components/sensors/sensor_manager.c:151-202 | one producer round, with or without a card: the loss over weight minus the previous loss, then append and count, as steps of the pipeline |
| TelemetryTasks.Tasks.SendRound | components/telemetry/telemetry_engine.c:63-213 | one consumer round, for every parser: when it sends, what it sends, what it does to card and counter, and the latest loss, which becomes that of the last record of a batch even if the publish fails; and for a parser that takes the lines that close, it is the pipeline steps |
| TelemetryTasks.EntriesAreParsed | components/telemetry/telemetry_engine.c:115-159 | the lines of a batch are exactly those the parser accepts |
| TelemetryTasks.HandoverTotalOfRead | components/stage/stage_machine.c:242-276 | the total over what a 64 KB read returns of a file of any size is the sum, position by position, of the losses stored in exactly the records that end within it |
| DedupRing.Ring.Seen | components/local_network/espnow_manager.c:124-137 | the call answers membership in the last 32 insertions and inserts the clipped id if it was absent |
| DedupRing.SlotsHoldWindow | components/local_network/espnow_manager.c:124-137 | scanning the slots finds an id exactly when it is among the last min(n, 32) insertions, or is empty while some slot was never written |
| DedupRing.InsertSlides | components/local_network/espnow_manager.c:134-136 | overwriting the slot at the index forgets the oldest insertion and remembers the new one |
| DedupRing.WindowIsDistinct | components/local_network/espnow_manager.c:124-137 | after any calls with ids of up to 23 characters the window holds no id twice |
| DedupRing.LongIdIsNeverSuppressed | components/local_network/espnow_manager.c:124-137 | an id of more than 23 characters is stored clipped and never recognised |
| DedupRing.ForgottenAfterSlots | components/local_network/espnow_manager.c:124-137 | an id is still recognised after any number of other insertions exactly while there are fewer than 32 of them |
| DedupRing.SeenIsRemembered | components/local_network/espnow_manager.c:124-137 | a new id is put in up to its 23rd character, and one of up to 23 characters is recognised from then on |
| MacText.MacRoundTrip | components/local_network/espnow_manager.c:142-154 | reading back a printed address gives the address |
| MacText.MacIsPlain | components/local_network/espnow_manager.c:142-146 | a printed address needs no escaping |
| MacText.MacLayout | components/local_network/espnow_manager.c:142-146 | a printed address is six pairs of upper-case hex digits with colons between |
| Packets.ArrivesIffFits | components/local_network/espnow_manager.c:206-229 | a packet is received exactly when its text fits into 250 bytes: what is cut never parses |
| Packets.ReqLength | components/local_network/espnow_manager.c:159-182 | a printed REQ with one-digit counters is 84 + length of the target + 20 * length of the path bytes |
| Packets.PathLength | components/local_network/espnow_manager.c:173-177 | a printed path takes 20 bytes per entry less one comma |
| Packets.MessageIdIsPlain | components/local_network/espnow_manager.c:447-449 | a message id has a fixed length and needs no escaping |
| Packets.DecimalReadsBack | components/local_network/espnow_manager.c:159-182 | reading the printed TTL and hop count gives the numbers |
| Packets.MessageIdReadsBack | components/local_network/espnow_manager.c:447-449 | the last five characters of an id read as a number are the tick modulo 100000, and the first four the first two address bytes |
| Packets.SameIdIff | components/local_network/espnow_manager.c:447-449 | two ids are equal if and only if these two bytes agree and the ticks agree modulo 100000 |
| Packets.ReqText | components/local_network/espnow_manager.c:159-182 | the text of a REQ: type 0, id, dst, src, ttl, hop and path, in this order under these names |
| Packets.AckText | components/local_network/espnow_manager.c:187-201 | the text of an ACK: type 1, id, dst, found and path |
| Packets.PathIsCommas | components/local_network/espnow_manager.c:173-177 | a printed path is its addresses in order, each quoted, commas between |
| FloodNode.PathfindNode.Receive | components/local_network/espnow_manager.c:276-385 | the callback on a parsed packet: new ring and reply; the DEST LED comes on exactly for a REQ not suppressed that names the own non-empty container id, the PATH LED exactly for an ACK not suppressed |
| FloodNode.ReceiveSpeltOut | components/local_network/espnow_manager.c:304-381 | case by case: suppressed, nothing; target, LED and an ACK to the sender with the own address appended; other node, a REQ with TTL less one, hop plus one and the own address twice; ACK, LED and on to its entry before last |
| FloodNode.PathfindNode.PathfindStart | components/local_network/espnow_manager.c:438-458 | launching inserts the id whatever the ring answers and broadcasts a REQ with that id, TTL 7, hop 1 and the own address as path; or does nothing without a target |
| FloodNode.AckGoesToPreviousEntry | components/local_network/espnow_manager.c:252-271 | an ACK goes to the entry before last of its path, unchanged by printing and parsing the address |
| FloodNet.RunKeepsInv | components/local_network/espnow_manager.c:276-458 | in every run every copy in flight is on a walk of the radio graph from its launch |
| FloodNet.ReqInFlight | components/local_network/espnow_manager.c:324-351 | every REQ in flight has ttl + hop = 8, 1 <= hop <= 8 and 2 * hop - 1 path entries from its launch to its sender, a neighbour of the receiver; forwarders stand in adjacent pairs, distinct entries are neighbours, and at the receiver the entry before last is the sender |
| FloodNet.AckInFlight | components/local_network/espnow_manager.c:366-381 | every ACK in flight is addressed to the entry before last of its path, and a node that does pass it on sends it to itself |
| FloodNet.ForwardersArePaired | components/local_network/espnow_manager.c:324-327 | in the path of a route every forwarder appears as an adjacent pair |
| FloodNet.LedsFollowDeliveries | components/local_network/espnow_manager.c:304-381 | over every step: a DEST LED comes on exactly when a fresh REQ for the own container id is delivered, a PATH LED exactly when a fresh ACK is; only the LED timer switches them off |
| FloodNet.DestLedWasLitByTarget | components/local_network/espnow_manager.c:330-335 | in every run a lit DEST LED was lit by the delivery of a fresh REQ for the container id the node had then |
| FloodNet.LogTellsDelivery | components/local_network/espnow_manager.c:304-381 | the events logged for a delivery are those that happened: accepted, forwarded, answered, PATH LED lit |
| FloodNet.SecondFloodIsAcceptedIff | components/local_network/espnow_manager.c:447-449 | a node that has taken in one flood of an originator accepts its next one if and only if the ticks differ modulo 100000 |
| FloodRadius.ReqSize | components/local_network/espnow_manager.c:159-182 | in every run the REQ of hop h is 64 + length of the target + 40 * h bytes, so it arrives exactly within 250 bytes and never beyond hop 4 |
| FloodRadius.FloodRadiusIsFour | components/local_network/espnow_manager.c:206-385 | in every run every REQ accepted and every node reached is within four radio hops of a launch of its id |
| FloodRadius.EventsAreNear | components/local_network/espnow_manager.c:304-385 | every acceptance, forward and answer happens within distance four of an originator of that id, an acceptance at distance hop |
| FloodTermination.ReplyWeighsLess | components/local_network/espnow_manager.c:304-385 | what a delivery sends weighs less than the packet delivered, with w(ttl) = 1 + D * w(ttl - 1) |
| FloodTermination.StepLosesWeight | components/local_network/espnow_manager.c:234-385 | no step but a launch adds weight, and delivering or losing a REQ removes at least one, even while rings forget |
| FloodTermination.FloodsDieOut | components/local_network/espnow_manager.c:234-385 | along any steps without a launch the REQ deliveries and losses are bounded by the weight in flight |
| FloodTermination.OneFloodIsBounded | components/local_network/espnow_manager.c:438-458 | one launch causes at most D * w(7) REQ deliveries and losses, in any order |
| FloodOnce.NothingForgotten | components/local_network/espnow_manager.c:124-137 | while at most 32 ids are launched a ring suppresses exactly the ids it ever took in |
| FloodOnce.RunIsQuiet | components/local_network/espnow_manager.c:304-381 | every run that launches at most 32 ids keeps rings distinct, transmissions unrepeated, ACKs addressed to holders and PATH LEDs dark |
| FloodOnce.TransmitsAtMostOnce | components/local_network/espnow_manager.c:304-360 | in such a run no node forwards or answers the same id twice |
| FloodOnce.AcksAreQuenched | components/local_network/espnow_manager.c:366-381 | in such a run every ACK in flight will be suppressed, none was ever passed on, and no PATH LED is lit |
| FloodBfs.FloodReqArrives | components/local_network/espnow_manager.c:206-212 | a REQ of hop h arrives exactly when h is within the range of its target id |
| FloodBfs.RoundExpandsBall | components/local_network/espnow_manager.c:304-363 | a loss-free round within range, delivered in any order, takes the flood from the graph ball of radius k to that of radius k + 1 |
| FloodBfs.FloodIsBreadthFirst | components/local_network/espnow_manager.c:304-363 | after any k rounds of a flood in a fresh network, each delivered in any order, exactly the ball of radius min(k, range) holds the id, targets not expanding it, and every acceptance is at hop equal to distance |
| FloodBfs.RangeIsFourIffShort | components/local_network/espnow_manager.c:206-212 | the range is four exactly for targets of up to 26 printed characters, and never more |
| DeviceState.HistoryIsLast16 | components/bluetooth/ble_handler.c:126-141 | after any CMD 01 sequence the array holds exactly the last min(n, 16) entries, in order |
| DeviceState.LoadInvertsSave | components/storage/nvs_manager.c:135-177 | loading the saved configuration restores the five persisted fields whatever was there |
| DeviceState.ReloadRestores | components/storage/nvs_manager.c:182-213 | loading a completely saved history into cleared slots gives count and entries back |
| DeviceState.SetupIdConfirmsIffShort | components/bluetooth/ble_handler.c:65-103 | the id given at set-up is the configured one exactly if it is shorter than 32 characters |
| StageRecovery.RunIsStageOk | components/stage/stage_machine.c:353-407 | over all interleavings of BLE commands, stage steps and power cuts: persisted stage never RECEIVE, persisted TRANSPORT only with the door flag saved true, and the transport loop never reads an empty history |
| StageRecovery.RunIsConfigOk | components/bluetooth/ble_handler.c:65-103 | in every run NVS agrees with RAM on the configuration as far as CMD 00 has got, except before set-up and between erase and reset |
| StageRecovery.RunIsRouteOk | components/bluetooth/ble_handler.c:108-146 | in every run, outside a CMD 01, the first entries of the array, as many as the stored count, are what a reload gives, or the array is as at power-on; between its two writes the blob is the first of the array |
| StageRecovery.RecoveryReadsNvs | components/stage/stage_machine.c:353-381 | the four boot steps out of a power cut take every global from NVS, and missing keys as empty |
| StageRecovery.TransportSurvivesCrash | components/stage/stage_machine.c:353-381 | from every reachable state with TRANSPORT saved, a power cut and boot resume transport with the door alert on, with the five fields unless CMD 00 is half saved; and unless CMD 01 is, with the history if and only if the stored count is the count in RAM |
| StageHandover.FinishedHistorySurvives | components/bluetooth/ble_handler.c:108-146 | in every run, once a CMD 01 accepted since the history was last reloaded or cleared has finished, a power cut in transport restores the history |
| StageBoot.CaughtCommandLosesHistory | components/stage/stage_machine.c:353-381 | a CMD 01 begun before the reload and finished after it leaves the whole saved history in RAM, no command in progress, and one entry for the next power cut to restore |
| StageBoot.HalfSavedFieldsIff | components/bluetooth/ble_handler.c:65-103 | a power cut inside CMD 00: a field comes back as in RAM if and only if it was saved already or its key holds that value anyway |
| StageBoot.SetupCutMidway | components/storage/nvs_manager.c:135-151 | cut after k of its writes, CMD 00 leaves the first k fields as it has them and the others as before |
| StageRecovery.OtherwiseRebootEntersStage1 | components/stage/stage_machine.c:384-405 | with any other NVS content a reboot whose stage task is left alone enters stage 1 within one round of the main loop |
| StageBoot.RebootEntersStage1Or3 | components/stage/stage_machine.c:384-405 | the same over all interleavings with BLE commands: the stage task leaves the first round after at most four of its steps, for stage 1, or for stage 3 if and only if it stands at the dispatch and a CMD 02 has set the stage variable |
| StageRecovery.TornSaveKeepsHistoryIff | components/storage/nvs_manager.c:182-213 | a power cut between blob and count keeps the history if and only if the stored count is the count in RAM and the entries that the blob leaves out are blank; a blob longer than the stored count leaves blank entries |
| StageRecovery.EarlyCommandReplacesHistory | components/stage/stage_machine.c:353-381 | for instance: a CMD 01 handled between power-on and boot recovery replaces the saved history by its one entry |
| StageBoot.ReloadGivesHistoryIff | components/stage/stage_machine.c:353-381 | for all interleavings of boot steps and BLE steps since power-on, the reload gives a completely saved history back if and only if no CMD 01 has reached its blob write, or the early commands spell that history; and exactly what it gives otherwise, blank entries included |
| StageBoot.LoadGivesConfigIff | components/stage/stage_machine.c:353-381 | for all interleavings since power-on, the load gives the five saved fields back if and only if each was spared: its key not written by a CMD 00 and, if absent, not filled in; or last written with the same value |
| StageBoot.EarlySetupReplacesConfig | components/bluetooth/ble_handler.c:65-103 | for instance: a CMD 00 handled before boot recovery replaces all five saved fields, in RAM and NVS, those it does not give by empty ones |
| StageHandover.AuthorisedMeans | components/bluetooth/ble_handler.c:163-193 | authorised spelt out: a CMD 02 compared two equal ids and wrote the stage variable, with no comparison or power cut between, and no write of the variable or power cut since |
| StageHandover.EveryHandoverIsAuthorised | components/stage/stage_machine.c:384-398 | in every run the stage variable says RECEIVE exactly while authorised, and every execution of run_stage3 was entered that way |
| StageSkip.BecameReceiveMeans | components/bluetooth/ble_handler.c:163-193 | the log function used below finds the first write of RECEIVE that no power cut and no write of the stage task followed |
| StageSkip.LoopEndedMeans | components/stage/stage_machine.c:185-216 | the other one says that the transport loop ended, with no power cut and no write of the stage task since |
| StageSkip.TransportSkippedIff | components/stage/stage_machine.c:353-405 | in every run, every execution of run_stage3 follows such a write in one of eight places of the stage task, and the transport loop did not come in between if and only if the place was one of six: boot recovery, the dispatch, or between the last two NVS writes of stage 1 |
| StageSkip.SkippingPlacesSkip | components/stage/stage_machine.c:353-405 | with RECEIVE written in any of the six places the stage task, left alone, is in stage 3 after at most four steps without the loop |
| StageSkip.ConfirmationLostIff | components/bluetooth/ble_handler.c:163-193 | in every run, what the stage task next does about a write of RECEIVE, power cuts aside, is to overwrite it if and only if it found the task outside the eight places, and to enter stage 3 otherwise |
| StageTrip.TransportCanBeSkipped | components/stage/stage_machine.c:125-133 | a run that does so, from every reachable state waiting for set-up: a CMD 02 right after stage 1 has written TRANSPORT |
| StageTrip.FactoryConfirmsEmptyId | components/bluetooth/ble_handler.c:163-193 | a run from the factory state that enters stage 3 on a CMD 02 with the empty id |
| StageHandover.DoorAlertStaysArmed | components/stage/stage_machine.c:125-133 | in every run the door alert is on in stage 2 unless a CMD 02 with the configured id came since power was last on |
| StageHandover.HistoryIsTailOfLog | components/bluetooth/ble_handler.c:126-141 | in every run the history is the last 16 of all entries appended since it was last reloaded or cleared, and the count is min(n, 16) of them |
| StageTrip.FactoryWaitsForSetup | components/stage/stage_machine.c:384-405 | a device fresh from the factory reaches the wait for CMD 00 by itself |
| StageWaits.TransportIsWrittenBehindClosedDoor | components/stage/stage_machine.c:117-131 | in every run each write of TRANSPORT by stage 1 is preceded, with no power cut between, by a poll that saw the door closed |
| StageWaits.DoorWasClosed | components/stage/stage_machine.c:117-125 | in every run stage 1 gets past its door poll only by a poll that saw the door closed |
| StageWaits.StaysAtOpenDoor | components/stage/stage_machine.c:117-125 | as long as only open doors are seen, the stage task stays at its door poll, whatever commands come |
| StageWaits.ConfigWasSeen | components/stage/stage_machine.c:91-99 | in every run stage 1 waits for the door only once a container id has been seen |
| StageWaits.TransportWasStarted | components/stage/stage_machine.c:145-167 | in every run the transport loop is entered only with a shipper by sea or with stored credentials |
| StageWaits.LatestLossIsLastMeasured | components/stage/stage_machine.c:326-341 | in every run the latest loss is the one last measured since power was last on: the reset after stage 3 does not clear it |
| StageTrip.TripEndsAsItBegan | components/stage/stage_machine.c:79-348 | from every reachable state waiting for set-up, CMD 00 with a container id, a closed door, CMD 01 by sea or with Wi-Fi credentials stored, and CMD 02 with the configured id pass through a transport whose configuration and history would survive a power cut, and end with NVS erased and the globals as at power-on, but for the latest loss, which is left as it was |
| DeviceTasks.DrainIsReachable | components/bluetooth/ble_handler.c:30-60 | a command handled without interruption is one of the interleavings |
| DeviceTasks.Device.Process | components/bluetooth/ble_handler.c:30-60 | what each of the seven commands does to globals and NVS, which fields of the request it takes, cut to which sizes, and which it cannot do without; CMD 05 yields the target to flood for; every other request changes nothing |
| DeviceTasks.DecodeSpeltOut | components/bluetooth/ble_handler.c:50-57 | which command a request is taken for, string by string |
| DeviceTasks.Device.HandleCmd00 | components/bluetooth/ble_handler.c:65-103 | CMD 00 overwrites the fields given, each by what strlcpy leaves of it, keeps the others, and saves the five persisted ones |
| DeviceTasks.Device.HandleCmd01 | components/bluetooth/ble_handler.c:108-146 | CMD 01 makes the history the last 16 of the old one and the new entry, in the array and in NVS |
| DeviceTasks.Device.HandleCmd02 | components/bluetooth/ble_handler.c:163-193 | CMD 02 confirms exactly on equal ids, and then switches the door alert off and the stage to RECEIVE in RAM only |
| DeviceTasks.Device.HandleCmd03 | components/bluetooth/ble_handler.c:198-213 | CMD 03 sets and saves the fan flag |
| DeviceTasks.Device.HandleCmd04 | components/bluetooth/ble_handler.c:218-238 | CMD 04 sets and saves the UV flag |
| DeviceTasks.Device.HandleCmd08 | components/bluetooth/ble_handler.c:263-283 | CMD 08 saves both credentials, empty where not given |
| DeviceTasks.Device.Boot | components/stage/stage_machine.c:353-381 | boot takes the stage from NVS, and in transport config, route count, a completely saved history and the three flags, key by key; NVS stays as it is |
| DeviceTasks.Device.EnterSetup | components/stage/stage_machine.c:84-89 | entering stage 1 sets door flag off and SETUP, in RAM and in NVS, and nothing else; as its three steps do |
| DeviceTasks.Device.LeaveSetup | components/stage/stage_machine.c:125-133 | leaving stage 1 sets door flag on and TRANSPORT, in RAM and in NVS, and nothing else; as its three steps do, the stage saved last |
| DeviceTasks.Device.FinishReceive | components/stage/stage_machine.c:326-341 | the end of stage 3 erases NVS and leaves the globals as they are at power-on, but for the loss in g_latest_telemetry, which it does not clear |

## Left out

- Drivers: I2C, UART, GPIO, LEDC, SDMMC mount, NimBLE, sockets, Wi-Fi and MQTT appear only as arbitrary success or failure.
- components/network, udp_control.c, ble_notify.c and ble_manager.c: connecting Wi-Fi, modem and MQTT, a UDP socket for two fan and UV commands, and the Bluetooth GATT server.
- Stage 2's connection to the server and the start of ESP-NOW and UDP control; a wait for Wi-Fi credentials is a poll of NVS.
- JSON parsing: a text that does not close its first bracket fails to parse, and a complete printed text yields what was printed; for stored lines the parser is any function of the line.
- Floating point: `float` and `double` are `real`, and the cast of the fan duty takes the floor; rounding is not modelled.
- LED off-times: tick arithmetic and its wrap-around; the LED timer may switch an LED off at any moment.
- Reboots of nodes during a flood: they empty a ring, and the bounds of FloodTermination hold for any ring contents.
- Termination of ACKs: a copy weighs one, so the bound counts REQ deliveries; an ACK that a forgetful ring lets through can be sent again to the same node.
- sd_telemetry_count and count_lines: the counter starts at the number of records; the comparison of a `char` with EOF is not modelled.
- Power cuts inside a telemetry cycle, and the deletion of worker tasks in the middle of one.
- Contents of the temporary file while it is open: what a power cut leaves of them is not relied on.
- Flush steps when the temporary file does not open: FlushSteps assumes that it does; AlertQueue covers that branch.
- Failing NVS and SD operations whose result the code ignores: NVS writes succeed in the stage model; failing opens of SD files are modelled.
- NVS loads at boot: nvs_load_container_config, nvs_load_route_history and the three flags are one step each; saves are one step per key.
- The fan flag in the stage model changes only by CMD 03 and reboot; the controller clearing it is in FanControl.
- Of g_latest_telemetry only the loss is in the stage model; the other readings in it are not used there.
- AlertCuts: the temporary file of every flush opens; AlertQueue has whole flushes for which it does not.
- The order of publish, disconnect and SD clearing in run_stage3: the stage model has the entry, the erase and the reset.
- Text: characters stand for bytes, and id fields are cut at the field size without regard to encoding.
