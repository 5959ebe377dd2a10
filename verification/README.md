# Verified model of the heliostat field firmware

The repository holds the firmware of a field of heliostats: a cluster head that talks to a
broker over MQTT and to its field nodes over an ESB radio, each powered by a solar converter of
its own. This project models five parts of it and proves what they promise.

| part | files |
|---|---|
| solar maximum-power-point controller | `CArithmetic`, `Mppt` (specification on values), `MpptSafety`, `MpptScan`, `MpptTrack`, `MpptConvergence`, `MpptDecisions`, `SampleRing` and `PowerThread` (the program's globals and ring buffers, refining the specification) |
| thermistor table search | `NearestElement`, `HelioNtc` |
| retained-RAM integrity | `Crc32`, `Crc32Burst`, `RetainedRam` |
| ESB reply protocol | `EsbNode` (flags, interrupts and main loop of one node), `EsbRetransmit` (when the count exceeds 13, which failures are retried), `EsbParameters` (what a node sends with), `EsbListening` (when it listens again), `EsbNodeCore` (interrupt handler and main loop as code), `EsbNetwork` and `EsbExchange` (head, nodes and channel), `EsbNodeReceiver` and `EsbHead` (receive branch and head as code) |
| MQTT transport | `TransportFsm`, `TransportProtocol` (machine, timer, callbacks and work items as interleaved steps), `TransportTransitions` (where each run and step leads), `TransportDelivery`, `TransportPublishing` and `TransportResend` (theorems over whole runs), `TransportQueue` (heap-owning queue), `TransportThread` (the program, refining the protocol), `MqttHelper`, `TransportSession` (transport and helper together) |

`dafny verify dfyconfig.toml` checks everything. Where the program changes state in place the
model is a class whose methods are proved equal to functions on values; the theorems are about
those functions and about runs of them. The head and node trees hold near-identical copies of
`src/`; the model follows the copy of the head.

## Findings

Each is stated by a lemma, with the exact condition where a promised property fails.

- The over-temperature limit of the charger is written as 4500 tenths of a degree (450 C), while
  the thermistor table ends at 125.0 C, so it never acts: `PowerThread.OverTemperatureNeverTrips`.
- The retransmit count of a node is not limited to 13. A reply that fails while the next cycle
  waits to start raises the count of that cycle too, up to 23, if the main loop is held up between
  its two radio restarts until the next reply is concluded: `EsbRetransmit.CountAbove13` gives the
  exact chain of events, `EsbNode.CountCanReach23` a run.
- The reply to a trigger of one byte echoes a sequence byte left over from an earlier packet:
  `EsbNetwork.TwoBytesAreNeeded`.
- A PUBACK callback stops the timer and removes the queue head in two steps. A machine run between
  them hands the same message over a second time: `TransportResend.AtMostOnceUnlessAckPreempted`
  gives the exact chain of events, `TransportDelivery.MessageCanBeHandedTwice` a run. In the same way a
  head may leave the queue while the timer runs for it: `TransportDelivery.TimerGuardsSentMessage`,
  `TransportDelivery.TimerCanOutliveMessage`.
- The connect work function sleeps for 10 s and reschedules itself whatever happened meanwhile, so
  connect work can be pending outside CONNECTING: after a connection that is accepted before it
  reschedules (`TransportDelivery.ConnectWorkCanOutliveConnection`) or after a network loss
  (`TransportDelivery.ConnectWorkCanStray`), and in no other way
  (`TransportDelivery.ConnectWorkIsConfined`).
- `mqtt_helper_connect` admits a call in CONNECTING, which its own table of legal state changes
  does not: `MqttHelper.OperationIsLegal`. The transport makes that call when a second connection
  attempt overtakes the answer to the first (`TransportSession.SessionIsLegal`,
  `TransportSession.AttemptCanOvertake`), and drops a connection that is accepted during an attempt's
  sleep (`TransportSession.OpenSessionEnds`, `TransportSession.SessionCanBeDropped`).
- A client preempted between the ready check of `transport_publish` and the queue can leave a message
  in the queue while the machine is connecting or subscribing:
  `TransportPublishing.QueueEmptyBeforePublishing` gives the exact condition,
  `TransportPublishing.MessageCanLandEarly` a run. At-most-once is not affected.
- A node whose radio refuses to listen after it refused to send is deaf until the radio is set up
  again, since the main loop ignores that refusal: `EsbListening.IdleNodeListens` gives the exact
  condition.
- The source's comments promise retry delays of 1000 to 1500 us in ring 2 and 2000 to 2500 us in ring
  3; the code adds the offsets to 600 us, so that they are 1100 to 1600 us and 2100 to 2600 us:
  `EsbParameters.ParametersWhenSpaced`.
- If the radio refuses the restart for a retry, the first failure of a later cycle is final:
  `EsbRetransmit.FailureIsRetried` gives the exact condition, `EsbRetransmit.FirstFailureCanBeFinal`
  a run.

## Model

| member | source | states |
|---|---|---|
| MpptTrack.TrackConverges | cluster_head_multi_image_fota/src/threads/power_thread.c:510-559 | if the power measured at each duty is a fixed function that strictly rises to a peak and strictly falls after it, is at least 25 mW and charging stays allowed, then from any TRACK state (any saved power, either direction, a partly filled window) the duty reaches the peak within 254 windows of 50 samples, is never more than 1 away from it afterwards, and is back on it within every 50 samples; peaks at 1 and 254 included |
| MpptTrack.SteadyRunsExist | cluster_head_multi_image_fota/src/threads/power_thread.c:510-559 | such runs exist: for every power function of this kind, every TRACK state that starts a window and every length |
| MpptConvergence.ScanAndTrackConverge | cluster_head_multi_image_fota/src/threads/power_thread.c:471-559 | SCAN and TRACK together: from any entry into SCAN, if the power measured at each duty is such a unimodal function and charging stays allowed, the duty reaches the peak within 51 windows of SCAN and 7 of TRACK and is never more than 1 away from it afterwards |
| MpptConvergence.SteadyScansExist | cluster_head_multi_image_fota/src/threads/power_thread.c:471-559 | such runs exist: from every entry into SCAN, for every power function of this kind and every length |
| MpptConvergence.TurningOnEntersScan | cluster_head_multi_image_fota/src/threads/power_thread.c:449-469 | turning on from any safe OFF state leads to exactly the entry state from which SCAN and TRACK converge |
| MpptDecisions.TurnsOnExactly | cluster_head_multi_image_fota/src/threads/power_thread.c:449-469 | the converter is turned on exactly on a full window of fifty readings whose panel voltages sum to at least 50 times 1201 mV, whose temperatures sum to more than -50 and less than 50 times 4501 tenths of a degree, and whose newest battery reading is at most 3600 mV; otherwise it stays off |
| MpptDecisions.TurnsOnInLight | cluster_head_multi_image_fota/src/threads/power_thread.c:449-469 | fifty panel readings above 1200 mV, temperatures from 0 to 450.0 C and a newest battery reading of at most 3600 mV turn it on |
| MpptDecisions.StaysOffInTheDark | cluster_head_multi_image_fota/src/threads/power_thread.c:449-469 | with no panel reading above 1200 mV it stays off |
| MpptDecisions.OffWaits | cluster_head_multi_image_fota/src/threads/power_thread.c:450-452 | while the first window fills nothing but the window and the averages changes |
| MpptDecisions.TurnsOffExactly | cluster_head_multi_image_fota/src/threads/power_thread.c:473-478 | SCAN and TRACK turn off exactly by a battery reading above 3600 mV, by a temperature sum out of range, or, in TRACK on a full window, by a product of average voltage and current below 25000 |
| MpptDecisions.TurnedOffState | cluster_head_multi_image_fota/src/threads/power_thread.c:400-408 | turned off: duty word 256, current sensor disabled, window kept |
| MpptDecisions.DrivingWaits | cluster_head_multi_image_fota/src/threads/power_thread.c:480-482 | while a window fills, SCAN and TRACK change nothing but the window and the averages |
| MpptDecisions.ScanDecision | cluster_head_multi_image_fota/src/threads/power_thread.c:484-508 | a full window in SCAN: 5 up while the power does not fall, at most to 254 and then to TRACK; 5 back, at least to 1, and to TRACK when it falls |
| MpptDecisions.TrackDecision | cluster_head_multi_image_fota/src/threads/power_thread.c:522-559 | a full window in TRACK: one step on while the power does not fall, one back when it does, always away from 1 and 254 |
| MpptDecisions.WindowIsNewest | cluster_head_multi_image_fota/src/threads/power_thread.c:256-267 | the live entries are the newest ones in order, at most fifty |
| MpptDecisions.PowerIsTruncated | cluster_head_multi_image_fota/src/threads/power_thread.c:484 | the power is the product of average voltage and current divided by 1000, truncated toward zero |
| Mppt.AverageIsMean | cluster_head_multi_image_fota/src/threads/power_thread.c:269-273 | each average is the sum of the live entries divided by their number, truncated toward zero |
| CArithmetic.TruncDivIsTruncated | cluster_head_multi_image_fota/src/threads/power_thread.c:270-273 | C division truncates toward zero |
| CArithmetic.TruncatedIsUnique | cluster_head_multi_image_fota/src/threads/power_thread.c:270-273 | and no other integer qualifies |
| MpptScan.ScanPicksPeak | cluster_head_multi_image_fota/src/threads/power_thread.c:471-508 | in every run from power-up, each hand-over from SCAN to TRACK happens after trials of duties 1, 6, 11, ... whose powers never fell before the last one; if the last one fell, the chosen duty is one whose measured power is the maximum of the scan (also when the clamp keeps duty 1), otherwise all 51 duties were tried, the last was the best and TRACK starts from 254 |
| MpptScan.ScanTerminates | cluster_head_multi_image_fota/src/threads/power_thread.c:471-508 | whatever the readings, SCAN is left within 51 windows (2550 samples) of any moment at which the machine is in it |
| MpptSafety.SafeStep | cluster_head_multi_image_fota/src/threads/power_thread.c:386-565 | the invariant of the sample loop is kept by every sample, and a step that ends in SCAN or TRACK had its own battery reading and the average temperature in range; in SCAN the duty is 1 modulo 5 and at most 251 |
| MpptSafety.RunIsSafe | cluster_head_multi_image_fota/src/threads/power_thread.c:341-379 | the invariant holds in every state of every run |
| MpptSafety.DriveSafety | cluster_head_multi_image_fota/src/threads/power_thread.c:386-431 | after every sample since power-up: OFF means duty word 256 and PV_I_EN low; SCAN or TRACK means PV_I_EN high, duty within 1..254, duty word 256 minus duty, direction -1 or 1, this very battery reading at most 3600 mV and the temperature average in range |
| MpptSafety.TrackMovesByOne | cluster_head_multi_image_fota/src/threads/power_thread.c:535-559 | a TRACK decision that stays in TRACK moves the duty by exactly one in the direction it saves, so the clamp never acts there |
| MpptSafety.WindowIsFresh | cluster_head_multi_image_fota/src/threads/power_thread.c:277-286 | in SCAN and TRACK, every sample in the window was taken since the duty word last changed, although switching off does not reset the ring buffer |
| MpptSafety.DecisionUsesFreshWindow | cluster_head_multi_image_fota/src/threads/power_thread.c:480-530 | each SCAN or TRACK decision averages exactly 50 samples, all taken since the duty last changed |
| Mppt.AverageWithin | cluster_head_multi_image_fota/src/threads/power_thread.c:258-275 | every average lies between any bounds on the live entries, although it is computed by truncating division of a sum |
| Mppt.SumWithin | cluster_head_multi_image_fota/src/threads/power_thread.c:258-275 | every running sum lies between the bounds on the live entries times their number |
| Mppt.SumDropsOldest | cluster_head_multi_image_fota/src/threads/power_thread.c:235-243 | subtracting the entry about to be overwritten from the sum yields the sum of the entries that remain |
| CArithmetic.TruncDivWithin | cluster_head_multi_image_fota/src/threads/power_thread.c:270-275 | C division never leaves an integer interval that contains the exact quotient |
| CArithmetic.FloatConversionTruncates | cluster_head_multi_image_fota/src/threads/power_thread.c:245-256 | for 12-bit counts and the three divisors, a single-precision division with the cast to int equals truncating integer division, whichever way the float was rounded |
| SampleRing.SampleRing.RetireOldest | cluster_head_multi_image_fota/src/threads/power_thread.c:235-243 | once the ring is full, the four sums become the sums of the 49 entries that will be kept |
| SampleRing.SampleRing.Insert | cluster_head_multi_image_fota/src/threads/power_thread.c:245-269 | the new values replace the oldest slot; the live entries become the old ones with the newest appended and the oldest dropped, and every sum is again the sum of the live entries |
| SampleRing.SampleRing.Push | cluster_head_multi_image_fota/src/threads/power_thread.c:233-275 | one update of the ring yields the truncated mean of all live entries in each of the four units, computed from running sums |
| SampleRing.SampleRing.Reset | cluster_head_multi_image_fota/src/threads/power_thread.c:277-286 | no entry is live and all sums are zero |
| SampleRing.SampleRing.NewestBatteryMv | cluster_head_multi_image_fota/src/threads/power_thread.c:386-398 | the newest index selects the battery reading stored last |
| SampleRing.PushIntoRing | cluster_head_multi_image_fota/src/threads/power_thread.c:245-269 | overwriting the slot at the write index and advancing it appends to the window read through the wrapped indices |
| PowerThread.PowerThread.CalculateAdcValues | cluster_head_multi_image_fota/src/threads/power_thread.c:233-275 | converts one set of counts and refines the acquisition of the specification: sums against recomputation |
| PowerThread.PowerThread.TransitionToOff | cluster_head_multi_image_fota/src/threads/power_thread.c:400-408 | OFF, PWM off and PV_I_EN low, the ring buffer untouched |
| PowerThread.PowerThread.SetDutyCycle | cluster_head_multi_image_fota/src/threads/power_thread.c:419-431 | the commanded duty is clamped to 1..254 and the duty word is 256 minus it |
| PowerThread.PowerThread.UpdateMpptPowerState | cluster_head_multi_image_fota/src/threads/power_thread.c:441-565 | the three-way switch refines the decision function of the specification |
| PowerThread.PowerThread.UpdateOff | cluster_head_multi_image_fota/src/threads/power_thread.c:449-469 | refines the OFF decision |
| PowerThread.PowerThread.UpdateScan | cluster_head_multi_image_fota/src/threads/power_thread.c:471-508 | refines the SCAN decision |
| PowerThread.PowerThread.ClimbOrStepBack | cluster_head_multi_image_fota/src/threads/power_thread.c:490-507 | the SCAN move: up by 5, or down by 5 and to TRACK after a drop, clamped, and to TRACK at the top |
| PowerThread.PowerThread.PerturbDuty | cluster_head_multi_image_fota/src/threads/power_thread.c:537-558 | the TRACK move: forced turns at 1 and 254, reversal after a drop, by one step |
| PowerThread.PowerThread.UpdateTrack | cluster_head_multi_image_fota/src/threads/power_thread.c:510-559 | refines the TRACK decision |
| PowerThread.PowerThread.ProcessSample | cluster_head_multi_image_fota/src/threads/power_thread.c:341-379 | one pass of the sample loop is one step of the specification, so every run theorem holds of the program's globals |
| PowerThread.SampleLoop | cluster_head_multi_image_fota/src/threads/power_thread.c:341-379 | for any sequence of counts from power-up, the globals after each pass are the states of a run of the specification, so every run theorem holds of them |
| PowerThread.ConversionRange | cluster_head_multi_image_fota/src/threads/power_thread.c:245-256 | what 12-bit counts convert to, in each of the four units |
| PowerThread.ConversionIsTheFloatOne | cluster_head_multi_image_fota/src/threads/power_thread.c:245-247 | panel, battery and current readings are 600/895, 600/607 and 600/12285 of their counts, as the single-precision divisions and casts give them, whichever way they round |
| PowerThread.FitsInt32 | cluster_head_multi_image_fota/src/threads/power_thread.c:50-73 | no sum and no power product exceeds a signed 32-bit integer, so unbounded integers are exact here |
| PowerThread.OverTemperatureNeverTrips | cluster_head_multi_image_fota/src/threads/power_thread.c:386-398 | with readings from the thermistor table, charging is refused exactly for a battery reading above 3600 mV or an average below 0 C: the upper limit of 4500 tenths of a degree is out of the table's reach |
| NearestElement.GetNearestElementIndex | cluster_head_multi_image_fota/src/utils/get_nearest_element_index.c:12-66 | for every non-empty sorted array, duplicates included, and every target, the index found minimises the distance, ties go to the larger value, and the closing return is never reached |
| NearestElement.GetNearest | cluster_head_multi_image_fota/src/utils/get_nearest_element_index.c:67-74 | the nearer of two values around the target, the larger one on a tie |
| NearestElement.NearestIsMonotone | cluster_head_multi_image_fota/src/utils/get_nearest_element_index.c:12-66 | a larger target never selects a smaller index |
| NearestElement.NearestValueIsUnique | cluster_head_multi_image_fota/src/utils/get_nearest_element_index.c:12-66 | the value selected is determined by array and target alone |
| HelioNtc.TableIsSorted | cluster_head_multi_image_fota/src/bsp/helio_ntc.c:5-7 | the 278 counts of the conversion table are in ascending order |
| HelioNtc.AdcToDeciC | cluster_head_multi_image_fota/src/bsp/helio_ntc.c:8-21 | the temperature returned belongs to a best match of the count in the table |
| HelioNtc.TemperatureFallsAsCountRises | cluster_head_multi_image_fota/src/bsp/helio_ntc.c:8-21 | the temperature never rises as the count rises |
| HelioNtc.ReadingRange | cluster_head_multi_image_fota/src/bsp/helio_ntc.c:5-21 | every reading lies between -13.5 C and 125.0 C |
| HelioNtc.TableReading | cluster_head_multi_image_fota/src/bsp/helio_ntc.c:8-21 | each count of the table reads as its temperature: 125.0 C for the first, half a degree less for each entry |
| HelioNtc.EndsOfTable | cluster_head_multi_image_fota/src/bsp/helio_ntc.c:8-21 | counts below 65 read as 125.0 C, counts above 4095 as -13.5 C |
| RetainedRam.ResidueMeansSealed | cluster_head_multi_image_fota/src/sys/retained_ram.c:28-40 | the checksum over the region including its crc field is 0x2144df1c if and only if the crc field holds the checksum of what precedes it |
| RetainedRam.SealedHasResidue | cluster_head_multi_image_fota/src/sys/retained_ram.c:28-40 | residue theorem: message plus little-endian CRC always has the constant residue, whatever the message |
| Crc32.FeedComplement | cluster_head_multi_image_fota/src/sys/retained_ram.c:28-40 | feeding the complemented register, little-endian, leaves the same register value whatever it was |
| RetainedRam.BurstIsDetected | cluster_head_multi_image_fota/src/sys/retained_ram.c:28-58 | changing any non-empty set of bits within 32 consecutive bits of a sealed region, crc field included, makes validation fail |
| RetainedRam.FourByteChangeIsDetected | cluster_head_multi_image_fota/src/sys/retained_ram.c:28-58 | the same for any change confined to four consecutive bytes, at any alignment |
| Crc32Burst.BurstChangesCrc | cluster_head_multi_image_fota/src/sys/retained_ram.c:28-40 | two messages of equal length that differ within 32 consecutive bits have different checksums |
| Crc32Burst.MessageBitsInjective | cluster_head_multi_image_fota/src/sys/retained_ram.c:28-40 | messages with the same bits in transmission order are equal |
| RetainedRam.InitialisedIsStable | cluster_head_multi_image_fota/src/sys/retained_ram.c:119-136 | after initialisation the region validates, and a second initialisation changes nothing |
| RetainedRam.RetainedRam.Validate | cluster_head_multi_image_fota/src/sys/retained_ram.c:28-58 | true exactly for a sealed region, which is left unchanged; otherwise every byte is zeroed |
| RetainedRam.RetainedRam.Update | cluster_head_multi_image_fota/src/sys/retained_ram.c:63-70 | everything before the crc field is unchanged and the region is sealed |
| RetainedRam.RetainedRam.Erase | cluster_head_multi_image_fota/src/sys/retained_ram.c:101-106 | the region is zero up to the crc field and sealed |
| RetainedRam.RetainedRam.Init | cluster_head_multi_image_fota/src/sys/retained_ram.c:119-136 | reports whether the region was sealed, keeps it if so, and leaves a sealed blank otherwise |
| EsbNode.AtMostTwoStartsPerTrigger | cluster_node_multi_image_fota/net_ipc/src/main.c:448-494 | under every interleaving of interrupts and main-loop steps (triggers in the stagger wait, coalesced flags, refused radio restarts), reply transmissions started never exceed twice the 0x92 triggers received |
| EsbNode.RetransmitBounds | cluster_node_multi_image_fota/net_ipc/src/main.c:456-492 | whenever the radio is initialised for transmission the count is at most 23 and the delay at most 4600 us; the count exceeds 13 if and only if two failures of the cycle asked for a retry and not both in ring 1, and two only do if one fell into the stagger wait |
| EsbRetransmit.CountAbove13 | cluster_node_multi_image_fota/net_ipc/src/main.c:456-492 | at every moment of every run, the count exceeds 13 if and only if, in the present cycle, a transmission failed in the stagger wait, the reply started after the wait was concluded before the retry that was already due, that retry was started all the same and failed, and the two failures did not both come in ring 1 |
| EsbRetransmit.FailureIsRetried | cluster_node_multi_image_fota/net_ipc/src/main.c:456-492 | a failed transmission asks for its retry, whether it is the first of its cycle or not, if and only if every retry asked for before, in whatever cycle, has been concluded |
| EsbRetransmit.FirstFailureCanBeFinal | cluster_node_multi_image_fota/net_ipc/src/main.c:778-782 | a concrete run in which the radio refuses a retry's restart and the first transmission of the next cycle fails and is given up at once |
| EsbNode.RetransmitBoundsWhenSpaced | cluster_node_multi_image_fota/net_ipc/src/main.c:720-783 | if no trigger arrives in an open reply cycle, the count is at most 13 and the delay at most 2600 us |
| EsbParameters.ParametersWhenSpaced | cluster_node_multi_image_fota/net_ipc/src/main.c:456-492 | if no trigger arrives in an open reply cycle, every first transmission has count 3 and delay 600 us, and every retry has, by ring, count 8, 10 or 13 and a delay of 600 to 800, 1100 to 1600 or 2100 to 2600 us |
| EsbParameters.DelaysAreReached | cluster_node_multi_image_fota/net_ipc/src/main.c:763-773 | every delay of the range of its ring can be drawn |
| EsbListening.IdleNodeListens | cluster_node_multi_image_fota/net_ipc/src/main.c:785-797 | in every run, a node that is idle at the head of its loop listens, if and only if the radio did not refuse to listen when it was last set up |
| EsbListening.ConcludedNodeReturns | cluster_node_multi_image_fota/net_ipc/src/main.c:448-492 | a reply sent or given up asks for the return to listening, and the request stands until the PRX section, which does not let the loop pass without serving it |
| EsbListening.SilentMeansRefused | cluster_node_multi_image_fota/net_ipc/src/main.c:744-749 | the radio is silent exactly if it refused to listen and has not been set up since |
| EsbListening.RunIsOnAir | cluster_node_multi_image_fota/net_ipc/src/main.c:714-800 | a radio set up for sending always has something to send or is about to listen |
| EsbNode.CountCanReach23 | cluster_node_multi_image_fota/net_ipc/src/main.c:448-494 | a concrete run that initialises the radio with count 23 and delay 4600 us |
| EsbNode.AttemptTotalNeverWraps | cluster_node_multi_image_fota/net_ipc/src/main.c:448-494 | if the radio reports at most count+1 attempts per transmission, the 8-bit total stays at most 96 and equals the true sum since the last reset, and the reported byte is the true sum when the last reply was concluded |
| EsbParameters.AttemptsAreTrue | cluster_node_multi_image_fota/net_ipc/src/main.c:448-493 | the same counted from the events: the 8-bit total is the number of attempts since the cycle began, at most 96, and the reported byte is that number when the last reply was sent or given up |
| EsbParameters.TotalIsExactModulo | cluster_node_multi_image_fota/net_ipc/src/main.c:448-493 | whatever the radio reports, the total is the number of attempts since the cycle began, modulo 256 |
| EsbNode.TwoStartsForOneTrigger | cluster_node_multi_image_fota/net_ipc/src/main.c:714-800 | the bound of two is attained |
| EsbNode.CoherentStep | cluster_node_multi_image_fota/net_ipc/src/main.c:714-800 | the flags, the retry bit, the radio state and the loop position stay tied together at every point where an interrupt may fall |
| EsbNode.PaidForStep | cluster_node_multi_image_fota/net_ipc/src/main.c:714-800 | each step keeps starts so far plus starts still owed within twice the triggers |
| EsbNodeReceiver.NodeReceiver.OnRxReceived | cluster_node_multi_image_fota/net_ipc/src/main.c:342-446 | the whole receive branch, on receive buffer, reply payload, flag and ring, is one reaction of a node of the network model |
| EsbNodeReceiver.NodeReceiver.PrepareReply | cluster_node_multi_image_fota/net_ipc/src/main.c:355-381 | the reply echoes the sequence byte and this node's ring byte, 0 if its index is unresolved or beyond the length, with battery, RSSI and the attempts of the last reply |
| EsbNodeReceiver.NodeReceiver.ReadRing | cluster_node_multi_image_fota/net_ipc/src/main.c:397-442 | the ring of this node's byte if it is 1 to 3, else the present one; without an index, the first legacy indicator of the packet |
| EsbNodeReceiver.NodeReceiver.ReadRxPayload | cluster_node_multi_image_fota/net_ipc/src/main.c:343-344 | the packet overwrites its own length of the buffer |
| EsbNodeCore.NodeCore.OnReceived | cluster_node_multi_image_fota/net_ipc/src/main.c:393-395 | a trigger sets the transmit flag, and the ring selected takes effect |
| EsbNodeCore.NodeCore.Raise | cluster_node_multi_image_fota/net_ipc/src/main.c:468-477 | a first failure raises the count by 5, 7 or 10 and asks for a retry |
| EsbNodeCore.NodeCore.Interrupts | cluster_node_multi_image_fota/net_ipc/src/main.c:338-495 | any sequence of interrupts, outcomes only while a reply is in flight, is an execution of the protocol that leaves the loop where it is |
| EsbNodeCore.NodeCore.LoopPass | cluster_node_multi_image_fota/net_ipc/src/main.c:714-800 | one pass of the loop, with arbitrary interrupts between its sections, is an execution of the protocol that ends at the head of the loop or stops |
| EsbNodeCore.MainLoop | cluster_node_multi_image_fota/net_ipc/src/main.c:714-800 | for any number of passes from power-up, the shared variables between two passes are in a state of a run of the protocol, so every run theorem holds of them |
| EsbNodeCore.NodeCore.OnTxSuccess | cluster_node_multi_image_fota/net_ipc/src/main.c:448-454 | the success event is a step of the protocol, with the 8-bit total |
| EsbNodeCore.NodeCore.OnTxFailed | cluster_node_multi_image_fota/net_ipc/src/main.c:456-492 | the failure event is a step of the protocol: first failure raises the count by ring and asks for a retry, second one concludes |
| EsbNodeCore.NodeCore.TakePtxFlag | cluster_node_multi_image_fota/net_ipc/src/main.c:720-727 | taking the transmit flag resets the parameters for a new cycle |
| EsbNodeCore.NodeCore.RestartInPtx | cluster_node_multi_image_fota/net_ipc/src/main.c:611-646 | a radio restart cancels what was in flight and starts the reply, or listens again if refused |
| EsbNodeCore.NodeCore.TakeRetryFlag | cluster_node_multi_image_fota/net_ipc/src/main.c:760 | taking the retry flag is a step of the protocol |
| EsbNodeCore.NodeCore.ApplyBackoff | cluster_node_multi_image_fota/net_ipc/src/main.c:761-773 | the delay grows by the random offset of the ring |
| EsbNodeCore.NodeCore.TakePrxFlag | cluster_node_multi_image_fota/net_ipc/src/main.c:789-796 | taking the receive flag is a step of the protocol |
| EsbNodeCore.NodeCore.RestartInPrx | cluster_node_multi_image_fota/net_ipc/src/main.c:587-609 | listening again cancels what was in flight; a refusal stops the core |
| EsbNetwork.ForwardedRepliesAreCausal | cluster_head_multi_image_fota/net_ipc/src/main.c:76-195 | with any number of nodes and a channel that loses, delays and duplicates, for commands of at least two bytes: every reply the head forwards carries a sequence byte and the ring byte of the very node that sent it, both taken from one and the same trigger broadcast the head sent earlier (ring byte 0 if that node's index is unresolved or beyond the length), never a mix of two broadcasts or of two nodes |
| EsbNetwork.ForwardedRepliesAnswerCommands | cluster_head_multi_image_fota/net_ipc/src/main.c:158-195 | every forwarded reply answers a command of the application core that began with 0x91 or 0x92, and carries its sequence byte and its ring byte for the sender |
| EsbExchange.CommandIsAnswered | cluster_head_multi_image_fota/net_ipc/src/main.c:158-195 | a concrete run from a command that begins with 0x91 to its forwarded reply |
| EsbExchange.QueueStep | cluster_head_multi_image_fota/net_ipc/src/main.c:76-142 | a fifth waiting reply is dropped, any other is kept at the end until it is forwarded, oldest first, and a new command drops those that wait |
| EsbExchange.QueueHoldsFour | cluster_head_multi_image_fota/net_ipc/src/main.c:30-32 | at most four replies wait, in every run |
| EsbExchange.ReplyReports | cluster_node_multi_image_fota/net_ipc/src/main.c:355-394 | a packet that begins with 0x92, and no other, asks for a reply; the reply reports the battery voltage in steps of 20 mV, the signal strength and the attempts of the reply before |
| EsbExchange.ResolvedByteSelects | cluster_node_multi_image_fota/net_ipc/src/main.c:403-423 | the low nibble of a node's own byte selects its ring if it is 1, 2 or 3, and leaves it otherwise |
| EsbExchange.LegacyIndicators | cluster_node_multi_image_fota/net_ipc/src/main.c:426-440 | the legacy indicators are the bytes with 1 to 3 in both nibbles, and name the ring in the low one |
| EsbExchange.FirstIndicatorSelects | cluster_node_multi_image_fota/net_ipc/src/main.c:424-442 | an unresolved node takes the first legacy indicator of the packet, and keeps its ring without one |
| EsbExchange.UnresolvedLooksAtPacket | cluster_node_multi_image_fota/net_ipc/src/main.c:424-442 | it looks at the bytes of the present packet only |
| EsbHead.HeadCore.EpRecvTx | cluster_head_multi_image_fota/net_ipc/src/main.c:158-195 | a command drops the pending replies; the broadcast has its length and its bytes from index 1 on, and begins with 0x92 for 0x91 and with the same byte otherwise; nothing is sent if the write fails |
| EsbHead.HeadCore.OnRxReceived | cluster_head_multi_image_fota/net_ipc/src/main.c:127-142 | a received packet is queued, or dropped if four are waiting |
| EsbHead.HeadCore.RxWorkHandler | cluster_head_multi_image_fota/net_ipc/src/main.c:76-106 | every queued packet is forwarded, once and in order, and the queue is left empty |
| EsbHead.DrainedIsCausal | cluster_head_multi_image_fota/net_ipc/src/main.c:76-106 | forwarding all of them keeps every reply justified by one broadcast, for its sender |
| EsbNetwork.NextKeepsCausal | cluster_head_multi_image_fota/net_ipc/src/main.c:76-195 | every step of head, nodes and channel keeps every reply in flight, queued or forwarded justified by one broadcast, for the node that sent it |
| EsbNetwork.NetworkRunIsCausal | cluster_head_multi_image_fota/net_ipc/src/main.c:76-195 | so in every state of every run |
| EsbNetwork.HearAnswers | cluster_node_multi_image_fota/net_ipc/src/main.c:355-394 | the reply prepared for a trigger of at least two bytes answers exactly that trigger |
| EsbNetwork.TwoBytesAreNeeded | cluster_node_multi_image_fota/net_ipc/src/main.c:355-394 | the reply is independent of what the receive buffer held before if and only if the trigger has at least two bytes |
| EsbNetwork.OnlyTriggersOpenCycles | cluster_node_multi_image_fota/net_ipc/src/main.c:714-800 | only a trigger opens a reply cycle and only an open cycle starts a transmission |
| EsbNetwork.ScanRingInRange | cluster_node_multi_image_fota/net_ipc/src/main.c:421-440 | the fallback scan always leaves ring 1, 2 or 3 selected |
| EsbNetwork.ReadPayload | cluster_node_multi_image_fota/net_ipc/src/main.c:343-344 | reading a packet overwrites its length of the buffer and keeps the bytes beyond it |
| TransportFsm.NetworkLossWins | cluster_head_multi_image_fota/src/transport/transport_fsm.c:208-482 | from any state and with any pending MQTT event, a run that sees the network lost ends disconnected, both mailboxes empty, both work items cancelled, the timer stopped, the queue kept and nothing handed over, even when `mqtt_helper_disconnect` posts an event in the middle |
| TransportFsm.OneTransitionPerRun | cluster_head_multi_image_fota/src/transport/transport_fsm.c:208-482 | no run makes more than one transition; it consumes the network event, and outside the disconnected state the MQTT event |
| TransportTransitions.FromDisconnected | cluster_head_multi_image_fota/src/transport/transport_fsm.c:230-249 | disconnected, a run starts connecting exactly on a network connection, whatever the broker reports |
| TransportTransitions.FromConnecting | cluster_head_multi_image_fota/src/transport/transport_fsm.c:271-323 | connecting, a run goes on to subscribe exactly when the broker has accepted and schedules another attempt on any other report; a network connection starts over |
| TransportTransitions.FromSubscribing | cluster_head_multi_image_fota/src/transport/transport_fsm.c:334-390 | subscribing, a run goes back to connecting when the broker is lost or refuses, with the queue empty and connect work scheduled, goes on to publish when the subscription is confirmed, schedules it again when it failed, and stays otherwise; a network connection starts over |
| TransportTransitions.FromPublishing | cluster_head_multi_image_fota/src/transport/transport_fsm.c:408-472 | publishing, a run goes back to connecting exactly on a broker event other than a confirmed subscription, ignores a second network connection, and otherwise hands the head over if no timer runs: it leaves the queue unless it was taken with QoS 1, which starts the timer |
| TransportTransitions.RunHandsHead | cluster_head_multi_image_fota/src/transport/transport_fsm.c:488-512 | a run hands over the queue head if it is ready to, once, and nothing else |
| TransportTransitions.EventSteps | cluster_head_multi_image_fota/src/transport/transport_fsm.c:523-541 | what events, the two halves of a PUBACK and an expiry do, and that they do nothing else |
| TransportTransitions.WorkSteps | cluster_head_multi_image_fota/src/transport/transport_fsm.c:559-626 | what the work items do: connect work always reschedules itself, subscribe work runs once per schedule |
| TransportTransitions.EnqueueStep | cluster_head_multi_image_fota/src/transport/transport.c:90-119 | a client past the ready check queues its message at the end exactly if it is admitted and fewer than fifty wait |
| TransportTransitions.QueueHoldsFifty | cluster_head_multi_image_fota/src/transport/transport_queue.c:20-23 | at most fifty messages wait, in every run |
| TransportFsm.NetworkStageAfterLoss | cluster_head_multi_image_fota/src/transport/transport_fsm.c:334-358 | the network switch alone already quiets the machine on a loss |
| TransportProtocol.RunIsShaped | cluster_head_multi_image_fota/src/transport/transport_fsm.c:251-270 | in every run, subscriptions are scheduled only while subscribing, connecting has connect work under way, and the timer runs only while publishing |
| TransportDelivery.AtMostOnceInOrder | cluster_head_multi_image_fota/src/transport/transport_fsm.c:408-541 | over any run of publishes, machine runs, PUBACKs (late or duplicate), timer expiries, disconnects and reconnects: what is handed to `mqtt_helper_publish` is an accepted message, and each is handed over at most once and in order of acceptance if and only if no machine run comes, ready to hand the queue head over, while that head was sent before and a PUBACK callback has stopped the timer and not yet removed it |
| TransportDelivery.HandsWhenReady | cluster_head_multi_image_fota/src/transport/transport_fsm.c:408-512 | a machine run hands the queue head over exactly if it is PUBLISHING, the network is not lost, no MQTT event or only a SUBACK is pending, there is a message and no timer runs |
| TransportDelivery.TimerGuardsSentMessage | cluster_head_multi_image_fota/src/transport/transport_fsm.c:488-541 | a running timer always means PUBLISHING; throughout a run it means that the message sent last is at the queue head if and only if no PUBACK callback removes a head while the timer runs |
| TransportDelivery.AtomicAcksDeliver | cluster_head_multi_image_fota/src/transport/transport_fsm.c:523-531 | where PUBACK callbacks are not preempted, at-most-once, order and the meaning of the timer hold unconditionally, late and duplicate PUBACKs included |
| TransportDelivery.MessageCanBeHandedTwice | cluster_head_multi_image_fota/src/transport/transport_fsm.c:523-531 | a concrete run in which a preempted PUBACK callback makes the same message be handed over twice |
| TransportDelivery.TimerCanOutliveMessage | cluster_head_multi_image_fota/src/transport/transport_fsm.c:523-531 | the same run carried on: the head leaves the queue and the timer runs for nothing |
| TransportResend.AtMostOnceUnlessAckPreempted | cluster_head_multi_image_fota/src/transport/transport_fsm.c:408-541 | the same by events: each accepted message is handed over at most once and in order if and only if there is no chain of a message sent, a PUBACK callback that stops the timer, and a machine run ready to hand over before the callback removes the message, with no removal, hand-over or state change in between |
| TransportResend.RunIsFresh | cluster_head_multi_image_fota/src/transport/transport_fsm.c:251-270 | in every run, the queue head in CONNECTING and SUBSCRIBING is never a message sent before, whatever late clients queue there |
| TransportPublishing.QueueEmptyBeforePublishing | cluster_head_multi_image_fota/src/transport/transport_fsm.c:251-270 | the queue is empty in CONNECTING and SUBSCRIBING, throughout a run, if and only if no client that passed the ready check of `transport_publish` reaches the queue in one of these states |
| TransportPublishing.AtomicPublishesWait | cluster_head_multi_image_fota/src/transport/transport.c:85-126 | where a client is not preempted between its ready check and the queue, the queue is empty in CONNECTING and SUBSCRIBING |
| TransportPublishing.MessageCanLandEarly | cluster_head_multi_image_fota/src/transport/transport.c:90-114 | a concrete run in which a preempted client queues its message while the machine is connecting again |
| TransportDelivery.ConnectWorkIsConfined | cluster_head_multi_image_fota/src/transport/transport_fsm.c:559-615 | connect work is scheduled or running exactly in CONNECTING, throughout a run, if and only if no machine run falls into the work function while the network is lost, or while an accepted connection waits and no network event does |
| TransportDelivery.AtomicConnectWorkIsConfined | cluster_head_multi_image_fota/src/transport/transport_fsm.c:559-615 | where the work function is never interrupted, connect work is pending exactly in CONNECTING whenever the function is not at work |
| TransportDelivery.LeavesConnecting | cluster_head_multi_image_fota/src/transport/transport_fsm.c:271-323 | a machine run leaves CONNECTING exactly on a lost network, or on an accepted connection with no network event |
| TransportDelivery.ConnectWorkCanOutliveConnection | cluster_head_multi_image_fota/src/transport/transport_fsm.c:299-308 | a concrete run with connect work scheduled while subscribing: the CONNACK of the first attempt arrives during the second attempt's sleep |
| TransportDelivery.ConnectWorkCanStray | cluster_head_multi_image_fota/src/transport/transport_fsm.c:594-615 | a concrete run with connect work scheduled while disconnected, after a loss during the work function's 10 s sleep |
| TransportDelivery.RunIsTracked | cluster_head_multi_image_fota/src/transport/transport_fsm.c:408-541 | the inductive invariant: queue in order of acceptance, nothing queued before what was sent last, a sent head protected by timer, PUBACK or disconnection |
| TransportThread.TransportThread.Run | cluster_head_multi_image_fota/src/transport/transport_fsm.c:109-119 | `transport_fsm_run` over mailboxes, work items and the heap-owning queue is one step of the protocol |
| TransportThread.TransportThread.SetState | cluster_head_multi_image_fota/src/transport/transport_fsm.c:173-193 | exit then entry handler, at once |
| TransportThread.TransportThread.Exit | cluster_head_multi_image_fota/src/transport/transport_fsm.c:391-395 | what leaving a state cancels |
| TransportThread.TransportThread.Enter | cluster_head_multi_image_fota/src/transport/transport_fsm.c:208-270 | what entering a state cancels, clears and schedules |
| TransportThread.TransportThread.NetworkDisconnectedEntry | cluster_head_multi_image_fota/src/transport/transport_fsm.c:208-224 | both work items cancelled, timer stopped, mailboxes emptied, queue kept |
| TransportThread.TransportThread.ConnectingToBrokerEntry | cluster_head_multi_image_fota/src/transport/transport_fsm.c:251-270 | subscription cancelled, queue cleared, timer stopped, connection scheduled |
| TransportThread.TransportThread.NetworkDisconnectedRun | cluster_head_multi_image_fota/src/transport/transport_fsm.c:230-249 | the disconnected handler is the handler of the specification |
| TransportThread.TransportThread.ConnectingToBrokerRun | cluster_head_multi_image_fota/src/transport/transport_fsm.c:271-323 | the connecting handler, going on to the MQTT event after a transition |
| TransportThread.TransportThread.ConnectedSubscribingRun | cluster_head_multi_image_fota/src/transport/transport_fsm.c:334-390 | the subscribing handler, likewise |
| TransportThread.TransportThread.ConnectedPublishingRun | cluster_head_multi_image_fota/src/transport/transport_fsm.c:408-472 | the publishing handler: the queue is serviced only if neither switch made a transition |
| TransportThread.TransportThread.ServiceTransportMsgQueue | cluster_head_multi_image_fota/src/transport/transport_fsm.c:488-512 | the head is handed over if there is one and no timer runs; it leaves the queue if refused or QoS 0, else the timer starts |
| TransportThread.TransportThread.MsgPublishedStopsTimer | cluster_head_multi_image_fota/src/transport/transport_fsm.c:523-530 | first half of the PUBACK callback; the message id is ignored |
| TransportThread.TransportThread.MsgPublishedRemovesHead | cluster_head_multi_image_fota/src/transport/transport_fsm.c:523-531 | second half: whatever is at the head is removed |
| TransportThread.TransportThread.TimerExpired | cluster_head_multi_image_fota/src/transport/transport_timer.c:22-64 | a one-shot expiry stops the timer and removes the head |
| TransportThread.TransportThread.ConnectWorkBegin | cluster_head_multi_image_fota/src/transport/transport_fsm.c:559-594 | the work item is no longer scheduled and its function runs |
| TransportThread.TransportThread.ConnectWorkEnd | cluster_head_multi_image_fota/src/transport/transport_fsm.c:594-615 | a connect attempt in the wrong library state disconnects first; the work reschedules itself whatever happened |
| TransportThread.TransportThread.SubscribeWork | cluster_head_multi_image_fota/src/transport/transport_fsm.c:620-626 | the subscription work runs once per schedule |
| TransportThread.TransportThread.NetworkEventSet | cluster_head_multi_image_fota/src/transport/transport_fsm.c:136-139 | a network event overwrites its mailbox |
| TransportThread.TransportThread.MqttEventSet | cluster_head_multi_image_fota/src/transport/transport_mqtt_callbacks.c:55-125 | an MQTT callback overwrites its mailbox |
| TransportThread.TransportThread.StateReady | cluster_head_multi_image_fota/src/transport/transport_fsm.c:157-167 | the ready check of a publish is a step of its own |
| TransportThread.TransportThread.PublishWhenReady | cluster_head_multi_image_fota/src/transport/transport.c:91-119 | after the ready check, whatever state the machine is in by then: the message is queued exactly if both strings are shorter than 64 and 2548, both buffers are granted and fewer than 50 are queued; QoS above 1 becomes 1 |
| TransportThread.TransportThread.Publish | cluster_head_multi_image_fota/src/transport/transport.c:85-126 | not preempted, a message is accepted exactly while publishing, with both strings given, short enough, both buffers granted and room; a refusal changes nothing and reports -EINVAL exactly for a missing string |
| TransportQueue.TransportQueue.Add | cluster_head_multi_image_fota/src/transport/transport_queue.c:25-66 | success exactly if both strings are given, both allocations are granted and there is room; on each of the three failure paths queue and live allocations are as before |
| TransportQueue.TransportQueue.Peek | cluster_head_multi_image_fota/src/transport/transport_queue.c:71-80 | the oldest message, with the strings in its buffers |
| TransportQueue.TransportQueue.Remove | cluster_head_multi_image_fota/src/transport/transport_queue.c:81-94 | the head leaves and its two buffers are freed, each a live one |
| TransportQueue.TransportQueue.Clear | cluster_head_multi_image_fota/src/transport/transport_queue.c:96-106 | the queue is empty, nothing is live and every allocation has been released |
| TransportQueue.TransportQueue.Pending | cluster_head_multi_image_fota/src/transport/transport_queue.c:67-70 | the number of messages queued |
| TransportQueue.OwnedAppend | cluster_head_multi_image_fota/src/transport/transport_queue.c:30-66 | two fresh buffers join the queue: the live allocations stay exactly the two buffers of each message, all distinct, and the contents grow by the message |
| TransportQueue.OwnedRemove | cluster_head_multi_image_fota/src/transport/transport_queue.c:81-94 | the head's two buffers are live and distinct, and without them the live allocations are exactly those of the rest |
| TransportQueue.ContentsRemove | cluster_head_multi_image_fota/src/transport/transport_queue.c:81-94 | releasing the head's buffers leaves every other queued message as it was |
| MqttHelper.OperationIsLegal | cluster_head_multi_image_fota/src/transport/mqtt_helper_heliogen.c:76-158 | of all API calls, error paths and events, exactly these leave the legal table: connecting again in CONNECTING once the broker's address is resolved, and an accepted CONNACK outside CONNECTING and CONNECTED |
| MqttHelper.RunIsLegal | cluster_head_multi_image_fota/src/transport/mqtt_helper_heliogen.c:76-158 | a run makes only legal state changes if and only if no operation in it is one of those two |
| MqttHelper.DisciplinedRunIsLegal | cluster_head_multi_image_fota/src/transport/mqtt_helper_heliogen.c:637-666 | a run is legal if it never connects in CONNECTING and CONNACK arrives only there |
| MqttHelper.Outcomes | cluster_head_multi_image_fota/src/transport/mqtt_helper_heliogen.c:617-763 | where each call and each event leaves the helper, refused calls where they found it |
| MqttHelper.LifeCycle | cluster_head_multi_image_fota/src/transport/mqtt_helper_heliogen.c:617-763 | from initialisation through a session to the end, the helper passes through every state of its life in order |
| MqttHelper.PublishesWithinSession | cluster_head_multi_image_fota/src/transport/mqtt_helper_heliogen.c:699-744 | in a legal run, a publish or subscribe that reaches the library comes after an accepted connection request and an accepted CONNACK, with nothing in between that ends either |
| TransportSession.SessionIsLegal | cluster_head_multi_image_fota/src/transport/transport_fsm.c:559-615 | transport and helper together: all state changes of the helper are legal, throughout a run, if and only if no connection attempt with a resolved address ends while an earlier request is unanswered, and the broker accepts only what was asked for |
| TransportSession.ConnectingMeansUnanswered | cluster_head_multi_image_fota/src/transport/mqtt_helper_heliogen.c:637-666 | the helper is CONNECTING exactly while a connection request of the transport is unanswered |
| TransportSession.OpenSessionEnds | cluster_head_multi_image_fota/src/transport/transport_fsm.c:594-608 | an open session ends exactly if the broker is lost or refuses, if the machine learns of a network loss, or if connect work comes to its end, which disconnects it |
| TransportSession.ConnectWorkTells | cluster_head_multi_image_fota/src/transport/transport_fsm.c:594-615 | connect work that finds an open session closes it, and a disconnection is posted exactly if the helper knows it closed |
| TransportSession.HandOverKeeps | cluster_head_multi_image_fota/src/transport/transport_fsm.c:488-512 | a message handed over stays at the head, with the timer running, exactly if the helper is CONNECTED, the library takes it and its QoS asks for a PUBACK |
| TransportSession.ConnectReturns | cluster_head_multi_image_fota/src/transport/mqtt_helper_heliogen.c:637-666 | connecting returns 0 exactly if a request was sent, and -95 if refused |
| TransportSession.JointRunProjects | cluster_head_multi_image_fota/src/transport/transport_fsm.c:109-119 | the transport's part of every joint run is a run of the transport protocol, so its run theorems hold there |
| TransportSession.AttemptCanOvertake | cluster_head_multi_image_fota/src/transport/transport_fsm.c:594-614 | a concrete run in which the second connection attempt ends before the first is answered |
| TransportSession.SessionCanBeDropped | cluster_head_multi_image_fota/src/transport/transport_fsm.c:594-608 | a concrete run in which a connection accepted during the second attempt's sleep is dropped by that attempt |
| MqttHelper.ConnectingMeansRequested | cluster_head_multi_image_fota/src/transport/mqtt_helper_heliogen.c:617-666 | CONNECTING means that a connection request succeeded and nothing ended the attempt since |
| MqttHelper.NeverRestsInTransport | cluster_head_multi_image_fota/src/transport/mqtt_helper_heliogen.c:574-584 | between operations the helper never rests in a transport state, on error paths neither |
| MqttHelper.MqttHelper.StateSet | cluster_head_multi_image_fota/src/transport/mqtt_helper_heliogen.c:76-158 | a request for the current state is skipped; any other is recorded, and raises no error exactly if it is in the table |
| MqttHelper.MqttHelper.EvtHandler | cluster_head_multi_image_fota/src/transport/mqtt_helper_heliogen.c:331-423 | CONNACK and disconnection events as state requests |
| MqttHelper.MqttHelper.ClientConnect | cluster_head_multi_image_fota/src/transport/mqtt_helper_heliogen.c:487-614 | the three requests of a successful connection, the one or none before a failure |
| MqttHelper.MqttHelper.Init | cluster_head_multi_image_fota/src/transport/mqtt_helper_heliogen.c:617-635 | refused without effect unless uninitialised or disconnected |
| MqttHelper.MqttHelper.Connect | cluster_head_multi_image_fota/src/transport/mqtt_helper_heliogen.c:637-666 | refused without effect unless disconnected or connecting; a failure ends disconnected and is returned |
| MqttHelper.MqttHelper.Disconnect | cluster_head_multi_image_fota/src/transport/mqtt_helper_heliogen.c:668-697 | refused without effect unless connected; a library failure ends disconnected |
| MqttHelper.MqttHelper.Subscribe | cluster_head_multi_image_fota/src/transport/mqtt_helper_heliogen.c:699-726 | reaches the library exactly in CONNECTED |
| MqttHelper.MqttHelper.Publish | cluster_head_multi_image_fota/src/transport/mqtt_helper_heliogen.c:728-744 | reaches the library exactly in CONNECTED |
| MqttHelper.MqttHelper.Deinit | cluster_head_multi_image_fota/src/transport/mqtt_helper_heliogen.c:746-763 | refused without effect unless disconnected |

## Left out

Simplifications inside the modelled parts:

- Mppt: readings are taken as converted; that single-precision conversion equals truncating division is proved beside it under the rounding guarantees of IEEE 754, not by modelling the floating-point format.
- PowerThread: SAADC and PWM hardware, the sample timer, `update_mppt_obj` and `prev_duty` (written and never read); the Wi-Fi power decision is not part of this model.
- Crc32: the library routine `crc32_ieee` is not in the repository; it is taken from RFC 1662, Appendix C.3, bit by bit.
- RetainedRam: the region is a byte array; the strings and counters inside it and `retained_ram_to_files_save` are not interpreted.
- EsbNode: radio output power is left out; a packet is received only while the radio listens; the 16-bit width of delay and count is not modelled because the bounds show that neither wraps; each radio restart is one step, and so is taking a flag with the resets that follow it; a backoff reads the selected ring once.
- EsbNetwork: the node's index in the packet is a parameter instead of the node-table lookup, battery and RSSI bytes are arbitrary and the request for a fresh battery value is left out; commands have 1 to 32 bytes.
- EsbNetwork.ForwardedRepliesAreCausal: for commands of at least two bytes only; `TwoBytesAreNeeded` shows that the condition is exact for each reply.
- EsbNode.RetransmitBoundsWhenSpaced: one direction only; triggers inside an open cycle need not raise the delay.
- TransportProtocol: one machine run is a single step (the hand-over with the timer start or the removal), as is each callback except the PUBACK callback; that callback, a client publish and the connect work are two steps each.
- TransportProtocol.RunIsShaped: does not promise an empty queue in CONNECTING and SUBSCRIBING, because a preempted client can queue a message there; `TransportPublishing.QueueEmptyBeforePublishing` says when.
- TransportThread: `transport_mqtt_active_set`, status events, statistics and last-will texts; which message id a SUBACK carries (any MQTT event may be posted at any time instead).
- TransportQueue: the allocator's answers are parameters; addresses stand for buffers and strings end at their length.
- TransportSession: the calls of one transport step, and the helper's reaction to one library event with the mailbox it fills, are single steps.
- MqttHelper: API calls and events are single steps, except that the library may report the disconnection inside `mqtt_disconnect`; address resolution, certificates, the poll loop and PUBLISH/PUBACK/PINGRESP events change no state and are left out; callbacks are left to the transport.

Not modelled at all:

- the central server's GUI, sockets and CSV files;
- JSON encoding, shell commands, event log, file storage and configuration;
- Wi-Fi, time synchronisation and firmware update threads;
- radio, clock and IPC set-up, logging and LEDs;
- the PID stub, the older variant of the node core and the transport statistics.
