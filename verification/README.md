# Verified model of the sensors proxy, ambient-light correction and camera motor

The project models three parts of the device tree in Dafny and proves laws of all their runs.

- **Sensors multi-HAL proxy** (`sensors/HalProxy.cpp`, `sensors/HalProxyCallback.cpp`). Sub-HALs post
  event batches; a batch goes straight into the bounded event queue, or its remainder goes to a bounded
  pending queue that a writer thread drains. The writer drops the mutex while it writes. A shared, timed
  reference count keeps the device awake. `EventPipelineSpec` is the step system of the posting threads,
  the writer, the queue and its reader; `EventPipelineInv`, `EventPipelineLaws` and `EventPipelineWakes`
  prove its laws; `HalProxyEvents` and `HalProxyCallback` are the methods in place, `EventCorrection` joins
  them to the ambient-light filter. `WakelockSpec`, `SharedWakelock` and `WakelockThread` (in
  `SharedWakelock.dfy`) do the same for the wakelock. `SensorHandle`, `SensorList`, `OperationMode`,
  `DynamicSensors` and `DynamicSensorRuns` cover the handle encoding, the sensor scan with its
  direct-channel election, the mode switch and the dynamic sensors, one call at a time and concurrently.
- **Ambient-light correction** (`sensors/AlsCorrection.cpp`, fed by `als/default/AreaCapture.cpp`).
  `AreaCapture` is the pixel averaging with its 32-bit arithmetic, `AlsSpec` the filter as functions,
  `AlsCorrection` the methods in place, `AlsExact` what they compute in plain arithmetic, `AlsLaws` and
  `AlsRuns` the bounds, the hysteresis and the runs.
- **Pop-up camera debounce** (`CameraMotorService.java`): `CameraMotorSpec`, `CameraMotorLaws` and
  `CameraMotorService`, all in `CameraMotor.dfy`.

A run is a sequence of states from the initial one with the step taken out of each, so a law over a run
speaks of every reachable state and every interleaving of the steps. A step that would take the front of
an empty queue, read past a vector or underflow a counter has no successor (`Defined`), and the laws show
that no run ever meets one. The environment's answers (reader, write results, clock, capture, sub-HAL
replies) are parameters.

What the model takes from headers that the repository does not hold is symbolic: the pending-queue bound,
the queue's quantum (at least 1) and the wakelock timeout. The sub-HAL mask is the handle's top byte, a
missing sensor-table entry reads as one without flags. A scoped wakelock takes one reference when it is
created locked and gives it back, with the start time it was given, when it goes out of scope. A `size_t`
counter is a natural number. Reals stand for floats, with an explicit plus infinity where the table or a
division needs one; `pow(x, 2.2)` is any function that keeps the unit interval within itself.

Several properties hold only under a condition. Each is proved with its exact condition or with a concrete
run that shows the condition is needed.

- Kernel calls alternate if and only if no increment by 0 finds the count at 0 (`TraceLaw`).
- A scoped reference dies with a reset only if the clock moved between them (`ScopedReleaseLaw`,
  `SameInstantResetLeaksEpoch`).
- A failed drain asks back what it drops if and only if rewriting a handle to 0 cannot produce a wake-up
  event, or nothing can be pending (`NeverLeaksExactly`); the filter itself does such a rewriting
  (`FilterLeaks`). The stored counts bound what they stand for under the first of these
  conditions (`CoveredExactly`). The balance of references needs no condition (`ReferencesAccountedFor`).
- Tagging routes back if and only if the sub-HAL index is below 128 (`RoundTrip`), and direct requests
  agree with ordinary routing under the same condition (`DirectAgreesWithRouting`).
- The hysteresis window holds its own reading except for values strictly between 0 and 1 lux whose reading
  is below 1 lux, and readings below -1 (`HysteresisStable`). Away from the base gain that goes on to hold,
  with values up to 7 lux in place of 1, exactly for gain steps between 46/59 and 9/8 of the base gain
  (`StableExactly`).
- The debounce promises a full delay between the sending of a commanded message and the next opposite
  event. The code keeps it if and only if callbacks take no time between their clock readings
  (`DebouncedExactly`); callbacks of up to n ms keep exactly the delay less 2n (`GuaranteedExactly`).
- Announcements of dynamic sensors are delivered outside the mutex and may leave the framework with a
  sensor that is gone (`OvertakingMisleads`). It is sure to end up right about a sensor throughout a run if
  and only if no call about it starts while an announcement that says something else of it is outstanding
  (`RightThroughoutExactly`); deliveries in order rebuild the map (`InOrderRebuilds`).
- The pixel averages of a frame are true for every buffer if and only if it has at most 16843009 visible
  pixels (`AlwaysExactUpTo`).
- Counting wake-up events looks handles up with the map's inserting operator, so it adds default entries to
  the sensor table (`CountNumWakeupEvents`).

## Model

| member | source | states |
|---|---|---|
| EventPipelineLaws.EveryEnabledStepIsDefined | sensors/HalProxy.cpp:579-703 | In every reachable state every step that can be taken is defined: the size counter never underflows, the writer's front batch exists, and the room a direct write was promised is still there. |
| EventPipelineLaws.SingleWriter | sensors/HalProxy.cpp:582-617 | A direct write and the writer's unlocked blocking write never overlap, and the batch in work stays in front, unchanged, until the mutex is retaken. |
| EventPipelineLaws.FirstInFirstOut | sensors/HalProxy.cpp:579-703 | In every run the events that reached the queue, then the pending ones not attempted yet, are the posted events at strictly increasing positions. |
| EventPipelineLaws.EveryEventHasOneFate | sensors/HalProxy.cpp:579-703 | Between posts every posted event is exactly one of written, pending, dropped on overflow, lost in a failed write, and that once: no list repeats a position and together they are as many as were posted; the logs of dropped and lost events are the events at those positions. |
| EventPipelineLaws.OverflowDropsWholeRemainder | sensors/HalProxy.cpp:693-702 | An event dropped on overflow was dropped with the whole remainder of its post, whose other events were written directly. |
| EventPipelineLaws.SizeIsExact | sensors/HalProxy.cpp:608-616 | At every point of every run the counter is the number of pending events, within the bound, and is 0 exactly when no batch is pending. |
| EventPipelineLaws.MostIsPeak | sensors/HalProxy.cpp:699-700 | The recorded maximum is the largest size any state of the run has had. |
| EventPipelineLaws.NoLostWakeup | sensors/HalProxy.cpp:584-701 | A writer asleep on a non-empty pending queue has been notified since it went to sleep. |
| EventPipelineLaws.HistoryOfRun | sensors/HalProxy.cpp:668-692 | What counts as posted, read and taken is exactly what the entered batches, the reads and the locked posts of the run add up to. |
| EventPipelineLaws.IterationsStep | sensors/HalProxy.cpp:608-616 | A finished iteration takes exactly one round of at most one quantum off the pending queue; no other step but the end of a post changes the rounds. |
| EventPipelineLaws.DrainsExactly | sensors/HalProxy.cpp:583-617 | With no further post, the pending queue is empty if and only if the writer has finished as many iterations as the sum of ceil(length/quantum) over its batches. |
| EventPipelineLaws.ServedInTurn | sensors/HalProxy.cpp:583-617 | Whatever is posted meanwhile, what was pending is off the queue after exactly as many finished iterations as its rounds; until then newer batches wait untouched behind it, afterwards only they are left. |
| EventPipelineWakes.CoveredInRun | sensors/HalProxy.cpp:687-697 | If sensor 0 is not a wake-up sensor, or every sensor is, then in every run each stored wake-up count bounds the wake-up events still stored with it, across partial writes and erases. |
| EventPipelineWakes.CoveredExactly | sensors/HalProxy.cpp:675-697 | The stored counts bound the stored wake-up events in every state of every run if and only if sensor 0 is not a wake-up sensor or every sensor is. |
| EventPipelineWakes.FailedWriteReleases | sensors/HalProxy.cpp:597-605 | What a failed write asks back, exactly: nothing if no count is stored, the wake-up events of the lost chunk and no others if more of the batch remains, the stored count if the batch ends with it. So it asks back at least what it drops if and only if it counts the chunk itself or the stored count bounds the chunk. |
| EventPipelineWakes.ZeroHandleLeak | sensors/HalProxy.cpp:592-606 | For any ordinary event that correction points at wake-up sensor 0 there is a run in which it is lost and the failed write releases less than it drops. |
| EventPipelineWakes.NeverLeaksExactly | sensors/HalProxy.cpp:592-606 | In all runs every failed write asks back at least what it drops, if and only if sensor 0 is not a wake-up sensor, or every sensor is, or no event may be pending. |
| EventPipelineWakes.ReferencesAccountedFor | sensors/HalProxy.cpp:597-703 | Between posts, for every sensor table, the references taken are at most those asked back plus the wake-up events written, dropped on overflow, rewritten by correction, or pending under a stored count that stands for them. |
| HalProxyEvents.PostOutcome | sensors/HalProxy.cpp:668-703 | A post overtakes nothing, writes directly as much as fits, queues the rest behind everything else if it fits as a whole, else drops it as a whole, and takes the references of its wake-up events. |
| HalProxyEvents.HalProxy.CountNumWakeupEvents | sensors/HalProxy.cpp:760-769 | Counts the wake-up events of a prefix; the lookups add default entries for unknown handles and change no other entry. |
| EventCorrection.CorrectAll | sensors/AlsCorrection.cpp:171-285 | Whatever the filter's configuration, state and surroundings, it changes only wise-light events, and of those only the scalar and, by pointing it at 0, the handle. |
| EventCorrection.BatchGoesOn | sensors/HalProxy.cpp:675-680 | Correcting a batch is going on with the run of the filter by its wise-light events in order: each leaves with the run's answer to it, or pointed at handle 0 if that is a drop, and every other event leaves as posted. |
| EventCorrection.BatchCarriesLatestRefresh | sensors/AlsCorrection.cpp:187-284 | Over all batches, a wise-light event that is not dropped leaves as posted but for its scalar, which is the non-negative value of the latest refresh completed so far, and no refresh was demanded since. |
| EventCorrection.FilterLeaks | sensors/AlsCorrection.cpp:207-211 | If sensor 0 is a wake-up sensor, the filter itself, by dropping an event whose capture fails, leads to a failed write that asks back less than it drops. |
| HalProxyEvents.HalProxy.CorrectEvents | sensors/HalProxy.cpp:675-680 | Runs the filter on each wise-light event of the copy, in order, and on nothing else; the result is the filter's own batch, and one of the kind the pipeline laws assume. |
| HalProxyEvents.HalProxy.PostEventsToMessageQueue | sensors/HalProxy.cpp:668-703 | Takes the three post steps in a row on the proxy's fields, with the batch the filter makes of the posted one, and keeps the pipeline invariant; increments the wakelock by the wake-up count exactly if the batch holds it. |
| HalProxyEvents.HalProxy.TakeFront | sensors/HalProxy.cpp:586-591 | The chunk is the front batch cut to one quantum; nothing but the writer's place changes. |
| HalProxyEvents.HalProxy.WriteFront | sensors/HalProxy.cpp:592-606 | Success appends the chunk to the queue; failure decrements the wakelock by the wake-up events of the chunk, or by the stored count if the batch ends with it, or not at all if none is stored. |
| HalProxyEvents.HalProxy.FinishFront | sensors/HalProxy.cpp:607-616 | Removes the chunk from the front batch or the batch from the queue and takes it off the counter, which does not underflow. |
| HalProxyEvents.HalProxy.WritePendingBatch | sensors/HalProxy.cpp:586-617 | One iteration: the front chunk of at most one quantum reaches the queue behind what the reader left, if there is room and the write succeeds, and is lost with its release otherwise; either way it is off the pending queue. |
| HalProxyEvents.HalProxy.HandlePendingWrites | sensors/HalProxy.cpp:579-619 | Whatever the reader and the queue answer, the loop empties the pending queue in exactly the sum of the batches' rounds; if the reader keeps up and the queue is willing all pending events arrive, in order, and if it refuses all are lost. |
| HalProxyCallback.TagsAreSeparate | sensors/HalProxyCallback.cpp:37-39 | Events of two sub-HALs below 128 share a handle only if sub-HAL and own handle agree, and both can be read back. |
| HalProxyCallback.TagSpelledOut | sensors/HalProxyCallback.cpp:68-73 | Below index 128 tagging puts the index above a clear handle; in a dynamic-sensor event, and in no other, it does the same to the handle inside; type and payload stay. |
| HalProxyCallback.Callback.ProcessEvents | sensors/HalProxyCallback.cpp:65-82 | Tags every event in order, and the handle inside dynamic-sensor events; the count is the number of wake-up events of the result. |
| HalProxyCallback.Callback.CreateScopedWakelock | sensors/HalProxyCallback.cpp:60-63 | A locked scoped wakelock takes one reference and carries its start time, unless the threads are stopped. |
| HalProxyCallback.Callback.PostEvents | sensors/HalProxyCallback.cpp:41-58 | An empty batch or a stopped proxy posts nothing and changes neither proxy nor filter; otherwise exactly the tagged batch is corrected and posted, and the wakelock gains its wake-up count if the batch holds it. In any case the batch's own reference is given back at the end, and the sensor table stays. |
| WakelockSpec.BalancedStep | sensors/HalProxy.cpp:705-735 | One operation keeps acquire/release alternation and held-iff-positive exactly if it is not an increment by 0 at count 0. |
| WakelockSpec.TraceLaw | sensors/HalProxy.cpp:705-735 | Over any history, at every point kernel calls alternate and the lock is held exactly while the count is positive, if and only if no increment by 0 ever finds the count at 0. |
| WakelockSpec.PositiveIncrementsKeepTraceLaw | sensors/HalProxy.cpp:705-735 | Histories whose increments are all positive keep the law. |
| WakelockSpec.CountLaw | sensors/HalProxy.cpp:662-735 | The count is the running sum of the requested changes minus the lowest running sum, for every sequence of increments, decrements and resets. |
| WakelockSpec.LowestSum | sensors/HalProxy.cpp:731 | The lowest running sum is a prefix sum and no prefix sum is lower. |
| WakelockSpec.ScopedReleaseLaw | sensors/HalProxy.cpp:713-731 | With a clock that does not go back, a scoped reference is ignored if and only if a reset with a later time followed its increment; otherwise it lowers the count by all it can. |
| WakelockSpec.ScopedPostLaw | sensors/HalProxy.cpp:668-735 | Whatever happens between a batch's creation and its post, posting n wake-up events adds n to the count less the batch's own reference, or all n if a reset with a later time came between; if anything is held and n is positive, without a kernel call. |
| WakelockSpec.EpochLaw | sensors/HalProxy.cpp:662-731 | With a strictly increasing clock a reference from before a reset never lowers the count after it, and one of the same epoch always does. |
| WakelockSpec.SameInstantResetLeaksEpoch | sensors/HalProxy.cpp:730 | A reset in the nanosecond of the increment lets the old reference release a newer one. |
| SharedWakelock.Wakelock.IncrementRefCountAndMaybeAcquireWakelock | sensors/HalProxy.cpp:705-719 | Acquires on the first reference, restarts the timeout, hands out the start time; does nothing while the threads are stopped. |
| SharedWakelock.Wakelock.DecrementRefCountAndMaybeReleaseWakelock | sensors/HalProxy.cpp:721-735 | Ignores stale and excess releases, saturates at 0 and releases on reaching it. |
| SharedWakelock.Wakelock.ResetSharedWakelock | sensors/HalProxy.cpp:662-666 | While the threads run the count is 0 afterwards; the reset time moves in any case. |
| SharedWakelock.Wakelock.SharedWakelockDidTimeout | sensors/HalProxy.cpp:650-660 | Timeout exactly when the clock is past start plus timeout; otherwise the time left ends there and is not negative. |
| SharedWakelock.Wakelock.HandleWakelocksOnce | sensors/HalProxy.cpp:629-645 | One thread iteration, with any operations of other threads while it reads without the mutex: resets on timeout, as of a second clock reading, otherwise takes an acknowledgement off the count the others leave, without touching the times; keeps the kernel call law unless one of the others makes an empty acquire. |
| WakelockThread.NoLostWakeup | sensors/HalProxy.cpp:625-712 | If the wakelock thread sleeps while references are held, it has been notified since it went to sleep. |
| WakelockThread.HistoryOfRun | sensors/HalProxy.cpp:625-666 | What enters the wakelock code in a run is what its steps say: client operations, the reset of each timeout and the release of each acknowledged count; the lock is where that history leads. |
| WakelockThread.AcknowledgementLaw | sensors/HalProxy.cpp:635-644 | An acknowledgement takes what it counts off the references as far as there are any and moves no time; a read without one changes nothing. |
| WakelockThread.TimeoutLaw | sensors/HalProxy.cpp:628-666 | The thread resets the count, as of a second clock reading, exactly when more than the timeout has passed since the latest effective increment; otherwise it reads for the rest of the timeout, within 0..timeout. |
| WakelockThread.KernelCallsBalanced | sensors/HalProxy.cpp:625-735 | The kernel call law holds in all states of a run of the thread and its clients if and only if nothing that entered the wakelock code was an increment by 0 at count 0. |
| WakelockThread.CountingClientsKeepBalance | sensors/HalProxy.cpp:625-735 | In every run whose clients only increment by positive amounts the law holds in every state. |
| SensorHandle.RoundTrip | sensors/HalProxy.cpp:59-72 | For a clear handle and an index in the list, the tagged handle is valid and gives index and handle back if and only if the index is below 128. |
| SensorHandle.TagInjective | sensors/HalProxy.cpp:59-61 | Tagging clear handles with indices below 256 is injective. |
| SensorHandle.TaggedClear | sensors/HalProxy.cpp:59-72 | A tagged clear handle has the index modulo 256 in its top byte and the handle below it. |
| SensorHandle.TagKeepsLow | sensors/HalProxy.cpp:771-773 | Tagging any handle, clear or not, leaves its low three bytes alone. |
| SensorHandle.TagAddsDigits | sensors/HalProxy.cpp:59-61 | Tagging any handle, clear or not, adds the binary digits of the index to those of its top byte. |
| SensorHandle.BytesOf | sensors/HalProxy.cpp:70-72 | A handle is its bytes, and a top byte from 128 up extracts to an index near the end of size_t. |
| SensorList.SensorRegistry.InitializeSensorList | sensors/HalProxy.cpp:491-515 | The one-pass scan, list by list: elected is the sub-HAL of the first sensor with a clear handle and direct flags; the table holds, for every key, the last clear sensor of it and nothing else, with its key as handle, LIGHT for a wise-light type, its other flags, and the direct fields exactly if its sub-HAL is elected. |
| SensorList.ElectionByList | sensors/HalProxy.cpp:737-744 | The election over the reports in scan order is that of the first sensor with direct flags, list by list. |
| SensorList.TableByList | sensors/HalProxy.cpp:494-507 | The table over the reports in scan order holds, field by field, the entry of the last clear sensor of every key. |
| SensorList.SensorRegistry.AddSensor | sensors/HalProxy.cpp:494-507 | A sensor whose top byte is not clear changes nothing; any other changes the one entry of its key, to its own fields with the key as handle, LIGHT for a wise-light type and direct fields only for the elected sub-HAL. |
| SensorList.SensorRegistry.SetDirectChannelFlags | sensors/HalProxy.cpp:737-750 | The first direct-capable sensor elects its sub-HAL; afterwards only that sub-HAL keeps direct flags. |
| SensorList.LateElection | sensors/HalProxy.cpp:742-744 | Electing late changes no entry listed before, because none of them had direct flags. |
| SensorList.ListedSensorsRoute | sensors/HalProxy.cpp:163-169 | Every listed key comes from an accepted report and routes back to its sub-HAL and handle if and only if that index is below 128. |
| SensorList.RouteExactly | sensors/HalProxy.cpp:163-169 | An ordinary request goes to the sub-HAL in the top byte with the low three bytes, if the list has it, and nowhere for a negative handle. |
| SensorList.DirectRequestExactly | sensors/HalProxy.cpp:339-354 | A direct request goes to the elected sub-HAL with the low three bytes; -1 is good for stopping only, and without an election every request is refused. |
| SensorList.DirectAgreesWithRouting | sensors/HalProxy.cpp:339-354 | A listed sensor with direct flags belongs to the elected sub-HAL; a direct request reaches its sub-HAL and local handle unless its key is -1, and agrees with ordinary routing there if and only if the index is below 128. |
| OperationMode.Switch.SetOperationMode | sensors/HalProxy.cpp:140-161 | Returns the first error, asks nobody behind the failing sub-HAL, rolls those before it back to the recorded mode, changes the recorded mode only if all said OK; all sub-HALs are in the recorded mode afterwards if and only if their replies were faithful. |
| OperationMode.Switch.SetOperationModes | sensors/HalProxy.cpp:140-161 | After any sequence of calls to sub-HALs that obey, every sub-HAL is in the recorded mode. |
| DynamicSensors.DynamicSensorList.OnDynamicSensorsConnected | sensors/HalProxy.cpp:398-416 | Every key the call names goes to the last clear sensor that names it and no other entry changes; all clear sensors are announced, tagged, in order; replaying all announcements still rebuilds the stored map. |
| DynamicSensors.DynamicSensorList.OnDynamicSensorsDisconnected | sensors/HalProxy.cpp:418-438 | Removes exactly the named sensors and announces the ones it found, in order, each once; every announced removal was present at its turn, and the replay still rebuilds the map. |
| DynamicSensors.ConnectSpelledOut | sensors/HalProxy.cpp:403-411 | What a connect call leaves in the map, key by key. |
| DynamicSensors.AnnouncedPositions | sensors/HalProxy.cpp:404-412 | The announced sensors sit at increasing positions of the call, which are exactly those with a clear handle. |
| DynamicSensors.RemovedPositions | sensors/HalProxy.cpp:424-433 | The announced removals are the keys found in the map, each at its first clear position in the call, in order. |
| DynamicSensorRuns.SectionsOfRun | sensors/HalProxy.cpp:398-436 | Every critical section of a run does that to the map and leaves that one announcement to deliver. |
| DynamicSensorRuns.DeliveriesOfRun | sensors/HalProxy.cpp:414-436 | What has been delivered is what the delivery steps delivered, in their order. |
| DynamicSensorRuns.TableIsReplay | sensors/HalProxy.cpp:398-436 | However sections and deliveries interleave, the map is the replay of the announcements in section order, and each of their removals was present. |
| DynamicSensorRuns.LastWord | sensors/HalProxy.cpp:408-428 | In any list of announcements the last one to name a handle decides whether the listener has it, and with which data. |
| DynamicSensorRuns.AgreesExactly | sensors/HalProxy.cpp:412-436 | At any point of any run, what was delivered agrees with the map on a handle if and only if the last delivered announcement to name it says what the last one made says. |
| DynamicSensorRuns.InOrderRebuilds | sensors/HalProxy.cpp:412-436 | Deliveries in section order rebuild the map once all are delivered, and announce only removals of sensors the listener has. |
| DynamicSensorRuns.OrderIsRun | sensors/HalProxy.cpp:414-436 | Every order of delivering the outstanding announcements is that of a run. |
| DynamicSensorRuns.EndsRightExactly | sensors/HalProxy.cpp:412-436 | At any point of any run the listener ends up right about a handle in whatever order the outstanding announcements arrive, if and only if each of them that names it says the last word on it, or none does and the last word has been delivered. |
| DynamicSensorRuns.RightThroughoutExactly | sensors/HalProxy.cpp:398-436 | That is so in every state of a run if and only if no critical section that names the handle starts while an announcement that says something else of it is outstanding. |
| DynamicSensorRuns.SeparateCallsEndRight | sensors/HalProxy.cpp:398-436 | It is so in every state if no section that names the handle starts while any announcement that names it is outstanding. |
| DynamicSensorRuns.OvertakingMisleads | sensors/HalProxy.cpp:412-436 | For every well-formed sensor and sub-HAL there is a run of a connect and a disconnect call whose announcements overtake each other; the map ends empty and the listener keeps the sensor. |
| AreaCapture.IndexIsOffset | als/default/AreaCapture.cpp:88-90 | The index computed in 32 bits is the pixel's byte offset. |
| AreaCapture.InsideBuffer | als/default/AreaCapture.cpp:80-90 | Every visible pixel lies inside the buffer. |
| AreaCapture.GetAreaBrightness | als/default/AreaCapture.cpp:84-97 | Each channel is the 32-bit reduction of the sum over the visible pixels, divided by the 32-bit pixel count. |
| AreaCapture.AverageExact | als/default/AreaCapture.cpp:85-97 | The average is the true one if and only if the true sum fits a word; up to 16843009 pixels it does, and the average of a non-empty area is in 0..255. |
| AreaCapture.MeanExactly | als/default/AreaCapture.cpp:94-97 | The average times the pixel count is the sum; only an empty area has none. |
| AreaCapture.AreaOfOneByte | als/default/AreaCapture.cpp:86-92 | Changing one byte moves a channel's sum by exactly the change if it is that channel's byte of a visible pixel, and by nothing otherwise. |
| AreaCapture.BlackArea | als/default/AreaCapture.cpp:84-92 | A black buffer sums to 0. |
| AreaCapture.AlwaysExactUpTo | als/default/AreaCapture.cpp:85-97 | All buffers of a frame average to the truth in all channels if and only if it has at most 16843009 visible pixels; beyond, a white screen wraps. |
| AreaCapture.SumIgnoresPadding | als/default/AreaCapture.cpp:86-92 | Frames with the same visible pixels have the same sums, whatever their stride and padding. |
| AlsSpec.GainAt | sensors/AlsCorrection.cpp:251-255 | The gain is that of the last gain point the estimate exceeds, the base gain if there is none. |
| AlsSpec.RowFor | sensors/AlsCorrection.cpp:264-270 | The first table row whose middle is not below the value; there always is one. |
| AlsCorrection.AlsFilter.constructor | sensors/AlsCorrection.cpp:96-159 | Initialization, with its quotients multiplied out: gains from the device files where present, threshold 800 at the base gain, the display factors, the white one from red, green and blue less white, and every row of the table at the base gain, the first window from -1. |
| AlsCorrection.AlsFilter.ScaleRanges | sensors/AlsCorrection.cpp:155-159 | Every row is scaled in place, the first window then starts at -1. |
| AlsCorrection.PolynomialStep | sensors/AlsCorrection.cpp:223-226 | One more coefficient multiplies the polynomial by its argument and adds the coefficient. |
| AlsCorrection.AlsFilter.Horner | sensors/AlsCorrection.cpp:222-226 | The inner loop computes the sum of coefficients times powers, for any coefficient list. |
| AlsCorrection.AlsFilter.EstimateScreen | sensors/AlsCorrection.cpp:214-233 | The accumulator ends as the positive parts of the colour channels less the white channel. |
| AlsCorrection.AlsFilter.ProcessEvent | sensors/AlsCorrection.cpp:171-285 | Updates state and event in place as the filter function says: the event is pointed at handle 0 exactly if the gate closes or an asked capture fails, and otherwise leaves as posted but for its scalar, which is the stored value. |
| AlsLaws.CorrectionClamped | sensors/AlsCorrection.cpp:234-241 | 0 <= grey light <= correction <= full white, and the corrected reading lies between 0 and the reading. |
| AlsExact.CubicExactly | sensors/AlsCorrection.cpp:222-226 | Four coefficients are a cubic, the first one leading. |
| AlsExact.EstimateExactly | sensors/AlsCorrection.cpp:214-233 | The screen's light is the positive parts of the three colour polynomials less the polynomial of the white mix, each with its factor. |
| AlsExact.CorrectionExactly | sensors/AlsCorrection.cpp:234-238 | The correction is the estimate at this brightness, kept from exceeding full white first and from falling below the grey light then. |
| AlsExact.GainExactly | sensors/AlsCorrection.cpp:243-256 | Up to 800 at the base sensor gain the gain is the base one; above, that of the last gain point reached by the ratio of corrected value and second reading, or by its inverse on high-bit-rate devices. |
| AlsExact.RefreshExactly | sensors/AlsCorrection.cpp:176-272 | Bias, correction and the 14 lux come off in this order, none below 0, except that a reading not above the bias keeps it. |
| AlsExact.RefreshesExactly | sensors/AlsCorrection.cpp:201-262 | An event completes a refresh exactly if it passes, asks, is captured, and the correction is at most 1.35 times the reading, or the reading below 10000 lux, or the refresh demanded. |
| AlsExact.AstrayExactly | sensors/AlsCorrection.cpp:202-270 | What a refresh stores makes a reading stray exactly if it is outside the row of the refreshed value at the base gain, full white added above, and its lux are below 10 or above 500/7. |
| AlsLaws.CapturedCorrectionClamped | sensors/AlsCorrection.cpp:214-238 | The averages of any captured buffer of 1 to 16843009 visible pixels lead to a correction between 0 and full white. |
| AlsLaws.WindowHolds | sensors/AlsCorrection.cpp:155-159 | At gains from 46/59 to 9/8 of the base gain a reading never exceeds the window chosen for its corrected value plus full white, and falls below it exactly in the first two rows. |
| AlsLaws.HysteresisStable | sensors/AlsCorrection.cpp:201-270 | After a refresh at base gain the same reading asks for a new capture if and only if it is below -1, or the value is strictly between 0 and 1 lux and the reading below 1 lux. |
| AlsLaws.StableNearBaseGain | sensors/AlsCorrection.cpp:201-270 | After any refresh at such a gain the same reading asks for a new capture if and only if it is below -1, or the value is positive, at most 7 lux and the reading below 1 lux at the base gain. |
| AlsLaws.StableExactly | sensors/AlsCorrection.cpp:183-270 | For a gain step of rho times the base gain, all events of all devices that complete a refresh at it leave a state with that stability if and only if rho is within 46/59..9/8. |
| AlsRuns.ProcessStep | sensors/AlsCorrection.cpp:183-284 | A refresh stores and emits its value and settles every demand; any other event keeps the value and emits it only if no demand is open. |
| AlsRuns.StandsInRun | sensors/AlsCorrection.cpp:183-284 | In every run the stored value is that of the latest refresh, and a refresh is demanded exactly if there was none yet or a demand is open. |
| AlsRuns.EmitsLatestRefresh | sensors/AlsCorrection.cpp:187-284 | Every event not dropped carries the non-negative value of the latest completed refresh, and no demand was made after that refresh; nothing is emitted before the first. |
| AlsRuns.DemandSurvives | sensors/AlsCorrection.cpp:187-211 | A demanded refresh stays demanded until a passing event gets its capture and completes it. |
| AlsRuns.DemandLaw | sensors/AlsCorrection.cpp:183-192 | An event demands a refresh if and only if it is not the first, the screen is on, and it comes more than 3 seconds after the first event and every earlier demand. |
| AlsRuns.AskLaw | sensors/AlsCorrection.cpp:201-206 | In every run a passing event asks for a capture before the first refresh and while a demand is open, and otherwise exactly if its reading is astray from the latest refresh. |
| AlsRuns.SettledReadingStaysQuiet | sensors/AlsCorrection.cpp:183-284 | After a refresh at the base gain or a near one that settles its reading, as long as passing events repeat that reading, an event asks for a capture exactly if it demands a refresh; without a demand it carries that refresh's value or is dropped by the rate gate. |
| AlsRuns.GateLaw | sensors/AlsCorrection.cpp:183-199 | An event passes the rate gate if and only if every earlier event that passed is at least 100 ms before it. |
| CameraMotorLaws.Debounced | camera_helper/src/org/lineageos/camerahelper/CameraMotorService.java:38-65 | Every command ever given stands for an event of its direction; every opposite event since took the clock reading it compares at least 100 ms after that event's time stamp, and the command comes at least 100 ms after the message was sent. |
| CameraMotorLaws.DebouncedSinceSending | camera_helper/src/org/lineageos/camerahelper/CameraMotorService.java:38-65 | In every run an opposite event is stamped at least 100 ms after the sending of a commanded message, less what the first callback took until it sent and the second until it compared, and never before the sending. |
| CameraMotorLaws.SlowCallbacksShortenDelay | camera_helper/src/org/lineageos/camerahelper/CameraMotorService.java:57-63 | Whatever the two callbacks take, there is a run that commands the camera up and meets that bound exactly. |
| CameraMotorLaws.GuaranteedExactly | camera_helper/src/org/lineageos/camerahelper/CameraMotorService.java:38-65 | The quiet time after a commanded message that all runs with callbacks of up to n ms keep is exactly 100 - 2n ms, or 0 if that is negative. |
| CameraMotorLaws.DebouncedExactly | camera_helper/src/org/lineageos/camerahelper/CameraMotorService.java:38-65 | All runs keep a full 100 ms without an opposite event after a commanded message if and only if callbacks take no time. |
| CameraMotorLaws.SettlesOnLastEvent | camera_helper/src/org/lineageos/camerahelper/CameraMotorService.java:94-106 | Whenever no message is queued, the last command has the direction of the last front-camera event. |
| CameraMotorLaws.EventsAnswered | camera_helper/src/org/lineageos/camerahelper/CameraMotorService.java:41-63 | Every front-camera event is commanded or queued, unless an opposite event came within 100 ms after it or after a later event of its kind. |
| CameraMotorLaws.CommandsInEventOrder | camera_helper/src/org/lineageos/camerahelper/CameraMotorService.java:47-103 | Commands and queued messages follow the order of their events; no event is commanded twice. |
| CameraMotorLaws.OnlyFrontCameraCounts | camera_helper/src/org/lineageos/camerahelper/CameraMotorService.java:41-56 | The events the service goes by are exactly those of camera 1, and it commands once for each delivered message, at its time. |
| CameraMotorLaws.DueExactly | camera_helper/src/org/lineageos/camerahelper/CameraMotorService.java:47-63 | A queued message is due exactly 100 ms after its event's callback sent it. |
| CameraMotorService.Service.OnCameraAvailable | camera_helper/src/org/lineageos/camerahelper/CameraMotorService.java:38-50 | For camera 1 the callback stores the close time stamp and takes the step of the debounce; any other camera leaves time stamps, queue and commands as they are. |
| CameraMotorService.Service.OnCameraUnavailable | camera_helper/src/org/lineageos/camerahelper/CameraMotorService.java:53-65 | The same for the opening of camera 1. |
| CameraMotorService.Service.HandleMessage | camera_helper/src/org/lineageos/camerahelper/CameraMotorService.java:94-106 | Delivering the first message commands the direction it stands for. |

## Left out

- EventPipelineWakes.ReferencesAccountedFor: an inequality, not an exact balance, because a batch dropped on overflow releases nothing and a failed last chunk releases the full stored count.
- HalProxyEvents.HalProxy.HandlePendingWrites: the loop runs until nothing is pending, with nobody posting; interleaved posts are covered by the step system, the run flag is not modelled there.
- SharedWakelock.Wakelock.HandleWakelocksOnce: the run flag stays up during the iteration.
- WakelockThread.TimeoutLaw: what the blocking read does with the time left is outside the model; the thread may come back at any time.
- AlsCorrection.AlsFilter.constructor: assumes what initialization divides by is not 0 and the base gain and the brightness maximum are positive; the quotients of other devices are infinities or NaN, or turn the table around.
- DynamicSensorRuns.EndsRightExactly: speaks of the announcements made so far; later calls are new states with their own condition.
- Starting and stopping the threads, re-initialization, and whether waiting threads wake on shutdown; an operation may see the run flag down, the event pipeline runs with it up.
- The wrap-around of size_t counters and references at 2^64.
- The queue and event-flag libraries, binder, library loading, the configuration files, debug output, property and sysfs reads: their results are parameters.
- The conversion between event versions and the filtering of the sensor list for old clients, injection of sensor data, batch and flush: they only route.
- Repeated initialization of the correction, which rescales the table again; negative gains, zero divisors in the display properties, float rounding and NaN.
- Frame buffers of 4 GiB and more, and the capture itself.
- The torch, key handling, the fall sensor's own motor commands, overlays, policies and configuration data.
