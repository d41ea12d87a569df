# Intake logger control core, in Dafny

A model of the control core of a handheld intake logger (ESP32 firmware,
`src/main.cpp`): a rotary encoder decoded on every edge of its two lines, a
small menu state machine driven by the encoder's clicks and a debounced push
button, a bounded append-only log of data points with a best-effort MQTT
publish, and a non-blocking MQTT reconnect scheduler.

The firmware keeps its state in file-level globals that its routines update in
place; the model keeps them as the fields of one class, `Firmware.Device`, whose
methods follow the routines statement by statement. Each method is specified by
a pure function of the old state and the inputs, and the properties the
firmware relies on are proved about those functions:

- `clock.dfy` (`Clock`): 32-bit `millis()` readings, unsigned elapsed time, the
  "more than N ms since the stamp" guard shared by the button debounce and the
  reconnect scheduler, and a generic throttle with its spacing law.
- `encoder.dfy` (`Encoder`): the quadrature step of `updateEncoder`, checked
  against an independent Gray-code cycle; the raw count never goes negative.
- `statemachine.dfy` (`StateMachine`): `handleEncoder` (`Navigate`) and
  `handleInput` (`Confirm`), with the snap, clamp, idempotence and debounce laws.
- `link.dfy` (`Link`): `manageMQTT` (`Manage`) and the retry spacing law.
- `eventlog.dfy` (`EventLog`): the `DataPoint` record, the `int16_t` store, and
  the capacity law of the 50-slot log.
- `firmware.dfy` (`Firmware`): the globals and the five routines as methods.

Inputs that come from hardware or foreign code are parameters: the levels of
encoder lines A and B, the button level (`pressed` means the line reads LOW),
the `millis()` reading, the WiFi status, the MQTT connection status and the
result of `mqtt.connect`. `SaveData` returns whether it handed the record to
`mqtt.publish`; `ManageMqtt` returns what the poll did (nothing, serviced the
client, waited, or attempted a reconnect with a given result).

Behaviour as coded, where it differs from the device's design description:

- The subjective screen has no exit: `handleInput` has no case for it, so once
  entered no press or motion leaves it (`StateMachine.SubjectiveIsTerminal`).
- There are no caffeine or melatonin tracking screens; objective items 0 and 1
  accept the press (it is stamped) but change nothing else.
- From power-up, one click forward snaps the main menu to item 1, so a press
  then enters the subjective screen, not the objective menu
  (`StateMachine.ClickThenPressEntersSubjective`).
- The reconnect guard is strict (`> 5000`) and `lastMqttRetry` starts at 0, so
  no attempt is made in the first 5000 ms after power-up, and consecutive
  attempts are at least 5001 ms apart (`Link.RetryStrictlyAfterInterval`).
- The button is sampled by level, not by edge: a button held down is accepted
  again every time more than 300 ms have passed since the last acceptance.
- A log record has no kind tag: it is a timestamp and the raw count stored
  into an `int16_t`.

## Model

| member | source | states |
|---|---|---|
| `Clock.Elapsed` | src/main.cpp:135 | unsigned 32-bit `now - since`: the unique value in [0, 2^32) congruent to the difference, equal to it when there is no wrap |
| `Clock.Fired` | src/main.cpp:133-136 | a throttled action fires at most once per call, and only at calls whose other conditions held |
| `Clock.FiredSpaced` | src/main.cpp:135-136 | consecutive firings of a throttle are more than the interval apart, the first more than the interval after the stamp |
| `Encoder.Encode` | src/main.cpp:82-85 | the 2-bit phase records the level of line A in bit 1 and of line B in bit 0, so both levels can be read back |
| `Encoder.Join` | src/main.cpp:86 | the 4-bit transition code holds the previous phase in its high bits and the new one in its low bits |
| `Encoder.TableFollowsCycle` | src/main.cpp:88-89 | the increment table is exactly the forward single steps of the Gray-code cycle 00-10-11-01, the decrement table exactly the backward ones |
| `Encoder.Step` | src/main.cpp:81-92 | one edge raises the count by 1 on a forward step, lowers it by 1 on a backward step only while it is above 0, leaves it otherwise; the new phase becomes `lastEncoded`; a non-negative count stays non-negative |
| `Encoder.RunNeverNegative` | src/main.cpp:88-89 | from a non-negative count, no sequence of edges makes it negative, and it rises by at most one per edge |
| `Encoder.ForwardTurnAddsFour` | src/main.cpp:88 | a full forward turn of the line pattern adds four raw edges (two clicks) |
| `Encoder.BackwardTurnFloorsAtZero` | src/main.cpp:89 | a full backward turn takes off four raw edges but stops at zero |
| `StateMachine.Clicks` | src/main.cpp:217 | C's `counter / 2`: the quotient truncated toward zero |
| `StateMachine.Navigate` | src/main.cpp:215-243 | `handleEncoder` never changes the screen or the press stamp, leaves `lastCounter` equal to the halved count, touches only the current screen's selection, and keeps the selections in range |
| `StateMachine.IdleTickChangesNothing` | src/main.cpp:220-222 | when the halved count equals `lastCounter`, `handleEncoder` changes nothing |
| `StateMachine.NavigateIdempotent` | src/main.cpp:215-243 | a second `handleEncoder` with no new edges is a no-op |
| `StateMachine.MenuSnaps` | src/main.cpp:226-228 | on the main menu any positive motion selects item 1 and any negative motion item 0, whatever its size |
| `StateMachine.ObjectiveSteps` | src/main.cpp:232-238 | on the objective menu the selection moves one item in the direction of the motion, stops at 0 and 2, and changes by at most one |
| `StateMachine.Select` | src/main.cpp:181-209 | the screen switch never touches the main menu selection, `lastCounter` or the stamp, and keeps selections in range |
| `StateMachine.Confirm` | src/main.cpp:177-213 | `handleInput` changes nothing unless the button is low and more than 300 ms passed since the last accepted press; an accepted press is stamped with the clock |
| `StateMachine.ConfirmTransitions` | src/main.cpp:184-208 | accepted presses: main item 0 enters the objective menu at item 0, main item 1 the subjective screen, objective item 2 returns to the main menu; objective items 0 and 1 and the subjective screen keep the screen |
| `StateMachine.DebounceCollapses` | src/main.cpp:179-210 | a press less than 300 ms after an accepted one is ignored |
| `StateMachine.PressesAreThrottled` | src/main.cpp:178-179 | the accepted presses over any sequence of samples are exactly the firings of the 300 ms throttle |
| `StateMachine.AcceptedPressesSpaced` | src/main.cpp:179-210 | accepted presses are more than 300 ms apart |
| `StateMachine.SelectionsStayInRange` | src/main.cpp:226-238 | whatever the motion and presses, the main selection stays in [0,1] and the objective selection in [0,2] |
| `StateMachine.SubjectiveIsTerminal` | src/main.cpp:181-209 | no motion or press leaves the subjective screen |
| `StateMachine.ClickThenPressEntersSubjective` | src/main.cpp:185-190 | from power-up, one click forward then a press enters the subjective screen |
| `Link.Manage` | src/main.cpp:123-147 | a reconnect is attempted exactly when WiFi is up, MQTT is down and more than 5000 ms (mod 2^32) passed; an attempt stamps `lastMqttRetry` whatever its result; WiFi down or MQTT up leaves the stamp alone |
| `Link.RetryStrictlyAfterInterval` | src/main.cpp:135 | a retry is not due at exactly 5000 ms after the last attempt, only after 5001 ms |
| `Link.AttemptsAreThrottled` | src/main.cpp:133-136 | the reconnect attempts over any sequence of polls are exactly the firings of the 5000 ms throttle |
| `Link.AttemptsSpaced` | src/main.cpp:124-146 | consecutive attempts are more than 5000 ms apart and each is made at a poll with WiFi up and MQTT down |
| `EventLog.ToInt16` | src/main.cpp:157 | storing the count into an `int16_t` keeps it modulo 2^16 and in range, and unchanged when it fits |
| `EventLog.Save` | src/main.cpp:149-175 | a save keeps every existing record, adds exactly one record at the end when fewer than 50 are logged, and none otherwise |
| `EventLog.SaveAllKeepsPrefix` | src/main.cpp:150-157 | any sequence of saves keeps the points that fit, in order, and drops the rest |
| `EventLog.FullLogRefuses` | src/main.cpp:150-153 | after 50 saves from an empty log the 51st changes nothing |
| `Firmware.Device.constructor` | src/main.cpp:55-75 | the globals start at zero on the main menu with an empty log |
| `Firmware.Device.UpdateEncoder` | src/main.cpp:81-92 | the decoder globals become `Encoder.Step` of their old value; the count stays non-negative; nothing else changes |
| `Firmware.Device.HandleEncoder` | src/main.cpp:215-243 | the menu globals become `Navigate` of their old value and the raw count; nothing else changes |
| `Firmware.Device.HandleInput` | src/main.cpp:177-213 | the menu globals become `Confirm` of their old value, the button level and the clock; nothing else changes |
| `Firmware.Device.SaveData` | src/main.cpp:149-175 | when not full, exactly slot `logIndex` gets the clock and the 16-bit count and the index grows by one, publish or not; when full nothing changes; the record is published exactly when it was saved and MQTT is up |
| `Firmware.Device.ManageMqtt` | src/main.cpp:123-147 | `lastMqttRetry` and the reported action follow `Manage`; nothing else changes |

## Left out

- Rendering (`drawMenu`, `drawObjective`, `updateDisplay`, `printCentered`) and the white flash with its 50 ms delay in `saveData`: pixel output to a display library that is not part of this model.
- Device bring-up (`setup`, pin and interrupt configuration) and the blocking `connectToWiFi` loop: hardware initialisation and I/O.
- The network calls themselves (`WiFi.status`, `mqtt.connected`, `mqtt.loop`, `mqtt.setServer`, `mqtt.connect`, `mqtt.publish`, `mqtt.state`): foreign code; their results are parameters and the calls appear only as the returned action or flag.
- The JSON payload built by `snprintf` in `saveData`: C string formatting whose text is never read back by the firmware.
- All `Serial` output.
- The `loop` routine's fixed order (MQTT, button, encoder, display) is not modelled as a method; each routine is modelled on its own.
- The sharing of `encoderCounter` between the edge interrupt and the loop: `updateEncoder` is modelled as an ordinary sequential step, without atomicity.
- Encoder.Step: the raw count is an unbounded integer; the source's 32-bit `int` would overflow (undefined behaviour in C++) after 2^31 net forward edges, which is not modelled.
- Firmware.Device.HandleInput: `handleInput` reads `millis()` twice (for the test and for the stamp); the model uses one reading for both, as nothing between the two reads blocks.
- Firmware.Device.SaveData: the `millis()` and count that go into the publish payload are not modelled, only whether the publish is made.
- `lastDisplayUpdate` and `DISPLAY_FPS` are declared but never used by the core.
