# Field-oriented motor control: a verification model

The repository drives electric motors (field-oriented control, calibration, storage of calibration
and configuration) and bridges hardware to a desktop client (a VT100 terminal, CAN and serial over TCP). This
project models its stateful cores in Dafny and proves what they promise.

How it is laid out. Code that works in place is a class (`TerminalScreen`, `Vt100Parser`, `Vt100Terminal`,
`NonVolatileMemoryImpl`, `NvmEepromRegion`, `FocStateMachineCommon`, `ControlModeStateMachine`,
`FocWithSpeedLoop`, `ElectricalParametersIdentificationImpl`, `MotorAlignmentImpl`, `ConnectionHandler`,
`TcpClientSerial`). Each class has a view of itself as a value, and each method is proved to compute a function on
those values: these functions are in the modules ending in `Model`, and the theorems about whole runs are lemmas
about them. Code made of expressions (the sine table, the transforms, the frame codecs, the record layout) is
functions.

1. Terminal: `ScreenModel`, `ParserModel`, `TerminalModel`; theorems in `PlainText`, `Resynchronisation`,
   `CsiRoundTrip`, and in `ControlFunctions`, which says of the bytes received what each control function does.
2. Motor lifecycle over asynchronous storage: `RecordLayout`, `NvmRegions`, `StorageModel`, `LifecycleModel`,
   `IdentificationModel`, `LifecycleSystem`, `ControlModeModel`; theorems in `StorageRuns`, `LifecycleRuns`,
   `LifecycleSystem`, `LifecycleStorage`, `LifecycleLiveness`, `LifecycleListener`, `LifecycleFindings`,
   `LifecycleClearing`, with runs from power-on in `LifecycleExamples`. Callbacks are events that may come in any order,
   late or stale. A service that has the samples it needs, or only waits for a timer, may answer at any time. A region
   operation takes effect when it completes, possibly with wrong bytes. A callback slot is cleared before its function is
   called.
3. Control arithmetic and interrupt hand-off: `SineTable`, `Trigonometry`, `Transforms`, `InterruptModel`, over the
   reals. Pi is any positive number. `inv` is the inverse square root of 3, given by 3 inv inv = 1. Table entries
   are integers in units of 1e-7.
4. Identification and bridges: `PolePairModel`, `ResistanceModel`, `AlignmentModel`, `CanModel`, `CanStream`,
   `SerialModel`.

What the model found where a promise does not hold as stated:

- `StaleSave`, `CalibrateHarmlessIff`: a calibrate command accepted while a calibration save is still under way can
  end in Ready with data that is not on the medium. In no other way can an accepted calibrate command do so. A run
  from power-on that gets there is in `StaleSaveHappens`: calibrate, stop during the save, calibrate again.
- `StrandedIff`, `ClearStrandedIff`, `CalibrateStrandedIff`: an accepted command can stay pending for ever, and blocks
  all later ones until an emergency stop or a fault. In the model this happens in exactly five ways.
  1. A clear command is accepted while the boot load or an abandoned save holds the calibration slot: storage refuses
     its invalidation without a word (core/services/non_volatile_memory/NonVolatileMemoryImpl.cpp:148).
  2. An invalidation completes while the motor is enabled: the machine drops the callback. (The invalidation of an
     aborted clear command may also answer the next clear command.)
  3. A calibration is completed while the boot load or the invalidation of an aborted clear command holds the slot:
     storage refuses the save (line 56 of the same file) and the machine stays in Calibrating.
  4. A calibration comes to the alignment step while an alignment that was stopped is still pending: the alignment
     service ignores the request (core/services/alignment/MotorAlignmentImpl.cpp:26), and the pending one has lost the
     samples to the identification of the pole pairs.
  5. The timer of a mechanical identification that was stopped runs out while the resistance or alignment step has the
     samples, and takes them (core/services/mechanical_system_ident/MechanicalParametersIdentificationImpl.cpp:43).
     With the default durations it runs out earlier: 60 steps of 50 ms and 2 s of settling against 5 s
     (core/services/electrical_system_ident/ElectricalParametersIdentification.hpp:23-31,
     core/services/mechanical_system_ident/MechanicalParametersIdentification.hpp:24). `NeverTakenInTime` proves that
     then only the first four are left.

  Runs from power-on for each way: `ClearDuringLoad`, `ClearDuringSave`, `ClearThenEnable`,
  `CalibrateAfterAbortedClear`, `CalibrateDuringLoad`, `CalibrateAfterAbandonedAlignment`, `CalibrateBeforeTimeout`.
- `AbandonedAlignmentIff`, `NeverCalibratesAgain`: after the fourth way an emergency stop frees the machine, but no
  calibration succeeds any more, however often it is tried.
- `ControllerListensIff`, `ListenerAfterCalibration`: the controller registers for the samples once, when it is
  constructed (core/foc/implementations/Runner.cpp:10), and every calibration takes them away for good. A controller
  that is started afterwards is not called. In torque mode the alignment service still is.
- `SelectAnsweredIff`: a select accepted while the configuration slot is busy is never answered. The source then
  asserts on the next select (core/state_machine/ControlModeStateMachine.cpp:29).
- `DriveFollowsCalibration`: pole pairs and encoder offset of a ready or enabled machine are always those of its
  calibration; its tunings are, until online estimates are applied or gains are given over CAN or the command line.
- `SlowReadTears`, `StableIff`: core/foc/implementations/FocWithSpeedLoop.hpp:71-74 says that no torn read is possible
  whenever the handler is preempted. The handler is safe exactly when fewer than two publishes fall into its window.
- `WrittenExactly`, `SurvivesIff`: both bridges use the pending callback as the busy flag. A CAN frame sent
  without one is never written, and a serial send without one is overwritten by the next.
- The header of tools/hardware_bridge/server/can_server.py:1-8 places the remote flag in bit 29 and the error flag in
  bit 30, but both ends use bit 29 as the error flag (tools/hardware_bridge/server/can_server.py:84,
  tools/hardware_bridge/client/can/TcpClientCanbus.cpp:12). The model follows the code.

## Model

| member | source | states |
|---|---|---|
| `PlainText.HistoryAndScreenAreTheText` | tools/hardware_bridge/client/terminal/TerminalScreen.cpp:120-184 | for every screen size and every text of printable bytes and CR LF fed to a reset terminal, history followed by grid is the text hard-wrapped at the width (a line of exactly the width is one row), padded to the height and trimmed to the newest 1000 + rows rows; the cursor is after the last character and nothing is replied |
| `PlainText.ResetStartsAfresh` | tools/hardware_bridge/client/terminal/TerminalScreen.cpp:28-45 | ESC c, received in the middle of anything, puts any well-formed terminal into the state that result starts from |
| `PlainText.BreakLaid` | tools/hardware_bridge/client/terminal/TerminalScreen.cpp:143-184 | one CR LF appends one empty row to the layout, scrolling the oldest visible row into the history at the bottom of the screen |
| `PlainText.TokenLaid` | tools/hardware_bridge/client/terminal/Vt100Parser.cpp:168-183 | one printable byte or CR LF takes the screen from the layout of a text to the layout of the text extended by it |
| `TerminalModel.Feed` | tools/hardware_bridge/client/terminal/TerminalScreen.cpp:108-141 | every byte string keeps the grid rows x cols, cursor and saved cursor inside, the scroll region ordered and inside, a deferred wrap only in the last column, and at most 1000 history rows of the right width |
| `TerminalModel.FeedIsParseThenInterpret` | tools/hardware_bridge/client/terminal/Vt100Terminal.cpp:162-202 | interpreting bytes as they come is the same as parsing all of them first and interpreting the callbacks afterwards |
| `TerminalModel.FeedConcat` | tools/hardware_bridge/client/terminal/Vt100Terminal.cpp:189-197 | how the input is cut into pieces does not matter |
| `ScreenModel.ScrollUpRows` | tools/hardware_bridge/client/terminal/TerminalScreen.cpp:384-408 | scrolling the region up by n shifts its rows by n clamped to the region, fills with blank rows in the current rendition, and leaves every row outside alone |
| `ScreenModel.ScrollDownRows` | tools/hardware_bridge/client/terminal/TerminalScreen.cpp:410-424 | the same for scrolling down |
| `ScreenModel.ScrollUpTotal` | tools/hardware_bridge/client/terminal/TerminalScreen.cpp:391-407 | n one-row scrolls, each trimming the history, are one scroll by n, history included |
| `ScreenModel.ScrollDownTotal` | tools/hardware_bridge/client/terminal/TerminalScreen.cpp:417-423 | n one-row scrolls down are one scroll down by n |
| `ScreenModel.NextStop` | tools/hardware_bridge/client/terminal/TerminalScreen.cpp:163-175 | the tab goes to the nearest stop after the cursor and over no stop, else to the last column |
| `TerminalScreenClass.TerminalScreen.Reset` | tools/hardware_bridge/client/terminal/TerminalScreen.cpp:28-45 | the loop over tab stops and the fields end in the power-on screen with stops at the multiples of 8 except 0 |
| `TerminalScreenClass.TerminalScreen.Write` | tools/hardware_bridge/client/terminal/TerminalScreen.cpp:120-141 | the in-place write does what the closed form says: a deferred wrap is resolved first, the cell is put, and in the last column the next wrap is deferred |
| `TerminalScreenClass.TerminalScreen.HorizontalTab` | tools/hardware_bridge/client/terminal/TerminalScreen.cpp:163-175 | the search loop stops at the stop the specification names |
| `TerminalScreenClass.TerminalScreen.Index` | tools/hardware_bridge/client/terminal/TerminalScreen.cpp:177-184 | at the bottom margin the region scrolls, elsewhere the cursor moves, never past the screen |
| `TerminalScreenClass.TerminalScreen.ReverseIndex` | tools/hardware_bridge/client/terminal/TerminalScreen.cpp:192-199 | the same upwards |
| `TerminalScreenClass.TerminalScreen.EraseInDisplay` | tools/hardware_bridge/client/terminal/TerminalScreen.cpp:304-333 | the cell loops blank exactly the cells before, after or all around the cursor in reading order; mode 3 also clears the history |
| `TerminalScreenClass.TerminalScreen.EraseInLine` | tools/hardware_bridge/client/terminal/TerminalScreen.cpp:335-354 | the cell loop blanks exactly the part of the cursor row the mode names |
| `TerminalScreenClass.TerminalScreen.SetScrollRegion` | tools/hardware_bridge/client/terminal/TerminalScreen.cpp:356-372 | margins are 1-based and inclusive, an empty or reversed region selects the whole screen, and the cursor goes to the top of the region |
| `TerminalScreenClass.TerminalScreen.ScrollUpInRegion` | tools/hardware_bridge/client/terminal/TerminalScreen.cpp:384-408 | the nested in-place loops compute the closed-form scroll and the trimmed history |
| `TerminalScreenClass.TerminalScreen.ScrollDownInRegion` | tools/hardware_bridge/client/terminal/TerminalScreen.cpp:410-424 | the nested in-place loops compute the closed-form scroll |
| `TerminalScreenClass.TerminalScreen.MoveTo` | tools/hardware_bridge/client/terminal/TerminalScreen.cpp:270-280 | 1-based target clamped to the screen |
| `TerminalScreenClass.TerminalScreen.Restore` | tools/hardware_bridge/client/terminal/TerminalScreen.cpp:296-302 | cursor and rendition saved last come back and a deferred wrap is dropped |
| `Vt100TerminalClass.FillScreenWithAlignmentPattern` | tools/hardware_bridge/client/terminal/Vt100Terminal.cpp:130-141 | writing every cell through the cursor fills the grid with E without ever wrapping, scrolling or touching the history, and ends at home |
| `Vt100TerminalClass.Vt100Terminal.Feed` | tools/hardware_bridge/client/terminal/Vt100Terminal.cpp:189-202 | the facade, parser and screen updated in place, computes the terminal as a value on every input |
| `Vt100TerminalClass.Vt100Terminal.OnEsc` | tools/hardware_bridge/client/terminal/Vt100Terminal.cpp:264-315 | the escape dispatch changes screen, modes and reply queue as specified, and nothing for designations and unknown finals |
| `Vt100TerminalClass.Vt100Terminal.OnCsi` | tools/hardware_bridge/client/terminal/Vt100Terminal.cpp:317-394 | the control sequence dispatch, replies included, for every final byte and parameter list; with an intermediate byte nothing happens |
| `Vt100TerminalClass.Vt100Terminal.ApplySgr` | tools/hardware_bridge/client/terminal/Vt100Terminal.cpp:401-414 | rendition parameters act from left to right, an empty list resets |
| `Vt100TerminalClass.Vt100Terminal.ApplyMode` | tools/hardware_bridge/client/terminal/Vt100Terminal.cpp:416-425 | mode parameters act from left to right |
| `Vt100ParserClass.Vt100Parser.FeedByte` | tools/hardware_bridge/client/terminal/Vt100Parser.cpp:119-166 | the eight handlers and the any-state rules compute the transition function; the re-feed from the string-escape state ends |
| `Vt100ParserClass.Vt100Parser.HandleEscape` | tools/hardware_bridge/client/terminal/Vt100Parser.cpp:185-234 | bytes after ESC as the transition function has them |
| `Vt100ParserClass.Vt100Parser.HandleCsiEntry` | tools/hardware_bridge/client/terminal/Vt100Parser.cpp:236-273 | the first byte of a control sequence |
| `Vt100ParserClass.Vt100Parser.HandleCsiParam` | tools/hardware_bridge/client/terminal/Vt100Parser.cpp:275-304 | the parameter state, colons being taken as semicolons |
| `Vt100ParserClass.Vt100Parser.DispatchCsi` | tools/hardware_bridge/client/terminal/Vt100Parser.cpp:331-359 | the digit loop gives the value of every field, and no field at all for an empty string |
| `Resynchronisation.FeedLive` | tools/hardware_bridge/client/terminal/Vt100Parser.cpp:64-83 | two parsers that agree on the fields live in their state answer every input with the same events, however stale their other buffers are |
| `Resynchronisation.Resynchronised` | tools/hardware_bridge/client/terminal/Vt100Parser.cpp:97-117 | after CAN or SUB the events are those so far followed by those of a fresh parser on the rest |
| `Resynchronisation.SynchronisingBytes` | tools/hardware_bridge/client/terminal/Vt100Parser.cpp:97-117 | CAN and SUB are exactly the bytes with that property: for every other byte there is a context in which it fails |
| `CsiRoundTrip.RoundTrip` | tools/hardware_bridge/client/terminal/Vt100Parser.cpp:236-359 | a printed control sequence with any private flag, any list of naturals and any final byte is parsed, from any state, as exactly one dispatch of the same values, ending in Ground |
| `CsiRoundTrip.ValuesOfJoin` | tools/hardware_bridge/client/terminal/Vt100Parser.cpp:331-359 | parsing numbers joined by semicolons gives the numbers back |
| `CsiRoundTrip.ReportIsRendered` | tools/hardware_bridge/client/terminal/Vt100Terminal.cpp:427-436 | the cursor report is a printed control sequence of the 1-based row and column |
| `CsiRoundTrip.ReportThenReturn` | tools/hardware_bridge/client/terminal/Vt100Terminal.cpp:317-377 | the row and column reported, sent back as a cursor position after any further input, put the cursor exactly where it was |
| `CsiRoundTrip.StringRoundTrip` | tools/hardware_bridge/client/terminal/Vt100Parser.cpp:361-400 | a string, whatever the parser was doing before, is handed over whole at BEL or ESC backslash |
| `CsiRoundTrip.ControlInside` | tools/hardware_bridge/client/terminal/Vt100Parser.cpp:97-166 | a control character inside a control sequence acts at once and the sequence goes on |
| `CsiRoundTrip.SpoiltSequence` | tools/hardware_bridge/client/terminal/Vt100Parser.cpp:275-304 | a private marker after the first parameter makes the sequence come to nothing |
| `ControlFunctions.EraseInText` | tools/hardware_bridge/client/terminal/TerminalScreen.cpp:335-354 | a line, a move to column k and ESC [ K leave the characters before column k, ESC [ 1 K those after it, ESC [ 2 K none; the rest of the screen stays blank |
| `ControlFunctions.EraseLine` | tools/hardware_bridge/client/terminal/TerminalScreen.cpp:335-354 | the same from any terminal, in the middle of anything: every cell of the row from the cursor on, up to the cursor, or all, is blank in the present rendition, and nothing else changes |
| `ControlFunctions.EraseDisplay` | tools/hardware_bridge/client/terminal/TerminalScreen.cpp:304-333 | ESC [ J blanks from the cursor to the end of the screen, ESC [ 1 J from its start to the cursor, ESC [ 2 J all, ESC [ 3 J the history as well |
| `ControlFunctions.ThereAndBack` | tools/hardware_bridge/client/terminal/Vt100Terminal.cpp:324-335 | where there is room the opposite move brings the cursor back |
| `ControlFunctions.MoveVertically` | tools/hardware_bridge/client/terminal/Vt100Terminal.cpp:324-329 | up and down stop at the margins, a missing or zero count is one |
| `ControlFunctions.MoveToPlace` | tools/hardware_bridge/client/terminal/Vt100Terminal.cpp:347-350 | the position is counted from one and clamped to the screen |
| `ControlFunctions.SaveAndRestore` | tools/hardware_bridge/client/terminal/Vt100Terminal.cpp:294-299 | ESC 7, any bytes that neither save nor reset, and ESC 8 give cursor and rendition back and leave the rest as the bytes left it |
| `ControlFunctions.Colors` | tools/hardware_bridge/client/terminal/Vt100Terminal.cpp:33-84 | the sixteen colours by their codes, from 30 and 90 in front, from 40 and 100 behind |
| `ControlFunctions.AttributesOn` | tools/hardware_bridge/client/terminal/Vt100Terminal.cpp:86-119 | codes 1 to 5 and 7 switch on one attribute each and change nothing else |
| `ControlFunctions.AttributesOff` | tools/hardware_bridge/client/terminal/Vt100Terminal.cpp:102-119 | codes 22 to 25 and 27 switch them off, 22 both bold and faint |
| `ControlFunctions.Written` | tools/hardware_bridge/client/terminal/TerminalScreen.cpp:120-141 | a character goes to the cell of the cursor in the present rendition; in the last column the cursor stays and the wrap is deferred only while wrapping is on |
| `ControlFunctions.ModesSet` | tools/hardware_bridge/client/terminal/Vt100Terminal.cpp:143-159 | the five modes, set and reset by their numbers, each alone |
| `ControlFunctions.IndexBytes` | tools/hardware_bridge/client/terminal/TerminalScreen.cpp:177-184 | ESC D at the bottom margin moves the rows of the region up, elsewhere the cursor down; rows outside never change |
| `ControlFunctions.Tabs` | tools/hardware_bridge/client/terminal/TerminalScreen.cpp:163-175 | a tab goes to the next stop, over no stop, else to the last column |
| `ControlFunctions.Margins` | tools/hardware_bridge/client/terminal/TerminalScreen.cpp:356-374 | margins are counted from one, an empty region means the whole screen, the cursor goes to the top margin |
| `ControlFunctions.IdentityReply` | tools/hardware_bridge/client/terminal/Vt100Terminal.cpp:378-381 | both identity requests are answered with the device attributes |
| `LifecycleRuns.AlwaysSafe` | core/state_machine/FocStateMachineCommon.cpp:52-194 | in every run of commands, faults and stale callbacks the last call to start or stop the controller was a start exactly in Enabled, Calibrating holds a pending command and Fault none, and every command of the run has been answered exactly once except the pending one, which has not been answered |
| `LifecycleRuns.EnabledOnlyFromReady` | core/state_machine/FocStateMachineCommon.cpp:64-70 | Enabled is entered only by an enable command in Ready |
| `LifecycleRuns.RejectedIffRefused` | core/state_machine/FocStateMachineCommon.cpp:52-121 | a command is answered "rejected" exactly when the machine was not stopped or had a pending command on arrival |
| `LifecycleRuns.AnswerMeans` | core/state_machine/FocStateMachineCommon.cpp:99-183 | what the answer to a pending command says of the event that caused it, and the state it leaves: success by storage only, failed calibration by an empty report of the present step, storage failure, or abort |
| `LifecycleRuns.RetuningMeans` | core/state_machine/OuterLoopStateMachine.cpp:40-67 | which events replace tunings, which gains, and under which conditions |
| `LifecycleFindings.CalibrationIsWhatWasFound` | core/state_machine/FocStateMachineCommon.cpp:196-307 | in every run from power-on a calibrate command answered with success leaves the machine Ready with exactly what the services reported to it since it was accepted, field by field; in a disciplined run every service has reported, the drive is set to it and the medium decodes to it |
| `LifecycleFindings.RunCollects` | core/state_machine/FocStateMachineCommon.cpp:196-274 | while calibrating, each field is the report of its step to the present command, and those of steps not yet reached are zero |
| `LifecycleClearing.ClearedStaysCleared` | core/services/non_volatile_memory/NonVolatileMemoryImpl.cpp:146-156 | a clear command answered with success, its erase without a fault: without a fault or a calibration save, before the power goes or after it comes back, the machine never becomes Ready |
| `LifecycleClearing.ClearedMeansGone` | core/services/non_volatile_memory/NonVolatileMemoryImpl.cpp:152-155 | at the instant of that answer the region decodes to no calibration |
| `LifecycleSystem.DriveFollowsCalibration` | core/state_machine/FocStateMachineCommon.cpp:276-345 | in every run from power-on, in Ready and Enabled the drive has the pole pairs and the encoder offset of the calibration data, and all its tunings too unless online estimates or gains given from outside replaced them since the machine was last in another state |
| `LifecycleSystem.RunFits` | core/state_machine/FocStateMachineCommon.cpp:52-345 | the invariant behind it, with no condition on the order of events |
| `LifecycleLiveness.StrandedIff` | core/state_machine/FocStateMachineCommon.cpp:52-274 | in every run from power-on the pending command is stranded exactly when, with no abort since, one of five things happened: a clear command was accepted while the boot load or a save held the calibration slot, an invalidation completed while the motor was enabled, a calibration was completed while the boot load or an invalidation held the slot, an alignment was asked for while an abandoned one was pending, or the timer of an abandoned mechanical identification took the samples |
| `LifecycleLiveness.StrandedIffNeverAnswered` | core/state_machine/FocStateMachineCommon.cpp:99-121 | stranded means exactly that no continuation without an emergency stop or a fault ever settles the command |
| `LifecycleLiveness.ClearStrandedIff` | core/state_machine/FocStateMachineCommon.cpp:91-121 | an accepted clear command still pending is stranded exactly when a load or a save held the slot on acceptance, or an invalidation, its own or that of an aborted clear command, has completed since while the motor was enabled |
| `LifecycleLiveness.CalibrateStrandedIff` | core/state_machine/FocStateMachineCommon.cpp:221-290 | an accepted calibrate command still pending is stranded exactly when one of the last three of these has happened since its acceptance |
| `IdentificationModel.AskedCanAnswer` | core/services/alignment/MotorAlignmentImpl.cpp:24-37 | a service that is asked can answer, unless it is the alignment, an earlier one is pending, and the inverter no longer hands it the samples |
| `IdentificationModel.CanAnswerIff` | core/services/electrical_system_ident/ElectricalParametersIdentificationImpl.cpp:88-119 | a callback can still come exactly when it can come now, or once the current has settled |
| `LifecycleListener.AbandonedAlignmentIff` | core/services/alignment/MotorAlignmentImpl.cpp:24-27 | a calibrate command accepted while an abandoned alignment is pending: some continuation, with any commands, stops and faults, lets a calibrate command succeed exactly when the save of an earlier calibration is under way |
| `LifecycleListener.NeverTakenInTime` | core/services/mechanical_system_ident/MechanicalParametersIdentificationImpl.cpp:41-45 | when every timer of a mechanical identification has run out before later samples begin, it takes them from nobody |
| `LifecycleListener.ControllerListensIff` | core/foc/implementations/Runner.cpp:5-16 | in every run from power-on the inverter hands its samples to the controller exactly when no calibrate command has been accepted |
| `LifecycleListener.ListenerAfterCalibration` | core/services/alignment/MotorAlignmentImpl.cpp:39-57 | a calibration that succeeds in a disciplined run leaves the samples with the alignment service in torque mode and with nobody in the others |
| `LifecycleLiveness.ClearAccepted` | core/services/non_volatile_memory/NonVolatileMemoryImpl.cpp:146-156 | the invalidation of an accepted clear command becomes the work of the calibration slot when the slot is free, and otherwise leaves storage untouched |
| `LifecycleLiveness.InvalidationHeard` | core/state_machine/FocStateMachineCommon.cpp:99-120 | an invalidation that completes answers the pending command exactly when the machine is stopped, and otherwise leaves the machine untouched |
| `LifecycleLiveness.StepStranding` | core/state_machine/FocStateMachineCommon.cpp:52-345 | one event of any kind: a command is stranded afterwards exactly when the event strands it or it was stranded and is not aborted |
| `LifecycleExamples.ClearDuringLoad` | core/services/non_volatile_memory/NonVolatileMemoryImpl.cpp:146-149 | a run from power-on: a clear command during the boot load is stranded |
| `LifecycleExamples.ClearDuringSave` | core/services/non_volatile_memory/NonVolatileMemoryImpl.cpp:146-149 | a run from power-on in either mode: a clear command after a calibration stopped during its save is stranded |
| `LifecycleExamples.ClearThenEnable` | core/state_machine/FocStateMachineCommon.cpp:99-105 | a run from power-on: enabling before the invalidation completes strands the clear command |
| `LifecycleExamples.CalibrateAfterAbortedClear` | core/services/non_volatile_memory/NonVolatileMemoryImpl.cpp:53-57 | a run from power-on in either mode: an aborted clear command whose invalidation is slow makes the next calibration stay in Calibrating with its command stranded |
| `LifecycleExamples.CalibrateDuringLoad` | core/services/non_volatile_memory/NonVolatileMemoryImpl.cpp:53-57 | the same with the boot load in the slot |
| `LifecycleExamples.CalibrateAfterAbandonedAlignment` | core/services/alignment/MotorAlignmentImpl.cpp:24-27 | a run from power-on in either mode: calibrate, stop in the alignment step, calibrate again, and the second command is stranded in the alignment step |
| `LifecycleExamples.NeverCalibratesAgain` | core/services/alignment/MotorAlignmentImpl.cpp:24-27 | from that second command on no calibrate command succeeds in any continuation |
| `LifecycleExamples.CalibrateBeforeTimeout` | core/services/mechanical_system_ident/MechanicalParametersIdentificationImpl.cpp:41-45 | a run from power-on with an outer loop: the timer of a mechanical identification that was stopped strands the next calibrate command |
| `LifecycleStorage.CalibrationAgreesWithStorage` | core/state_machine/FocStateMachineCommon.cpp:276-345 | in every run from power-on in which no calibrate command is accepted during a calibration save, each entry into Ready has the data the calibration region decodes to at that instant |
| `LifecycleStorage.ReadyIsStored` | core/state_machine/FocStateMachineCommon.cpp:276-345 | the step that brings the machine to Ready leaves medium and machine in agreement |
| `LifecycleStorage.StaleSave` | core/state_machine/FocStateMachineCommon.cpp:276-300 | accepting a calibrate command during a calibration save can end in Ready with data the region does not hold, because the save callback tests only for Calibrating |
| `LifecycleStorage.CalibrateHarmlessIff` | core/state_machine/FocStateMachineCommon.cpp:52-62 | accepting a calibrate command can never lead to such a disagreement exactly when no calibration save is under way |
| `LifecycleExamples.StaleSaveHappens` | core/state_machine/FocStateMachineCommon.cpp:276-300 | a run from power-on in either mode reaches that state: calibrate, every identification, an emergency stop before the save is through, calibrate again |
| `LifecycleStorage.RunGood` | core/state_machine/FocStateMachineCommon.cpp:196-345 | the invariant behind agreement holds along every disciplined run |
| `FocStateMachineClass.FocStateMachineCommon.ApplyOnlineEstimates` | core/state_machine/OuterLoopStateMachine.cpp:40-67 | only while enabled and with an outer loop: the velocity gains and the current tunings are replaced, each pair only by finite positive estimates |
| `FocStateMachineClass.FocStateMachineCommon.OnInvalidated` | core/state_machine/FocStateMachineCommon.cpp:99-120 | a stale callback is dropped; a failure answers and faults, a success forgets the data and answers |
| `FocStateMachineClass.FocStateMachineCommon.CmdEmergencyStop` | core/state_machine/FocStateMachineCommon.cpp:123-139 | the controller stops, a pending command is aborted, an active state falls back to Idle and a fault stays |
| `FocStateMachineClass.FocStateMachineCommon.OnSaved` | core/state_machine/FocStateMachineCommon.cpp:276-307 | takes over the pending data as it is now whenever the machine is calibrating, whatever step |
| `FocStateMachineClass.FocStateMachineCommon.OnLoaded` | core/state_machine/FocStateMachineCommon.cpp:316-345 | the data are overwritten by a successful load in any state, the machine becomes Ready only from Idle |
| `StorageRuns.AnsweredExactlyOnce` | core/services/non_volatile_memory/NonVolatileMemoryImpl.cpp:53-300 | for any interleaving an accepted request is called back exactly once, after exactly its cost (at most three) of completions of its own region operations; until then its next operation is in flight |
| `StorageRuns.Cost` | core/services/non_volatile_memory/NonVolatileMemoryImpl.cpp:53-300 | no request takes more than three region operations |
| `StorageRuns.Refused` | core/services/non_volatile_memory/NonVolatileMemoryImpl.cpp:53-58 | a request changes nothing at all exactly when its slot is taken, and never touches the medium itself |
| `StorageRuns.SavedMeansStored` | core/services/non_volatile_memory/NonVolatileMemoryImpl.cpp:93-99 | a save that reports Ok: at that instant the region decodes to exactly the data handed over, with any other request, format or device fault interleaved |
| `StorageRuns.CleanSaveSucceeds` | core/services/non_volatile_memory/NonVolatileMemoryImpl.cpp:53-99 | a save asked for while its slot is free, its three operations following without a fault, is answered Ok and stored; for both records |
| `StorageRuns.InvalidatedMeansGone` | core/services/non_volatile_memory/NonVolatileMemoryImpl.cpp:146-156 | in every run an invalidation answered after an erase without a fault leaves no calibration at that instant |
| `StorageRuns.FormatMeansGone` | core/services/non_volatile_memory/NonVolatileMemoryImpl.cpp:282-300 | when formatting is answered there is the default configuration, and no calibration unless one was written after its first half or a fault came in between |
| `StorageRuns.ReadersAgree` | core/services/non_volatile_memory/NonVolatileMemoryImpl.cpp:118-186 | a load answers what the region decodes to, a validity check whether it decodes, and a failed load hands over nothing |
| `StorageRuns.StaysInRegion` | core/services/non_volatile_memory/NvmEepromRegion.cpp:6-32 | an operation changes no byte outside the region of its record, reading none at all |
| `StorageRuns.RecordsIndependent` | core/services/non_volatile_memory/NonVolatileMemoryImpl.cpp:53-275 | calibration operations leave the configuration record alone and the reverse |
| `StorageRuns.RunConsistent` | core/services/non_volatile_memory/NonVolatileMemoryImpl.cpp:53-300 | slots, operations in flight, buffers and answers stay consistent in every run |
| `RecordLayout.DecodeCalibrationRecord` | core/services/non_volatile_memory/NonVolatileMemoryImpl.cpp:53-72 | decoding an encoded calibration record gives the data back, for any checksum function |
| `RecordLayout.DecodeConfigRecord` | core/services/non_volatile_memory/NonVolatileMemoryImpl.cpp:188-206 | the same for configurations |
| `RecordLayout.ValidIffLoadable` | core/services/non_volatile_memory/NonVolatileMemoryImpl.cpp:118-186 | the validity check says yes exactly when a load of the same bytes returns Ok |
| `RecordLayout.ErasedIsInvalid` | core/services/non_volatile_memory/NonVolatileMemoryImpl.cpp:118-144 | erased bytes are no calibration and decode to the default configuration |
| `RecordLayout.CalibrationLayout` | core/services/non_volatile_memory/CalibrationData.hpp:11-30 | every field of the calibration record at its byte offset, least significant byte first, after magic, version and checksum |
| `RecordLayout.ConfigLayout` | core/services/non_volatile_memory/NonVolatileMemoryImpl.cpp:188-206 | the same for the configuration record |
| `RecordLayout.StatusMeans` | core/services/non_volatile_memory/NonVolatileMemoryImpl.cpp:118-144 | which bytes load, which are a version mismatch and which invalid data |
| `NvmRegions.ReadBack` | core/services/non_volatile_memory/NvmEepromRegion.cpp:17-27 | what is written to a region is read back |
| `NvmRegions.Undisturbed` | core/services/non_volatile_memory/NvmEepromRegion.cpp:6-21 | writing one region does not change what is read from a disjoint one |
| `NvmRegions.NvmEepromRegion.Write` | core/services/non_volatile_memory/NvmEepromRegion.cpp:17-21 | the bytes land at the base address of the region and nowhere else |
| `NvmRegions.NvmEepromRegion.Erase` | core/services/non_volatile_memory/NvmEepromRegion.cpp:29-32 | exactly the region becomes 0xFF |
| `NonVolatileMemoryClass.NonVolatileMemoryImpl.SaveCalibration` | core/services/non_volatile_memory/NonVolatileMemoryImpl.cpp:53-71 | the record is put into the buffer in place and the erase is asked for, unless the slot is taken |
| `NonVolatileMemoryClass.NonVolatileMemoryImpl.SaveConfig` | core/services/non_volatile_memory/NonVolatileMemoryImpl.cpp:188-206 | the same for the configuration |
| `NonVolatileMemoryClass.NonVolatileMemoryImpl.Finish` | core/services/non_volatile_memory/NonVolatileMemoryImpl.cpp:73-300 | one completion: effect on the medium, then the next operation of the chain or the cleared slot and its callback |
| `NonVolatileMemoryClass.NonVolatileMemoryImpl.OnCalibrationReadBack` | core/services/non_volatile_memory/NonVolatileMemoryImpl.cpp:93-99 | Ok exactly when the bytes read back are the bytes written |
| `NonVolatileMemoryClass.NonVolatileMemoryImpl.OnCalibrationReadForLoad` | core/services/non_volatile_memory/NonVolatileMemoryImpl.cpp:118-144 | magic, version and checksum are looked at in this order, each with its own status |
| `NonVolatileMemoryClass.NonVolatileMemoryImpl.OnConfigReadForLoad` | core/services/non_volatile_memory/NonVolatileMemoryImpl.cpp:253-275 | anything wrong gives the defaults and Ok |
| `ControlModeModel.RunGood` | core/state_machine/ControlModeStateMachine.cpp:23-68 | in every run, with no select pending the active mode is the one the configuration in memory names, with one pending it is the previous one, and every machine that was replaced is stopped and not Enabled, even when it was enabled during the save; the active machine is a torque machine exactly in torque mode |
| `ControlModeModel.SelectAnswered` | core/state_machine/ControlModeStateMachine.cpp:47-59 | a select answered ok is active with a new, stopped machine, is the default, and the configuration on the medium holds its number 0, 1 or 2 and constructs a coordinator in that mode; a failed one restores default and mode |
| `ControlModeModel.SelectAtOnce` | core/state_machine/ControlModeStateMachine.cpp:27-45 | a select is answered busy, and changes nothing, exactly when the machine is calibrating, enabled or at fault; otherwise the mode becomes the default in memory and waits for its save |
| `ControlModeModel.ModeOfConfig` | core/state_machine/ControlModeStateMachine.cpp:8-25 | 1 is speed, 2 position and anything else torque, with a machine of that kind |
| `ControlModeModel.SelectAnsweredIff` | core/state_machine/ControlModeStateMachine.cpp:27-45 | a select that is not refused as busy can be answered exactly when the configuration slot is free as it arrives; otherwise it stays pending in every run |
| `ControlModeModel.ChoiceSurvives` | core/state_machine/ControlModeStateMachine.cpp:8-25 | the chosen mode comes up after reconstruction whatever calibration work, loads and faults follow, until the next configuration save or format |
| `ControlModeStateMachineClass.ControlModeStateMachine.constructor` | core/state_machine/ControlModeStateMachine.cpp:8-25 | the machine constructed is that of the configured mode, torque for an unknown one |
| `ControlModeStateMachineClass.ControlModeStateMachine.Select` | core/state_machine/ControlModeStateMachine.cpp:27-45 | busy unless the active machine is stopped; otherwise default, pending fields and the save |
| `ControlModeStateMachineClass.ControlModeStateMachine.OnSaveConfigDone` | core/state_machine/ControlModeStateMachine.cpp:47-59 | restore and answer, or replace the machine and then answer |
| `ControlModeStateMachineClass.ControlModeStateMachine.Activate` | core/state_machine/ControlModeStateMachine.cpp:181-212 | emergency stop first, then a new machine object |
| `ControlModeStateMachineClass.ControlModeStateMachine.TrySetSpeedPidGains` | core/state_machine/ControlModeStateMachine.cpp:157-170 | replaces the speed gains of the active machine, and is refused exactly by a torque machine |
| `ControlModeStateMachineClass.ControlModeStateMachine.Active` | core/state_machine/ControlModeStateMachine.cpp:61-68 | the mode of the machine held, which is the configured one when no select is pending |
| `Trigonometry.IndexIsFloor` | core/foc/implementations/TrigonometricImpl.hpp:96-107 | truncating and correcting gives the floor, and the masked unsigned index is the floor modulo 512, negative angles included, for every angle whose scaled value has a 32-bit value |
| `Trigonometry.MaskIsRemainder` | core/foc/implementations/TrigonometricImpl.hpp:106-107 | keeping nine bits of an unsigned word is taking it modulo 512 |
| `Trigonometry.SinePeriodic` | core/foc/implementations/TrigonometricImpl.hpp:94-110 | adding two pi changes nothing |
| `Trigonometry.SineHalfTurn` | core/foc/implementations/TrigonometricImpl.hpp:94-110 | adding pi changes the sign |
| `Trigonometry.SineOdd` | core/foc/implementations/TrigonometricImpl.hpp:94-110 | the sine is odd, between table entries as well |
| `Trigonometry.SineBounded` | core/foc/implementations/TrigonometricImpl.hpp:94-110 | within -1 and 1 |
| `Trigonometry.OnUnitCircle` | core/foc/implementations/TrigonometricImpl.hpp:94-115 | sine and cosine squared add up to between 0.99996 and 1.00000031 |
| `Trigonometry.SineAtStep` | core/foc/implementations/TrigonometricImpl.hpp:21-86 | at every multiple of 1/512 turn the result is the entry itself |
| `Trigonometry.QuarterTurns` | core/foc/implementations/TrigonometricImpl.hpp:94-115 | sine and cosine are on the axes at 0 and a quarter turn |
| `SineTable.SineOnCircle` | core/foc/implementations/TrigonometricImpl.hpp:21-86 | the 512 entries: sign change after half a turn, mirror image after a quarter, and the bounds on products with the entries a quarter turn on |
| `SineTable.Circle` | core/foc/implementations/TrigonometricImpl.hpp:21-86 | every entry with the one a quarter turn on is a point near the unit circle, and their successors are nearly its rotation by one step |
| `Transforms.ClarkeRoundTrip` | core/foc/implementations/TransformsClarkePark.cpp:9-27 | Clarke forward after inverse is the identity |
| `Transforms.ClarkeKeepsDifferences` | core/foc/implementations/TransformsClarkePark.cpp:9-27 | Clarke inverse after forward takes off the mean of the phases and nothing else |
| `Transforms.ParkScales` | core/foc/implementations/TransformsClarkePark.cpp:29-57 | Park inverse after forward multiplies by cos*cos + sin*sin, for any pair |
| `Transforms.TableParkRoundTrip` | core/foc/implementations/TransformsClarkePark.cpp:29-57 | with the table that factor is within 4e-5 of 1 |
| `Transforms.UnclampedIff` | core/foc/implementations/SpaceVectorModulation.cpp:10-32 | the clamp alters no phase exactly when the largest line-to-line voltage is at most the square root of 3 |
| `Transforms.UnitCircleUnclamped` | core/foc/implementations/SpaceVectorModulation.cpp:10-32 | this holds for every vector in the unit circle |
| `Transforms.VoltagePreservedIff` | core/foc/implementations/SpaceVectorModulation.cpp:10-32 | the vector applied is the one asked for over the square root of 3 exactly under that condition; beyond it the clamp changes the vector |
| `Transforms.DemandIsApplied` | core/foc/implementations/SpaceVectorModulation.cpp:10-32 | in the rotor frame the demand comes back over the square root of 3, times cos*cos + sin*sin |
| `Transforms.InnerLoopVoltage` | core/foc/implementations/FocWithSpeedLoop.cpp:95-104 | with the table, for any rotor angle and any demand in the circle of squared radius 0.9999996, to within 4e-5 of itself |
| `Transforms.RoundingShift` | core/foc/implementations/FocWithSpeedLoop.cpp:116-118 | whole percents stay in 0..100 and move the applied voltage by at most 1/150 along alpha and 1/(100 sqrt 3) along beta |
| `InterruptModel.Construct` | core/foc/implementations/FocWithSpeedLoop.cpp:10-26 | under the asserted frequencies the prescaler is positive and exact |
| `InterruptModel.EnabledPublishes` | core/foc/implementations/FocWithSpeedLoop.cpp:64-114 | n interrupts after enabling publish and trigger exactly n div prescaler times |
| `InterruptModel.Publishes` | core/foc/implementations/FocWithSpeedLoop.cpp:106-114 | a window of k interrupts from count c publishes (c + k) div prescaler times and swaps the slots as often |
| `InterruptModel.StableIff` | core/foc/implementations/FocWithSpeedLoop.hpp:71-76 | the latched slot keeps its snapshot for every window of k interrupts exactly when c + k is below two prescaler periods |
| `InterruptModel.ReadsWhole` | core/foc/implementations/FocWithSpeedLoop.cpp:171-195 | both handlers, interrupted between any two field reads, read one whole snapshot if they finish within one prescaler period |
| `InterruptModel.SlowReadTears` | core/foc/implementations/FocWithSpeedLoop.hpp:71-76 | a window of two periods can make a handler combine fields of different snapshots |
| `InterruptModel.ReadyIsNewest` | core/foc/implementations/FocWithSpeedLoop.cpp:106-114 | the ready snapshot is that of the last interrupt that completed a period |
| `InterruptModel.OutputApplies` | core/foc/implementations/FocWithSpeedLoop.cpp:103-118 | for a demand that is not clamped, whatever the angle, the whole percents handed to the inverter are within the rounding of the demand turned to the stator, over the square root of 3 |
| `InterruptModel.AppliedToRotor` | core/foc/implementations/FocWithSpeedLoop.cpp:103-118 | brought back to the rotor, d and q come out as asked for, times r inv with r within 4e-5 of one, to within the rounding of both axes |
| `InterruptModel.MeasuresRotorCurrents` | core/foc/implementations/FocWithSpeedLoop.cpp:88-101 | currents made of d and q in three phases a third of a turn apart are measured as d and q, times the squared length of (cos, sin) |
| `FocWithSpeedLoopClass.FocWithSpeedLoop.constructor` | core/foc/implementations/FocWithSpeedLoop.cpp:10-26 | prescaler, slots and counter as specified |
| `FocWithSpeedLoopClass.FocWithSpeedLoop.EnableSpeedLoop` | core/foc/implementations/FocWithSpeedLoop.cpp:64-74 | the count restarts, the snapshots stay |
| `FocWithSpeedLoopClass.FocWithSpeedLoop.CalculateInnerLoop` | core/foc/implementations/FocWithSpeedLoop.cpp:85-119 | one interrupt in place: the publish of what was measured, and whole percents within 0..100 that apply any demand up to the unit circle, turned to the stator with the sine and cosine of the table and divided by the square root of 3, to within 1/150 along the first axis and inv/100 across it |
| `PolePairModel.WrapRecovers` | core/services/electrical_system_ident/ElectricalParametersIdentificationImpl.cpp:174-178 | wrapping recovers a movement of less than half a turn from readings that are any whole turns off |
| `PolePairModel.WrapRange` | core/services/electrical_system_ident/ElectricalParametersIdentificationImpl.cpp:178 | the wrapped difference is in [-pi, pi) |
| `PolePairModel.RotationIsTrue` | core/services/electrical_system_ident/ElectricalParametersIdentificationImpl.cpp:172-187 | the accumulated rotation is the true one, however the encoder wraps, when each step moves less than half a turn |
| `PolePairModel.AnsweredAtTheEnd` | core/services/electrical_system_ident/ElectricalParametersIdentificationImpl.cpp:157-208 | nothing is answered before twelve samples per revolution, one answer then |
| `PolePairModel.IdealRotor` | core/services/electrical_system_ident/ElectricalParametersIdentificationImpl.cpp:143-208 | for an ideal rotor with P pole pairs, turning either way, R revolutions take exactly 12 R samples and report P when 3 P < 12 R - 1 and otherwise nothing |
| `ResistanceModel.FilteredIsAverages` | core/services/electrical_system_ident/ElectricalParametersIdentificationImpl.cpp:103-112 | before the analysis the filtered samples are the means of all five-sample windows |
| `ResistanceModel.FiresAt127` | core/services/electrical_system_ident/ElectricalParametersIdentificationImpl.cpp:103-141 | the analysis fires at the 127th raw sample over 123 means, and answers once |
| `ResistanceModel.TauFound` | core/services/electrical_system_ident/ElectricalParametersIdentificationImpl.cpp:50-66 | with a positive steady state the 63.2 percent search always finds a sample |
| `ResistanceModel.AnswerIff` | core/services/electrical_system_ident/ElectricalParametersIdentificationImpl.cpp:121-141 | values are reported exactly when the steady state is positive, so the branch without a time constant is never taken; resistance times steady state is the test voltage |
| `ResistanceModel.TimeConstant` | core/services/electrical_system_ident/ElectricalParametersIdentificationImpl.cpp:50-86 | inductance over resistance is a tenth of a millisecond for each sample up to the first mean at 63.2 percent, less five where there are as many |
| `ResistanceModel.OhmsLaw` | core/services/electrical_system_ident/ElectricalParametersIdentificationImpl.cpp:121-135 | resistance times steady state is the test percentage of the supply |
| `ElectricalParametersIdentificationClass.AverageAndRemoveFront` | core/services/electrical_system_ident/ElectricalParametersIdentificationImpl.cpp:29-41 | the loop computes the mean, the oldest sample leaves |
| `ElectricalParametersIdentificationClass.GetSteadyStateCurrent` | core/services/electrical_system_ident/ElectricalParametersIdentificationImpl.cpp:43-48 | the mean of the samples from 110 on |
| `ElectricalParametersIdentificationClass.GetTauFromCurrentSamples` | core/services/electrical_system_ident/ElectricalParametersIdentificationImpl.cpp:50-66 | the search loop finds the first sample at the target, less the delay of the average |
| `ElectricalParametersIdentificationClass.ElectricalParametersIdentificationImpl.OnPhaseCurrents` | core/services/electrical_system_ident/ElectricalParametersIdentificationImpl.cpp:103-112 | one current sample in place |
| `ElectricalParametersIdentificationClass.ElectricalParametersIdentificationImpl.AnalyzeInductanceMeasures` | core/services/electrical_system_ident/ElectricalParametersIdentificationImpl.cpp:121-141 | stop, compute, answer once |
| `ElectricalParametersIdentificationClass.ElectricalParametersIdentificationImpl.EstimateNumberOfPolePairs` | core/services/electrical_system_ident/ElectricalParametersIdentificationImpl.cpp:143-165 | from zero, and answered at once when no revolution is asked for |
| `ElectricalParametersIdentificationClass.ElectricalParametersIdentificationImpl.OnSettled` | core/services/electrical_system_ident/ElectricalParametersIdentificationImpl.cpp:172-187 | one settled step in place |
| `ElectricalParametersIdentificationClass.ElectricalParametersIdentificationImpl.CalculatePolePairs` | core/services/electrical_system_ident/ElectricalParametersIdentificationImpl.cpp:189-208 | the rounded ratio above a quarter turn, otherwise none; answered once |
| `AlignmentModel.FollowsTrace` | core/services/alignment/MotorAlignmentImpl.cpp:24-94 | for any settings, zero included, and any stream, the answer is the second reading at the sample of the verdict times the pole pairs, none at the limit, and comes exactly once however many samples follow; the verdict is the first sample before the limit that ends a run of readings each less than the threshold above or below the one before |
| `AlignmentModel.AsksAfresh` | core/services/alignment/MotorAlignmentImpl.cpp:24-37 | an alignment asked for while none is pending starts at the position read then, with nothing left of an earlier one |
| `AlignmentModel.MirroredRun` | core/services/alignment/MotorAlignmentImpl.cpp:49-83 | with all readings mirrored the answer is mirrored |
| `AlignmentModel.VerdictStep` | core/services/alignment/MotorAlignmentImpl.cpp:49-57 | one more sample changes the verdict only while there is none |
| `AlignmentModel.RunMeans` | core/services/alignment/MotorAlignmentImpl.cpp:64-72 | the counter of settled samples is at least n exactly when the last n samples are settled |
| `MotorAlignmentClass.MotorAlignmentImpl.ForceAlignment` | core/services/alignment/MotorAlignmentImpl.cpp:24-37 | ignored while an alignment is pending |
| `MotorAlignmentClass.MotorAlignmentImpl.OnPhaseCurrents` | core/services/alignment/MotorAlignmentImpl.cpp:49-57 | one sample in place, the limit tested first |
| `MotorAlignmentClass.MotorAlignmentImpl.ProcessPosition` | core/services/alignment/MotorAlignmentImpl.cpp:59-74 | count or restart, and the previous position is always the last one read |
| `CanModel.RoundTrip` | tools/hardware_bridge/client/can/TcpClientCanbus.cpp:14-53 | for every 11-bit or 29-bit identifier and up to 8 bytes, decoding an encoded frame gives it back in all four pairings of the two ends |
| `CanModel.EncodersAgree` | tools/hardware_bridge/server/can_server.py:302-308 | both ends write the same 16 bytes |
| `CanModel.DecodersAgree` | tools/hardware_bridge/server/can_server.py:310-325 | both ends read the same frame, or refuse, from any 16 bytes |
| `CanModel.JoinSplit` | tools/hardware_bridge/client/can/TcpClientCanbus.cpp:25-28 | the identifier word survives its four bytes |
| `CanModel.WireLayout` | tools/hardware_bridge/client/can/TcpClientCanbus.cpp:14-33 | the 16 bytes of a frame one by one: identifier, extended bit, length, zeros, data and padding |
| `CanModel.WireRead` | tools/hardware_bridge/client/can/TcpClientCanbus.cpp:35-59 | which bits of any 16 bytes make an error, an extended frame, its identifier and its data |
| `CanStream.WholeStream` | tools/hardware_bridge/server/can_server.py:280-297 | for any stream in any chunks each end delivers a function of the whole stream: the server all blocks that decode, the client those before the first that does not; fewer than 16 bytes are held |
| `CanStream.FramesArrive` | tools/hardware_bridge/client/can/TcpClientCanbus.cpp:117-149 | encoded frames cut anywhere arrive exactly, in order, with the partial frame held, at either end |
| `CanStream.ChunksDoNotMatter` | tools/hardware_bridge/client/can/TcpClientCanbus.cpp:117-149 | chunking invariance from any receiver state |
| `CanStream.NotAFrame` | tools/hardware_bridge/server/can_server.py:280-297 | after a block that is no frame the client delivers nothing more and the server goes on |
| `CanStream.CalledExactlyOnce` | tools/hardware_bridge/client/can/TcpClientCanbus.cpp:100-171 | every callback handed over has been called exactly once or is the one pending |
| `CanStream.SentIsReceived` | tools/hardware_bridge/client/can/TcpClientCanbus.cpp:100-115 | the server delivers exactly the frames whose callbacks were told of success, in order |
| `CanStream.WrittenExactly` | tools/hardware_bridge/client/can/TcpClientCanbus.cpp:100-171 | over every run the frames written are exactly those of the requests that came with a callback and room, while no other such request waited, and met the connection before a disconnection; a request without a callback is never written |
| `CanStream.WrittenIffCallback` | tools/hardware_bridge/client/can/TcpClientCanbus.cpp:100-106 | handed over while nothing is pending and then offered the connection, a frame is written exactly when it came with a callback |
| `CanStream.TakenIffNothingPending` | tools/hardware_bridge/client/can/TcpClientCanbus.cpp:151-168 | the condition on the events is what the sender decides: nothing was pending when the request came |
| `CanServer.TcpToCan` | tools/hardware_bridge/server/can_server.py:280-297 | the loop over the growing buffer delivers and keeps what the stream function says |
| `TcpClientCanbusClass.ConnectionHandler.DataReceived` | tools/hardware_bridge/client/can/TcpClientCanbus.cpp:117-149 | the accumulator loop, for any contiguous ranges, delivers what the stream function says, up to the abort |
| `TcpClientCanbusClass.ConnectionHandler.RequestSend` | tools/hardware_bridge/client/can/TcpClientCanbus.cpp:151-171 | refused when one is pending or there is no room, otherwise encoded into the buffer in place |
| `TcpClientCanbusClass.ConnectionHandler.SendStreamAvailable` | tools/hardware_bridge/client/can/TcpClientCanbus.cpp:100-115 | the pending frame is written whole, then its callback is called |
| `TcpClientCanbusClass.ConnectionHandler.FailPendingSend` | tools/hardware_bridge/client/can/TcpClientCanbus.cpp:188-196 | a pending callback is told of failure, once |
| `SerialModel.GoesOutWhole` | tools/hardware_bridge/client/serial/TcpClientSerial.cpp:80-114 | for any positive room each time a send goes out as exactly its bytes and is called back once, in at most as many chunks as it has bytes |
| `SerialModel.Progress` | tools/hardware_bridge/client/serial/TcpClientSerial.cpp:91-104 | each chunk is not empty, fits the room and shortens what remains |
| `SerialModel.RunOrderly` | tools/hardware_bridge/client/serial/TcpClientSerial.cpp:21-114 | with callbacks on every send a connection carries the finished sends in order and unbroken, then a prefix of the pending one |
| `SerialModel.CalledExactlyOnce` | tools/hardware_bridge/client/serial/TcpClientSerial.cpp:21-189 | through any connections and disconnections every callback has been called exactly once, or is the one queued or pending |
| `SerialModel.DisconnectSettles` | tools/hardware_bridge/client/serial/TcpClientSerial.cpp:57-74 | a disconnection leaves no callback uncalled |
| `SerialModel.SurvivesIff` | tools/hardware_bridge/client/serial/TcpClientSerial.cpp:133-153 | a send under way survives every further send exactly when it has a callback |
| `SerialModel.LatestGoesOut` | tools/hardware_bridge/client/serial/TcpClientSerial.cpp:21-55 | without a connection the latest send is the one that goes out when there is one, from its first byte |
| `SerialModel.TakenOrCalled` | tools/hardware_bridge/client/serial/TcpClientSerial.cpp:133-153 | with a connection a send is taken, or called back at once and nothing else happens |
| `TcpClientSerialClass.TcpClientSerial.SendData` | tools/hardware_bridge/client/serial/TcpClientSerial.cpp:21-37 | without a connection the latest send replaces the queued one, whose callback is called |
| `TcpClientSerialClass.TcpClientSerial.OnConnectionEstablished` | tools/hardware_bridge/client/serial/TcpClientSerial.cpp:44-55 | the queued send is handed over once |
| `TcpClientSerialClass.TcpClientSerial.OnDisconnected` | tools/hardware_bridge/client/serial/TcpClientSerial.cpp:57-74 | queued and pending sends are dropped and called back |
| `TcpClientSerialClass.TcpClientSerial.RequestSend` | tools/hardware_bridge/client/serial/TcpClientSerial.cpp:133-153 | called back at once when busy or empty, otherwise pending from its first byte |
| `TcpClientSerialClass.TcpClientSerial.SendStreamAvailable` | tools/hardware_bridge/client/serial/TcpClientSerial.cpp:80-114 | one chunk in place, the callback after the last |

## Left out

- Floating-point rounding and fast-math: angles, voltages, currents and samples are reals; stored floats are 32-bit patterns.
- Overflow of `int` in control-sequence parameters: parameters are naturals.
- The CRC-32 polynomial: any function of the data bytes; round trips and agreement hold for all of them.
- Float-to-integer conversion outside 32 bits: undefined in the source, so the results about the sine ask for a representable angle.
- PID controllers: their answers are parameters of the inner loop.
- The identification services' own inverter voltages (`NormalizedDutyCycles`) and settle timers: a settled reading or a current sample is an event.
- A stopped inverter delivers no current samples to the resistance measurement; the source relies on this too.
- Mechanical identification arithmetic: friction, inertia and the velocity gains arrive as the values of the callback.
- The online estimators behind `ApplyOnlineEstimates`: their values arrive with the event.
- Set points, position gains, tracing, telemetry and the parsing of CAN and command-line messages: single-branch forwarding.
- Commands that call the identification services or the inverter directly: the machine is their only user here.
- Whether the inverter runs, and at which frequency: a service that has the samples may answer at any time.
- Replacing the machine by another mode is modelled without its identifications; the alignment service, and an alignment left pending in it, outlive the machine.
- Command callbacks that call back into the machine, and callbacks into a machine already replaced: excluded by assumption.
- Read faults of the medium: a device fault changes what is written or erased, not what is read.
- Sockets, connection factories and asyncio tasks: bytes received, room offered, connection and disconnection are events.
- Forwarding from the CAN bus to the server's socket, and the abort of the old connection in destructors: no state of their own.
- Enum-to-string and enum-mapping switches, `LineText`, accessors, Qt views, simulators and plots: nothing beyond one body.
- TcpClientCanbusClass.ConnectionHandler.DataReceived: states nothing about bytes that arrive after an abort, because the connection is gone.
