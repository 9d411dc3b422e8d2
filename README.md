# Door-lock system: the two-node password and door protocol

The door lock has two ATmega32 nodes joined by one serial link.

- The front-end node (`hmi_ecu/hmi.c`) has a keypad and a display. It collects a
  five-digit password, frames it as `0x5A` plus the five digits, and runs the
  menu: `+` opens the door, `-` changes the password.
- The back-end node (`control_ecu/control.c`) compares what it receives with a
  second entry (enrollment) or with the password saved in an external EEPROM
  (verification), answers `0x5B` (true) or `0x5C` (false), and drives the door
  motor, the PIR sensor wait and the alarm buzzer.
- Both run on the same UART driver (`control_ecu/uart.c`) and timer driver
  (`control_ecu/timer.c`). Timer2's overflow interrupt calls a callback that
  counts overflows up to 7324 (one motor run) or 29296 (the alarm) and then
  raises `g_open_door_flag`, which the main loop busy-waits on.

## How the model is built

- `Wire`: the byte type and the wire constants of both constants headers.
- `Registers`: an 8-bit register as the set of its 1 bits.
- `Protocol`: the shared scanning functions: read until one of these bytes
  arrives, read one framed password, collect five digit keys, the attempt
  counter rule.
- `Overflow`: the two callback rules and the closed form of a busy-wait on the
  flag.
- `Eeprom`: the external EEPROM as a map from address to byte.
- `Uart`: a class with the receive queue `rx`, the transmit log `tx` and the
  configuration registers. Each driver function is a method.
- `Timer`: a class with the three callback slots and the timer registers.
  `TIMER_init`, `TIMER_setCallBack`, `TIMER_deInit` and the six ISRs are its
  methods.
- `ControlSteps` and `HmiSteps`: each node's endless `main` as a state machine
  over values. A state holds the point where `main` waits for input and what it
  sees there. `Next` runs `main` from one wait point to the next, and is
  `None` while the input that wait needs has not arrived. The properties of
  each node are lemmas about `Next`.
- `Control.Node` and `Hmi.Node`: the same nodes run in place. Their globals
  are fields and their password buffers are arrays. Every C function is a
  method with the source's loops. `Step` is proved to change the node exactly
  as `Next` says.
- `System`: the two state machines on one link. Whatever one node sends is
  appended to what the other has still to read.

The keypad, the PIR sensor and the EEPROM are inputs: a sequence of keys, a
sequence of PIR readings and a map. Timer interrupts are explicit calls of
the ISR dispatch inside the busy-wait loops. The motor, the buzzer, the time
spent in each timed wait and each CLEAR are recorded as events.

### Where the code and the specification differ

This model follows the code in each of these places.

- The specification asks for two verifications before the door opens or the
  password changes: one to enter the flow and one for the action. The code
  verifies once per flow. Enrollment leads straight to the menu, and each flow
  sends its opcode and then a single password (hmi.c:110-121, 179-188).
- The specification says a lock-down always leads back to enrollment. In the
  code, a lock-down in the door flow returns to the menu, and the back-end
  returns to its opcode read (control.c:138-142, 285-298; hmi.c:173-176).
- The specification resets the attempt counter to 1 on lock-down. The code
  sets it to 0 (hmi.c:175, 213), but both counters are locals re-declared at
  1 on the next pass of the loop, so the value is never read.

### Two behaviours of the code

- **Deadlock after a change-flow lock-down** (`System.ChangeLockDownDeadlocks`).
  1. The change flow sets `g_password_phase_one` before it reads the verdict
     (hmi.c:185).
  2. After the third rejection and the back-end's CLEAR, the front-end goes
     back to enrollment with `g_password_reenter` still at `START_PHASE_TWO`,
     so it sends a single packet.
  3. The back-end is at its opcode read. It takes the packet's `0x5A` for an
     opcode and spins at control.c:90 for good.
  4. The front-end waits for a verdict that never comes. No key and no byte
     moves either node again.
- **Leftover flags.**
  - `systemLockDown` leaves `g_open_door_flag` at 1 (control.c:293), so the
    back-end's next door opening waits no time at all
    (`ControlSteps.LeftoverFlagAfterLockDown`).
  - The front-end's closing wait also ends with its flag at 1 (hmi.c:151-154).
    If no overflow lands between the end of that wait and `TIMER_deInit`
    (hmi.c:153-154), the flag stays at 1 and the next "Opening Door" wait is
    skipped as well (`HmiSteps.LeftoverFlagOnNextDoor`). An overflow in that
    window would clear it again; see "Left out".

## Model

| member | source | states |
|---|---|---|
| Wire.OpcodesAreNotDigits | hmi_ecu/hmi_constants.h:17-43 | every opcode is above 9, so no opcode is a password digit |
| Wire.LockDownIsFourDoorRuns | control_ecu/control_constants.h:32-35 | LOCK_DOWN_TIME is exactly four times TARGET_OVERFLOWS |
| Uart.FrameFormat | control_ecu/uart.c:35-93 | UCSRB is exactly RXEN and TXEN, plus UCSZ2 for 9 bits, so no USART interrupt is enabled; UCSRC has no bit outside URSEL, UPM1:0, USBS and UCSZ1:0 (asynchronous, UCPOL 0), and the two decode to exactly the configured data bits, parity (00/10/11) and stop bits (USBS iff two) |
| Uart.UbrrValue | control_ecu/uart.c:96 | the divisor always fits in 16 bits, and when 8 baud is at most F_CPU and the quotient fits it is F_CPU / (8 baud) - 1 |
| Uart.UbrrBrackets | control_ecu/uart.c:96 | when it does not wrap, the divisor is the largest one whose bit time is not shorter than the requested rate's |
| Uart.UbrrWrapsWhenBaudTooHigh | control_ecu/uart.c:96 | a baud rate above F_CPU/8 makes the unsigned subtraction wrap to 0xFFFF |
| Uart.Uart.Init | control_ecu/uart.c:29-101 | U2X only in UCSRA; UCSRB exactly RXEN, TXEN and UCSZ2 for 9 bits; UCSRC with no bit outside the frame fields and URSEL, decoding to the configured frame; (UBRRH << 8) \| UBRRL equal to the 16-bit divisor; the queues are unchanged |
| Uart.Uart.SendByte | control_ecu/uart.c:107-126 | exactly one byte is appended to the transmit log; nothing else changes |
| Uart.Uart.ReceiveByte | control_ecu/uart.c:132-142 | returns and removes the oldest unread byte |
| Uart.Uart.Flush | control_ecu/uart.c:193-200 | no unread byte remains |
| Uart.Uart.SendString | control_ecu/uart.c:148-157 | transmits exactly the bytes before the first NUL, in order, and not the NUL |
| Uart.Uart.ReceiveString | control_ecu/uart.c:171-187 | stores the bytes before the first '#' in order, a NUL in place of the '#', leaves the rest of the buffer alone, and consumes exactly (index of '#') + 1 bytes |
| Timer.Timer2CodeIsOrdinal | control_ecu/timer.c:201-251 | every Timer2 clock's ordinal is a clock-select code that decodes back to that clock |
| Timer.OfferedClocksAreDecodable | control_ecu/timer.c:65-103 | on Timers 0 and 1 a clock has a clock-select code iff it is not one of the two Timer2-only prescalers |
| Timer.SelectClock01 | control_ecu/timer.c:65-103 | an offered clock is selected in CSn2:CSn0; PRESCALER_32 and PRESCALER_128 leave the register unchanged; bits 3-7 are kept |
| Timer.SelectClock2 | control_ecu/timer.c:201-251 | CS22:CS20 hold the clock's ordinal 0..7; bits 3-7 are kept |
| Timer.Timers.constructor | control_ecu/timer.c:23-25 | every slot starts NULL (and every register at its reset value 0) |
| Timer.Timers.Init | control_ecu/timer.c:34-254 | the named timer is configured as Init0, Init1 or Init2 states, including its kept COM and FOC bits, and the other two timers' registers are unchanged |
| Timer.Timers.Init0 | control_ecu/timer.c:39-105 | TCNT0 loaded; overflow mode sets only TOIE0 in TIMSK with normal waveform, compare mode only OCIE0 with CTC and OCR0 loaded; FOC0 set; clock selected if offered, else kept; every other TCCR0 bit (COM01:00) kept |
| Timer.Timers.Mode0 | control_ecu/timer.c:44-62 | FOC0 set; overflow mode: only TOIE0 added to TIMSK, WGM01:00 normal, OCR0 kept; compare mode: only OCIE0 added, WGM01:00 CTC, OCR0 loaded; every TCCR0 bit but FOC0 and WGM01:00 kept |
| Timer.Timers.Init1 | control_ecu/timer.c:107-175 | the same for Timer1 with TOIE1/OCIE1A, WGM13:10 normal or CTC, OCR1A; every TCCR1A bit but WGM11:10 and every TCCR1B bit but WGM13:12 and CS12:10 kept |
| Timer.Timers.Mode1 | control_ecu/timer.c:112-133 | overflow mode: only TOIE1 added to TIMSK, WGM13:10 normal, OCR1A kept; compare mode: only OCIE1A added, WGM13:10 CTC, OCR1A loaded; every TCCR1A bit but WGM11:10 and every TCCR1B bit but WGM13:12 kept |
| Timer.Timers.Init2 | control_ecu/timer.c:177-252 | the same for Timer2 with TOIE2/OCIE2 and OCR2; CS22:CS20 equal the clock's ordinal; every other TCCR2 bit (FOC2, COM21:20) kept |
| Timer.Timers.SetCallBack | control_ecu/timer.c:262-269 | only slot `id` changes, to the given callback; no register changes |
| Timer.Timers.DeInit | control_ecu/timer.c:277-311 | slot `id` is NULL, the other slots unchanged; that timer's control and count registers are zero; only its two TIMSK enable bits are cleared; OCR0 and OCR2 are zeroed but OCR1A is not |
| Timer.Timers.Isr | control_ecu/timer.c:317-363 | each vector's ISR calls its timer's slot iff it is non-NULL; both vectors of a timer share one slot |
| Eeprom.Store | control_ecu/control.c:241-248 | a save writes exactly the addresses from the start byte to start + 4 |
| Eeprom.StoreReads | control_ecu/control.c:241-248 | after a save, the five cells hold the saved bytes and every other cell reads as before |
| Eeprom.Load | control_ecu/control.c:251-260 | an extract yields five bytes, each the cell at its offset from the start byte |
| Eeprom.LoadStore | control_ecu/control.c:241-260 | extracting what was just saved gives the saved bytes back, whatever the EEPROM held |
| Overflow.Tick | control_ecu/control.c:263-282 | one callback call: on reaching the target the flag goes to 1 and the counter to 0; otherwise the counter goes up by one (uint16 wrap) and the flag is kept (back-end) or cleared (front-end); a counter below the target stays below it |
| Overflow.Distance | control_ecu/control.c:263-271 | the number of calls until the counter reaches the target is between 1 and 65536 |
| Overflow.CountsUp | control_ecu/control.c:263-271 | before the target is reached the flag stays down and the counter counts |
| Overflow.HitsTarget | control_ecu/control.c:263-271 | the Distance-th call sets the flag and resets the counter |
| Overflow.LatchStaysSet | control_ecu/control.c:263-282 | the back-end callbacks never clear a set flag |
| Overflow.LatchRaisesAtTarget | control_ecu/control.c:263-282 | from counter 0 and flag 0 the flag is 1 after n calls iff n is at least the target |
| Overflow.PulsePeriodic | hmi_ecu/hmi.c:300-312 | from (0, 0) the front-end callback's flag is 1 exactly after each multiple of 7324 calls, and the counter holds n mod 7324 |
| Overflow.Run | control_ecu/control.c:263-282 | repeated callback calls keep a counter below the target below it, and a latched flag stays up |
| Overflow.Wait | control_ecu/control.c:110 | a busy-wait always ends with the flag up; it takes no overflow iff the flag was already up, otherwise at most 65536, ending with the counter at 0 |
| Overflow.WaitIsFirstRaise | control_ecu/control.c:110 | the closed form of `while (g_open_door_flag == 0)` is the first call count after which the flag is up |
| Protocol.Seek | hmi_ecu/hmi.c:286-297 | a read-until loop stops at the first element of the set, after only non-members, or at the end of the stream |
| Protocol.SeekSkips | hmi_ecu/hmi.c:286-297 | whatever non-members precede it, the scan stops at the first member |
| Protocol.ReadPacket | control_ecu/control.c:184-191 | a packet read yields five bytes and leaves fewer bytes than it was given |
| Protocol.ReadFramed | control_ecu/control.c:184-191 | framing round trip: bytes before the start marker are discarded and the back-end reads exactly the five bytes the front-end framed |
| Protocol.ReadWaitsForWholeFrame | control_ecu/control.c:184-191 | with a frame cut short, no packet is read |
| Protocol.CollectDigits | hmi_ecu/hmi.c:250-266 | the digit loop finishes iff the keys hold at least n digits; then it yields n keys, all in 0..9, and leaves a suffix of the keys unread |
| Protocol.CollectDigitsSpec | hmi_ecu/hmi.c:250-266 | the digit loop collects exactly n keys, all in 0..9, which are the digit keys among those it read, in order; a key outside 0..9 fills no slot |
| Protocol.CollectTyped | hmi_ecu/hmi.c:250-266 | digit keys are collected as exactly those digits |
| Protocol.CollectEntry | hmi_ecu/hmi.c:250-269 | an entry is five digits; the last key it reads is ENTER and the keys after it are left unread |
| Protocol.EntryOfTypedCode | hmi_ecu/hmi.c:250-269 | five digit keys and ENTER are read as that password |
| Protocol.AfterFailure | hmi_ecu/hmi.c:160-177 | a failure either moves the counter up, still within the maximum of 3, or locks the system when the maximum is reached |
| Protocol.LockdownOnThirdFailure | hmi_ecu/hmi.c:160-177 | from 1, the system locks iff there are at least 3 consecutive failures; after fewer the counter is failures + 1 |
| ControlSteps.PasswordCheck | control_ecu/control.c:178-238 | a verdict is given only once a whole packet has been read; it is TRUE or FALSE; the receiver is emptied; accepted_password changes only on an enrollment TRUE |
| ControlSteps.EnrollStep | control_ecu/control.c:68-84 | exactly one verdict byte goes out: TRUE moves to the opcode read with flags (FALSE, TRUE); FALSE keeps enrolling with the flags and the EEPROM unchanged |
| ControlSteps.OpcodeStep | control_ecu/control.c:89-96 | takes one byte as soon as one is there, sends nothing, and enters a flow iff the byte is one of the two flow opcodes |
| ControlSteps.CodeStep | control_ecu/control.c:96-97 | exactly one verdict byte, TRUE or FALSE, goes back, and the node waits for the command of the same flow |
| ControlSteps.CommandStep | control_ecu/control.c:98-171 | the only command answered on the link is SYSTEM_LOCK_SEQUENCE, with one CLEAR; enrollment restarts only on RESET_PASSWORD in the change flow; the door opens only on START_MOTOR in the door flow |
| ControlSteps.LockDown | control_ecu/control.c:285-298 | systemLockDown changes only the bytes sent (one CLEAR more), the ticker (flag left up) and the events |
| ControlSteps.DeInitAll | control_ecu/control.c:301-309 | deInitAll leaves the node ready to enroll again, keeping the password buffers, the EEPROM and the bytes sent |
| ControlSteps.PirStep | control_ecu/control.c:113-137 | the door closes exactly once some PIR reading is 0; then one CLEAR goes out and the node returns to the opcode read |
| ControlSteps.Next | control_ecu/control.c:65-175 | a stalled node never moves again; a step only appends to what was sent; only enrollment writes the EEPROM |
| ControlSteps.InitialIsConsistent | control_ecu/control.c:28-38 | the start state meets the back-end invariant |
| ControlSteps.NextKeepsConsistent | control_ecu/control.c:65-175 | every step keeps exactly one phase flag set, the first exactly while enrolling, and the counter at 0 at every wait point |
| ControlSteps.PasswordCheckKeepsLengths | control_ecu/control.c:178-238 | isPasswordCorrect changes only the receiver and accepted_password, and keeps it five bytes long |
| ControlSteps.EnrollmentVerdict | control_ecu/control.c:193-222 | whatever stray bytes precede each marker, the verdict is TRUE iff the two packets are equal; on TRUE accepted_password is the first packet, on FALSE it is unchanged; the receiver is flushed |
| ControlSteps.VerificationVerdict | control_ecu/control.c:224-237 | the verdict is TRUE iff the packet equals extracted_password, and neither buffer changes |
| ControlSteps.CheckWaitsForPacket | control_ecu/control.c:184-191 | no verdict is given before the whole packet has arrived |
| ControlSteps.ExtractedIsAccepted | control_ecu/control.c:70-95 | after a successful enrollment the flags are (FALSE, TRUE) and the password the next flow extracts is the one accepted |
| ControlSteps.SaveTouchesOnlyPasswordCells | control_ecu/control.c:241-248 | a save changes no EEPROM address outside the five password cells |
| ControlSteps.RejectedEnrollmentRetries | control_ecu/control.c:70-78 | a FALSE enrollment verdict leaves the flags, accepted_password and the EEPROM unchanged and keeps enrolling |
| ControlSteps.ResetRestartsEnrollment | control_ecu/control.c:158-161 | RESET_PASSWORD in the change flow restores the flags to (TRUE, FALSE), zeroes counter and flag, flushes, and sends nothing |
| ControlSteps.LockDownEffect | control_ecu/control.c:285-298 | systemLockDown sends exactly one CLEAR, keeps the phase flags, leaves flag 1 and counter 0; the events are buzzer on, the wait (LOCK_DOWN_TIME overflows from a cleared ticker, none with the flag already up), CLEAR, buzzer off, in that order and nothing else |
| ControlSteps.DoorSequence | control_ecu/control.c:103-137 | after START_MOTOR: clockwise for one motor run, stop, CLEAR only once the PIR reads 0, anticlockwise for one motor run, stop; CLEAR is the only byte sent |
| ControlSteps.DoorWaitsForPir | control_ecu/control.c:116 | while the PIR has not read 0 the node does not move |
| ControlSteps.UnexpectedOpcodeStalls | control_ecu/control.c:89-90 | a byte other than 0x4A/0x4B at the opcode read stalls the node, whatever arrives later |
| ControlSteps.UnexpectedCommandStalls | control_ecu/control.c:97-101 | a command outside the flow's expected set stalls the node, whatever arrives later |
| ControlSteps.LeftoverFlagAfterLockDown | control_ecu/control.c:285-298 | after a lock-down the flag stays 1, so the next door opening emits a zero-length motor run |
| Control.Node.constructor | control_ecu/control.c:28-62 | the node starts in the state `ControlSteps.Initial` names |
| Control.Node.ReceivePacket | control_ecu/control.c:184-191 | the buffer holds the packet `ReadPacket` reads, and exactly its bytes are consumed |
| Control.Node.IsPasswordCorrect | control_ecu/control.c:178-238 | the verdict and new state are those of `PasswordCheck` |
| Control.Node.CompareEntries | control_ecu/control.c:193-222 | TRUE iff the second packet equals the first; accepted_password becomes the first on TRUE and is unchanged on FALSE; the receiver is flushed |
| Control.Node.CompareWithExtracted | control_ecu/control.c:224-237 | TRUE iff the packet equals extracted_password; the receiver is flushed |
| Control.Node.SavePassword | control_ecu/control.c:241-248 | the EEPROM becomes the old one with accepted_password stored from EEPROM_STARTBYTE |
| Control.Node.ExtractPassword | control_ecu/control.c:251-260 | extracted_password is the five cells read from EEPROM_STARTBYTE |
| Control.Node.OpenDoorCallBack | control_ecu/control.c:263-271 | one latching tick towards TARGET_OVERFLOWS |
| Control.Node.SystemLockDownCallBack | control_ecu/control.c:274-282 | one latching tick towards LOCK_DOWN_TIME |
| Control.Node.WaitForFlag | control_ecu/control.c:110 | dispatching Timer2's overflow ISR until the flag is up ends where `Wait` says, after that many overflows |
| Control.Node.StartTimer | control_ecu/control.c:106-107 | Timer2's slot holds the callback and its overflow interrupt is on |
| Control.Node.StopTimer | control_ecu/control.c:120-121 | Timer2's slot is NULL and its overflow interrupt off |
| Control.Node.SystemLockDown | control_ecu/control.c:285-298 | the state changes as `LockDown` says |
| Control.Node.DeInitAll | control_ecu/control.c:301-309 | the state changes as `ControlSteps.DeInitAll` says |
| Control.Node.PirState | control_ecu/control.c:116 | a PIR read returns and consumes the next reading |
| Control.Node.WaitWhileOccupied | control_ecu/control.c:116 | the PIR is read up to and including the first 0 |
| Control.Node.Enroll | control_ecu/control.c:68-84 | one pass of the first-phase loop, as `EnrollStep` says |
| Control.Node.ReadOpcode | control_ecu/control.c:89-96 | the opcode read, as `OpcodeStep` says |
| Control.Node.VerifyCode | control_ecu/control.c:96 | a flow's verification and verdict, as `CodeStep` says |
| Control.Node.OpenDoor | control_ecu/control.c:104-113 | clockwise, the opening wait, stop |
| Control.Node.Command | control_ecu/control.c:97-171 | the command read and its effect, as `CommandStep` says |
| Control.Node.CloseDoor | control_ecu/control.c:115-137 | the rest of the door sequence, as `PirStep` says |
| Control.Node.RunMotorBack | control_ecu/control.c:126-136 | from a cleared ticker: anticlockwise for one full motor run, stop, ticker cleared |
| Control.Node.Step | control_ecu/control.c:65-175 | one step of `main` keeps the invariant and agrees with `ControlSteps.Next` |
| HmiSteps.InitialIsConsistent | hmi_ecu/hmi.c:24-28 | the start state meets the front-end invariant |
| HmiSteps.NextKeepsConsistent | hmi_ecu/hmi.c:58-219 | every step keeps a phase flag set, the flag of the loop `main` is in, the attempt counter in 1..3, the flow opcode and packet last sent before a flow's verdict, and the overflow counter at 0 |
| HmiSteps.GetPasswordSend | hmi_ecu/hmi.c:226-283 | an entry completes iff the keys hold a full entry; it changes only the keys, the bytes sent and g_password_reenter, and appends 0x5A and five digits |
| HmiSteps.Begin | hmi_ecu/hmi.c:110-118 | a flow pass sends exactly the flow's opcode, sets g_password_reenter to START_PHASE_TWO, and in the door flow drops what had arrived |
| HmiSteps.VerdictStep | hmi_ecu/hmi.c:120-121 | a flow's verdict step runs exactly once a TRUE or FALSE byte has arrived, reads no key, only appends to what was sent, and leaves the verdict wait |
| HmiSteps.OnTrue | hmi_ecu/hmi.c:122-131 | TRUE sends exactly START_MOTOR (door, then the flag is up and CLEAR is awaited) or RESET_PASSWORD (change, then enrollment) |
| HmiSteps.OnFalse | hmi_ecu/hmi.c:160-177 | FALSE sends PASSWORD_INCORRECT and the flow opcode and retries with the counter one up below the maximum, and SYSTEM_LOCK_SEQUENCE at it |
| HmiSteps.DoorClearStep | hmi_ecu/hmi.c:137-158 | runs exactly once CLEAR has arrived, sends nothing, records one more wait and leaves the flag up |
| HmiSteps.LockClearStep | hmi_ecu/hmi.c:173-176 | runs exactly once CLEAR has arrived; only the received bytes and the place change |
| HmiSteps.Next | hmi_ecu/hmi.c:58-219 | a step only appends to what was sent and never gives keys back |
| HmiSteps.GetPasswordSendSpec | hmi_ecu/hmi.c:226-283 | one entry consumes keys up to an ENTER and sends 0x5A followed by exactly five digits, the digit keys read in order |
| HmiSteps.EntrySendsFrame | hmi_ecu/hmi.c:249-279 | five digit keys and ENTER send exactly that password framed |
| HmiSteps.ReenterOnlyRises | hmi_ecu/hmi.c:232-247 | g_password_reenter changes iff it was FALSE, and then to TRUE |
| HmiSteps.EnrollmentSendsTwoPackets | hmi_ecu/hmi.c:61-69 | from FALSE or TRUE an enrollment pass sends exactly the two packets typed, then waits for the verdict |
| HmiSteps.EnrollmentAfterChangeSendsOne | hmi_ecu/hmi.c:61-69 | with START_PHASE_TWO left in g_password_reenter an enrollment pass sends only one packet |
| HmiSteps.EnrollVerdictEffect | hmi_ecu/hmi.c:72-82 | after skipping non-verdicts: FALSE restarts the double entry with reenter FALSE; TRUE goes to the menu with flags (FALSE, TRUE); nothing is sent |
| HmiSteps.FailedAttempt | hmi_ecu/hmi.c:160-177 | a rejected password sends PASSWORD_INCORRECT and the flow opcode with the counter one up while attempts remain, and SYSTEM_LOCK_SEQUENCE on the third |
| HmiSteps.NextOnlyAppends | hmi_ecu/hmi.c:58-219 | a step only appends to what the node has sent |
| HmiSteps.StartMotorOnlyAfterTrue | hmi_ecu/hmi.c:110-122 | START_MOTOR is sent only by a door-flow step that read TRUE, and alone; the seven bytes sent just before it are START_PHASE_TWO_DOOR and a password packet |
| HmiSteps.ResetOnlyAfterTrue | hmi_ecu/hmi.c:182-196 | RESET_PASSWORD is sent only by a change-flow step that read TRUE on the packet sent right after START_PHASE_TWO_CHANGE, which leaves (phase one, reenter, phase two) at (TRUE, FALSE, FALSE) and enrollment next |
| HmiSteps.SentShapes | hmi_ecu/hmi.c:58-219 | what each kind of step sends: a framed five-digit packet, a flow opcode, or the byte the verdict decides |
| HmiSteps.DoorCycle | hmi_ecu/hmi.c:122-158 | from a cleared ticker, a door cycle sends START_MOTOR, waits one motor run to open and, after CLEAR, one to close, and leaves the flag at 1 when no overflow lands before `TIMER_deInit` |
| HmiSteps.LeftoverFlagOnNextDoor | hmi_ecu/hmi.c:131-154 | with the flag left at 1 the next opening wait takes no overflows |
| Hmi.Node.constructor | hmi_ecu/hmi.c:24-55 | the node starts in the state `HmiSteps.Initial` names |
| Hmi.Node.GetPasswordSend | hmi_ecu/hmi.c:226-283 | the state changes as `HmiSteps.GetPasswordSend` says |
| Hmi.Node.GetPressedKey | hmi_ecu/hmi.c:252 | a key read returns and consumes the next key pressed |
| Hmi.Node.ReadDigits | hmi_ecu/hmi.c:250-266 | the buffer holds the five digits `CollectDigits` collects, with the uint8 index stepping back on a non-digit |
| Hmi.Node.AwaitEnter | hmi_ecu/hmi.c:269 | keys are read up to and including the first ENTER |
| Hmi.Node.SendPassword | hmi_ecu/hmi.c:271-279 | exactly 0x5A and the five buffered digits are sent, in order |
| Hmi.Node.AwaitPasswordResponse | hmi_ecu/hmi.c:286-297 | returns the first TRUE or FALSE byte and discards everything before it |
| Hmi.Node.AwaitClear | hmi_ecu/hmi.c:137 | bytes are read up to and including the first CLEAR |
| Hmi.Node.SelectOption | hmi_ecu/hmi.c:101-105 | returns the first '+' or '-' key and discards the keys before it |
| Hmi.Node.OpenDoorCallBack | hmi_ecu/hmi.c:300-312 | one pulsing tick: flag 1 and counter 0 on reaching 7324, flag 0 on every other call |
| Hmi.Node.WaitForFlag | hmi_ecu/hmi.c:131 | dispatching Timer2's overflow ISR until the flag is up ends where `Wait` says |
| Hmi.Node.StartTimer | hmi_ecu/hmi.c:127-128 | Timer2's slot holds openDoorCallBack and its overflow interrupt is on |
| Hmi.Node.StopTimer | hmi_ecu/hmi.c:140 | Timer2's slot is NULL and its overflow interrupt off |
| Hmi.Node.BeginFlow | hmi_ecu/hmi.c:110-117 | the start of a flow pass, as `Begin` says |
| Hmi.Node.Enroll | hmi_ecu/hmi.c:63-69 | the first entry, as `EnrollStep` says |
| Hmi.Node.ReEnter | hmi_ecu/hmi.c:66-69 | the second entry, as `ReEnterStep` says |
| Hmi.Node.EnrollVerdict | hmi_ecu/hmi.c:72-83 | the enrollment verdict, as `EnrollVerdictStep` says |
| Hmi.Node.ChooseFlow | hmi_ecu/hmi.c:94-117 | the menu and the start of the chosen flow, as `MenuStep` says |
| Hmi.Node.EnterOldPassword | hmi_ecu/hmi.c:184-185 | the entry of the old password, as `EnterOldStep` says |
| Hmi.Node.Verdict | hmi_ecu/hmi.c:120-121 | a flow's verdict, as `VerdictStep` says |
| Hmi.Node.Proceed | hmi_ecu/hmi.c:190-196 | TRUE in a flow, as `OnTrue` says |
| Hmi.Node.Retry | hmi_ecu/hmi.c:198-215 | FALSE in a flow, as `OnFalse` says |
| Hmi.Node.OpenDoor | hmi_ecu/hmi.c:122-131 | START_MOTOR, then the opening wait |
| Hmi.Node.CloseDoor | hmi_ecu/hmi.c:137-158 | the rest of the door cycle, as `DoorClearStep` says |
| Hmi.Node.LiftLockDown | hmi_ecu/hmi.c:173-176 | the end of a lock-down, as `LockClearStep` says |
| Hmi.Node.Step | hmi_ecu/hmi.c:58-219 | one step of `main` keeps the invariant and agrees with `HmiSteps.Next` |
| System.ControlMoveKeepsOk | control_ecu/control.c:65-175 | a back-end move keeps both nodes' invariants |
| System.HmiMoveKeepsOk | hmi_ecu/hmi.c:58-219 | a front-end move keeps both nodes' invariants |
| System.EnrollmentEndToEnd | hmi_ecu/hmi.c:61-82 | from power-on, two typed entries go out before the back-end can answer; equal entries end with the password in the EEPROM and the nodes at the menu and the opcode read, different ones with both enrolling again and the EEPROM untouched |
| System.FirstEntrySent | hmi_ecu/hmi.c:63 | the first entry goes out, and the back-end cannot run on one packet |
| System.SecondEntrySent | hmi_ecu/hmi.c:66-72 | the second entry goes out and the front-end then waits for the verdict |
| System.EnrollmentAnswered | control_ecu/control.c:68-84 | the back-end answers the enrollment and the front-end reads the answer |
| System.VerdictSent | control_ecu/control.c:70-83 | the back-end compares the two packets, sends one verdict, and saves on a match |
| System.VerdictRead | hmi_ecu/hmi.c:72-82 | the front-end reads the verdict and moves on |
| System.ChangeLockDownDeadlocks | hmi_ecu/hmi.c:185-214 | a change-flow lock-down leads, by the only path open, to a state where neither node can ever move again |
| System.ThirdRejectionLocks | hmi_ecu/hmi.c:204-211 | the third rejection sends SYSTEM_LOCK_SEQUENCE |
| System.LockServed | control_ecu/control.c:163-166 | the back-end serves the lock-down with one CLEAR and returns to its opcode read |
| System.LockLifted | hmi_ecu/hmi.c:211-214 | after CLEAR the front-end returns to enrollment |
| System.OnePacketSent | hmi_ecu/hmi.c:61-72 | that enrollment sends only one packet before waiting for the verdict |
| System.MarkerReadAsOpcode | control_ecu/control.c:89-90 | the back-end reads the packet's 0x5A as an opcode and is stuck |
| System.StuckAgainstVerdictWait | control_ecu/control.c:90 | a stuck back-end never sends, so the front-end waits for good |

## Left out

- Interrupt concurrency: each timer interrupt is an explicit call of the ISR
  dispatch inside the busy-wait loop. Overflows that would fire during the PIR
  wait and the CLEAR waits are not modelled. The front-end's counter is
  therefore taken as 0 when the closing wait starts.
- HmiSteps.DoorCycle and HmiSteps.LeftoverFlagOnNextDoor: overflows between
  the end of a wait and the `TIMER_deInit` after it (hmi.c:131-140, 151-154)
  are not modelled. On the front-end, one such overflow runs hmi.c:308-311 and
  clears the flag again. So "the flag is left at 1" holds only when none lands
  while `LCD_clearScreen` runs.
- `_delay_ms` and all real time. The race between `UART_flush` and bytes still
  arriving (control.c:94) needs a clock. In `System`, a node runs only once
  every byte it waits for has arrived.
- Blocking reads: a step runs only once all the input its wait needs is
  present. For the two nodes this gives the same result as reading byte by byte.
- The LCD, keypad scanning, TWI, motor PWM, buzzer and GPIO drivers are not
  part of this model. Keys and PIR readings are input sequences; motor and
  buzzer commands are recorded events; the PIR driver (control_ecu/pir_sensor.c)
  is the next element of its sequence.
- Register semantics: a register is the set of its 1 bits, and TCNTn/OCRn hold
  the value written to them. The URSEL-shared UCSRC address, the 8-bit width of
  TCNT0/TCNT2 and OCR0/OCR2, and the UDRE/RXC handshake are not modelled.
  F_CPU is a parameter.
- Undefined behaviour becomes a precondition:
  - isPasswordCorrect with equal phase flags (control.c:238);
  - `UART_sendString` / `UART_receiveString` indexes past 255.
- Eeprom.Read: an address never written reads 0xFF; this is an assumption
  about the external chip.
- The front-end's `deInitAll` (hmi.c:315-323) is never called.
- The dead stores `attempts = 0` (hmi.c:175, 213) are not modelled; the
  counters are re-declared before they are read again.
- The front-end's timer driver is taken to be the same file as the
  back-end's control_ecu/timer.c.
- Headers with types and constants only: their values are in `Wire` and the
  driver enums, and nothing else of them is modelled.
