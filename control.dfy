/** The back-end node (control_ecu/control.c) run in place: its globals are the
    fields of a `Node`, its password buffers are arrays, and each C function is a
    method. `Step` runs `main` from one wait point to the next and is proved to
    do what `ControlSteps.Next` says. */
module Control {
  import opened Wire
  import opened Registers
  import opened Protocol
  import opened Overflow
  import opened Eeprom
  import opened ControlSteps
  import Uart
  import Timer

  /** UART_configurations (control.c:19). */
  const UART_CONFIGURATION := Uart.Config(Uart.EightBits, Uart.NoParity, Uart.OneStopBit, 9600)
  /** TIMER_configuration (control.c:25). */
  const TIMER_CONFIGURATION := Timer.Config(0, 0, Timer.Timer2, Timer.Prescaler64, Timer.OverflowMode)

  class Node {
    /** Where `main` waits. */
    var pc: ControlPc
    const uart: Uart.Uart
    const timers: Timer.Timers<Callback>
    const accepted: array<Byte>
    const extracted: array<Byte>
    var firstPasswordPhase: bool
    var secondPasswordPhase: bool
    var overflowCounter: U16
    var openDoorFlag: Byte
    /** The external EEPROM's contents. */
    var eeprom: Memory
    /** The PIR readings still to come: non-zero while someone is in the doorway. */
    var pir: seq<Byte>
    /** What the node has done to the motor and buzzer, and when it sent CLEAR. */
    var events: seq<Event>

    function Clock(): Ticker
      reads this
    {
      Ticker(overflowCounter, openDoorFlag)
    }

    function Snapshot(): ControlState
      reads this, uart, accepted, extracted
    {
      ControlState(pc, uart.rx, uart.tx, accepted[..], extracted[..],
                   firstPasswordPhase, secondPasswordPhase, Clock(), eeprom, pir, events)
    }

    ghost predicate Valid()
      reads this, uart, accepted, extracted
    {
      accepted != extracted && Consistent(Snapshot())
    }

    /** The globals' initial values and the start of `main` (control.c:28-62):
        the UART is configured; the TWI, buzzer, motor and PIR drivers are not
        part of this model. */
    constructor (fCpu: nat, memory: Memory, readings: seq<Byte>)
      requires fCpu < 0x1_0000_0000
      ensures Valid() && Snapshot() == Initial(memory, readings)
      ensures fresh(uart) && fresh(timers) && fresh(accepted) && fresh(extracted)
    {
      pc := Enrolling;
      var u := new Uart.Uart();
      u.Init(UART_CONFIGURATION, fCpu);
      uart := u;
      timers := new Timer.Timers();
      accepted := new Byte[PASSWORD_SIZE][0xFF, 0, 0, 0, 0];
      extracted := new Byte[PASSWORD_SIZE][0xFF, 0, 0, 0, 0];
      firstPasswordPhase, secondPasswordPhase := true, false;
      overflowCounter, openDoorFlag := 0, 0;
      eeprom, pir, events := memory, readings, [];
    }

    /** The packet read of isPasswordCorrect (control.c:184-191, 196-203):
        skip to the start marker, then read five bytes into `buf`. */
    method ReceivePacket(buf: array<Byte>)
      requires buf.Length == PASSWORD_SIZE && ReadPacket(uart.rx).Some?
      modifies uart`rx, buf
      ensures buf[..] == ReadPacket(old(uart.rx)).value.code
      ensures uart.rx == ReadPacket(old(uart.rx)).value.rest
    {
      ghost var q := uart.rx;
      ghost var k := Seek(q, {START_PASSWORD});
      ghost var j := 0;
      var b := uart.ReceiveByte();
      while b != START_PASSWORD
        invariant j <= k && b == q[j] && uart.rx == q[j + 1..]
        decreases k - j
      {
        b := uart.ReceiveByte();
        j := j + 1;
      }
      for i := 0 to PASSWORD_SIZE
        invariant uart.rx == q[k + 1 + i..]
        invariant buf[..i] == q[k + 1..k + 1 + i]
      {
        buf[i] := uart.ReceiveByte();
      }
    }

    /** isPasswordCorrect (control.c:178-238): read one packet, then compare
        by the phase flags. */
    method IsPasswordCorrect() returns (verdict: Byte)
      requires accepted.Length == PASSWORD_SIZE && extracted.Length == PASSWORD_SIZE
      requires accepted != extracted
      requires firstPasswordPhase != secondPasswordPhase
      requires PasswordCheck(Snapshot()).Some?
      modifies uart`rx, accepted
      ensures PasswordCheck(old(Snapshot())) == Some((verdict, Snapshot()))
    {
      ghost var s := Snapshot();
      ghost var p1 := ReadPacket(uart.rx).value;
      var first := new Byte[PASSWORD_SIZE];
      ReceivePacket(first);
      if firstPasswordPhase && !secondPasswordPhase {
        PasswordCheckEnrolling(s, p1, ReadPacket(uart.rx).value);
        verdict := CompareEntries(first);
      } else {
        PasswordCheckVerifying(s, p1);
        verdict := CompareWithExtracted(first);
      }
    }

    /** The enrollment branch of isPasswordCorrect (control.c:193-222): read
        the second packet, compare it with the first position by position, and
        keep the first only if they match. */
    method CompareEntries(first: array<Byte>) returns (verdict: Byte)
      requires first.Length == PASSWORD_SIZE && accepted.Length == PASSWORD_SIZE
      requires first != accepted && ReadPacket(uart.rx).Some?
      modifies uart`rx, accepted
      ensures var p2 := ReadPacket(old(uart.rx)).value.code;
              && verdict == (if first[..] == p2 then VERDICT_TRUE else VERDICT_FALSE)
              && accepted[..] == (if first[..] == p2 then first[..] else old(accepted[..]))
              && uart.rx == []
    {
      var second := new Byte[PASSWORD_SIZE];
      ReceivePacket(second);
      for i := 0 to PASSWORD_SIZE
        invariant first[..i] == second[..i]
      {
        if first[i] != second[i] {
          uart.Flush();
          assert first[..][i] != second[..][i];
          return VERDICT_FALSE;
        }
      }
      assert first[..] == second[..];
      for i := 0 to PASSWORD_SIZE
        invariant accepted[..i] == first[..i]
      {
        accepted[i] := first[i];
      }
      assert accepted[..] == first[..];
      uart.Flush();
      return VERDICT_TRUE;
    }

    /** The verification branch of isPasswordCorrect (control.c:224-237):
        compare the packet with extracted_password position by position. */
    method CompareWithExtracted(first: array<Byte>) returns (verdict: Byte)
      requires first.Length == PASSWORD_SIZE && extracted.Length == PASSWORD_SIZE
      modifies uart`rx
      ensures verdict == (if first[..] == extracted[..] then VERDICT_TRUE else VERDICT_FALSE)
      ensures uart.rx == []
    {
      for i := 0 to PASSWORD_SIZE
        invariant first[..i] == extracted[..i]
      {
        if first[i] != extracted[i] {
          uart.Flush();
          assert first[..][i] != extracted[..][i];
          return VERDICT_FALSE;
        }
      }
      assert first[..] == extracted[..];
      uart.Flush();
      return VERDICT_TRUE;
    }

    /** savePassword (control.c:241-248): the five cells from EEPROM_STARTBYTE. */
    method SavePassword()
      requires accepted.Length == PASSWORD_SIZE
      modifies this`eeprom
      ensures eeprom == Store(old(eeprom), EEPROM_STARTBYTE, accepted[..])
    {
      for i := 0 to PASSWORD_SIZE
        invariant eeprom == Store(old(eeprom), EEPROM_STARTBYTE, accepted[..i])
      {
        assert accepted[..i + 1][..i] == accepted[..i];
        eeprom := eeprom[EEPROM_STARTBYTE + i := accepted[i]];
      }
      assert accepted[..PASSWORD_SIZE] == accepted[..];
    }

    /** extractPassword (control.c:251-260). */
    method ExtractPassword()
      requires extracted.Length == PASSWORD_SIZE
      modifies extracted
      ensures extracted[..] == Load(eeprom, EEPROM_STARTBYTE, PASSWORD_SIZE)
    {
      for i := 0 to PASSWORD_SIZE
        invariant extracted[..i] == Load(eeprom, EEPROM_STARTBYTE, i)
      {
        var eepromValue := Read(eeprom, EEPROM_STARTBYTE + i);
        extracted[i] := eepromValue;
        assert extracted[..i + 1] == extracted[..i] + [eepromValue];
      }
    }

    /** openDoorCallBack (control.c:263-271). */
    method OpenDoorCallBack()
      modifies this`overflowCounter, this`openDoorFlag
      ensures Clock() == Tick(Latch, TARGET_OVERFLOWS, old(Clock()))
    {
      overflowCounter := Inc16(overflowCounter);
      if overflowCounter == TARGET_OVERFLOWS {
        openDoorFlag := 1;
        overflowCounter := 0;
      }
    }

    /** systemLockDownCallBack (control.c:274-282). */
    method SystemLockDownCallBack()
      modifies this`overflowCounter, this`openDoorFlag
      ensures Clock() == Tick(Latch, LOCK_DOWN_TIME, old(Clock()))
    {
      overflowCounter := Inc16(overflowCounter);
      if overflowCounter == LOCK_DOWN_TIME {
        openDoorFlag := 1;
        overflowCounter := 0;
      }
    }

    /** `while (g_open_door_flag == 0) {}` with Timer2's overflow interrupt
        enabled: each pass is one overflow, whose ISR calls the callback in
        Timer2's slot. Returns the number of overflows waited. */
    method WaitForFlag() returns (ticks: nat)
      requires timers.Slot(Timer.Timer2).Some? && IsSet(timers.timsk, Timer.TOIE2)
      modifies this`overflowCounter, this`openDoorFlag
      ensures (Clock(), ticks) == Wait(CallbackTarget(timers.Slot(Timer.Timer2).value), old(Clock()))
    {
      ghost var t0 := Clock();
      ghost var target := CallbackTarget(timers.Slot(Timer.Timer2).value);
      WaitIsFirstRaise(Latch, target, t0);
      ticks := 0;
      while openDoorFlag == 0
        invariant Clock() == Run(Latch, target, t0, ticks)
        invariant ticks <= Wait(target, t0).1
        decreases Wait(target, t0).1 - ticks
      {
        var callback := timers.Isr(Timer.Timer2Ovf);
        if callback == Some(Callback.OpenDoorCallBack) {
          OpenDoorCallBack();
        } else if callback == Some(Callback.SystemLockDownCallBack) {
          SystemLockDownCallBack();
        }
        ticks := ticks + 1;
      }
    }

    /** `TIMER_init(&TIMER_configuration); TIMER_setCallBack(cb, TIMER_TIMER2);`
        (control.c:106-107, 124-125, 287-288): Timer2 counts overflows and
        its interrupt calls `cb`. */
    method StartTimer(cb: Callback)
      modifies timers
      ensures timers.Slot(Timer.Timer2) == Some(cb) && IsSet(timers.timsk, Timer.TOIE2)
    {
      timers.Init(TIMER_CONFIGURATION);
      timers.SetCallBack(cb, Timer.Timer2);
    }

    /** `TIMER_deInit(TIMER_TIMER2)` (control.c:120, 134, 297): Timer2 stops
        and its slot is emptied. */
    method StopTimer()
      modifies timers
      ensures timers.Slot(Timer.Timer2).None? && !IsSet(timers.timsk, Timer.TOIE2)
    {
      timers.DeInit(Timer.Timer2);
    }

    /** systemLockDown (control.c:285-298). */
    method SystemLockDown()
      modifies this`overflowCounter, this`openDoorFlag, this`events, uart`tx, timers
      ensures Snapshot() == LockDown(old(Snapshot()))
    {
      StartTimer(Callback.SystemLockDownCallBack);
      events := events + [Buzzer(true)];
      var ticks := WaitForFlag();
      events := events + [Elapsed(ticks)];
      uart.SendByte(CLEAR);
      events := events + [Cleared];
      openDoorFlag := 1;
      overflowCounter := 0;
      events := events + [Buzzer(false)];
      StopTimer();
    }

    /** deInitAll (control.c:301-309). */
    method DeInitAll()
      modifies this`firstPasswordPhase, this`secondPasswordPhase, this`overflowCounter,
               this`openDoorFlag, uart`rx
      ensures Snapshot() == ControlSteps.DeInitAll(old(Snapshot()))
    {
      firstPasswordPhase := true;
      secondPasswordPhase := false;
      overflowCounter := 0;
      openDoorFlag := 0;
      uart.Flush();
    }

    /** PIR_getState: the next reading. */
    method PirState() returns (state: Byte)
      requires pir != []
      modifies this`pir
      ensures state == old(pir)[0] && pir == old(pir)[1..]
    {
      state := pir[0];
      pir := pir[1..];
    }

    /** `while (PIR_getState());` (control.c:116): reads up to and including
        the first 0. */
    method WaitWhileOccupied()
      requires Seek(pir, {0}) < |pir|
      modifies this`pir
      ensures pir == old(pir)[Seek(old(pir), {0}) + 1..]
    {
      ghost var readings := pir;
      ghost var k := Seek(readings, {0});
      ghost var j := 0;
      var state := PirState();
      while state != 0
        invariant j <= k && state == readings[j] && pir == readings[j + 1..]
        decreases k - j
      {
        state := PirState();
        j := j + 1;
      }
    }

    /** One pass of the first-phase loop (control.c:68-84). */
    method Enroll()
      requires Valid() && pc == Enrolling && EnrollStep(Snapshot()).Some?
      modifies this`firstPasswordPhase, this`secondPasswordPhase, this`eeprom, this`pc,
               uart`rx, uart`tx, accepted
      ensures Snapshot() == EnrollStep(old(Snapshot())).value
    {
      var passwordCorrect := IsPasswordCorrect();
      uart.SendByte(passwordCorrect);
      if passwordCorrect == VERDICT_FALSE {
        uart.Flush();
        return;
      }
      SavePassword();
      firstPasswordPhase := false;
      secondPasswordPhase := true;
      pc := AwaitOpcode;
    }

    /** The opcode read opening the second phase (control.c:89-96, 148-151). */
    method ReadOpcode()
      requires Valid() && pc == AwaitOpcode && uart.rx != []
      modifies this`pc, uart`rx, extracted
      ensures Snapshot() == OpcodeStep(old(Snapshot())).value
    {
      var phaseTwo := uart.ReceiveByte();
      if phaseTwo != START_PHASE_TWO_DOOR && phaseTwo != START_PHASE_TWO_CHANGE {
        pc := Stuck(phaseTwo);
        return;
      }
      if phaseTwo == START_PHASE_TWO_DOOR {
        uart.Flush();
        ExtractPassword();
        pc := AwaitCode(Door);
      } else {
        ExtractPassword();
        pc := AwaitCode(Change);
      }
    }

    /** The verification inside a flow (control.c:97, 152). */
    method VerifyCode(flow: Flow)
      requires Valid() && pc == AwaitCode(flow) && CodeStep(Snapshot(), flow).Some?
      modifies this`pc, uart`rx, uart`tx, accepted
      ensures Snapshot() == CodeStep(old(Snapshot()), flow).value
    {
      var verdict := IsPasswordCorrect();
      uart.SendByte(verdict);
      pc := AwaitCommand(flow);
    }

    /** The door opening (control.c:104-113), up to the PIR wait. */
    method OpenDoor()
      modifies this`overflowCounter, this`openDoorFlag, this`events, this`pc, timers
      ensures var (t, n) := Wait(TARGET_OVERFLOWS, old(Clock()));
              && Clock() == t && pc == AwaitPirClear
              && events == old(events) + [Motor(Clockwise), Elapsed(n), Motor(Stop)]
    {
      StartTimer(Callback.OpenDoorCallBack);
      events := events + [Motor(Clockwise)];
      var ticks := WaitForFlag();
      events := events + [Elapsed(ticks), Motor(Stop)];
      pc := AwaitPirClear;
    }

    /** The command read after a verdict (control.c:98-146, 154-171). */
    method Command(flow: Flow)
      requires Valid() && pc == AwaitCommand(flow) && uart.rx != []
      modifies this`pc, this`firstPasswordPhase, this`secondPasswordPhase, this`overflowCounter,
               this`openDoorFlag, this`events, uart`rx, uart`tx, timers
      ensures Snapshot() == CommandStep(old(Snapshot()), flow).value
    {
      var command := uart.ReceiveByte();
      if flow == Door && command == START_MOTOR {
        OpenDoor();
      } else if flow == Change && command == RESET_PASSWORD {
        DeInitAll();
        pc := Enrolling;
      } else if command == SYSTEM_LOCK_SEQUENCE {
        SystemLockDown();
        pc := AwaitOpcode;
      } else if command == PASSWORD_INCORRECT {
        pc := AwaitOpcode;
      } else {
        pc := Stuck(command);
      }
    }

    /** The door closing (control.c:115-137). */
    method CloseDoor()
      requires Valid() && pc == AwaitPirClear && PirStep(Snapshot()).Some?
      modifies this`pc, this`overflowCounter, this`openDoorFlag, this`events, this`pir,
               uart`tx, timers
      ensures Snapshot() == PirStep(old(Snapshot())).value
    {
      PirStepCloses(Snapshot());
      WaitWhileOccupied();
      uart.SendByte(CLEAR);
      events := events + [Cleared];
      StopTimer();
      openDoorFlag := 0;
      overflowCounter := 0;
      RunMotorBack();
      pc := AwaitOpcode;
    }

    /** The closing motor run (control.c:123-137), from a cleared counter and
        flag: one full motor run anticlockwise, then counter and flag cleared. */
    method RunMotorBack()
      requires Clock() == Ticker(0, 0)
      modifies this`overflowCounter, this`openDoorFlag, this`events, timers
      ensures Clock() == Ticker(0, 0)
      ensures events == old(events) + [Motor(AntiClockwise), Elapsed(TARGET_OVERFLOWS), Motor(Stop)]
    {
      StartTimer(Callback.OpenDoorCallBack);
      events := events + [Motor(AntiClockwise)];
      var ticks := WaitForFlag();
      events := events + [Elapsed(ticks), Motor(Stop)];
      StopTimer();
      openDoorFlag := 0;
      overflowCounter := 0;
    }

    /** Runs `main` from the wait point it is at to the next one. It may only be
        called once the input that wait needs has arrived. */
    method Step()
      requires Valid() && Next(Snapshot()).Some?
      modifies this, uart`rx, uart`tx, timers, accepted, extracted
      ensures Valid() && Snapshot() == Next(old(Snapshot())).value
    {
      NextKeepsConsistent(Snapshot());
      match pc {
        case Enrolling => Enroll();
        case AwaitOpcode => ReadOpcode();
        case AwaitCode(flow) => VerifyCode(flow);
        case AwaitCommand(flow) => Command(flow);
        case AwaitPirClear => CloseDoor();
      }
    }
  }
}
