/** The front-end node (hmi_ecu/hmi.c) run in place: its globals are the fields
    of a `Node`, the password it collects is an array, and each C function is a
    method. `Step` runs `main` from one wait point to the next and is proved to
    do what `HmiSteps.Next` says. */
module Hmi {
  import opened Wire
  import opened Registers
  import opened Protocol
  import opened Overflow
  import opened HmiSteps
  import Uart
  import Timer

  /** UART_configurations (hmi.c:18). */
  const UART_CONFIGURATION := Uart.Config(Uart.EightBits, Uart.NoParity, Uart.OneStopBit, 9600)
  /** TIMER_configuration (hmi.c:21). */
  const TIMER_CONFIGURATION := Timer.Config(0, 0, Timer.Timer2, Timer.Prescaler64, Timer.OverflowMode)

  class Node {
    /** Where `main` waits, with its attempt counter. */
    var pc: HmiPc
    const uart: Uart.Uart
    const timers: Timer.Timers<Callback>
    var phaseOne: bool
    var reenter: Byte
    var phaseTwo: bool
    var overflowCounter: U16
    var openDoorFlag: Byte
    /** The keys still to be pressed, in order. */
    var keys: seq<Byte>
    /** The overflows each timed wait took. */
    var waits: seq<nat>

    function Clock(): Ticker
      reads this
    {
      Ticker(overflowCounter, openDoorFlag)
    }

    function Snapshot(): HmiState
      reads this, uart
    {
      HmiState(pc, uart.rx, uart.tx, keys, phaseOne, reenter, phaseTwo, Clock(), waits)
    }

    ghost predicate Valid()
      reads this, uart
    {
      Consistent(Snapshot())
    }

    /** The globals' initial values and the start of `main` (hmi.c:24-55): the
        UART is configured; the LCD is not part of this model. */
    constructor (fCpu: nat, pressed: seq<Byte>)
      requires fCpu < 0x1_0000_0000
      ensures Valid() && Snapshot() == Initial(pressed)
      ensures fresh(uart) && fresh(timers)
    {
      pc := Enrolling;
      var u := new Uart.Uart();
      u.Init(UART_CONFIGURATION, fCpu);
      uart := u;
      timers := new Timer.Timers();
      phaseOne, reenter, phaseTwo := true, FALSE, false;
      overflowCounter, openDoorFlag := 0, 0;
      keys, waits := pressed, [];
    }

    /** KEYPAD_getPressedKey: the next key. */
    method GetPressedKey() returns (key: Byte)
      requires keys != []
      modifies this`keys
      ensures key == old(keys)[0] && keys == old(keys)[1..]
    {
      key := keys[0];
      keys := keys[1..];
    }

    /** getPasswordSend (hmi.c:226-283). */
    method GetPasswordSend()
      requires CollectEntry(keys).Some?
      modifies this`keys, this`reenter, uart`tx
      ensures Snapshot() == HmiSteps.GetPasswordSend(old(Snapshot())).value
    {
      if reenter == FALSE {
        reenter := TRUE;
      }
      var userPassword := new Byte[PASSWORD_SIZE];
      ReadDigits(userPassword);
      AwaitEnter();
      SendPassword(userPassword);
    }

    /** The digit loop of getPasswordSend (hmi.c:250-266): a key outside 0..9
        is stored, then overwritten by the next, as the uint8 index steps back
        and forward again. */
    method ReadDigits(userPassword: array<Byte>)
      requires userPassword.Length == PASSWORD_SIZE && CollectDigits(keys, PASSWORD_SIZE).Some?
      modifies this`keys, userPassword
      ensures CollectDigits(old(keys), PASSWORD_SIZE) == Some(Entry(userPassword[..], keys))
    {
      ghost var pressed := keys;
      var keyInputIdx: Byte := 0;
      JoinNothing(CollectDigits(keys, PASSWORD_SIZE));
      while keyInputIdx < PASSWORD_SIZE
        invariant keyInputIdx <= PASSWORD_SIZE
        invariant CollectDigits(pressed, PASSWORD_SIZE)
                  == Join(userPassword[..keyInputIdx], CollectDigits(keys, PASSWORD_SIZE - keyInputIdx))
        decreases |keys|
      {
        ghost var before := userPassword[..keyInputIdx];
        var key := GetPressedKey();
        userPassword[keyInputIdx] := key;
        if !IsDigit(userPassword[keyInputIdx]) {
          keyInputIdx := Dec8(keyInputIdx);
        } else {
          JoinJoin(before, [key], CollectDigits(keys, PASSWORD_SIZE - keyInputIdx - 1));
          assert userPassword[..keyInputIdx + 1] == before + [key];
        }
        keyInputIdx := Inc8(keyInputIdx);
      }
      assert userPassword[..] == userPassword[..keyInputIdx] && userPassword[..] + [] == userPassword[..];
    }

    /** `while (KEYPAD_getPressedKey() != KEYPAD_ENTER_BUTTON);` (hmi.c:269). */
    method AwaitEnter()
      requires Seek(keys, {KEYPAD_ENTER_BUTTON}) < |keys|
      modifies this`keys
      ensures keys == old(keys)[Seek(old(keys), {KEYPAD_ENTER_BUTTON}) + 1..]
    {
      ghost var pressed := keys;
      ghost var k := Seek(pressed, {KEYPAD_ENTER_BUTTON});
      ghost var j := 0;
      var key := GetPressedKey();
      while key != KEYPAD_ENTER_BUTTON
        invariant j <= k && key == pressed[j] && keys == pressed[j + 1..]
        decreases k - j
      {
        key := GetPressedKey();
        j := j + 1;
      }
    }

    /** The transmission of getPasswordSend (hmi.c:272-279). */
    method SendPassword(userPassword: array<Byte>)
      requires userPassword.Length == PASSWORD_SIZE
      modifies uart`tx
      ensures uart.tx == old(uart.tx) + Frame(userPassword[..])
    {
      uart.SendByte(START_PASSWORD);
      for loopIdx := 0 to PASSWORD_SIZE
        invariant uart.tx == old(uart.tx) + [START_PASSWORD] + userPassword[..loopIdx]
      {
        uart.SendByte(userPassword[loopIdx]);
      }
      assert userPassword[..PASSWORD_SIZE] == userPassword[..];
    }

    /** awaitPasswordResponse (hmi.c:286-297): bytes other than the two
        verdicts are read and dropped. */
    method AwaitPasswordResponse() returns (response: Byte)
      requires Seek(uart.rx, Verdicts) < |uart.rx|
      modifies uart`rx
      ensures response == old(uart.rx)[Seek(old(uart.rx), Verdicts)]
      ensures uart.rx == old(uart.rx)[Seek(old(uart.rx), Verdicts) + 1..]
    {
      ghost var q := uart.rx;
      ghost var k := Seek(q, Verdicts);
      ghost var j := 0;
      response := 0;
      while response != VERDICT_TRUE && response != VERDICT_FALSE
        invariant j <= k + 1 && uart.rx == q[j..]
        invariant j == 0 ==> response == 0
        invariant j > 0 ==> response == q[j - 1]
        decreases k + 1 - j
      {
        response := uart.ReceiveByte();
        j := j + 1;
      }
    }

    /** `while (UART_recieveByte() != CLEAR);` (hmi.c:137, 174, 212). */
    method AwaitClear()
      requires Seek(uart.rx, {CLEAR}) < |uart.rx|
      modifies uart`rx
      ensures uart.rx == old(uart.rx)[Seek(old(uart.rx), {CLEAR}) + 1..]
    {
      ghost var q := uart.rx;
      ghost var k := Seek(q, {CLEAR});
      ghost var j := 0;
      var b := uart.ReceiveByte();
      while b != CLEAR
        invariant j <= k && b == q[j] && uart.rx == q[j + 1..]
        decreases k - j
      {
        b := uart.ReceiveByte();
        j := j + 1;
      }
    }

    /** The menu's key loop (hmi.c:101-105): keys other than '+' and '-' are
        read and dropped. */
    method SelectOption() returns (keyResponse: Byte)
      requires Seek(keys, {KEY_PLUS, KEY_MINUS}) < |keys|
      modifies this`keys
      ensures keyResponse == old(keys)[Seek(old(keys), {KEY_PLUS, KEY_MINUS})]
      ensures keys == old(keys)[Seek(old(keys), {KEY_PLUS, KEY_MINUS}) + 1..]
    {
      ghost var q := keys;
      ghost var k := Seek(q, {KEY_PLUS, KEY_MINUS});
      ghost var j := 0;
      keyResponse := 0;
      while keyResponse != KEY_PLUS && keyResponse != KEY_MINUS
        invariant j <= k + 1 && keys == q[j..]
        invariant j == 0 ==> keyResponse == 0
        invariant j > 0 ==> keyResponse == q[j - 1]
        decreases k + 1 - j
      {
        keyResponse := GetPressedKey();
        j := j + 1;
      }
    }

    /** openDoorCallBack (hmi.c:300-312). */
    method OpenDoorCallBack()
      modifies this`overflowCounter, this`openDoorFlag
      ensures Clock() == Tick(Pulse, TARGET_OVERFLOWS, old(Clock()))
    {
      overflowCounter := Inc16(overflowCounter);
      if overflowCounter == TARGET_OVERFLOWS {
        openDoorFlag := 1;
        overflowCounter := 0;
      } else {
        openDoorFlag := 0;
      }
    }

    /** `while (g_open_door_flag == 0);` (hmi.c:131, 151) with Timer2's
        overflow interrupt calling openDoorCallBack. Returns the number of
        overflows waited. */
    method WaitForFlag() returns (ticks: nat)
      requires timers.Slot(Timer.Timer2) == Some(Callback.OpenDoorCallBack) && IsSet(timers.timsk, Timer.TOIE2)
      modifies this`overflowCounter, this`openDoorFlag
      ensures (Clock(), ticks) == Wait(TARGET_OVERFLOWS, old(Clock()))
    {
      ghost var t0 := Clock();
      WaitIsFirstRaise(Pulse, TARGET_OVERFLOWS, t0);
      ticks := 0;
      while openDoorFlag == 0
        invariant Clock() == Run(Pulse, TARGET_OVERFLOWS, t0, ticks)
        invariant ticks <= Wait(TARGET_OVERFLOWS, t0).1
        decreases Wait(TARGET_OVERFLOWS, t0).1 - ticks
      {
        var callback := timers.Isr(Timer.Timer2Ovf);
        if callback.Some? {
          OpenDoorCallBack();
        }
        ticks := ticks + 1;
      }
    }

    /** `TIMER_init(&TIMER_configuration); TIMER_setCallBack(openDoorCallBack,
        TIMER_TIMER2);` (hmi.c:127-128, 144-145). */
    method StartTimer()
      modifies timers
      ensures timers.Slot(Timer.Timer2) == Some(Callback.OpenDoorCallBack) && IsSet(timers.timsk, Timer.TOIE2)
    {
      timers.Init(TIMER_CONFIGURATION);
      timers.SetCallBack(Callback.OpenDoorCallBack, Timer.Timer2);
    }

    /** `TIMER_deInit(TIMER_TIMER2)` (hmi.c:140, 154). */
    method StopTimer()
      modifies timers
      ensures timers.Slot(Timer.Timer2).None? && !IsSet(timers.timsk, Timer.TOIE2)
    {
      timers.DeInit(Timer.Timer2);
    }

    /** The start of a pass of a flow (hmi.c:110-118, 179-184), up to the
        entry of the old password. */
    method BeginFlow(flow: Flow, attempts: nat)
      modifies this`reenter, this`pc, uart`rx, uart`tx
      ensures Snapshot() == Begin(old(Snapshot()), flow, attempts)
    {
      if flow == Door {
        uart.Flush();
        uart.SendByte(START_PHASE_TWO_DOOR);
      } else {
        uart.SendByte(START_PHASE_TWO_CHANGE);
      }
      reenter := START_PHASE_TWO;
      pc := EnterOld(flow, attempts);
    }

    /** The first entry of a first-phase pass (hmi.c:63-69). */
    method Enroll()
      requires Valid() && pc == Enrolling && EnrollStep(Snapshot()).Some?
      modifies this`keys, this`reenter, this`pc, uart`tx
      ensures Snapshot() == EnrollStep(old(Snapshot())).value
    {
      GetPasswordSend();
      if reenter == TRUE {
        pc := ReEntering;
      } else {
        pc := AwaitEnrollVerdict;
      }
    }

    /** The second entry (hmi.c:66-69). */
    method ReEnter()
      requires Valid() && pc == ReEntering && ReEnterStep(Snapshot()).Some?
      modifies this`keys, this`reenter, this`pc, uart`tx
      ensures Snapshot() == ReEnterStep(old(Snapshot())).value
    {
      GetPasswordSend();
      pc := AwaitEnrollVerdict;
    }

    /** The enrollment verdict (hmi.c:72-83). */
    method EnrollVerdict()
      requires Valid() && pc == AwaitEnrollVerdict && EnrollVerdictStep(Snapshot()).Some?
      modifies this`phaseOne, this`reenter, this`phaseTwo, this`pc, uart`rx
      ensures Snapshot() == EnrollVerdictStep(old(Snapshot())).value
    {
      var passwordResponse := AwaitPasswordResponse();
      if passwordResponse == VERDICT_FALSE {
        phaseOne := true;
        reenter := FALSE;
      } else if passwordResponse == VERDICT_TRUE {
        phaseOne := false;
        phaseTwo := true;
      }
      pc := if phaseOne then Enrolling else Menu;
    }

    /** The menu (hmi.c:94-107) and the start of the chosen flow. */
    method ChooseFlow()
      requires Valid() && pc == Menu && MenuStep(Snapshot()).Some?
      modifies this`keys, this`reenter, this`pc, uart`rx, uart`tx
      ensures Snapshot() == MenuStep(old(Snapshot())).value
    {
      var keyResponse := SelectOption();
      BeginFlow(if keyResponse == KEY_PLUS then Door else Change, 1);
    }

    /** The entry of the old password (hmi.c:118, 184-185). */
    method EnterOldPassword(flow: Flow, attempts: nat)
      requires Valid() && pc == EnterOld(flow, attempts) && EnterOldStep(Snapshot(), flow, attempts).Some?
      modifies this`keys, this`reenter, this`phaseOne, this`pc, uart`tx
      ensures Snapshot() == EnterOldStep(old(Snapshot()), flow, attempts).value
    {
      GetPasswordSend();
      if flow == Change {
        phaseOne := true;
      }
      pc := AwaitVerdict(flow, attempts);
    }

    /** The verdict inside a flow (hmi.c:120-121, 188). */
    method Verdict(flow: Flow, attempts: nat)
      requires Valid() && pc == AwaitVerdict(flow, attempts) && VerdictStep(Snapshot(), flow, attempts).Some?
      modifies this`phaseOne, this`reenter, this`phaseTwo, this`pc, this`overflowCounter,
               this`openDoorFlag, this`waits, uart`rx, uart`tx, timers
      ensures Snapshot() == VerdictStep(old(Snapshot()), flow, attempts).value
    {
      var response := AwaitPasswordResponse();
      if response == VERDICT_TRUE {
        Proceed(flow);
      } else {
        Retry(flow, attempts);
      }
    }

    /** TRUE in a flow (hmi.c:122-158, 190-196). */
    method Proceed(flow: Flow)
      modifies this`phaseOne, this`reenter, this`phaseTwo, this`pc, this`overflowCounter,
               this`openDoorFlag, this`waits, uart`tx, timers
      ensures Snapshot() == OnTrue(old(Snapshot()), flow)
    {
      if flow == Door {
        OpenDoor();
      } else {
        uart.SendByte(RESET_PASSWORD);
        phaseOne := true;
        reenter := FALSE;
        phaseTwo := false;
        pc := if phaseOne then Enrolling else Menu;
      }
    }

    /** FALSE in a flow (hmi.c:160-177, 198-215). */
    method Retry(flow: Flow, attempts: nat)
      modifies this`reenter, this`pc, uart`rx, uart`tx
      ensures Snapshot() == OnFalse(old(Snapshot()), flow, attempts)
    {
      if attempts < MAXIMUM_PASSWORD_ATTEMPTS {
        uart.SendByte(PASSWORD_INCORRECT);
        BeginFlow(flow, attempts + 1);
      } else {
        uart.SendByte(SYSTEM_LOCK_SEQUENCE);
        pc := AwaitLockClear;
      }
    }

    /** The door opening (hmi.c:122-131): START_MOTOR, then the opening wait. */
    method OpenDoor()
      modifies this`pc, this`overflowCounter, this`openDoorFlag, this`waits, uart`tx, timers
      ensures var (t, n) := Wait(TARGET_OVERFLOWS, old(Clock()));
              && Clock() == t && waits == old(waits) + [n] && pc == AwaitDoorClear
              && uart.tx == old(uart.tx) + [START_MOTOR]
    {
      uart.SendByte(START_MOTOR);
      StartTimer();
      var ticks := WaitForFlag();
      waits := waits + [ticks];
      pc := AwaitDoorClear;
    }

    /** The door closing (hmi.c:137-158). */
    method CloseDoor()
      requires Valid() && pc == AwaitDoorClear && DoorClearStep(Snapshot()).Some?
      modifies this`pc, this`overflowCounter, this`openDoorFlag, this`waits, uart`rx, timers
      ensures Snapshot() == DoorClearStep(old(Snapshot())).value
    {
      AwaitClear();
      StopTimer();
      openDoorFlag := 0;
      StartTimer();
      var ticks := WaitForFlag();
      waits := waits + [ticks];
      StopTimer();
      pc := if phaseOne then Enrolling else Menu;
    }

    /** The end of a lock-down (hmi.c:173-176, 211-214). */
    method LiftLockDown()
      requires Valid() && pc == AwaitLockClear && LockClearStep(Snapshot()).Some?
      modifies this`pc, uart`rx
      ensures Snapshot() == LockClearStep(old(Snapshot())).value
    {
      AwaitClear();
      pc := if phaseOne then Enrolling else Menu;
    }

    /** Runs `main` from the wait point it is at to the next one. It may only be
        called once the keys or bytes that wait needs have arrived. */
    method Step()
      requires Valid() && Next(Snapshot()).Some?
      modifies this, uart`rx, uart`tx, timers
      ensures Valid() && Snapshot() == Next(old(Snapshot())).value
    {
      NextKeepsConsistent(Snapshot());
      match pc {
        case Enrolling => Enroll();
        case ReEntering => ReEnter();
        case AwaitEnrollVerdict => EnrollVerdict();
        case Menu => ChooseFlow();
        case EnterOld(flow, attempts) => EnterOldPassword(flow, attempts);
        case AwaitVerdict(flow, attempts) => Verdict(flow, attempts);
        case AwaitDoorClear => CloseDoor();
        case AwaitLockClear => LiftLockDown();
      }
    }
  }
}
