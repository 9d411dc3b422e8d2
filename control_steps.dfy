/** The back-end node (control_ecu/control.c) as a state machine over values.
    `main` is an endless nest of loops whose only waits are reads: of the serial
    link, of the PIR sensor and of the Timer2 flag. A state holds the place
    where the program waits (`pc`) and the globals, buffers and environment it
    sees; `Next` runs the program from one such place to the next, and is None
    while the input it waits for has not arrived. The class in control.dfy
    runs the same steps in place and is proved to agree with `Next`. */
module ControlSteps {
  import opened Wire
  import opened Protocol
  import opened Overflow
  import opened Eeprom

  datatype Direction = Clockwise | AntiClockwise | Stop

  /** What the node does to the world outside the link, in order: the motor,
      the buzzer, the time spent in a timed wait, and each CLEAR it sends. */
  datatype Event = Motor(direction: Direction) | Buzzer(on: bool) | Elapsed(ticks: nat) | Cleared

  /** The two functions the node hands to TIMER_setCallBack. */
  datatype Callback = OpenDoorCallBack | SystemLockDownCallBack

  /** The overflow count each callback waits for (control.c:263-282). */
  function CallbackTarget(cb: Callback): (target: U16)
    ensures 0 < target
  {
    match cb
    case OpenDoorCallBack => TARGET_OVERFLOWS
    case SystemLockDownCallBack => LOCK_DOWN_TIME
  }

  /** Where `main` waits.
      Enrolling: in the first-phase loop, for the two password packets.
      AwaitOpcode: at the top of the second-phase loop, for the flow opcode.
      AwaitCode: in a flow, for the packet to verify.
      AwaitCommand: after the verdict, for the front-end's next command.
      AwaitPirClear: door open, until the PIR sensor reads 0.
      Stuck: spinning in a loop whose condition the byte read can never leave
      (control.c:90, 100-101, 155-156). */
  datatype ControlPc = Enrolling | AwaitOpcode | AwaitCode(flow: Flow)
                     | AwaitCommand(flow: Flow) | AwaitPirClear | Stuck(read: Byte)

  /** pc, unread received bytes, bytes sent, accepted_password,
      extracted_password, first_password_phase, second_password_phase,
      (overflow_counter, g_open_door_flag), the EEPROM, the PIR readings still
      to come, and the events so far. */
  datatype ControlState = ControlState(
    pc: ControlPc, rx: seq<Byte>, tx: seq<Byte>,
    accepted: seq<Byte>, extracted: seq<Byte>,
    first: bool, second: bool, ticker: Ticker,
    eeprom: Memory, pir: seq<Byte>, events: seq<Event>)

  /** `uint8 a[5] = {-1}`: the first element is 255, the rest are zero. */
  const UNSET_PASSWORD: seq<Byte> := [0xFF, 0, 0, 0, 0]

  /** The state `main` starts its loops in (control.c:28-38). */
  function Initial(eeprom: Memory, pir: seq<Byte>): ControlState {
    ControlState(Enrolling, [], [], UNSET_PASSWORD, UNSET_PASSWORD,
                 true, false, Ticker(0, 0), eeprom, pir, [])
  }

  /** What holds wherever the node waits: the buffers are five bytes long,
      exactly one phase flag is set, and it is the first one exactly while
      the node enrolls; the overflow counter is back at 0. */
  predicate Consistent(s: ControlState) {
    && |s.accepted| == PASSWORD_SIZE && |s.extracted| == PASSWORD_SIZE
    && s.first != s.second
    && (s.first <==> s.pc == Enrolling)
    && s.ticker.counter == 0
  }

  /** isPasswordCorrect (control.c:178-238): the verdict and the state after
      it. With the first phase flag set it reads two packets and compares them,
      keeping the first on a match; otherwise it reads one packet and compares
      it with extracted_password. Either way it flushes the receiver. The C
      function has no result when both flags are equal; the node never calls it
      so (see `Consistent`). */
  function PasswordCheck(s: ControlState): (r: Option<(Byte, ControlState)>)
    requires s.first != s.second
    ensures r.Some? ==> ReadPacket(s.rx).Some?
    ensures r.Some? ==> r.value.0 == VERDICT_TRUE || r.value.0 == VERDICT_FALSE
    ensures r.Some? ==> r.value.1 == s.(rx := [], accepted := r.value.1.accepted)
    ensures r.Some? && r.value.1.accepted != s.accepted ==> s.first && r.value.0 == VERDICT_TRUE
  {
    match ReadPacket(s.rx)
    case None => None
    case Some(p1) =>
      if s.first then
        match ReadPacket(p1.rest)
        case None => None
        case Some(p2) =>
          if p1.code == p2.code then Some((VERDICT_TRUE, s.(rx := [], accepted := p1.code)))
          else Some((VERDICT_FALSE, s.(rx := [])))
      else
        Some((if p1.code == s.extracted then VERDICT_TRUE else VERDICT_FALSE, s.(rx := [])))
  }

  /** The two branches of PasswordCheck, once the packets are known. */
  lemma PasswordCheckEnrolling(s: ControlState, p1: Entry, p2: Entry)
    requires s.first && !s.second
    requires ReadPacket(s.rx) == Some(p1) && ReadPacket(p1.rest) == Some(p2)
    ensures PasswordCheck(s) == if p1.code == p2.code then Some((VERDICT_TRUE, s.(rx := [], accepted := p1.code)))
                                else Some((VERDICT_FALSE, s.(rx := [])))
  {
  }

  lemma PasswordCheckVerifying(s: ControlState, p1: Entry)
    requires !s.first && s.second
    requires ReadPacket(s.rx) == Some(p1)
    ensures PasswordCheck(s) == Some((if p1.code == s.extracted then VERDICT_TRUE else VERDICT_FALSE, s.(rx := [])))
  {
  }

  /** savePassword's effect (control.c:241-248). */
  function SavePassword(s: ControlState): ControlState {
    s.(eeprom := Store(s.eeprom, EEPROM_STARTBYTE, s.accepted))
  }

  /** extractPassword's effect (control.c:251-260). */
  function ExtractPassword(s: ControlState): ControlState {
    s.(extracted := Load(s.eeprom, EEPROM_STARTBYTE, PASSWORD_SIZE))
  }

  /** One pass of the first-phase loop (control.c:68-84): exactly one verdict
      byte goes out; on TRUE the phase flags turn to (FALSE, TRUE) and the
      second phase begins, on FALSE the node keeps enrolling with nothing
      written to the EEPROM. */
  function EnrollStep(s: ControlState): (r: Option<ControlState>)
    requires s.first != s.second
    ensures r.Some? ==>
              || (&& r.value.tx == s.tx + [VERDICT_TRUE]
                  && r.value.pc == AwaitOpcode && !r.value.first && r.value.second)
              || (&& r.value.tx == s.tx + [VERDICT_FALSE]
                  && r.value.pc == s.pc && r.value.first == s.first && r.value.eeprom == s.eeprom)
  {
    match PasswordCheck(s)
    case None => None
    case Some((verdict, s1)) =>
      var s2 := s1.(tx := s1.tx + [verdict]);
      if verdict == VERDICT_FALSE then Some(s2.(rx := []))
      else Some(SavePassword(s2).(first := false, second := true, pc := AwaitOpcode))
  }

  /** The opcode read at the top of the second phase (control.c:89-96, 148-151):
      it takes one byte, sends nothing, and enters a flow only for one of the
      two flow opcodes. */
  function OpcodeStep(s: ControlState): (r: Option<ControlState>)
    ensures r.Some? <==> s.rx != []
    ensures r.Some? ==> r.value.tx == s.tx && r.value.events == s.events && r.value.eeprom == s.eeprom
    ensures r.Some? ==> (r.value.pc.AwaitCode? <==> s.rx[0] == START_PHASE_TWO_DOOR || s.rx[0] == START_PHASE_TWO_CHANGE)
  {
    if s.rx == [] then None
    else
      var b := s.rx[0];
      var s1 := s.(rx := s.rx[1..]);
      if b == START_PHASE_TWO_DOOR then Some(ExtractPassword(s1.(rx := [])).(pc := AwaitCode(Door)))
      else if b == START_PHASE_TWO_CHANGE then Some(ExtractPassword(s1).(pc := AwaitCode(Change)))
      else Some(s1.(pc := Stuck(b)))
  }

  /** The verification of a flow (control.c:97, 152): exactly one verdict byte
      goes back, and then the node waits for the command of the same flow. */
  function CodeStep(s: ControlState, flow: Flow): (r: Option<ControlState>)
    requires s.first != s.second
    ensures r.Some? ==> r.value.pc == AwaitCommand(flow) && r.value.rx == []
    ensures r.Some? ==> |r.value.tx| == |s.tx| + 1 && r.value.tx[..|s.tx|] == s.tx
                        && (r.value.tx[|s.tx|] == VERDICT_TRUE || r.value.tx[|s.tx|] == VERDICT_FALSE)
  {
    match PasswordCheck(s)
    case None => None
    case Some((verdict, s1)) => Some(s1.(tx := s1.tx + [verdict], pc := AwaitCommand(flow)))
  }

  /** systemLockDown (control.c:285-298): buzzer on for the lock-down time, one
      CLEAR, buzzer off; the flag is left raised. Only the bytes sent, the
      ticker and the events change. */
  function LockDown(s: ControlState): (r: ControlState)
    ensures r == s.(tx := r.tx, ticker := r.ticker, events := r.events)
    ensures r.tx == s.tx + [CLEAR] && r.ticker.flag != 0
  {
    var (_, n) := Wait(LOCK_DOWN_TIME, s.ticker);
    s.(tx := s.tx + [CLEAR], ticker := Ticker(0, 1),
       events := s.events + [Buzzer(true), Elapsed(n), Cleared, Buzzer(false)])
  }

  /** deInitAll (control.c:301-309): the node is ready to enroll again; the
      password buffers, the EEPROM and everything sent are kept. */
  function DeInitAll(s: ControlState): (r: ControlState)
    ensures |s.accepted| == PASSWORD_SIZE && |s.extracted| == PASSWORD_SIZE ==> Consistent(r.(pc := Enrolling))
    ensures r.accepted == s.accepted && r.extracted == s.extracted && r.eeprom == s.eeprom && r.tx == s.tx
  {
    s.(first := true, second := false, ticker := Ticker(0, 0), rx := [])
  }

  /** The command read after a verdict (control.c:98-146, 154-171): the only
      command the node answers is a lock-down, with one CLEAR; enrollment
      restarts only on RESET_PASSWORD in the change flow, and the door opens
      only on START_MOTOR in the door flow. */
  function CommandStep(s: ControlState, flow: Flow): (r: Option<ControlState>)
    ensures r.Some? <==> s.rx != []
    ensures r.Some? ==> r.value.tx == s.tx + (if s.rx[0] == SYSTEM_LOCK_SEQUENCE then [CLEAR] else [])
    ensures r.Some? && r.value.pc == Enrolling ==> flow == Change && s.rx[0] == RESET_PASSWORD
    ensures r.Some? && r.value.pc == AwaitPirClear ==> flow == Door && s.rx[0] == START_MOTOR
  {
    if s.rx == [] then None
    else
      var b := s.rx[0];
      var s1 := s.(rx := s.rx[1..]);
      if flow == Door && b == START_MOTOR then
        var (t, n) := Wait(TARGET_OVERFLOWS, s1.ticker);
        Some(s1.(ticker := t, events := s1.events + [Motor(Clockwise), Elapsed(n), Motor(Stop)],
                 pc := AwaitPirClear))
      else if flow == Change && b == RESET_PASSWORD then Some(DeInitAll(s1).(pc := Enrolling))
      else if b == SYSTEM_LOCK_SEQUENCE then Some(LockDown(s1).(pc := AwaitOpcode))
      else if b == PASSWORD_INCORRECT then Some(s1.(pc := AwaitOpcode))
      else Some(s1.(pc := Stuck(b)))
  }

  /** The rest of the door sequence (control.c:113-137): once the PIR reads 0,
      CLEAR goes out and the door closes for one motor run. It waits exactly
      until some reading is 0, and then sends one CLEAR and nothing else. */
  function PirStep(s: ControlState): (r: Option<ControlState>)
    ensures r.Some? <==> 0 in s.pir
    ensures r.Some? ==> |r.value.pir| < |s.pir| && r.value.tx == s.tx + [CLEAR] && r.value.pc == AwaitOpcode
  {
    var k := Seek(s.pir, {0});
    if k == |s.pir| then None
    else
      var (t, n) := Wait(TARGET_OVERFLOWS, Ticker(0, 0));
      Some(s.(pir := s.pir[k + 1..], tx := s.tx + [CLEAR], ticker := Ticker(0, 0),
              events := s.events + [Cleared, Motor(AntiClockwise), Elapsed(n), Motor(Stop)],
              pc := AwaitOpcode))
  }

  /** A closing door always runs the motor for one full motor run. */
  lemma PirStepCloses(s: ControlState)
    requires Seek(s.pir, {0}) < |s.pir|
    ensures PirStep(s) == Some(s.(pir := s.pir[Seek(s.pir, {0}) + 1..], tx := s.tx + [CLEAR],
                                  ticker := Ticker(0, 0), pc := AwaitOpcode,
                                  events := s.events + [Cleared, Motor(AntiClockwise),
                                                        Elapsed(TARGET_OVERFLOWS), Motor(Stop)]))
  {
  }

  /** The node's next wait point, or None while it waits. A stalled node
      never moves again; a step only appends to what was sent; only
      enrollment writes the EEPROM. */
  function Next(s: ControlState): (r: Option<ControlState>)
    requires Consistent(s)
    ensures s.pc.Stuck? ==> r.None?
    ensures r.Some? ==> |s.tx| <= |r.value.tx| && r.value.tx[..|s.tx|] == s.tx
    ensures r.Some? && s.pc != Enrolling ==> r.value.eeprom == s.eeprom
  {
    match s.pc
    case Enrolling => EnrollStep(s)
    case AwaitOpcode => OpcodeStep(s)
    case AwaitCode(flow) => CodeStep(s, flow)
    case AwaitCommand(flow) => CommandStep(s, flow)
    case AwaitPirClear => PirStep(s)
    case Stuck(_) => None
  }

  lemma InitialIsConsistent(eeprom: Memory, pir: seq<Byte>)
    ensures Consistent(Initial(eeprom, pir))
  {
  }

  /** The phase flags follow the program: enrollment sets (FALSE, TRUE) on a
      match only, RESET_PASSWORD restores (TRUE, FALSE), nothing else touches
      them; and every wait point is reached with the counter at 0. */
  lemma NextKeepsConsistent(s: ControlState)
    requires Consistent(s) && Next(s).Some?
    ensures Consistent(Next(s).value)
  {
    match s.pc
    case Enrolling =>
      PasswordCheckKeepsLengths(s);
    case AwaitOpcode =>
    case AwaitCode(flow) =>
      PasswordCheckKeepsLengths(s);
    case AwaitCommand(flow) =>
    case AwaitPirClear =>
  }

  lemma PasswordCheckKeepsLengths(s: ControlState)
    requires Consistent(s) && PasswordCheck(s).Some?
    ensures var s1 := PasswordCheck(s).value.1;
            s1 == s.(rx := [], accepted := s1.accepted) && |s1.accepted| == PASSWORD_SIZE
  {
  }

  /** Enrollment compare: whatever stray bytes precede each start marker, the
      verdict is TRUE iff the two packets are equal; on TRUE the first becomes
      accepted_password, on FALSE accepted_password is unchanged; the receiver
      is emptied either way. */
  lemma EnrollmentVerdict(s: ControlState, junk1: seq<Byte>, c1: seq<Byte>,
                          junk2: seq<Byte>, c2: seq<Byte>, rest: seq<Byte>)
    requires s.first && !s.second
    requires START_PASSWORD !in junk1 && START_PASSWORD !in junk2
    requires |c1| == PASSWORD_SIZE && |c2| == PASSWORD_SIZE
    requires s.rx == junk1 + Frame(c1) + junk2 + Frame(c2) + rest
    ensures PasswordCheck(s).Some?
    ensures var (verdict, s1) := PasswordCheck(s).value;
            && (verdict == VERDICT_TRUE <==> c1 == c2)
            && (verdict == VERDICT_TRUE || verdict == VERDICT_FALSE)
            && s1.accepted == (if c1 == c2 then c1 else s.accepted)
            && s1 == s.(rx := [], accepted := s1.accepted)
  {
    ReadFramed(junk1, c1, junk2 + Frame(c2) + rest);
    assert s.rx == junk1 + Frame(c1) + (junk2 + Frame(c2) + rest);
    ReadFramed(junk2, c2, rest);
  }

  /** Verification compare: the verdict is TRUE iff the packet equals
      extracted_password; neither buffer changes. */
  lemma VerificationVerdict(s: ControlState, junk: seq<Byte>, c: seq<Byte>, rest: seq<Byte>)
    requires !s.first && s.second
    requires START_PASSWORD !in junk && |c| == PASSWORD_SIZE
    requires s.rx == junk + Frame(c) + rest
    ensures PasswordCheck(s).Some?
    ensures var (verdict, s1) := PasswordCheck(s).value;
            && (verdict == VERDICT_TRUE <==> c == s.extracted)
            && (verdict == VERDICT_TRUE || verdict == VERDICT_FALSE)
            && s1 == s.(rx := [])
  {
    ReadFramed(junk, c, rest);
  }

  /** A packet is not checked before all of it has arrived. */
  lemma CheckWaitsForPacket(s: ControlState, junk: seq<Byte>, c: seq<Byte>, n: nat)
    requires s.first != s.second
    requires START_PASSWORD !in junk && |c| == PASSWORD_SIZE && n < PASSWORD_SIZE
    requires s.rx == junk + Frame(c)[..n + 1]
    ensures PasswordCheck(s) == None
  {
    ReadWaitsForWholeFrame(junk, c, n);
  }

  /** A successful enrollment saves the password, and the password a flow
      later extracts is exactly the one accepted, whatever the EEPROM held. */
  lemma ExtractedIsAccepted(s: ControlState, opcode: Byte)
    requires Consistent(s) && s.pc == Enrolling
    requires EnrollStep(s).Some? && EnrollStep(s).value.pc == AwaitOpcode
    requires opcode == START_PHASE_TWO_DOOR || opcode == START_PHASE_TWO_CHANGE
    ensures var s1 := EnrollStep(s).value;
            && s1.first == false && s1.second == true
            && OpcodeStep(s1.(rx := [opcode])).value.extracted == s1.accepted
  {
    var s1 := EnrollStep(s).value;
    PasswordCheckKeepsLengths(s);
    LoadStore(s.eeprom, EEPROM_STARTBYTE, s1.accepted);
  }

  /** Only the five password cells of the EEPROM are written by a save. */
  lemma SaveTouchesOnlyPasswordCells(s: ControlState, addr: int)
    requires |s.accepted| == PASSWORD_SIZE
    requires !(EEPROM_STARTBYTE <= addr < EEPROM_STARTBYTE + PASSWORD_SIZE)
    ensures Read(SavePassword(s).eeprom, addr) == Read(s.eeprom, addr)
    ensures addr in SavePassword(s).eeprom <==> addr in s.eeprom
  {
    StoreReads(s.eeprom, EEPROM_STARTBYTE, s.accepted, addr);
  }

  /** A rejected enrollment leaves the phase flags and the stored password
      alone and keeps enrolling. */
  lemma RejectedEnrollmentRetries(s: ControlState)
    requires Consistent(s) && s.pc == Enrolling && EnrollStep(s).Some?
    requires EnrollStep(s).value.tx[|s.tx|] == VERDICT_FALSE
    ensures var s1 := EnrollStep(s).value;
            s1.pc == Enrolling && s1.first && !s1.second
            && s1.accepted == s.accepted && s1.eeprom == s.eeprom && s1.rx == []
  {
  }

  /** RESET_PASSWORD after a change-flow verdict: back to enrollment with the
      flags at (TRUE, FALSE) and the counter and flag zeroed. */
  lemma ResetRestartsEnrollment(s: ControlState)
    requires s.rx != [] && s.rx[0] == RESET_PASSWORD
    ensures var s1 := CommandStep(s, Change).value;
            && s1.pc == Enrolling && s1.first && !s1.second
            && s1.ticker == Ticker(0, 0) && s1.rx == [] && s1.tx == s.tx
  {
  }

  /** systemLockDown sends exactly one CLEAR and nothing else, keeps the phase
      flags, and leaves the flag at 1 and the counter at 0. The buzzer goes on,
      the wait runs, and only then the CLEAR goes out and the buzzer goes off:
      from a cleared ticker the wait is the whole lock-down time, with the flag
      already up it is no time at all. */
  lemma LockDownEffect(s: ControlState)
    ensures var s1 := LockDown(s);
            && s1.tx == s.tx + [CLEAR]
            && s1.first == s.first && s1.second == s.second
            && s1.ticker == Ticker(0, 1)
            && (s.ticker == Ticker(0, 0) ==>
                  s1.events == s.events + [Buzzer(true), Elapsed(LOCK_DOWN_TIME), Cleared, Buzzer(false)])
            && (s.ticker.flag != 0 ==>
                  s1.events == s.events + [Buzzer(true), Elapsed(0), Cleared, Buzzer(false)])
  {
  }

  /** The door sequence: after START_MOTOR the motor runs clockwise for one
      motor run and stops; CLEAR goes out only once the PIR reads 0, whatever
      it read before; then the motor runs anticlockwise for one motor run and
      stops. */
  lemma DoorSequence(s: ControlState, rest: seq<Byte>, busy: seq<Byte>, later: seq<Byte>)
    requires Consistent(s) && s.pc == AwaitCommand(Door) && s.ticker == Ticker(0, 0)
    requires s.rx == [START_MOTOR] + rest
    requires 0 !in busy
    requires s.pir == busy + [0] + later
    ensures Next(s).Some? && Consistent(Next(s).value) && Next(Next(s).value).Some?
    ensures var s2 := Next(Next(s).value).value;
            && s2.pc == AwaitOpcode
            && s2.events == s.events + [Motor(Clockwise), Elapsed(TARGET_OVERFLOWS), Motor(Stop),
                                        Cleared, Motor(AntiClockwise), Elapsed(TARGET_OVERFLOWS), Motor(Stop)]
            && s2.tx == s.tx + [CLEAR]
            && s2.pir == later && s2.rx == rest
  {
    NextKeepsConsistent(s);
    SeekSkips(busy, 0, later, {0});
  }

  /** While the PIR has not read 0 the door stays open and nothing is sent. */
  lemma DoorWaitsForPir(s: ControlState)
    requires Consistent(s) && s.pc == AwaitPirClear && 0 !in s.pir
    ensures Next(s) == None
  {
  }

  /** A byte other than the two flow opcodes at the top of the second phase
      stalls the node for good: it never reads again, whatever arrives later. */
  lemma UnexpectedOpcodeStalls(s: ControlState, later: seq<Byte>)
    requires Consistent(s) && s.pc == AwaitOpcode && s.rx != []
    requires s.rx[0] != START_PHASE_TWO_DOOR && s.rx[0] != START_PHASE_TWO_CHANGE
    ensures var s1 := Next(s).value;
            && s1.pc == Stuck(s.rx[0]) && Consistent(s1)
            && Next(s1.(rx := s1.rx + later)) == None
  {
  }

  /** The same for a command outside those the flow expects. */
  lemma UnexpectedCommandStalls(s: ControlState, flow: Flow, later: seq<Byte>)
    requires Consistent(s) && s.pc == AwaitCommand(flow) && s.rx != []
    requires s.rx[0] !in {SYSTEM_LOCK_SEQUENCE, PASSWORD_INCORRECT, if flow == Door then START_MOTOR else RESET_PASSWORD}
    ensures var s1 := Next(s).value;
            && s1.pc == Stuck(s.rx[0]) && Consistent(s1)
            && Next(s1.(rx := s1.rx + later)) == None
  {
  }

  /** After a lock-down the flag is left at 1, so the next door opening runs
      the motor for no time at all: the door does not open. */
  lemma LeftoverFlagAfterLockDown(s: ControlState, flow: Flow, junk: seq<Byte>, c: seq<Byte>)
    requires Consistent(s) && s.pc == AwaitCommand(flow) && s.ticker == Ticker(0, 0)
    requires s.rx == [SYSTEM_LOCK_SEQUENCE]
    requires START_PASSWORD !in junk && |c| == PASSWORD_SIZE
    ensures var s1 := Next(s).value;
            && s1.pc == AwaitOpcode && s1.ticker == Ticker(0, 1) && Consistent(s1)
            && Next(s1.(rx := [START_PHASE_TWO_DOOR])).Some?
            && var s2 := Next(s1.(rx := [START_PHASE_TWO_DOOR])).value;
            && Consistent(s2) && Next(s2.(rx := junk + Frame(c))).Some?
            && var s3 := Next(s2.(rx := junk + Frame(c))).value;
            && Consistent(s3) && s3.pc == AwaitCommand(Door) && Next(s3.(rx := [START_MOTOR])).Some?
            && var s4 := Next(s3.(rx := [START_MOTOR])).value;
            && s4.events == s3.events + [Motor(Clockwise), Elapsed(0), Motor(Stop)]
  {
    var s1 := Next(s).value;
    var s2 := Next(s1.(rx := [START_PHASE_TWO_DOOR])).value;
    VerificationVerdict(s2.(rx := junk + Frame(c)), junk, c, []);
  }
}
