/** The two nodes on one serial link. Each runs when the input it waits for
    has arrived; whatever a node sends is appended, in order and without loss,
    to what the other has still to read. */
module System {
  import opened Wire
  import opened Protocol
  import opened Overflow
  import opened Eeprom
  import C = ControlSteps
  import H = HmiSteps

  datatype Link = Link(control: C.ControlState, hmi: H.HmiState)

  predicate Ok(s: Link) {
    C.Consistent(s.control) && H.Consistent(s.hmi)
  }

  /** What a node appended to its transmit log in one step. */
  function Appended(before: seq<Byte>, after: seq<Byte>): seq<Byte> {
    if |before| <= |after| then after[|before|..] else []
  }

  /** The back-end runs to its next wait point; what it sends reaches the
      front-end's receiver. None: it is waiting. */
  function ControlMove(s: Link): Option<Link>
    requires Ok(s)
  {
    match C.Next(s.control)
    case None => None
    case Some(c) => Some(Link(c, s.hmi.(rx := s.hmi.rx + Appended(s.control.tx, c.tx))))
  }

  /** The same for the front-end. */
  function HmiMove(s: Link): Option<Link>
    requires Ok(s)
  {
    match H.Next(s.hmi)
    case None => None
    case Some(h) => Some(Link(s.control.(rx := s.control.rx + Appended(s.hmi.tx, h.tx)), h))
  }

  /** Neither node can run: the system has stopped. */
  predicate Dead(s: Link) {
    Ok(s) && ControlMove(s).None? && HmiMove(s).None?
  }

  lemma ControlMoveKeepsOk(s: Link)
    requires Ok(s) && ControlMove(s).Some?
    ensures Ok(ControlMove(s).value)
  {
    C.NextKeepsConsistent(s.control);
  }

  lemma HmiMoveKeepsOk(s: Link)
    requires Ok(s) && HmiMove(s).Some?
    ensures Ok(HmiMove(s).value)
  {
    H.NextKeepsConsistent(s.hmi);
  }

  /** Both nodes just started, with the keypad entries to come. */
  function Start(eeprom: Memory, pir: seq<Byte>, keys: seq<Byte>): Link {
    Link(C.Initial(eeprom, pir), H.Initial(keys))
  }

  /** Enrollment end to end: the user types a password twice. The front-end
      sends both packets before the back-end can answer (with only the first
      it cannot run); then the back-end answers and the front-end reads the
      answer. With equal entries the password is in the EEPROM and the nodes
      are at the menu and the opcode read; with different ones both enroll
      again and the EEPROM is untouched. */
  lemma EnrollmentEndToEnd(eeprom: Memory, pir: seq<Byte>, c1: seq<Byte>, c2: seq<Byte>, rest: seq<Byte>)
    requires |c1| == PASSWORD_SIZE && forall i :: 0 <= i < |c1| ==> IsDigit(c1[i])
    requires |c2| == PASSWORD_SIZE && forall i :: 0 <= i < |c2| ==> IsDigit(c2[i])
    ensures var s0 := Start(eeprom, pir, c1 + [KEYPAD_ENTER_BUTTON] + c2 + [KEYPAD_ENTER_BUTTON] + rest);
            && Ok(s0) && ControlMove(s0).None? && HmiMove(s0).Some?
            && var s1 := HmiMove(s0).value;
            && Ok(s1) && ControlMove(s1).None? && HmiMove(s1).Some?
            && var s2 := HmiMove(s1).value;
            && Ok(s2) && HmiMove(s2).None? && ControlMove(s2).Some?
            && var s3 := ControlMove(s2).value;
            && Ok(s3) && HmiMove(s3).Some?
            && var s4 := HmiMove(s3).value;
            && s4.hmi.keys == rest
            && (c1 == c2 ==>
                  && s4.control.pc == C.AwaitOpcode && s4.hmi.pc == H.Menu
                  && Load(s4.control.eeprom, EEPROM_STARTBYTE, PASSWORD_SIZE) == c1)
            && (c1 != c2 ==>
                  && s4.control.pc == C.Enrolling && s4.hmi.pc == H.Enrolling
                  && s4.control.eeprom == eeprom && s4.hmi.reenter == FALSE)
  {
    var s0 := Start(eeprom, pir, c1 + [KEYPAD_ENTER_BUTTON] + c2 + [KEYPAD_ENTER_BUTTON] + rest);
    H.InitialIsConsistent(s0.hmi.keys);
    assert s0.hmi.keys == c1 + [KEYPAD_ENTER_BUTTON] + (c2 + [KEYPAD_ENTER_BUTTON] + rest);
    FirstEntrySent(s0, c1, c2 + [KEYPAD_ENTER_BUTTON] + rest);
    var s1 := HmiMove(s0).value;
    HmiMoveKeepsOk(s0);
    SecondEntrySent(s1, c1, c2, rest);
    var s2 := HmiMove(s1).value;
    HmiMoveKeepsOk(s1);
    EnrollmentAnswered(s2, c1, c2);
  }

  /** The first entry of an enrollment goes out; the back-end, which needs
      two packets, cannot run on one. */
  lemma FirstEntrySent(s: Link, c1: seq<Byte>, later: seq<Byte>)
    requires Ok(s) && s.control.pc == C.Enrolling && s.control.rx == []
    requires s.hmi.pc == H.Enrolling && s.hmi.reenter == FALSE
    requires |c1| == PASSWORD_SIZE && forall i :: 0 <= i < |c1| ==> IsDigit(c1[i])
    requires s.hmi.keys == c1 + [KEYPAD_ENTER_BUTTON] + later
    ensures ControlMove(s).None?
    ensures HmiMove(s) == Some(Link(s.control.(rx := Frame(c1)),
                                    s.hmi.(keys := later, tx := s.hmi.tx + Frame(c1), reenter := TRUE, pc := H.ReEntering)))
    ensures ControlMove(HmiMove(s).value).None?
  {
    H.EntrySendsFrame(s.hmi, c1, later);
    assert Appended(s.hmi.tx, s.hmi.tx + Frame(c1)) == Frame(c1);
    assert s.control.rx + Frame(c1) == Frame(c1);
    ReadFramed([], c1, []);
    assert [] + Frame(c1) + [] == Frame(c1);
  }

  /** The second entry goes out; the front-end then waits for the verdict. */
  lemma SecondEntrySent(s: Link, c1: seq<Byte>, c2: seq<Byte>, rest: seq<Byte>)
    requires Ok(s) && s.control.pc == C.Enrolling && s.control.rx == Frame(c1)
    requires s.hmi.pc == H.ReEntering && s.hmi.rx == []
    requires |c2| == PASSWORD_SIZE && forall i :: 0 <= i < |c2| ==> IsDigit(c2[i])
    requires s.hmi.keys == c2 + [KEYPAD_ENTER_BUTTON] + rest
    ensures HmiMove(s) == Some(Link(s.control.(rx := Frame(c1) + Frame(c2)),
                                    s.hmi.(keys := rest, tx := s.hmi.tx + Frame(c2), pc := H.AwaitEnrollVerdict)))
    ensures HmiMove(HmiMove(s).value).None?
  {
    H.EntrySendsFrame(s.hmi, c2, rest);
    assert Appended(s.hmi.tx, s.hmi.tx + Frame(c2)) == Frame(c2);
  }

  /** The second half: the back-end answers and the front-end reads it. */
  lemma EnrollmentAnswered(s2: Link, c1: seq<Byte>, c2: seq<Byte>)
    requires Ok(s2) && s2.control.pc == C.Enrolling
    requires |c1| == PASSWORD_SIZE && |c2| == PASSWORD_SIZE
    requires s2.control.rx == Frame(c1) + Frame(c2)
    requires s2.hmi.pc == H.AwaitEnrollVerdict && s2.hmi.rx == []
    ensures ControlMove(s2).Some?
    ensures var s3 := ControlMove(s2).value;
            && Ok(s3) && HmiMove(s3).Some?
            && var s4 := HmiMove(s3).value;
            && s4.hmi.keys == s2.hmi.keys
            && (c1 == c2 ==>
                  && s4.control.pc == C.AwaitOpcode && s4.hmi.pc == H.Menu
                  && Load(s4.control.eeprom, EEPROM_STARTBYTE, PASSWORD_SIZE) == c1)
            && (c1 != c2 ==>
                  && s4.control.pc == C.Enrolling && s4.hmi.pc == H.Enrolling
                  && s4.control.eeprom == s2.control.eeprom && s4.hmi.reenter == FALSE)
  {
    var v := if c1 == c2 then VERDICT_TRUE else VERDICT_FALSE;
    VerdictSent(s2, c1, c2);
    var s3 := ControlMove(s2).value;
    VerdictRead(s3, v);
  }

  /** The back-end compares the two packets and sends its verdict. */
  lemma VerdictSent(s: Link, c1: seq<Byte>, c2: seq<Byte>)
    requires Ok(s) && s.control.pc == C.Enrolling
    requires |c1| == PASSWORD_SIZE && |c2| == PASSWORD_SIZE
    requires s.control.rx == Frame(c1) + Frame(c2)
    requires s.hmi.pc == H.AwaitEnrollVerdict && s.hmi.rx == []
    ensures ControlMove(s).Some?
    ensures var s1 := ControlMove(s).value;
            && Ok(s1) && s1.hmi == s.hmi.(rx := [if c1 == c2 then VERDICT_TRUE else VERDICT_FALSE])
            && (c1 == c2 ==>
                  && s1.control.pc == C.AwaitOpcode
                  && Load(s1.control.eeprom, EEPROM_STARTBYTE, PASSWORD_SIZE) == c1)
            && (c1 != c2 ==> s1.control.pc == C.Enrolling && s1.control.eeprom == s.control.eeprom)
  {
    assert s.control.rx == [] + Frame(c1) + [] + Frame(c2) + [];
    C.EnrollmentVerdict(s.control, [], c1, [], c2, []);
    ControlMoveKeepsOk(s);
    var v := if c1 == c2 then VERDICT_TRUE else VERDICT_FALSE;
    assert Appended(s.control.tx, s.control.tx + [v]) == [v];
    assert s.hmi.rx + [v] == [v];
    if c1 == c2 {
      LoadStore(s.control.eeprom, EEPROM_STARTBYTE, c1);
    }
  }

  /** The front-end reads the enrollment verdict. */
  lemma VerdictRead(s: Link, v: Byte)
    requires Ok(s) && s.hmi.pc == H.AwaitEnrollVerdict && s.hmi.rx == [v] && v in H.Verdicts
    ensures HmiMove(s).Some?
    ensures var s1 := HmiMove(s).value;
            && s1.control == s.control && s1.hmi.keys == s.hmi.keys
            && (v == VERDICT_TRUE ==> s1.hmi.pc == H.Menu)
            && (v == VERDICT_FALSE ==> s1.hmi.pc == H.Enrolling && s1.hmi.reenter == FALSE)
  {
    assert s.hmi.rx == [] + [v] + [];
    H.EnrollVerdictEffect(s.hmi, [], v, []);
    assert Appended(s.hmi.tx, s.hmi.tx) == [] && s.control.rx + [] == s.control.rx;
  }

  /** A lock-down in the change flow leaves the system stopped. After the
      third rejected old password the front-end sends SYSTEM_LOCK_SEQUENCE
      and, on CLEAR, goes back to enrollment with g_password_reenter still at
      START_PHASE_TWO; so it takes one entry and sends one packet. The
      back-end, back at its opcode read, reads the packet's start marker as
      an opcode and spins for good, while the front-end waits for a verdict
      that never comes. At every point only one of the two can run, so this
      is the only way the system goes; and at the end no key pressed and no
      byte received moves either node. */
  lemma ChangeLockDownDeadlocks(s0: Link, code: seq<Byte>, rest: seq<Byte>)
    requires Ok(s0)
    requires s0.hmi.pc == H.AwaitVerdict(Change, MAXIMUM_PASSWORD_ATTEMPTS) && s0.hmi.rx == [VERDICT_FALSE]
    requires s0.control.pc == C.AwaitCommand(Change) && s0.control.rx == []
    requires |code| == PASSWORD_SIZE && forall i :: 0 <= i < |code| ==> IsDigit(code[i])
    requires s0.hmi.keys == code + [KEYPAD_ENTER_BUTTON] + rest
    ensures ControlMove(s0).None? && HmiMove(s0).Some?
    ensures var s1 := HmiMove(s0).value;
            && Ok(s1) && HmiMove(s1).None? && ControlMove(s1).Some?
            && var s2 := ControlMove(s1).value;
            && Ok(s2) && ControlMove(s2).None? && HmiMove(s2).Some?
            && var s3 := HmiMove(s2).value;
            && Ok(s3) && ControlMove(s3).None? && HmiMove(s3).Some?
            && var s4 := HmiMove(s3).value;
            && Ok(s4) && HmiMove(s4).None? && ControlMove(s4).Some?
            && var s5 := ControlMove(s4).value;
            && Dead(s5)
            && s5.control.pc == C.Stuck(START_PASSWORD) && s5.hmi.pc == H.AwaitEnrollVerdict
            && (forall more :: C.Next(s5.control.(rx := s5.control.rx + more)).None?)
            && (forall more :: H.Next(s5.hmi.(keys := s5.hmi.keys + more)).None?)
  {
    ThirdRejectionLocks(s0);
    var s1 := HmiMove(s0).value;
    HmiMoveKeepsOk(s0);
    LockServed(s1);
    var s2 := ControlMove(s1).value;
    ControlMoveKeepsOk(s1);
    LockLifted(s2);
    var s3 := HmiMove(s2).value;
    HmiMoveKeepsOk(s2);
    OnePacketSent(s3, code, rest);
    var s4 := HmiMove(s3).value;
    HmiMoveKeepsOk(s3);
    MarkerReadAsOpcode(s4, code);
    var s5 := ControlMove(s4).value;
    ControlMoveKeepsOk(s4);
    StuckAgainstVerdictWait(s5);
  }

  /** The third rejection in the change flow sends SYSTEM_LOCK_SEQUENCE; the
      back-end cannot run before it arrives. */
  lemma ThirdRejectionLocks(s: Link)
    requires Ok(s)
    requires s.hmi.pc == H.AwaitVerdict(Change, MAXIMUM_PASSWORD_ATTEMPTS) && s.hmi.rx == [VERDICT_FALSE]
    requires s.control.pc == C.AwaitCommand(Change) && s.control.rx == []
    ensures ControlMove(s).None?
    ensures HmiMove(s) == Some(Link(s.control.(rx := [SYSTEM_LOCK_SEQUENCE]),
                                    s.hmi.(rx := [], tx := s.hmi.tx + [SYSTEM_LOCK_SEQUENCE], pc := H.AwaitLockClear)))
  {
    H.FailedAttempt(s.hmi, Change, MAXIMUM_PASSWORD_ATTEMPTS, [], []);
    assert Appended(s.hmi.tx, s.hmi.tx + [SYSTEM_LOCK_SEQUENCE]) == [SYSTEM_LOCK_SEQUENCE];
    assert s.control.rx + [SYSTEM_LOCK_SEQUENCE] == [SYSTEM_LOCK_SEQUENCE];
  }

  /** The back-end serves a lock request: one CLEAR, then the opcode read. */
  lemma LockServed(s: Link)
    requires Ok(s) && s.control.pc == C.AwaitCommand(Change) && s.control.rx == [SYSTEM_LOCK_SEQUENCE]
    requires s.hmi.pc == H.AwaitLockClear && s.hmi.rx == []
    ensures HmiMove(s).None?
    ensures ControlMove(s) == Some(Link(C.LockDown(s.control.(rx := [])).(pc := C.AwaitOpcode),
                                        s.hmi.(rx := [CLEAR])))
  {
    assert Appended(s.control.tx, s.control.tx + [CLEAR]) == [CLEAR];
    assert s.hmi.rx + [CLEAR] == [CLEAR];
    assert s.control.rx[1..] == [];
  }

  /** CLEAR ends the front-end's lock-down; after the change flow it goes
      back to enrollment, since that flow set g_password_phase_one. */
  lemma LockLifted(s: Link)
    requires Ok(s) && s.control.pc == C.AwaitOpcode && s.control.rx == []
    requires s.hmi.pc == H.AwaitLockClear && s.hmi.rx == [CLEAR] && s.hmi.phaseOne
    ensures ControlMove(s).None?
    ensures HmiMove(s) == Some(Link(s.control, s.hmi.(rx := [], pc := H.Enrolling)))
  {
    assert Appended(s.hmi.tx, s.hmi.tx) == [] && s.control.rx + [] == s.control.rx;
    assert Seek(s.hmi.rx, {CLEAR}) == 0 && s.hmi.rx[1..] == [];
  }

  /** With START_PHASE_TWO left in g_password_reenter, the front-end's
      enrollment sends one packet and waits for the verdict. */
  lemma OnePacketSent(s: Link, code: seq<Byte>, rest: seq<Byte>)
    requires Ok(s) && s.control.pc == C.AwaitOpcode && s.control.rx == []
    requires s.hmi.pc == H.Enrolling && s.hmi.reenter == START_PHASE_TWO && s.hmi.rx == []
    requires |code| == PASSWORD_SIZE && forall i :: 0 <= i < |code| ==> IsDigit(code[i])
    requires s.hmi.keys == code + [KEYPAD_ENTER_BUTTON] + rest
    ensures ControlMove(s).None?
    ensures HmiMove(s) == Some(Link(s.control.(rx := Frame(code)),
                                    s.hmi.(keys := rest, tx := s.hmi.tx + Frame(code), pc := H.AwaitEnrollVerdict)))
  {
    H.EnrollmentAfterChangeSendsOne(s.hmi, code, rest);
    assert Appended(s.hmi.tx, s.hmi.tx + Frame(code)) == Frame(code);
    assert s.control.rx + Frame(code) == Frame(code);
  }

  /** The back-end at its opcode read takes the packet's start marker for an
      opcode and is stuck. */
  lemma MarkerReadAsOpcode(s: Link, code: seq<Byte>)
    requires Ok(s) && s.control.pc == C.AwaitOpcode && s.control.rx == Frame(code)
    requires s.hmi.pc == H.AwaitEnrollVerdict && s.hmi.rx == []
    ensures HmiMove(s).None?
    ensures ControlMove(s) == Some(Link(s.control.(rx := code, pc := C.Stuck(START_PASSWORD)), s.hmi))
  {
    assert Frame(code)[1..] == code;
    assert Appended(s.control.tx, s.control.tx) == [] && s.hmi.rx + [] == s.hmi.rx;
  }

  /** A stuck back-end never sends, so a front-end waiting for a verdict
      that has not arrived waits for good, whatever else is typed. */
  lemma StuckAgainstVerdictWait(s: Link)
    requires Ok(s) && s.control.pc.Stuck?
    requires s.hmi.pc == H.AwaitEnrollVerdict && s.hmi.rx == []
    ensures Dead(s)
    ensures forall more :: C.Next(s.control.(rx := s.control.rx + more)).None?
    ensures forall more :: H.Next(s.hmi.(keys := s.hmi.keys + more)).None?
  {
  }
}
