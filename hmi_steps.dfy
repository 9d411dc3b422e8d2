/** The front-end node (hmi_ecu/hmi.c) as a state machine over values, in the
    shape of ControlSteps: a state is the place where `main` waits and what it
    sees there, and `Next` runs the program to the next wait point, or is None
    while the keys or bytes it waits for have not arrived. The attempt counters
    and the selected menu key are locals of `main` that live only within one
    pass of the second-phase loop, so they travel in the place (`pc`). The
    class in hmi.dfy runs the same steps in place and is proved to agree. */
module HmiSteps {
  import opened Wire
  import opened Protocol
  import opened Overflow

  /** The one function the front-end hands to TIMER_setCallBack. */
  datatype Callback = OpenDoorCallBack

  /** Where `main` waits.
      Enrolling: in the first-phase loop, for the first password entry.
      ReEntering: for the second entry of the same loop pass.
      AwaitEnrollVerdict: for the back-end's verdict on the enrollment.
      Menu: for '+' or '-'.
      EnterOld: in a flow, for the entry of the old password; `attempts` is
      attempts_on_open_door or attempts_on_change_password.
      AwaitVerdict: in a flow, for the verdict on that entry.
      AwaitDoorClear: door open, for the back-end's CLEAR.
      AwaitLockClear: locked, for the back-end's CLEAR. */
  datatype HmiPc = Enrolling | ReEntering | AwaitEnrollVerdict | Menu
                 | EnterOld(flow: Flow, attempts: nat) | AwaitVerdict(flow: Flow, attempts: nat)
                 | AwaitDoorClear | AwaitLockClear

  /** pc, unread received bytes, bytes sent, keys still to be pressed,
      g_password_phase_one, g_password_reenter (FALSE, TRUE or
      START_PHASE_TWO), g_password_phase_two, (overflow_counter,
      g_open_door_flag), and the overflows spent in each timed wait so far
      ("Opening Door", "Door Closing"). */
  datatype HmiState = HmiState(
    pc: HmiPc, rx: seq<Byte>, tx: seq<Byte>, keys: seq<Byte>,
    phaseOne: bool, reenter: Byte, phaseTwo: bool, ticker: Ticker, waits: seq<nat>)

  /** The globals' initial values (hmi.c:24-28). */
  function Initial(keys: seq<Byte>): HmiState {
    HmiState(Enrolling, [], [], keys, true, FALSE, false, Ticker(0, 0), [])
  }

  predicate InFirstPhase(pc: HmiPc) {
    pc == Enrolling || pc == ReEntering || pc == AwaitEnrollVerdict
  }

  /** The menu and the door flow, which only the second-phase loop reaches. */
  predicate InDoorFlow(pc: HmiPc) {
    pc == Menu || pc == AwaitDoorClear || ((pc.EnterOld? || pc.AwaitVerdict?) && pc.flow == Door)
  }

  /** What holds wherever the node waits: one of the phase flags is set (with
      neither, `main` would spin in its outer loop for good), and the one of
      the loop it waits in; g_password_phase_one is clear in the menu and the
      door flow, and set once the change flow has sent its entry; the second
      entry of an enrollment is only asked for with g_password_reenter TRUE,
      and inside a flow it holds START_PHASE_TWO; a flow counts from 1 to
      the maximum; the last byte sent before an entry in a flow is the flow's
      opcode, and while the flow waits for its verdict the last seven bytes
      sent are that opcode and the packet; the overflow counter is back at 0. */
  predicate Consistent(s: HmiState) {
    && (s.phaseOne || s.phaseTwo)
    && (InFirstPhase(s.pc) ==> s.phaseOne)
    && (!InFirstPhase(s.pc) ==> s.phaseTwo)
    && (s.pc == ReEntering ==> s.reenter == TRUE)
    && (InDoorFlow(s.pc) ==> !s.phaseOne)
    && (s.pc.AwaitVerdict? && s.pc.flow == Change ==> s.phaseOne)
    && ((s.pc.EnterOld? || s.pc.AwaitVerdict?) ==> 1 <= s.pc.attempts <= MAXIMUM_PASSWORD_ATTEMPTS)
    && ((s.pc.EnterOld? || s.pc.AwaitVerdict? || s.pc == AwaitLockClear) ==> s.reenter == START_PHASE_TWO)
    && (s.pc.EnterOld? ==> |s.tx| >= 1 && s.tx[|s.tx| - 1] == FlowOpcode(s.pc.flow))
    && (s.pc.AwaitVerdict? ==>
          && |s.tx| >= PASSWORD_SIZE + 2
          && s.tx[|s.tx| - PASSWORD_SIZE - 2] == FlowOpcode(s.pc.flow)
          && s.tx[|s.tx| - PASSWORD_SIZE - 1] == START_PASSWORD)
    && s.ticker.counter == 0
  }

  /** getPasswordSend (hmi.c:226-283): FALSE in g_password_reenter becomes
      TRUE; five digit keys are collected, skipping any other key; after ENTER
      the start marker and the five digits go out. Only the keys, the bytes
      sent and g_password_reenter change, and the six bytes appended are the
      marker and five digits. */
  function GetPasswordSend(s: HmiState): (r: Option<HmiState>)
    ensures r.Some? <==> CollectEntry(s.keys).Some?
    ensures r.Some? ==> r.value == s.(keys := r.value.keys, tx := r.value.tx, reenter := r.value.reenter)
    ensures r.Some? ==> && |r.value.tx| == |s.tx| + PASSWORD_SIZE + 1 && r.value.tx[..|s.tx|] == s.tx
                        && r.value.tx[|s.tx|] == START_PASSWORD
                        && (forall i :: |s.tx| < i < |r.value.tx| ==> IsDigit(r.value.tx[i]))
  {
    match CollectEntry(s.keys)
    case None => None
    case Some(e) =>
      Some(s.(keys := e.rest, tx := s.tx + Frame(e.code),
              reenter := if s.reenter == FALSE then TRUE else s.reenter))
  }

  /** The verdicts awaitPasswordResponse (hmi.c:286-297) waits for. */
  const Verdicts: set<Byte> := {VERDICT_TRUE, VERDICT_FALSE}

  /** Where `main` goes after leaving the second-phase loop with `break`: back
      into the first-phase loop if its flag is set, else into a new pass of
      the second-phase loop, whose first act is the menu (hmi.c:58-107). */
  function Resume(s: HmiState): HmiState {
    s.(pc := if s.phaseOne then Enrolling else Menu)
  }

  /** The start of a flow pass (hmi.c:110-118, 179-184): the door flow flushes
      the receiver before its opcode; both mark the entry as an old password. */
  function Begin(s: HmiState, flow: Flow, attempts: nat): (r: HmiState)
    ensures r == s.(rx := r.rx, tx := r.tx, reenter := r.reenter, pc := r.pc)
    ensures r.tx == s.tx + [FlowOpcode(flow)] && r.reenter == START_PHASE_TWO
    ensures r.rx == (if flow == Door then [] else s.rx)
  {
    var s1 := if flow == Door then s.(rx := []) else s;
    s1.(tx := s1.tx + [FlowOpcode(flow)], reenter := START_PHASE_TWO, pc := EnterOld(flow, attempts))
  }

  /** The first entry of a first-phase pass (hmi.c:63-69). */
  function EnrollStep(s: HmiState): Option<HmiState> {
    match GetPasswordSend(s)
    case None => None
    case Some(s1) => Some(s1.(pc := if s1.reenter == TRUE then ReEntering else AwaitEnrollVerdict))
  }

  /** The second entry (hmi.c:66-69). */
  function ReEnterStep(s: HmiState): Option<HmiState> {
    match GetPasswordSend(s)
    case None => None
    case Some(s1) => Some(s1.(pc := AwaitEnrollVerdict))
  }

  /** The enrollment verdict (hmi.c:72-82): FALSE asks for a fresh pair, TRUE
      moves to the second phase; a byte that is neither is skipped. */
  function EnrollVerdictStep(s: HmiState): Option<HmiState> {
    var k := Seek(s.rx, Verdicts);
    if k == |s.rx| then None
    else
      var s1 := s.(rx := s.rx[k + 1..]);
      if s.rx[k] == VERDICT_FALSE then Some(s1.(phaseOne := true, reenter := FALSE, pc := Enrolling))
      else Some(s1.(phaseOne := false, phaseTwo := true, pc := Menu))
  }

  /** The menu (hmi.c:94-107): keys other than '+' and '-' are ignored. */
  function MenuStep(s: HmiState): Option<HmiState> {
    var k := Seek(s.keys, {KEY_PLUS, KEY_MINUS});
    if k == |s.keys| then None
    else
      var s1 := s.(keys := s.keys[k + 1..]);
      Some(Begin(s1, if s.keys[k] == KEY_PLUS then Door else Change, 1))
  }

  /** The entry of the old password (hmi.c:118, 184-185); the change flow sets
      g_password_phase_one before it knows the verdict. */
  function EnterOldStep(s: HmiState, flow: Flow, attempts: nat): Option<HmiState> {
    match GetPasswordSend(s)
    case None => None
    case Some(s1) =>
      Some(s1.(phaseOne := if flow == Change then true else s1.phaseOne, pc := AwaitVerdict(flow, attempts)))
  }

  /** The verdict inside a flow (hmi.c:120-121, 188): read past anything
      that is not a verdict. It waits exactly until a verdict byte has
      arrived, reads no key, and leaves the flow's verdict wait. */
  function VerdictStep(s: HmiState, flow: Flow, attempts: nat): (r: Option<HmiState>)
    ensures r.Some? <==> VERDICT_TRUE in s.rx || VERDICT_FALSE in s.rx
    ensures r.Some? ==> && r.value.keys == s.keys && |s.tx| < |r.value.tx| && r.value.tx[..|s.tx|] == s.tx
                        && !r.value.pc.AwaitVerdict?
  {
    var k := Seek(s.rx, Verdicts);
    if k == |s.rx| then None
    else
      var s1 := s.(rx := s.rx[k + 1..]);
      Some(if s.rx[k] == VERDICT_TRUE then OnTrue(s1, flow) else OnFalse(s1, flow, attempts))
  }

  /** TRUE in a flow (hmi.c:122-131, 190-196): the door flow sends START_MOTOR
      and runs the opening wait; the change flow sends RESET_PASSWORD and
      returns to enrollment with the flags at (TRUE, FALSE, FALSE). */
  function OnTrue(s: HmiState, flow: Flow): (r: HmiState)
    ensures r.tx == s.tx + [if flow == Door then START_MOTOR else RESET_PASSWORD]
    ensures r.rx == s.rx && r.keys == s.keys
    ensures flow == Door ==> r.ticker.flag != 0 && r.pc == AwaitDoorClear
    ensures flow == Change ==> r.pc == Enrolling
  {
    if flow == Door then
      var (t, n) := Wait(TARGET_OVERFLOWS, s.ticker);
      s.(tx := s.tx + [START_MOTOR], ticker := t, waits := s.waits + [n], pc := AwaitDoorClear)
    else
      Resume(s.(tx := s.tx + [RESET_PASSWORD], phaseOne := true, reenter := FALSE, phaseTwo := false))
  }

  /** FALSE in a flow (hmi.c:160-177, 198-215): PASSWORD_INCORRECT and a new
      pass of the flow while attempts remain, SYSTEM_LOCK_SEQUENCE on the
      last. */
  function OnFalse(s: HmiState, flow: Flow, attempts: nat): (r: HmiState)
    ensures attempts < MAXIMUM_PASSWORD_ATTEMPTS ==>
              r.tx == s.tx + [PASSWORD_INCORRECT, FlowOpcode(flow)] && r.pc == EnterOld(flow, attempts + 1)
    ensures attempts >= MAXIMUM_PASSWORD_ATTEMPTS ==>
              r.tx == s.tx + [SYSTEM_LOCK_SEQUENCE] && r.pc == AwaitLockClear
    ensures r.keys == s.keys && r.ticker == s.ticker
  {
    match AfterFailure(attempts)
    case Some(next) => Begin(s.(tx := s.tx + [PASSWORD_INCORRECT]), flow, next)
    case None => s.(tx := s.tx + [SYSTEM_LOCK_SEQUENCE], pc := AwaitLockClear)
  }

  /** The rest of the door sequence (hmi.c:137-158): once CLEAR arrives the
      flag is cleared, not the counter, and the closing wait runs; then a new
      pass of the second-phase loop. It waits exactly until CLEAR has arrived,
      sends nothing, records one wait and leaves the flag raised. */
  function DoorClearStep(s: HmiState): (r: Option<HmiState>)
    ensures r.Some? <==> CLEAR in s.rx
    ensures r.Some? ==> && r.value.tx == s.tx && r.value.keys == s.keys && r.value.ticker.flag != 0
                        && |r.value.waits| == |s.waits| + 1 && r.value.waits[..|s.waits|] == s.waits
  {
    var k := Seek(s.rx, {CLEAR});
    if k == |s.rx| then None
    else
      var (t, n) := Wait(TARGET_OVERFLOWS, Ticker(s.ticker.counter, 0));
      Some(Resume(s.(rx := s.rx[k + 1..], ticker := t, waits := s.waits + [n])))
  }

  /** The end of a lock-down (hmi.c:173-176, 211-214): it waits exactly until
      CLEAR has arrived, and then only the received bytes and the place change. */
  function LockClearStep(s: HmiState): (r: Option<HmiState>)
    ensures r.Some? <==> CLEAR in s.rx
    ensures r.Some? ==> r.value == s.(rx := r.value.rx, pc := r.value.pc) && |r.value.rx| < |s.rx|
  {
    var k := Seek(s.rx, {CLEAR});
    if k == |s.rx| then None
    else Some(Resume(s.(rx := s.rx[k + 1..])))
  }

  /** The node's next wait point, or None while it waits. A step only
      appends to what was sent and only consumes keys. */
  function Next(s: HmiState): (r: Option<HmiState>)
    requires Consistent(s)
    ensures r.Some? ==> |s.tx| <= |r.value.tx| && r.value.tx[..|s.tx|] == s.tx
    ensures r.Some? ==> |r.value.keys| <= |s.keys|
  {
    match s.pc
    case Enrolling => EnrollStep(s)
    case ReEntering => ReEnterStep(s)
    case AwaitEnrollVerdict => EnrollVerdictStep(s)
    case Menu => MenuStep(s)
    case EnterOld(flow, attempts) => EnterOldStep(s, flow, attempts)
    case AwaitVerdict(flow, attempts) => VerdictStep(s, flow, attempts)
    case AwaitDoorClear => DoorClearStep(s)
    case AwaitLockClear => LockClearStep(s)
  }

  lemma InitialIsConsistent(keys: seq<Byte>)
    ensures Consistent(Initial(keys))
  {
  }

  /** Every step keeps the phase flags consistent with the loop `main` is in,
      and every wait point is reached with the counter at 0. */
  lemma NextKeepsConsistent(s: HmiState)
    requires Consistent(s) && Next(s).Some?
    ensures Consistent(Next(s).value)
  {
    match s.pc
    case Enrolling => EntryKeepsConsistent(s);
    case ReEntering => EntryKeepsConsistent(s);
    case AwaitEnrollVerdict =>
    case Menu =>
    case EnterOld(flow, attempts) => EntryKeepsConsistent(s);
    case AwaitVerdict(flow, attempts) => VerdictKeepsConsistent(s, flow, attempts);
    case AwaitDoorClear =>
    case AwaitLockClear =>
  }

  /** The three password entries keep the flags as they were. */
  lemma EntryKeepsConsistent(s: HmiState)
    requires Consistent(s) && GetPasswordSend(s).Some?
    requires s.pc == Enrolling || s.pc == ReEntering || s.pc.EnterOld?
    ensures s.pc == Enrolling ==> Consistent(EnrollStep(s).value)
    ensures s.pc == ReEntering ==> Consistent(ReEnterStep(s).value)
    ensures s.pc.EnterOld? ==> Consistent(EnterOldStep(s, s.pc.flow, s.pc.attempts).value)
  {
  }

  /** A flow's verdict, either way. */
  lemma VerdictKeepsConsistent(s: HmiState, flow: Flow, attempts: nat)
    requires Consistent(s) && s.pc == AwaitVerdict(flow, attempts) && VerdictStep(s, flow, attempts).Some?
    ensures Consistent(VerdictStep(s, flow, attempts).value)
  {
    var s1 := s.(rx := s.rx[Seek(s.rx, Verdicts) + 1..]);
    if s.rx[Seek(s.rx, Verdicts)] == VERDICT_TRUE {
      assert Consistent(OnTrue(s1, flow));
    } else {
      assert Consistent(OnFalse(s1, flow, attempts));
    }
  }

  /** What one entry sends, whatever keys were pressed: the start marker and
      five digits, which are the digit keys among those read before the
      fifth digit, in order; the last key read is ENTER; the keys read are
      gone, the rest are left. */
  lemma {:induction false} GetPasswordSendSpec(s: HmiState)
    requires GetPasswordSend(s).Some?
    ensures var s1 := GetPasswordSend(s).value;
            && |s1.keys| < |s.keys| && s1.keys == s.keys[|s.keys| - |s1.keys|..]
            && s.keys[|s.keys| - |s1.keys| - 1] == KEYPAD_ENTER_BUTTON
            && exists used :: 0 <= used < |s.keys| - |s1.keys|
                 && |DigitsOf(s.keys[..used])| == PASSWORD_SIZE
                 && (forall i :: 0 <= i < PASSWORD_SIZE ==> IsDigit(DigitsOf(s.keys[..used])[i]))
                 && s1.tx == s.tx + Frame(DigitsOf(s.keys[..used]))
  {
    CollectDigitsSpec(s.keys, PASSWORD_SIZE);
    var d := CollectDigits(s.keys, PASSWORD_SIZE).value;
    var k := Seek(d.rest, {KEYPAD_ENTER_BUTTON});
    var s1 := GetPasswordSend(s).value;
    var used := |s.keys| - |d.rest|;
    assert s1.keys == d.rest[k + 1..];
    assert s.keys[used + k] == d.rest[k];
  }

  /** Five digit keys and ENTER send that password. */
  lemma EntrySendsFrame(s: HmiState, code: seq<Byte>, rest: seq<Byte>)
    requires |code| == PASSWORD_SIZE && forall i :: 0 <= i < |code| ==> IsDigit(code[i])
    requires s.keys == code + [KEYPAD_ENTER_BUTTON] + rest
    ensures GetPasswordSend(s) == Some(s.(keys := rest, tx := s.tx + Frame(code),
                                          reenter := if s.reenter == FALSE then TRUE else s.reenter))
  {
    EntryOfTypedCode(code, rest);
  }

  /** g_password_reenter only ever moves from FALSE to TRUE in an entry; TRUE
      and START_PHASE_TWO are left as they are. */
  lemma ReenterOnlyRises(s: HmiState)
    requires GetPasswordSend(s).Some?
    ensures var r := GetPasswordSend(s).value.reenter;
            && (r != s.reenter <==> s.reenter == FALSE)
            && (s.reenter == FALSE ==> r == TRUE)
  {
  }

  /** An enrollment pass from FALSE or TRUE sends exactly two packets, the two
      entries typed, and then waits for the verdict. */
  lemma EnrollmentSendsTwoPackets(s: HmiState, c1: seq<Byte>, c2: seq<Byte>, rest: seq<Byte>)
    requires Consistent(s) && s.pc == Enrolling && (s.reenter == FALSE || s.reenter == TRUE)
    requires |c1| == PASSWORD_SIZE && forall i :: 0 <= i < |c1| ==> IsDigit(c1[i])
    requires |c2| == PASSWORD_SIZE && forall i :: 0 <= i < |c2| ==> IsDigit(c2[i])
    requires s.keys == c1 + [KEYPAD_ENTER_BUTTON] + c2 + [KEYPAD_ENTER_BUTTON] + rest
    ensures Next(s).Some? && Next(s).value.pc == ReEntering && Consistent(Next(s).value)
    ensures Next(s).value.tx == s.tx + Frame(c1)
    ensures Next(Next(s).value).Some?
    ensures var s2 := Next(Next(s).value).value;
            && s2.pc == AwaitEnrollVerdict && s2.reenter == TRUE && s2.keys == rest
            && s2.tx == s.tx + Frame(c1) + Frame(c2)
  {
    assert s.keys == c1 + [KEYPAD_ENTER_BUTTON] + (c2 + [KEYPAD_ENTER_BUTTON] + rest);
    EntrySendsFrame(s, c1, c2 + [KEYPAD_ENTER_BUTTON] + rest);
    var s1 := Next(s).value;
    EntrySendsFrame(s1, c2, rest);
  }

  /** An enrollment pass entered with START_PHASE_TWO still in
      g_password_reenter, as after a lock-down in the change flow, sends only
      one packet before it waits for the verdict. */
  lemma EnrollmentAfterChangeSendsOne(s: HmiState, c: seq<Byte>, rest: seq<Byte>)
    requires Consistent(s) && s.pc == Enrolling && s.reenter == START_PHASE_TWO
    requires |c| == PASSWORD_SIZE && forall i :: 0 <= i < |c| ==> IsDigit(c[i])
    requires s.keys == c + [KEYPAD_ENTER_BUTTON] + rest
    ensures Next(s) == Some(s.(keys := rest, tx := s.tx + Frame(c), pc := AwaitEnrollVerdict))
  {
    EntrySendsFrame(s, c, rest);
  }

  /** The enrollment verdict, whatever non-verdict bytes precede it: FALSE
      restarts enrollment with g_password_reenter back at FALSE; TRUE moves to
      the menu with the phase flags at (FALSE, TRUE). Nothing is sent. */
  lemma EnrollVerdictEffect(s: HmiState, junk: seq<Byte>, verdict: Byte, rest: seq<Byte>)
    requires Consistent(s) && s.pc == AwaitEnrollVerdict
    requires forall i :: 0 <= i < |junk| ==> junk[i] !in Verdicts
    requires verdict in Verdicts && s.rx == junk + [verdict] + rest
    ensures Next(s).Some?
    ensures var s1 := Next(s).value;
            && s1.rx == rest && s1.tx == s.tx
            && (verdict == VERDICT_FALSE ==> s1.pc == Enrolling && s1.phaseOne && s1.reenter == FALSE)
            && (verdict == VERDICT_TRUE ==> s1.pc == Menu && !s1.phaseOne && s1.phaseTwo)
  {
    SeekSkips(junk, verdict, rest, Verdicts);
  }

  /** A rejected password in a flow, whatever non-verdict bytes precede the
      verdict: while the counter allows it, PASSWORD_INCORRECT and the flow's
      opcode go out and the flow repeats with the counter one up (a door retry
      drops whatever else had arrived); on the last attempt
      SYSTEM_LOCK_SEQUENCE goes out instead. */
  lemma FailedAttempt(s: HmiState, flow: Flow, attempts: nat, junk: seq<Byte>, rest: seq<Byte>)
    requires Consistent(s) && s.pc == AwaitVerdict(flow, attempts)
    requires forall i :: 0 <= i < |junk| ==> junk[i] !in Verdicts
    requires s.rx == junk + [VERDICT_FALSE] + rest
    ensures Next(s).Some?
    ensures var s1 := Next(s).value;
            match AfterFailure(attempts)
            case Some(next) =>
              && s1.pc == EnterOld(flow, next) && next == attempts + 1
              && s1.tx == s.tx + [PASSWORD_INCORRECT, FlowOpcode(flow)]
              && s1.rx == (if flow == Door then [] else rest)
              && s1.reenter == START_PHASE_TWO
            case None =>
              && attempts == MAXIMUM_PASSWORD_ATTEMPTS
              && s1.pc == AwaitLockClear && s1.tx == s.tx + [SYSTEM_LOCK_SEQUENCE] && s1.rx == rest
  {
    SeekSkips(junk, VERDICT_FALSE, rest, Verdicts);
  }

  /** The bytes a step sends. */
  function Sent(s: HmiState): seq<Byte>
    requires Consistent(s) && Next(s).Some?
  {
    var s1 := Next(s).value;
    if |s.tx| <= |s1.tx| then s1.tx[|s.tx|..] else []
  }

  /** A step only appends to what was sent. */
  lemma NextOnlyAppends(s: HmiState)
    requires Consistent(s) && Next(s).Some?
    ensures Next(s).value.tx == s.tx + Sent(s)
  {
  }

  /** The verdict a flow step reads. */
  function VerdictRead(s: HmiState): Byte
    requires Seek(s.rx, Verdicts) < |s.rx|
  {
    s.rx[Seek(s.rx, Verdicts)]
  }

  /** The only step that sends START_MOTOR is a door-flow verdict TRUE, and it
      sends nothing else; the last bytes sent before it are START_PHASE_TWO_DOOR
      and a password packet. */
  lemma StartMotorOnlyAfterTrue(s: HmiState)
    requires Consistent(s) && Next(s).Some?
    requires START_MOTOR in Sent(s)
    ensures s.pc.AwaitVerdict? && s.pc.flow == Door
    ensures |s.tx| >= PASSWORD_SIZE + 2
            && s.tx[|s.tx| - PASSWORD_SIZE - 2] == START_PHASE_TWO_DOOR
            && s.tx[|s.tx| - PASSWORD_SIZE - 1] == START_PASSWORD
    ensures Seek(s.rx, Verdicts) < |s.rx| && VerdictRead(s) == VERDICT_TRUE
    ensures Sent(s) == [START_MOTOR]
  {
    SentShapes(s);
  }

  /** The only step that sends RESET_PASSWORD is a change-flow verdict TRUE on
      the packet sent right after START_PHASE_TWO_CHANGE;
      it leaves the flags at phase one TRUE, reenter FALSE, phase two FALSE,
      and enrollment next. */
  lemma ResetOnlyAfterTrue(s: HmiState)
    requires Consistent(s) && Next(s).Some?
    requires RESET_PASSWORD in Sent(s)
    ensures s.pc.AwaitVerdict? && s.pc.flow == Change
    ensures |s.tx| >= PASSWORD_SIZE + 2
            && s.tx[|s.tx| - PASSWORD_SIZE - 2] == START_PHASE_TWO_CHANGE
            && s.tx[|s.tx| - PASSWORD_SIZE - 1] == START_PASSWORD
    ensures Seek(s.rx, Verdicts) < |s.rx| && VerdictRead(s) == VERDICT_TRUE
    ensures var s1 := Next(s).value;
            && Sent(s) == [RESET_PASSWORD]
            && s1.phaseOne && s1.reenter == FALSE && !s1.phaseTwo && s1.pc == Enrolling
  {
    SentShapes(s);
  }

  /** What each kind of step sends: a packet, a flow opcode, or one byte
      decided by the verdict. */
  lemma SentShapes(s: HmiState)
    requires Consistent(s) && Next(s).Some?
    ensures (s.pc == Enrolling || s.pc == ReEntering || s.pc.EnterOld?) ==>
              exists code :: Sent(s) == Frame(code) && forall i :: 0 <= i < |code| ==> IsDigit(code[i])
    ensures (s.pc == AwaitEnrollVerdict || s.pc == AwaitDoorClear || s.pc == AwaitLockClear) ==> Sent(s) == []
    ensures s.pc == Menu ==> Sent(s) == [START_PHASE_TWO_DOOR] || Sent(s) == [START_PHASE_TWO_CHANGE]
    ensures s.pc.AwaitVerdict? ==>
              && Seek(s.rx, Verdicts) < |s.rx|
              && (VerdictRead(s) == VERDICT_TRUE ==>
                    Sent(s) == [if s.pc.flow == Door then START_MOTOR else RESET_PASSWORD])
              && (VerdictRead(s) == VERDICT_FALSE ==>
                    Sent(s) == [PASSWORD_INCORRECT, FlowOpcode(s.pc.flow)] || Sent(s) == [SYSTEM_LOCK_SEQUENCE])
  {
    if s.pc == Enrolling || s.pc == ReEntering || s.pc.EnterOld? {
      GetPasswordSendSpec(s);
    }
  }

  /** The first door opening from a cleared ticker: START_MOTOR goes out, the
      opening wait lasts one motor run and leaves the flag at 1; then, once
      CLEAR arrives, the flag is cleared and the closing wait lasts another,
      and the menu comes back with the flag left at 1. The model runs the
      callback only inside busy-waits, so this holds when no overflow lands
      between the end of the closing wait and TIMER_deInit (hmi.c:151-154). */
  lemma DoorCycle(s: HmiState, attempts: nat, rest: seq<Byte>)
    requires Consistent(s) && s.pc == AwaitVerdict(Door, attempts) && s.ticker == Ticker(0, 0)
    requires s.rx == [VERDICT_TRUE, CLEAR] + rest
    ensures Next(s).Some? && Consistent(Next(s).value) && Next(Next(s).value).Some?
    ensures var s1 := Next(s).value;
            var s2 := Next(s1).value;
            && s1.pc == AwaitDoorClear && s1.ticker == Ticker(0, 1)
            && s2.pc == Menu && s2.ticker == Ticker(0, 1) && s2.rx == rest
            && s2.tx == s.tx + [START_MOTOR]
            && s2.waits == s.waits + [TARGET_OVERFLOWS, TARGET_OVERFLOWS]
  {
    NextKeepsConsistent(s);
  }

  /** A door opening that finds the flag still at 1, as DoorCycle leaves it
      when no overflow lands before TIMER_deInit: the "Opening Door" wait
      ends at once, and only the closing wait counts. */
  lemma LeftoverFlagOnNextDoor(s: HmiState, attempts: nat, rest: seq<Byte>)
    requires Consistent(s) && s.pc == AwaitVerdict(Door, attempts) && s.ticker == Ticker(0, 1)
    requires s.rx == [VERDICT_TRUE, CLEAR] + rest
    ensures Next(s).Some? && Consistent(Next(s).value) && Next(Next(s).value).Some?
    ensures var s2 := Next(Next(s).value).value;
            && s2.waits == s.waits + [0, TARGET_OVERFLOWS] && s2.ticker == Ticker(0, 1)
  {
    NextKeepsConsistent(s);
  }
}
