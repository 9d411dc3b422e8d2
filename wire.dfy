/** The values both nodes agree on: the byte type of the serial link and of the
    keypad, the opcode vocabulary and the timing constants of the two constants
    headers (control_constants.h on the back-end node, hmi_constants.h on the
    front-end node). */
module Wire {

  /** One octet: a byte on the serial link, a key code, an EEPROM cell. */
  type Byte = x: int | 0 <= x < 0x100

  datatype Option<+T> = None | Some(value: T)

  /** Number of digits in a password. */
  const PASSWORD_SIZE: nat := 5

  /** Start-of-password marker (RECIEVE_START_PASSWORD / SEND_START_PASSWORD). */
  const START_PASSWORD: Byte := 0x5A
  /** Back-end's verdicts (SEND_TRUE / RECIEVE_TRUE, SEND_FALSE / RECIEVE_FALSE). */
  const VERDICT_TRUE: Byte := 0x5B
  const VERDICT_FALSE: Byte := 0x5C

  const START_PHASE_TWO_CHANGE: Byte := 0x4A
  const START_PHASE_TWO_DOOR: Byte := 0x4B
  /** Declared in both headers, never sent by either node. */
  const PASSWORD_RETRY: Byte := 0x33
  const PASSWORD_SUCCESS: Byte := 0x34
  const START_MOTOR: Byte := 0x3A
  const CLEAR: Byte := 0x3B
  const SYSTEM_LOCK_SEQUENCE: Byte := 0x3C
  const RESET_PASSWORD: Byte := 0x4C
  const PASSWORD_INCORRECT: Byte := 0x4D
  /** Front-end only: the third value of g_password_reenter, equal to RESET_PASSWORD. */
  const START_PHASE_TWO: Byte := 0x4C

  /** Timer2 overflows in one motor run, and in one alarm period. */
  const TARGET_OVERFLOWS: nat := 7324
  const LOCK_DOWN_TIME: nat := 29296

  const MAXIMUM_PASSWORD_ATTEMPTS: nat := 3
  const EEPROM_STARTBYTE: nat := 0x0310

  const KEYPAD_MINIMUM_NUMBER: Byte := 0
  const KEYPAD_MAXIMUM_NUMBER: Byte := 9
  const KEYPAD_ENTER_BUTTON: Byte := 13
  /** Codes the keypad driver returns for the two menu keys ('+' and '-'). */
  const KEY_PLUS: Byte := 43
  const KEY_MINUS: Byte := 45

  /** The C `boolean` values. */
  const FALSE: Byte := 0
  const TRUE: Byte := 1

  /** `i++` on a uint8: 0xFF wraps to 0. */
  function Inc8(i: Byte): Byte {
    if i == 0xFF then 0 else i + 1
  }

  /** `i--` on a uint8: 0 wraps to 0xFF. */
  function Dec8(i: Byte): Byte {
    if i == 0 then 0xFF else i - 1
  }

  predicate IsDigit(b: int) {
    KEYPAD_MINIMUM_NUMBER <= b <= KEYPAD_MAXIMUM_NUMBER
  }

  /** Every byte either node sends other than a password digit. */
  const Opcodes: set<Byte> := {START_PASSWORD, VERDICT_TRUE, VERDICT_FALSE,
                               START_PHASE_TWO_CHANGE, START_PHASE_TWO_DOOR,
                               START_MOTOR, CLEAR, SYSTEM_LOCK_SEQUENCE,
                               RESET_PASSWORD, PASSWORD_INCORRECT}

  /** Opcodes and digits never collide, so a receiver can tell them apart. */
  lemma OpcodesAreNotDigits(b: Byte)
    ensures b in Opcodes ==> b > KEYPAD_MAXIMUM_NUMBER && !IsDigit(b)
  {
  }

  /** The alarm lasts exactly four motor runs. */
  lemma LockDownIsFourDoorRuns()
    ensures LOCK_DOWN_TIME == 4 * TARGET_OVERFLOWS
  {
  }
}
