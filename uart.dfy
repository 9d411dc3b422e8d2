/** The UART driver (control_ecu/uart.c). The serial link is abstracted as two
    byte queues per node: `rx` holds what has arrived and not been read, `tx`
    what this node has transmitted. The configuration registers are 8-bit registers (see Registers). */
module Uart {
  import opened Wire
  import opened Registers
  import opened Protocol

  datatype BitData = FiveBits | SixBits | SevenBits | EightBits | NineBits
  datatype Parity = NoParity | EvenParity | OddParity
  datatype StopBits = OneStopBit | TwoStopBits

  /** UART_ConfigType; the baud rate is a uint16. */
  datatype Config = Config(bitData: BitData, parity: Parity, stopBit: StopBits, baudRate: nat)

  // Bit positions in the ATmega32 USART registers
  const RXC: BitIndex := 7
  const U2X: BitIndex := 1
  const RXEN: BitIndex := 4
  const TXEN: BitIndex := 3
  const UCSZ2: BitIndex := 2
  const URSEL: BitIndex := 7
  const UMSEL: BitIndex := 6
  const UPM1: BitIndex := 5
  const UPM0: BitIndex := 4
  const USBS: BitIndex := 3
  const UCSZ1: BitIndex := 2
  const UCSZ0: BitIndex := 1

  /** The terminators of UART_sendString and UART_receiveString. */
  const NUL: Byte := 0
  const HASH: Byte := 0x23

  function DataBits(b: BitData): nat {
    match b
    case FiveBits => 5
    case SixBits => 6
    case SevenBits => 7
    case EightBits => 8
    case NineBits => 9
  }

  /** The character size the USART hardware reads from UCSZ2 (in UCSRB) and
      UCSZ1:UCSZ0 (in UCSRC); None for the reserved codes 4 to 6. */
  function DecodedDataBits(ucsrb: Reg, ucsrc: Reg): Option<nat> {
    var code := (if IsSet(ucsrb, UCSZ2) then 4 else 0) + Field(ucsrc, UCSZ0, 2);
    if code <= 3 then Some(code + 5)
    else if code == 7 then Some(9)
    else None
  }

  /** The parity the hardware reads from UPM1:UPM0; None for the reserved code 01. */
  function DecodedParity(ucsrc: Reg): Option<Parity> {
    var code := Field(ucsrc, UPM0, 2);
    if code == 0 then Some(NoParity)
    else if code == 2 then Some(EvenParity)
    else if code == 3 then Some(OddParity)
    else None
  }

  function DecodedStopBits(ucsrc: Reg): StopBits {
    if IsSet(ucsrc, USBS) then TwoStopBits else OneStopBit
  }

  /** The frame-format part of UART_init (uart.c:37-93): the values UCSRB and
      UCSRC end with. The hardware decodes from them exactly the configured
      frame, in asynchronous mode, with receiver and transmitter enabled. No
      other bit is set: no USART interrupt is enabled and UCPOL is 0, so with
      the decoded fields the two values are fully determined. */
  method FrameFormat(cfg: Config) returns (ucsrb: Reg, ucsrc: Reg)
    ensures ucsrb == {RXEN, TXEN} + (if cfg.bitData == NineBits then {UCSZ2} else {})
    ensures ucsrc <= {URSEL, UPM1, UPM0, USBS, UCSZ1, UCSZ0}
    ensures IsSet(ucsrc, URSEL) && !IsSet(ucsrc, UMSEL)
    ensures DecodedDataBits(ucsrb, ucsrc) == Some(DataBits(cfg.bitData))
    ensures DecodedParity(ucsrc) == Some(cfg.parity)
    ensures DecodedStopBits(ucsrc) == cfg.stopBit
  {
    ucsrb := {RXEN, TXEN};
    ucsrc := {URSEL};
    match cfg.bitData {
      case FiveBits =>
        ucsrc := ClearBit(ucsrc, UCSZ0);
        ucsrc := ClearBit(ucsrc, UCSZ1);
      case SixBits =>
        ucsrc := SetBit(ucsrc, UCSZ0);
        ucsrc := ClearBit(ucsrc, UCSZ1);
      case SevenBits =>
        ucsrc := ClearBit(ucsrc, UCSZ0);
        ucsrc := SetBit(ucsrc, UCSZ1);
      case EightBits =>
        ucsrc := SetBit(ucsrc, UCSZ0);
        ucsrc := SetBit(ucsrc, UCSZ1);
      case NineBits =>
        ucsrb := SetBit(ucsrb, UCSZ2);
        ucsrc := SetBit(ucsrc, UCSZ0);
        ucsrc := SetBit(ucsrc, UCSZ1);
    }
    match cfg.parity {
      case NoParity =>
        ucsrc := ClearBit(ucsrc, UPM0);
        ucsrc := ClearBit(ucsrc, UPM1);
      case EvenParity =>
        ucsrc := ClearBit(ucsrc, UPM0);
        ucsrc := SetBit(ucsrc, UPM1);
      case OddParity =>
        ucsrc := SetBit(ucsrc, UPM0);
        ucsrc := SetBit(ucsrc, UPM1);
    }
    if cfg.stopBit == TwoStopBits {
      ucsrc := SetBit(ucsrc, USBS);
    } else {
      ucsrc := ClearBit(ucsrc, USBS);
    }
  }

  /** The baud-rate divisor of uart.c:96, in double-speed mode: F_CPU / (8 baud) - 1,
      computed in unsigned long and truncated to uint16. When the baud rate is
      at most F_CPU/8 and the quotient fits, it is the quotient less one. */
  function UbrrValue(fCpu: nat, baud: nat): (r: nat)
    requires 0 < baud
    ensures r < 0x1_0000
    ensures baud * 8 <= fCpu && fCpu / (baud * 8) <= 0x1_0000 ==> r + 1 == fCpu / (baud * 8)
  {
    (fCpu / (baud * 8) - 1) % 0x1_0000
  }

  /** When the divisor fits, it is the largest one whose bit time (divisor + 1)
      times 8 clocks is not shorter than the requested baud rate's. */
  lemma UbrrBrackets(fCpu: nat, baud: nat)
    requires 0 < baud && baud * 8 <= fCpu
    requires fCpu / (baud * 8) <= 0x1_0000
    ensures (UbrrValue(fCpu, baud) + 1) * (baud * 8) <= fCpu
    ensures fCpu < (UbrrValue(fCpu, baud) + 2) * (baud * 8)
  {
    var d := baud * 8;
    var q := fCpu / d;
    DivBounds(fCpu, d);
    assert 1 <= q;
    assert UbrrValue(fCpu, baud) == q - 1;
  }

  /** A baud rate too high for the clock makes the unsigned subtraction wrap:
      the divisor becomes 0xFFFF. */
  lemma UbrrWrapsWhenBaudTooHigh(fCpu: nat, baud: nat)
    requires 0 < baud && fCpu < baud * 8
    ensures UbrrValue(fCpu, baud) == 0xFFFF
  {
    var d := baud * 8;
    DivOfSmaller(fCpu, d);
    assert fCpu / d - 1 == -1;
  }

  lemma DivOfSmaller(a: nat, d: nat)
    requires a < d
    ensures a / d == 0
  {
    assert a == (a / d) * d + a % d;
    if a / d >= 1 {
      MulMonotone(a / d, d);
    }
  }

  lemma MulMonotone(q: nat, d: nat)
    requires 1 <= q
    ensures d <= q * d
  {
    assert q * d == d + (q - 1) * d;
  }

  /** Integer division brackets its dividend. */
  lemma DivBounds(a: nat, d: nat)
    requires 0 < d
    ensures (a / d) * d <= a < (a / d + 1) * d
  {
    assert a == (a / d) * d + a % d;
    assert (a / d + 1) * d == (a / d) * d + d;
  }

  class Uart {
    /** Bytes received and not yet read (the receive buffer; RXC is set iff non-empty). */
    var rx: seq<Byte>
    /** Bytes transmitted so far, oldest first. */
    var tx: seq<Byte>
    var ucsra: Reg
    var ucsrb: Reg
    var ucsrc: Reg
    /** UBRRH and UBRRL hold data, not flags: plain bytes. */
    var ubrrh: Byte
    var ubrrl: Byte

    ghost function Regs(): (Reg, Reg, Reg, Byte, Byte)
      reads this
    {
      (ucsra, ucsrb, ucsrc, ubrrh, ubrrl)
    }

    constructor ()
      ensures rx == [] && tx == []
      ensures Regs() == ({}, {}, {}, 0, 0)
    {
      rx, tx := [], [];
      ucsra, ucsrb, ucsrc, ubrrh, ubrrl := {}, {}, {}, 0, 0;
    }

    /** UART_init (uart.c:29-101). The division by the baud rate needs it non-zero;
        F_CPU is an unsigned long. */
    method Init(cfg: Config, fCpu: nat)
      requires 0 < cfg.baudRate < 0x1_0000 && fCpu < 0x1_0000_0000
      modifies this
      ensures ucsra == {U2X}
      ensures ucsrb == {RXEN, TXEN} + (if cfg.bitData == NineBits then {UCSZ2} else {})
      ensures ucsrc <= {URSEL, UPM1, UPM0, USBS, UCSZ1, UCSZ0}
      ensures IsSet(ucsrc, URSEL) && !IsSet(ucsrc, UMSEL)
      ensures DecodedDataBits(ucsrb, ucsrc) == Some(DataBits(cfg.bitData))
      ensures DecodedParity(ucsrc) == Some(cfg.parity)
      ensures DecodedStopBits(ucsrc) == cfg.stopBit
      ensures ubrrh * 0x100 + ubrrl == UbrrValue(fCpu, cfg.baudRate)
      ensures rx == old(rx) && tx == old(tx)
    {
      ucsra := {U2X};
      ucsrb, ucsrc := FrameFormat(cfg);
      var ubrr := UbrrValue(fCpu, cfg.baudRate);
      ubrrh := ubrr / 0x100;
      ubrrl := ubrr % 0x100;
    }

    /** UART_sendByte (uart.c:107-126): one byte goes out; only `tx` changes. */
    method SendByte(data: Byte)
      modifies this`tx
      ensures tx == old(tx) + [data]
    {
      tx := tx + [data];
    }

    /** UART_recieveByte (uart.c:132-142). The call returns only once a byte has
        arrived; it returns the oldest unread byte and removes it. */
    method ReceiveByte() returns (data: Byte)
      requires rx != []
      modifies this`rx
      ensures data == old(rx)[0] && rx == old(rx)[1..]
    {
      data := rx[0];
      rx := rx[1..];
    }

    /** UART_flush (uart.c:193-200): read and discard while RXC is set. */
    method Flush()
      modifies this`rx
      ensures rx == []
    {
      while rx != []
        decreases |rx|
      {
        var dummy := ReceiveByte();
      }
    }

    /** UART_sendString (uart.c:148-157): the bytes before the first NUL, in
        order, and not the NUL. The index is a uint8, so the NUL must lie in the
        first 256 bytes. */
    method SendString(str: seq<Byte>)
      requires Seek(str, {NUL}) < |str| && Seek(str, {NUL}) < 0x100
      modifies this`tx
      ensures tx == old(tx) + str[..Seek(str, {NUL})]
    {
      var i: Byte := 0;
      while str[i] != NUL
        invariant i <= Seek(str, {NUL})
        invariant tx == old(tx) + str[..i]
        decreases Seek(str, {NUL}) - i
      {
        assert str[i] == str[..Seek(str, {NUL})][i];
        SendByte(str[i]);
        i := Inc8(i);
      }
    }

    /** UART_receiveString (uart.c:171-187): reads up to and including the first
        '#', stores the bytes before it in order and a NUL in place of the '#'.
        The buffer must hold them, and the uint8 index must not wrap. */
    method ReceiveString(str: array<Byte>)
      requires Seek(rx, {HASH}) < |rx| && Seek(rx, {HASH}) < str.Length && Seek(rx, {HASH}) < 0x100
      modifies this`rx, str
      ensures var k := Seek(old(rx), {HASH});
              && (forall j :: 0 <= j < k ==> str[j] == old(rx)[j])
              && str[k] == NUL
              && (forall j :: k < j < str.Length ==> str[j] == old(str[j]))
              && rx == old(rx)[k + 1..]
    {
      ghost var q := rx;
      ghost var k := Seek(q, {HASH});
      var i: Byte := 0;
      var b := ReceiveByte();
      str[i] := b;
      while b != HASH
        invariant i <= k && rx == q[i + 1..] && b == q[i] && str[i] == b
        invariant forall j :: 0 <= j < i ==> str[j] == q[j]
        invariant forall j :: k < j < str.Length ==> str[j] == old(str[j])
        decreases k - i
      {
        i := Inc8(i);
        b := ReceiveByte();
        str[i] := b;
      }
      str[i] := NUL;
    }
  }
}
