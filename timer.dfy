/** The timer driver (control_ecu/timer.c): the three callback slots, the
    dispatch of the six timer interrupt vectors to them, and the bits TIMER_init
    and TIMER_deInit write into the timer registers of the ATmega32. */
module Timer {
  import opened Wire
  import opened Registers

  /** TIMER_ID_Type */
  datatype TimerId = Timer0 | Timer1 | Timer2

  /** TIMER_ClockType, in declaration order; the 32 and 128 prescalers exist on Timer2 only. */
  datatype Clock = NoClockSource | NoPrescaling | Prescaler8 | Prescaler32
                 | Prescaler64 | Prescaler128 | Prescaler256 | Prescaler1024

  /** TIMER_ModeType */
  datatype Mode = OverflowMode | CompareMode

  /** TIMER_ConfigType (both values are uint16). */
  datatype Config = Config(initialValue: nat, compareMatchValue: nat, id: TimerId, clock: Clock, mode: Mode)

  /** The six timer interrupt vectors. */
  datatype Vector = Timer0Ovf | Timer0Comp | Timer1Ovf | Timer1CompA | Timer2Ovf | Timer2Comp

  // TIMSK
  const TOIE0: BitIndex := 0
  const OCIE0: BitIndex := 1
  const TOIE1: BitIndex := 2
  const OCIE1A: BitIndex := 4
  const TOIE2: BitIndex := 6
  const OCIE2: BitIndex := 7
  // TCCR0
  const CS00: BitIndex := 0
  const CS01: BitIndex := 1
  const CS02: BitIndex := 2
  const WGM01: BitIndex := 3
  const WGM00: BitIndex := 6
  const FOC0: BitIndex := 7
  // TCCR1A
  const WGM10: BitIndex := 0
  const WGM11: BitIndex := 1
  // TCCR1B
  const CS10: BitIndex := 0
  const CS11: BitIndex := 1
  const CS12: BitIndex := 2
  const WGM12: BitIndex := 3
  const WGM13: BitIndex := 4
  // TCCR2
  const CS20: BitIndex := 0
  const CS21: BitIndex := 1
  const CS22: BitIndex := 2
  const WGM21: BitIndex := 3
  const WGM20: BitIndex := 6

  /** The position of a clock in TIMER_ClockType. */
  function Ordinal(c: Clock): nat {
    match c
    case NoClockSource => 0
    case NoPrescaling => 1
    case Prescaler8 => 2
    case Prescaler32 => 3
    case Prescaler64 => 4
    case Prescaler128 => 5
    case Prescaler256 => 6
    case Prescaler1024 => 7
  }

  /** How the hardware reads a clock-select field CSn2:CSn0 (ATmega32 data sheet);
      None: codes 6 and 7 of Timers 0 and 1 count an external pin. */
  function DecodeClock(id: TimerId, code: nat): Option<Clock> {
    if id == Timer2 then
      if code == 0 then Some(NoClockSource)
      else if code == 1 then Some(NoPrescaling)
      else if code == 2 then Some(Prescaler8)
      else if code == 3 then Some(Prescaler32)
      else if code == 4 then Some(Prescaler64)
      else if code == 5 then Some(Prescaler128)
      else if code == 6 then Some(Prescaler256)
      else if code == 7 then Some(Prescaler1024)
      else None
    else
      if code == 0 then Some(NoClockSource)
      else if code == 1 then Some(NoPrescaling)
      else if code == 2 then Some(Prescaler8)
      else if code == 3 then Some(Prescaler64)
      else if code == 4 then Some(Prescaler256)
      else if code == 5 then Some(Prescaler1024)
      else None
  }

  /** The clocks a timer's prescaler offers. */
  predicate Offers(id: TimerId, c: Clock) {
    id == Timer2 || (c != Prescaler32 && c != Prescaler128)
  }

  /** Timer2's clock-select code is the clock's ordinal, and every ordinal is a code. */
  lemma Timer2CodeIsOrdinal(c: Clock)
    ensures Ordinal(c) < 8 && DecodeClock(Timer2, Ordinal(c)) == Some(c)
  {
  }

  /** On Timers 0 and 1 a clock is decodable iff it is offered. */
  lemma OfferedClocksAreDecodable(id: TimerId, c: Clock)
    requires id != Timer2
    ensures Offers(id, c) <==> exists code :: 0 <= code < 8 && DecodeClock(id, code) == Some(c)
  {
    if Offers(id, c) {
      var code := if c == NoClockSource then 0 else if c == NoPrescaling then 1
                  else if c == Prescaler8 then 2 else if c == Prescaler64 then 3
                  else if c == Prescaler256 then 4 else 5;
      assert DecodeClock(id, code) == Some(c);
    }
  }

  /** The waveform a timer runs in, as the hardware reads its WGM bits. */
  datatype Waveform = Normal | Ctc | OtherWaveform

  /** WGMn1:WGMn0 of Timers 0 and 2: 00 normal, 10 CTC, the other two PWM. */
  function Waveform8(tccr: Reg, wgm1: BitIndex, wgm0: BitIndex): Waveform
  {
    if !IsSet(tccr, wgm1) && !IsSet(tccr, wgm0) then Normal
    else if IsSet(tccr, wgm1) && !IsSet(tccr, wgm0) then Ctc
    else OtherWaveform
  }

  /** WGM13:WGM10 of Timer1: 0000 normal, 0100 CTC with OCR1A as top. */
  function Waveform16(tccr1a: Reg, tccr1b: Reg): Waveform {
    var code := (if IsSet(tccr1b, WGM13) then 8 else 0) + (if IsSet(tccr1b, WGM12) then 4 else 0)
                + (if IsSet(tccr1a, WGM11) then 2 else 0) + (if IsSet(tccr1a, WGM10) then 1 else 0);
    if code == 0 then Normal else if code == 4 then Ctc else OtherWaveform
  }

  /** The interrupt-enable bits of a timer in TIMSK: (overflow, compare). */
  function EnableBits(id: TimerId): (BitIndex, BitIndex) {
    match id
    case Timer0 => (TOIE0, OCIE0)
    case Timer1 => (TOIE1, OCIE1A)
    case Timer2 => (TOIE2, OCIE2)
  }

  /** The timer whose slot a vector's ISR calls (timer.c:317-363). */
  function VectorTimer(v: Vector): TimerId {
    match v
    case Timer0Ovf => Timer0
    case Timer0Comp => Timer0
    case Timer1Ovf => Timer1
    case Timer1CompA => Timer1
    case Timer2Ovf => Timer2
    case Timer2Comp => Timer2
  }

  /** Every bit other than `x` and `y` is the same in `a` and `b`. */
  predicate SameBitsExcept(a: Reg, b: Reg, x: BitIndex, y: BitIndex) {
    a - {x, y} == b - {x, y}
  }

  /** The timer registers and the three callback slots. `H` names the callback
      functions of the program the driver runs in. TCNTn and OCRn hold the
      uint16 values written to them. */
  class Timers<H> {
    var timsk: Reg
    var tccr0: Reg
    var tccr1a: Reg
    var tccr1b: Reg
    var tccr2: Reg
    var tcnt0: nat
    var tcnt1: nat
    var tcnt2: nat
    var ocr0: nat
    var ocr1a: nat
    var ocr2: nat
    /** g_TIMER0_CallBackPtr, g_TIMER1_CallBackPtr, g_TIMER2_CallBackPtr; None is NULL. */
    var slot0: Option<H>
    var slot1: Option<H>
    var slot2: Option<H>

    function Slot(id: TimerId): Option<H>
      reads this
    {
      match id
      case Timer0 => slot0
      case Timer1 => slot1
      case Timer2 => slot2
    }

    /** The registers of Timer0, Timer1 and Timer2 (TIMSK is shared). */
    ghost function Regs0(): (Reg, nat, nat) reads this { (tccr0, tcnt0, ocr0) }
    ghost function Regs1(): (Reg, Reg, nat, nat) reads this { (tccr1a, tccr1b, tcnt1, ocr1a) }
    ghost function Regs2(): (Reg, nat, nat) reads this { (tccr2, tcnt2, ocr2) }

    /** Reset values: every register 0, every slot NULL. */
    constructor ()
      ensures timsk == {} && Regs0() == ({}, 0, 0) && Regs1() == ({}, {}, 0, 0) && Regs2() == ({}, 0, 0)
      ensures forall id :: Slot(id).None?
    {
      timsk, tccr0, tccr1a, tccr1b, tccr2 := {}, {}, {}, {}, {};
      tcnt0, tcnt1, tcnt2, ocr0, ocr1a, ocr2 := 0, 0, 0, 0, 0, 0;
      slot0, slot1, slot2 := None, None, None;
    }

    /** TIMER_init (timer.c:34-254): configures the one timer the configuration names. */
    method Init(cfg: Config)
      modifies this`timsk, this`tccr0, this`tccr1a, this`tccr1b, this`tccr2,
               this`tcnt0, this`tcnt1, this`tcnt2, this`ocr0, this`ocr1a, this`ocr2
      ensures cfg.id == Timer0 ==> Configured0(cfg, old(timsk), old(tccr0), old(ocr0))
      ensures cfg.id == Timer1 ==> Configured1(cfg, old(timsk), old(tccr1a), old(tccr1b), old(ocr1a))
      ensures cfg.id == Timer2 ==> Configured2(cfg, old(timsk), old(tccr2), old(ocr2))
      ensures cfg.id != Timer0 ==> Regs0() == old(Regs0())
      ensures cfg.id != Timer1 ==> Regs1() == old(Regs1())
      ensures cfg.id != Timer2 ==> Regs2() == old(Regs2())
    {
      match cfg.id {
        case Timer0 => Init0(cfg);
        case Timer1 => Init1(cfg);
        case Timer2 => Init2(cfg);
      }
    }

    /** What TIMER_init leaves in Timer0's registers: the counter loaded, the
        mode's interrupt enabled and nothing else in TIMSK changed, FOC0 set,
        normal or CTC waveform, the compare value loaded only in compare mode,
        and the requested clock selected when Timer0 offers it; otherwise the
        clock-select bits keep their value. Every other bit of TCCR0 (the
        COM01:00 output mode) is kept. */
    ghost predicate Configured0(cfg: Config, timsk0: Reg, tccr: Reg, ocr: nat)
      reads this
    {
      && tcnt0 == cfg.initialValue
      && IsSet(tccr0, FOC0)
      && (cfg.mode == OverflowMode ==>
            IsSet(timsk, TOIE0) && SameBitsExcept(timsk, timsk0, TOIE0, TOIE0)
            && Waveform8(tccr0, WGM01, WGM00) == Normal && ocr0 == ocr)
      && (cfg.mode == CompareMode ==>
            IsSet(timsk, OCIE0) && SameBitsExcept(timsk, timsk0, OCIE0, OCIE0)
            && Waveform8(tccr0, WGM01, WGM00) == Ctc && ocr0 == cfg.compareMatchValue)
      && (Offers(Timer0, cfg.clock) ==> DecodeClock(Timer0, Field(tccr0, CS00, 3)) == Some(cfg.clock))
      && (!Offers(Timer0, cfg.clock) ==> Field(tccr0, CS00, 3) == Field(tccr, CS00, 3))
      && tccr0 - {FOC0, WGM00, WGM01, CS00, CS01, CS02} == tccr - {FOC0, WGM00, WGM01, CS00, CS01, CS02}
    }

    /** The same for Timer1; the bits of TCCR1A and TCCR1B outside WGM13:10 and
        CS12:10 (the COM and FOC bits, the input-capture bits) are kept. */
    ghost predicate Configured1(cfg: Config, timsk0: Reg, tccra: Reg, tccrb: Reg, ocr: nat)
      reads this
    {
      && tcnt1 == cfg.initialValue
      && (cfg.mode == OverflowMode ==>
            IsSet(timsk, TOIE1) && SameBitsExcept(timsk, timsk0, TOIE1, TOIE1)
            && Waveform16(tccr1a, tccr1b) == Normal && ocr1a == ocr)
      && (cfg.mode == CompareMode ==>
            IsSet(timsk, OCIE1A) && SameBitsExcept(timsk, timsk0, OCIE1A, OCIE1A)
            && Waveform16(tccr1a, tccr1b) == Ctc && ocr1a == cfg.compareMatchValue)
      && (Offers(Timer1, cfg.clock) ==> DecodeClock(Timer1, Field(tccr1b, CS10, 3)) == Some(cfg.clock))
      && (!Offers(Timer1, cfg.clock) ==> Field(tccr1b, CS10, 3) == Field(tccrb, CS10, 3))
      && tccr1a - {WGM10, WGM11} == tccra - {WGM10, WGM11}
      && tccr1b - {WGM12, WGM13, CS10, CS11, CS12} == tccrb - {WGM12, WGM13, CS10, CS11, CS12}
    }

    /** On Timer2 every clock is offered, and the clock-select bits are its
        ordinal; the bits of TCCR2 outside WGM21:20 and CS22:20 (FOC2 and the
        COM21:20 output mode) are kept. */
    ghost predicate Configured2(cfg: Config, timsk0: Reg, tccr: Reg, ocr: nat)
      reads this
    {
      && tcnt2 == cfg.initialValue
      && (cfg.mode == OverflowMode ==>
            IsSet(timsk, TOIE2) && SameBitsExcept(timsk, timsk0, TOIE2, TOIE2)
            && Waveform8(tccr2, WGM21, WGM20) == Normal && ocr2 == ocr)
      && (cfg.mode == CompareMode ==>
            IsSet(timsk, OCIE2) && SameBitsExcept(timsk, timsk0, OCIE2, OCIE2)
            && Waveform8(tccr2, WGM21, WGM20) == Ctc && ocr2 == cfg.compareMatchValue)
      && Field(tccr2, CS20, 3) == Ordinal(cfg.clock)
      && DecodeClock(Timer2, Field(tccr2, CS20, 3)) == Some(cfg.clock)
      && tccr2 - {WGM20, WGM21, CS20, CS21, CS22} == tccr - {WGM20, WGM21, CS20, CS21, CS22}
    }

    /** The TIMER_TIMER0 case of TIMER_init (timer.c:39-105). */
    method Init0(cfg: Config)
      requires cfg.id == Timer0
      modifies this`timsk, this`tccr0, this`tcnt0, this`ocr0
      ensures Configured0(cfg, old(timsk), old(tccr0), old(ocr0))
    {
      tcnt0 := cfg.initialValue;
      Mode0(cfg);
      ghost var moded := tccr0;
      assert Field(moded, CS00, 3) == Field(old(tccr0), CS00, 3) by {
        assert forall n :: n in {CS00, CS01, CS02} ==> (n in moded <==> n in moded - {FOC0, WGM00, WGM01});
      }
      tccr0 := SelectClock01(tccr0, cfg.clock);
      ghost var kept := {FOC0, WGM00, WGM01, CS00, CS01, CS02};
      forall n
        ensures n in tccr0 - kept <==> n in old(tccr0) - kept
      {
        assert n !in kept ==> (n in tccr0 <==> n in moded - {FOC0, WGM00, WGM01});
      }
    }

    /** The mode switch of the TIMER_TIMER0 case (timer.c:44-62). */
    method Mode0(cfg: Config)
      modifies this`timsk, this`tccr0, this`ocr0
      ensures IsSet(tccr0, FOC0) && tccr0 - {FOC0, WGM00, WGM01} == old(tccr0) - {FOC0, WGM00, WGM01}
      ensures cfg.mode == OverflowMode ==>
                IsSet(timsk, TOIE0) && SameBitsExcept(timsk, old(timsk), TOIE0, TOIE0)
                && Waveform8(tccr0, WGM01, WGM00) == Normal && ocr0 == old(ocr0)
      ensures cfg.mode == CompareMode ==>
                IsSet(timsk, OCIE0) && SameBitsExcept(timsk, old(timsk), OCIE0, OCIE0)
                && Waveform8(tccr0, WGM01, WGM00) == Ctc && ocr0 == cfg.compareMatchValue
    {
      match cfg.mode {
        case OverflowMode =>
          timsk := SetBit(timsk, TOIE0);
          tccr0 := SetBit(tccr0, FOC0);
          tccr0 := ClearBit(tccr0, WGM00);
          tccr0 := ClearBit(tccr0, WGM01);
        case CompareMode =>
          ocr0 := cfg.compareMatchValue;
          timsk := SetBit(timsk, OCIE0);
          tccr0 := SetBit(tccr0, FOC0);
          tccr0 := ClearBit(tccr0, WGM00);
          tccr0 := SetBit(tccr0, WGM01);
      }
    }

    /** The TIMER_TIMER1 case of TIMER_init (timer.c:107-175). */
    method Init1(cfg: Config)
      requires cfg.id == Timer1
      modifies this`timsk, this`tccr1a, this`tccr1b, this`tcnt1, this`ocr1a
      ensures Configured1(cfg, old(timsk), old(tccr1a), old(tccr1b), old(ocr1a))
    {
      tcnt1 := cfg.initialValue;
      Mode1(cfg);
      ghost var moded := tccr1b;
      assert Field(moded, CS10, 3) == Field(old(tccr1b), CS10, 3) by {
        assert forall n :: n in {CS10, CS11, CS12} ==> (n in moded <==> n in moded - {WGM12, WGM13});
      }
      tccr1b := SelectClock01(tccr1b, cfg.clock);
      ghost var kept := {WGM12, WGM13, CS10, CS11, CS12};
      forall n
        ensures n in tccr1b - kept <==> n in old(tccr1b) - kept
      {
        assert n !in kept ==> (n in tccr1b <==> n in moded - {WGM12, WGM13});
      }
    }

    /** The mode switch of the TIMER_TIMER1 case (timer.c:112-133). */
    method Mode1(cfg: Config)
      modifies this`timsk, this`tccr1a, this`tccr1b, this`ocr1a
      ensures tccr1a - {WGM10, WGM11} == old(tccr1a) - {WGM10, WGM11}
      ensures tccr1b - {WGM12, WGM13} == old(tccr1b) - {WGM12, WGM13}
      ensures cfg.mode == OverflowMode ==>
                IsSet(timsk, TOIE1) && SameBitsExcept(timsk, old(timsk), TOIE1, TOIE1)
                && Waveform16(tccr1a, tccr1b) == Normal && ocr1a == old(ocr1a)
      ensures cfg.mode == CompareMode ==>
                IsSet(timsk, OCIE1A) && SameBitsExcept(timsk, old(timsk), OCIE1A, OCIE1A)
                && Waveform16(tccr1a, tccr1b) == Ctc && ocr1a == cfg.compareMatchValue
    {
      match cfg.mode {
        case OverflowMode =>
          timsk := SetBit(timsk, TOIE1);
          tccr1a := ClearBit(tccr1a, WGM10);
          tccr1a := ClearBit(tccr1a, WGM11);
          tccr1b := ClearBit(tccr1b, WGM12);
          tccr1b := ClearBit(tccr1b, WGM13);
        case CompareMode =>
          ocr1a := cfg.compareMatchValue;
          timsk := SetBit(timsk, OCIE1A);
          tccr1a := ClearBit(tccr1a, WGM10);
          tccr1a := ClearBit(tccr1a, WGM11);
          tccr1b := SetBit(tccr1b, WGM12);
          tccr1b := ClearBit(tccr1b, WGM13);
      }
    }

    /** The TIMER_TIMER2 case of TIMER_init (timer.c:177-252). */
    method Init2(cfg: Config)
      requires cfg.id == Timer2
      modifies this`timsk, this`tccr2, this`tcnt2, this`ocr2
      ensures Configured2(cfg, old(timsk), old(tccr2), old(ocr2))
    {
      tcnt2 := cfg.initialValue;
      match cfg.mode {
        case OverflowMode =>
          timsk := SetBit(timsk, TOIE2);
          tccr2 := ClearBit(tccr2, WGM20);
          tccr2 := ClearBit(tccr2, WGM21);
        case CompareMode =>
          ocr2 := cfg.compareMatchValue;
          timsk := SetBit(timsk, OCIE2);
          tccr2 := ClearBit(tccr2, WGM20);
          tccr2 := SetBit(tccr2, WGM21);
      }
      tccr2 := SelectClock2(tccr2, cfg.clock);
    }

    /** TIMER_setCallBack (timer.c:262-269): only the named slot changes. */
    method SetCallBack(p: H, id: TimerId)
      modifies this
      ensures Slot(id) == Some(p)
      ensures forall other :: other != id ==> Slot(other) == old(Slot(other))
      ensures timsk == old(timsk) && Regs0() == old(Regs0()) && Regs1() == old(Regs1()) && Regs2() == old(Regs2())
    {
      match id {
        case Timer0 => slot0 := Some(p);
        case Timer1 => slot1 := Some(p);
        case Timer2 => slot2 := Some(p);
      }
    }

    /** TIMER_deInit (timer.c:277-311): the timer stops, its control and count
        registers are zero, its two TIMSK bits are clear and the rest of TIMSK is
        kept, its slot is NULL; OCR0 and OCR2 are zeroed but OCR1A is not. */
    method DeInit(id: TimerId)
      modifies this
      ensures Slot(id).None?
      ensures forall other :: other != id ==> Slot(other) == old(Slot(other))
      ensures !IsSet(timsk, EnableBits(id).0) && !IsSet(timsk, EnableBits(id).1)
      ensures SameBitsExcept(timsk, old(timsk), EnableBits(id).0, EnableBits(id).1)
      ensures id == Timer0 ==> Regs0() == ({}, 0, 0) && Regs1() == old(Regs1()) && Regs2() == old(Regs2())
      ensures id == Timer1 ==> Regs1() == ({}, {}, 0, old(ocr1a)) && Regs0() == old(Regs0()) && Regs2() == old(Regs2())
      ensures id == Timer2 ==> Regs2() == ({}, 0, 0) && Regs0() == old(Regs0()) && Regs1() == old(Regs1())
    {
      match id {
        case Timer0 =>
          tccr0 := {};
          tcnt0 := 0;
          ocr0 := 0;
          timsk := ClearBit(timsk, TOIE0);
          timsk := ClearBit(timsk, OCIE0);
          slot0 := None;
        case Timer1 =>
          tccr1a := {};
          tccr1b := {};
          tcnt1 := 0;
          timsk := ClearBit(timsk, TOIE1);
          timsk := ClearBit(timsk, OCIE1A);
          slot1 := None;
        case Timer2 =>
          tccr2 := {};
          tcnt2 := 0;
          ocr2 := 0;
          timsk := ClearBit(timsk, TOIE2);
          timsk := ClearBit(timsk, OCIE2);
          slot2 := None;
      }
    }

    /** The ISRs (timer.c:317-363): the callback a vector's ISR calls, if its
        timer's slot is not NULL. Both vectors of a timer share one slot. */
    method Isr(v: Vector) returns (callback: Option<H>)
      ensures callback == Slot(VectorTimer(v))
    {
      match v {
        case Timer0Ovf => callback := slot0;
        case Timer0Comp => callback := slot0;
        case Timer1Ovf => callback := slot1;
        case Timer1CompA => callback := slot1;
        case Timer2Ovf => callback := slot2;
        case Timer2Comp => callback := slot2;
      }
    }
  }

  /** The clock-select switch of Timers 0 and 1 (timer.c:65-103, 135-173), on
      CSn2:CSn0 in bits 0 to 2: an offered clock is selected, the two Timer2-only
      clocks match no case and change nothing; bits 3 to 7 are kept. */
  function SelectClock01(r: Reg, c: Clock): (r': Reg)
    ensures Offers(Timer0, c) ==> DecodeClock(Timer0, Field(r', 0, 3)) == Some(c)
    ensures !Offers(Timer0, c) ==> r' == r
    ensures r' - {0, 1, 2} == r - {0, 1, 2}
  {
    match c
    case NoClockSource => ClearBit(ClearBit(ClearBit(r, 0), 1), 2)
    case NoPrescaling => ClearBit(ClearBit(SetBit(r, 0), 1), 2)
    case Prescaler8 => ClearBit(SetBit(ClearBit(r, 0), 1), 2)
    case Prescaler64 => ClearBit(SetBit(SetBit(r, 0), 1), 2)
    case Prescaler256 => SetBit(ClearBit(ClearBit(r, 0), 1), 2)
    case Prescaler1024 => SetBit(ClearBit(SetBit(r, 0), 1), 2)
    case Prescaler32 => r
    case Prescaler128 => r
  }

  /** The clock-select switch of Timer2 (timer.c:201-251). */
  function SelectClock2(r: Reg, c: Clock): (r': Reg)
    ensures Field(r', 0, 3) == Ordinal(c)
    ensures DecodeClock(Timer2, Field(r', 0, 3)) == Some(c)
    ensures r' - {0, 1, 2} == r - {0, 1, 2}
  {
    match c
    case NoClockSource => ClearBit(ClearBit(ClearBit(r, 0), 1), 2)
    case NoPrescaling => ClearBit(ClearBit(SetBit(r, 0), 1), 2)
    case Prescaler8 => ClearBit(SetBit(ClearBit(r, 0), 1), 2)
    case Prescaler32 => ClearBit(SetBit(SetBit(r, 0), 1), 2)
    case Prescaler64 => SetBit(ClearBit(ClearBit(r, 0), 1), 2)
    case Prescaler128 => SetBit(ClearBit(SetBit(r, 0), 1), 2)
    case Prescaler256 => SetBit(SetBit(ClearBit(r, 0), 1), 2)
    case Prescaler1024 => SetBit(SetBit(SetBit(r, 0), 1), 2)
  }
}
