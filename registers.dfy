/** The 8-bit I/O registers the drivers configure, and the SET_BIT / CLEAR_BIT /
    bit-field operations they use on them. A register is modelled as the set of
    its bit positions that hold 1; the value written by `REG = 0` is the empty set. */
module Registers {

  /** A bit position in an 8-bit register. */
  type BitIndex = n: int | 0 <= n < 8

  /** An 8-bit register: the positions of its 1 bits. */
  type Reg = set<BitIndex>

  /** SET_BIT(reg, n) */
  function SetBit(r: Reg, n: BitIndex): Reg {
    r + {n}
  }

  /** CLEAR_BIT(reg, n) */
  function ClearBit(r: Reg, n: BitIndex): Reg {
    r - {n}
  }

  predicate IsSet(r: Reg, n: BitIndex) {
    n in r
  }

  /** Bit `n` of `r` as a number. */
  function Bit(r: Reg, n: BitIndex): nat {
    if n in r then 1 else 0
  }

  /** The field of `width` bits (1 to 3) of `r` whose lowest bit is bit `lo`,
      as the number the hardware reads from it. */
  function Field(r: Reg, lo: BitIndex, width: nat): (v: nat)
    requires 1 <= width <= 3 && lo + width <= 8
  {
    if width == 1 then Bit(r, lo)
    else if width == 2 then Bit(r, lo) + 2 * Bit(r, lo + 1)
    else Bit(r, lo) + 2 * Bit(r, lo + 1) + 4 * Bit(r, lo + 2)
  }
}
