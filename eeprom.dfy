/** The external EEPROM the back-end keeps the password in, as the driver
    presents it: a byte per address. Only its contents are modelled; the TWI
    bus transactions that carry a read or a write are not. */
module Eeprom {
  import opened Wire

  /** The bytes written so far, by address. */
  type Memory = map<int, Byte>

  /** What an erased cell reads as. */
  const ERASED: Byte := 0xFF

  /** EEPROM_readByte: the byte last written at `addr`, or an erased cell. */
  function Read(m: Memory, addr: int): Byte {
    if addr in m then m[addr] else ERASED
  }

  /** `code` written byte by byte from `base` upwards, in order. It writes
      exactly the cells from `base` to `base + |code| - 1`. */
  function Store(m: Memory, base: int, code: seq<Byte>): (r: Memory)
    ensures forall a :: a in r <==> a in m || base <= a < base + |code|
    decreases |code|
  {
    if code == [] then m
    else Store(m, base, code[..|code| - 1])[base + |code| - 1 := code[|code| - 1]]
  }

  /** After a store, the cells it covers hold the stored bytes and every
      other cell reads as before. */
  lemma {:induction false} StoreReads(m: Memory, base: int, code: seq<Byte>, addr: int)
    ensures Read(Store(m, base, code), addr)
            == if base <= addr < base + |code| then code[addr - base] else Read(m, addr)
    decreases |code|
  {
    if code != [] {
      var init := code[..|code| - 1];
      StoreReads(m, base, init, addr);
      if base <= addr < base + |init| {
        assert init[addr - base] == code[addr - base];
      }
    }
  }

  /** `n` bytes read from `base` upwards, in order: each is the cell at its
      offset from `base`. */
  function Load(m: Memory, base: int, n: nat): (r: seq<Byte>)
    ensures |r| == n
    ensures forall i :: 0 <= i < n ==> r[i] == Read(m, base + i)
    decreases n
  {
    if n == 0 then [] else Load(m, base, n - 1) + [Read(m, base + n - 1)]
  }

  /** Round trip: loading what was just stored, from the same place, gives the
      stored bytes back, whatever the memory held before. */
  lemma LoadStore(m: Memory, base: int, code: seq<Byte>)
    ensures Load(Store(m, base, code), base, |code|) == code
  {
    var m' := Store(m, base, code);
    forall i | 0 <= i < |code|
      ensures Load(m', base, |code|)[i] == code[i]
    {
      StoreReads(m, base, code, base + i);
    }
  }
}
