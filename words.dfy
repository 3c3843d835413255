/**
 * Fixed-width machine words of the emulator. The emulator's `Word` class is
 * not part of this model; its behaviour is taken from the way the emulator
 * uses it: an unsigned value of a given width whose `w[i]` is bit i, whose
 * `w[:k]` is the low k bits, whose `msb()` is the index of the highest set
 * bit, whose `H.concat(L)` is `H << 8 | L`, and whose `+` wraps around and
 * reports a carry. Widths 8, 7, 6 and 4 are Dafny bit-vector types; the
 * 15-bit program counter and addresses are integers below 2^15.
 */
module Words {
  const MemorySize: nat := 32768

  /** Index of the highest set bit, -1 for the zero word. */
  function Msb(w: bv8): (r: int)
    ensures -1 <= r <= 7
    ensures r == -1 <==> w == 0
    ensures r >= 0 ==> w >> r == 1
  {
    if w >= 128 then 7
    else if w >= 64 then 6
    else if w >= 32 then 5
    else if w >= 16 then 4
    else if w >= 8 then 3
    else if w >= 4 then 2
    else if w >= 2 then 1
    else if w == 1 then 0
    else -1
  }

  /** `w[i]`: bit i of the word. */
  predicate Bit(w: bv8, i: bv8)
    requires i < 8
  {
    (w >> i) & 1 == 1
  }

  /** `H.concat(L)` used as a memory index: H above L, always below 2^15. */
  function Address(h: bv7, l: bv8): (r: nat)
    ensures r < MemorySize
    ensures r / 256 == h as int && r % 256 == l as int
  {
    h as int * 256 + l as int
  }

  /** The value of an 8-bit `+`: the wrapped sum and its carry out of bit 7. */
  datatype Sum = Sum(value: bv8, carry: bool)

  function Add(a: bv8, b: bv8): (r: Sum)
    ensures r.value as bv9 == (a as bv9 + b as bv9) & 0xFF
    ensures r.carry <==> a as bv9 + b as bv9 >= 0x100
  {
    var v := a + b;
    Sum(v, v < a)
  }
}
