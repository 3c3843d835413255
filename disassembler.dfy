/**
 * The disassembler used by the emulator's memory view: it recognises load
 * byte, nop and halt, and leaves every other byte blank.
 */
module Disassembler {
  import opened Words

  /** A line of disassembly. The `ldb` operand is kept as its value, since the
      text form of the emulator's `Word` is not part of this model; `Blank` is
      the empty string. */
  datatype Listing = Ldb(operand: bv8) | Nop | Hlt | Blank

  function Disassemble(instruction: bv8): (r: Listing)
    ensures r.Ldb? <==> instruction >= 0x80
    ensures r.Ldb? ==> r.operand == instruction & 0x7F && r.operand < 0x80
    ensures r == Nop <==> instruction == 1 || 4 <= instruction < 8
    ensures r == Hlt <==> instruction == 0
    ensures r == Blank <==> 2 <= instruction < 4 || 8 <= instruction < 0x80
  {
    var msb := Msb(instruction);
    if msb == 7 then Ldb(instruction & 0x7F)
    else if msb == 2 || msb == 0 then Nop
    else if instruction == 0 then Hlt
    else Blank
  }
}
