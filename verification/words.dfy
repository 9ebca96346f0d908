/**
 * 16-bit command parameters as the two bytes nL nH, low byte first, and
 * signed offsets as their 16-bit two's complement.
 */
module Words {
  import opened Base

  /** Low byte of a 16-bit value, `(v & 0xFF) as u8`. */
  function Lo(v: U16): U8
  {
    v % 0x100
  }

  /** High byte of a 16-bit value, `((v >> 8) & 0xFF) as u8`. */
  function Hi(v: U16): U8
  {
    v / 0x100
  }

  /** The 16-bit value a printer reads from nL nH. */
  function LittleEndian(lo: U8, hi: U8): U16
  {
    lo as int + 0x100 * hi as int
  }

  lemma DivModByte(lo: int, hi: int)
    requires 0 <= lo < 0x100 && 0 <= hi < 0x100
    ensures (lo + 0x100 * hi) % 0x100 == lo && (lo + 0x100 * hi) / 0x100 == hi
  {
  }

  /** nL nH is a faithful encoding of a 16-bit value, in both directions. */
  lemma LittleEndianRoundTrip(v: U16, lo: U8, hi: U8)
    ensures LittleEndian(Lo(v), Hi(v)) == v
    ensures Lo(LittleEndian(lo, hi)) == lo && Hi(LittleEndian(lo, hi)) == hi
  {
    SplitReadBack(v);
    ReadBackSplit(lo, hi);
  }

  lemma SplitReadBack(v: U16)
    ensures LittleEndian(Lo(v), Hi(v)) == v
  {
  }

  lemma ReadBackSplit(lo: U8, hi: U8)
    ensures Lo(LittleEndian(lo, hi)) == lo && Hi(LittleEndian(lo, hi)) == hi
  {
    DivModByte(lo as int, hi as int);
  }

  /** `offset as u16`: the 16-bit two's complement of a signed offset. */
  function TwosComplement(o: I16): U16
  {
    if o < 0 then o + 0x1_0000 else o
  }

  /** The signed value of a 16-bit pattern. */
  function Signed(u: U16): I16
  {
    if u >= 0x8000 then u - 0x1_0000 else u
  }

  /** Two's complement is a bijection between signed and unsigned 16-bit values. */
  lemma TwosComplementRoundTrip(o: I16, u: U16)
    ensures Signed(TwosComplement(o)) == o
    ensures TwosComplement(Signed(u)) == u
    ensures o < 0 <==> TwosComplement(o) >= 0x8000
  {
  }
}
