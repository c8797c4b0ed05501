/**
One eBPF instruction slot (core/kbpf/src/insn.rs): opcode, packed registers, a signed
16-bit offset and a signed 32-bit immediate in eight little-endian bytes.
*/
module EbpfInsn {
  import opened Bits
  import opened Bytes

  datatype Insn = Insn(opc: Byte, dst: nat, src: nat, off: int, imm: int)

  /** The values the fields of a slot can take. */
  predicate ValidInsn(i: Insn) {
    i.dst < 16 && i.src < 16 && -0x8000 <= i.off < 0x8000 && -0x8000_0000 <= i.imm < 0x8000_0000
  }

  /** Two's complement: the signed reading of `x` in a field of `2 * half` values. */
  function Signed(x: nat, half: nat): int {
    if x < half then x else x - 2 * half
  }

  function Unsigned(v: int, half: nat): int {
    if v >= 0 then v else v + 2 * half
  }

  function FromBytes(b: seq<Byte>): (i: Insn)
    requires |b| == 8
    ensures ValidInsn(i)
  {
    NumberBound(b[2..4]);
    NumberBound(b[4..8]);
    Pow2Values();
    Insn(b[0], b[1] % 16, b[1] / 16 % 16, Signed(Number(b[2..4]), 0x8000), Signed(Number(b[4..8]), 0x8000_0000))
  }

  function ToBytes(i: Insn): (b: seq<Byte>)
    requires ValidInsn(i)
    ensures |b| == 8
  {
    [i.opc, 16 * i.src + i.dst] + Le(2, Unsigned(i.off, 0x8000)) + Le(4, Unsigned(i.imm, 0x8000_0000))
  }

  lemma Parts(a: seq<Byte>, o: seq<Byte>, m: seq<Byte>)
    requires |a| == 2 && |o| == 2 && |m| == 4
    ensures (a + o + m)[2..4] == o && (a + o + m)[4..8] == m
  {
  }

  lemma Short(x: nat)
    requires x < 0x1_0000
    ensures Number(Le(2, x)) == x
  {
    Pow2Values();
    ReadBack(2, x);
  }

  lemma Long(x: nat)
    requires x < 0x1_0000_0000
    ensures Number(Le(4, x)) == x
  {
    Pow2Values();
    ReadBack(4, x);
  }

  /** Which bits of which byte each field is: the opcode byte, the low and high half of the
      register byte, then offset and immediate, least significant byte first and in two's
      complement. */
  lemma WireFields(b: seq<Byte>)
    requires |b| == 8
    ensures var i := FromBytes(b);
            var off, imm := Weighted(b[2], b[3], 0, 0), Weighted(b[4], b[5], b[6], b[7]);
            && i.opc == b[0] && b[1] == 16 * i.src + i.dst && i.dst < 16
            && i.off == (if b[3] >= 128 then off - 0x1_0000 else off)
            && i.imm == (if b[7] >= 128 then imm - 0x1_0000_0000 else imm)
  {
    TwoBytes(b[2..4]);
    FourBytes(b[4..8]);
  }

  /** Every slot value has exactly one wire form. */
  lemma DecodeEncode(i: Insn)
    requires ValidInsn(i)
    ensures FromBytes(ToBytes(i)) == i
  {
    var off, imm := Unsigned(i.off, 0x8000), Unsigned(i.imm, 0x8000_0000);
    Short(off);
    Long(imm);
    Parts([i.opc, 16 * i.src + i.dst], Le(2, off), Le(4, imm));
  }

  lemma {:induction false} EncodeDecode(b: seq<Byte>)
    requires |b| == 8
    ensures ToBytes(FromBytes(b)) == b
  {
    var i := FromBytes(b);
    assert Le(2, Unsigned(i.off, 0x8000)) == b[2..4] && Le(4, Unsigned(i.imm, 0x8000_0000)) == b[4..8] by {
      Pow2Values();
      FieldBack(b[2..4], 0x8000);
      FieldBack(b[4..8], 0x8000_0000);
    }
    RegistersBack(b[1]);
    Whole(b);
  }

  lemma {:induction false} RegistersBack(x: Byte)
    ensures 16 * (x / 16 % 16) + x % 16 == x
  {
  }

  lemma {:induction false} Whole(b: seq<Byte>)
    requires |b| == 8
    ensures [b[0], b[1]] + b[2..4] + b[4..8] == b
  {
  }

  /** A field of bytes comes back from its signed reading. */
  lemma {:induction false} FieldBack(b: seq<Byte>, half: nat)
    requires Pow2(8 * |b|) == 2 * half
    ensures Number(b) < 2 * half && Le(|b|, Unsigned(Signed(Number(b), half), half)) == b
  {
    NumberBound(b);
    ReadsAs(b, Number(b));
  }
}
