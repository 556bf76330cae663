/** CRC-32 of a ZIP entry (PKWARE APPNOTE.TXT, section 4.4.7): the reflected
    CRC with generator polynomial 0xEDB88320, initial register 0xFFFFFFFF
    and final exclusive-or 0xFFFFFFFF, computed the way `generate` does it:
    with a 256-entry table built by the nested loops and one table lookup
    per byte. The reference it is proved against shifts one bit at a time. */
module Crc32 {
  import opened Common
  import opened Bitwise

  /** The reflected generator polynomial. */
  const Polynomial: nat := 0xEDB8_8320

  /** The initial register, `0 ^ (-1)` as an unsigned 32-bit number, and
      the final exclusive-or `^ (-1)`. */
  const AllOnes: nat := 0xFFFF_FFFF

  /** One shift of the register, one bit of input consumed:
      (c & 1) ? (0xEDB88320 ^ (c >>> 1)) : (c >>> 1). */
  function Step(c: nat): nat
  {
    if c % 2 == 1 then Xor(Polynomial, c / 2) else c / 2
  }

  /** k shifts of the register. */
  function Steps(c: nat, k: nat): nat
    decreases k
  {
    if k == 0 then c else Steps(Step(c), k - 1)
  }

  /** The bit-at-a-time reference: the register after each byte of data has
      been folded into its low byte and shifted out one bit at a time. */
  function Register(data: seq<byte>): nat
  {
    if data == [] then AllOnes
    else Steps(Xor(Register(data[..|data| - 1]), data[|data| - 1] as nat), 8)
  }

  /** The CRC-32 of data. */
  function Crc(data: seq<byte>): nat
  {
    Xor(Register(data), AllOnes)
  }

  /** Entry i of the table: i shifted eight times. */
  function TableEntry(i: nat): nat
  {
    Steps(i, 8)
  }

  /** The 256 entries the nested loops of `generate` store in `crcTable`. */
  function CrcTable(): (t: seq<nat>)
    ensures |t| == 256
    ensures forall i :: 0 <= i < 256 ==> t[i] == TableEntry(i)
  {
    seq(256, i requires 0 <= i < 256 => TableEntry(i))
  }

  lemma {:induction false} StepsLast(c: nat, k: nat)
    ensures Steps(c, k + 1) == Step(Steps(c, k))
    decreases k
  {
    if k > 0 {
      StepsLast(Step(c), k - 1);
    }
  }

  /** A shift keeps the register within 32 bits. */
  lemma StepBound(c: nat)
    requires c < 0x1_0000_0000
    ensures Step(c) < 0x1_0000_0000
  {
    Pow2ThirtyTwo();
    XorBound(Polynomial, c / 2, 32);
  }

  lemma {:induction false} StepsBound(c: nat, k: nat)
    requires c < 0x1_0000_0000
    ensures Steps(c, k) < 0x1_0000_0000
    decreases k
  {
    if k > 0 {
      StepBound(c);
      StepsBound(Step(c), k - 1);
    }
  }

  /** The register, and hence the CRC, is an unsigned 32-bit number. */
  lemma {:induction false} RegisterBound(data: seq<byte>)
    ensures Register(data) < 0x1_0000_0000
    decreases |data|
  {
    if data != [] {
      var reg := Register(data[..|data| - 1]);
      RegisterBound(data[..|data| - 1]);
      Pow2ThirtyTwo();
      Pow2Eight();
      XorBound(reg, data[|data| - 1] as nat, 32);
      StepsBound(Xor(reg, data[|data| - 1] as nat), 8);
    }
  }

  lemma CrcBound(data: seq<byte>)
    ensures Crc(data) < 0x1_0000_0000
  {
    RegisterBound(data);
    Pow2ThirtyTwo();
    XorBound(Register(data), AllOnes, 32);
  }

  /** No data, no checksum: the final exclusive-or undoes the initial one. */
  lemma CrcOfNothing()
    ensures Crc([]) == 0
  {
    XorSelf(AllOnes);
  }

  lemma EvenSum(h: nat, l: nat)
    requires h % 2 == 0
    ensures (h + l) % 2 == l % 2
  {
  }

  /** A shift passes an even summand through as a plain shift. */
  lemma ShiftEven(h: nat, l: nat)
    requires h % 2 == 0
    ensures Step(Xor(h, l)) == Xor(h / 2, Step(l))
  {
    XorBits(h, l);
    EvenSum(h, l);
    if l % 2 == 1 {
      XorAssoc(Polynomial, h / 2, l / 2);
      XorComm(Polynomial, h / 2);
      XorAssoc(h / 2, Polynomial, l / 2);
    }
  }

  /** Shifting is linear over GF(2): while the bits a summand shifts out are
      zero, the summand is only shifted. */
  lemma {:induction false} ShiftsOfHighPart(h: nat, l: nat, k: nat)
    requires LowZero(h, k)
    ensures Steps(Xor(h, l), k) == Xor(ShiftedOut(h, k), Steps(l, k))
    decreases k
  {
    if k > 0 {
      ShiftEven(h, l);
      ShiftsOfHighPart(h / 2, Step(l), k - 1);
    }
  }

  /** The low byte of 256 q is clear, and eight shifts leave q. */
  lemma MultipleOf256(q: nat)
    ensures LowZero(256 * q, 8)
    ensures ShiftedOut(256 * q, 8) == q
  {
    Pow2Eight();
    ShiftsOfMultiple(q, 8);
    assert Pow2(8) * q == 256 * q;
  }

  /** Folding a byte into the register changes only its low byte. */
  lemma FoldByte(reg: nat, b: byte)
    ensures Xor(reg % 256, b as nat) < 256
    ensures Xor(reg, b as nat) == 256 * (reg / 256) + Xor(reg % 256, b as nat)
    ensures Xor(reg, b as nat) % 256 == Xor(reg % 256, b as nat)
  {
    Pow2Eight();
    XorBound(reg % 256, b as nat, 8);
    MultipleOf256(reg / 256);
    XorHighLow(256 * (reg / 256), reg % 256, b as nat, 8);
    DivModUnique(Xor(reg, b as nat), 256, reg / 256, Xor(reg % 256, b as nat));
  }

  /** The same, with the summands added: their bits do not overlap. */
  lemma ShiftsOfSum(h: nat, l: nat, k: nat)
    requires LowZero(h, k) && l < Pow2(k)
    ensures Steps(h + l, k) == Xor(ShiftedOut(h, k), Steps(l, k))
  {
    XorDisjoint(h, l, k);
    ShiftsOfHighPart(h, l, k);
  }

  /** Eight shifts move the high part of the register down a byte and
      leave the low byte to the table. */
  lemma ShiftsOfHighBytes(x: nat, q: nat, low: nat, k: nat)
    requires Pow2(k) == 256
    requires low < 256 && x == 256 * q + low
    ensures Steps(x, k) == Xor(q, Steps(low, k))
  {
    ShiftsOfMultiple(q, k);
    ShiftsOfSum(Pow2(k) * q, low, k);
  }

  /** One iteration of the table-driven loop,
      (crc >>> 8) ^ crcTable[(crc ^ byte) & 0xFF], is eight single-bit
      shifts of the register with the byte folded into its low bits. */
  lemma TableStep(reg: nat, b: byte)
    ensures Xor(reg / 256, CrcTable()[Xor(reg, b as nat) % 256]) == Steps(Xor(reg, b as nat), 8)
  {
    FoldByte(reg, b);
    Pow2Eight();
    ShiftsOfHighBytes(Xor(reg, b as nat), reg / 256, Xor(reg % 256, b as nat), 8);
  }

  /** The `crcTable` loops: entry i is i shifted eight times. */
  method BuildCrcTable() returns (table: array<nat>)
    ensures fresh(table)
    ensures table[..] == CrcTable()
  {
    table := new nat[256];
    for i := 0 to 256
      invariant table[..i] == CrcTable()[..i]
    {
      var c := i;
      label Shifting:
      for k := 0 to 8
        invariant unchanged@Shifting(table)
        invariant c == Steps(i, k)
      {
        StepsLast(i, k);
        c := if c % 2 == 1 then Xor(Polynomial, c / 2) else c / 2;
      }
      assert c == CrcTable()[i];
      table[i] := c;
      assert table[..i + 1] == CrcTable()[..i] + [CrcTable()[i]];
    }
    assert table[..] == CrcTable()[..256];
  }

  /** The `crc32` closure: one table lookup per byte. Its result is the
      bit-at-a-time CRC-32. */
  method ComputeCrc32(table: array<nat>, data: seq<byte>) returns (crc: nat)
    requires table[..] == CrcTable()
    ensures crc == Crc(data)
  {
    var c := AllOnes;
    for i := 0 to |data|
      invariant c == Register(data[..i])
    {
      TableStep(c, data[i]);
      assert data[..i + 1][..i] == data[..i];
      c := Xor(c / 256, table[Xor(c, data[i] as nat) % 256]);
    }
    assert data[..|data|] == data;
    crc := Xor(c, AllOnes);
  }
}
