/**
 The CRC-32 of files and strings: table-driven, and without the final complement.

 The register is the one of section 8 of RFC 1952: bits enter at the low end, the reflected
 polynomial is 0xEDB88320, and it starts with all ones.
 */
module Crc {

  /** The bits of 0x04C11DB7 in reverse order. */
  const POLYNOMIAL: bv32 := 0xEDB88320
  const ALL_ONES: bv32 := 0xFFFFFFFF

  /** The sum of two words over bits. */
  function Sum(x: bv32, y: bv32): bv32 { x ^ y }

  // ----- the register, bit by bit

  /** One turn of the register. */
  function Step(x: bv32): bv32 { if x & 1 == 1 then (x >> 1) ^ POLYNOMIAL else x >> 1 }

  function Eight(x: bv32): bv32 { Step(Step(Step(Step(Step(Step(Step(Step(x)))))))) }

  function Bit(b: bool): bv32 { if b then 1 else 0 }

  /** The register after the bits, each added at the low end before a turn. */
  function Serial(bits: seq<bool>, from: bv32): bv32 {
    if bits == [] then from else Step(Sum(Serial(bits[..|bits| - 1], from), Bit(bits[|bits| - 1])))
  }

  /** The bits of a byte, low bit first. */
  function BitsOf(b: bv8): (s: seq<bool>)
    ensures |s| == 8
  {
    [b & 1 != 0, b & 2 != 0, b & 4 != 0, b & 8 != 0, b & 16 != 0, b & 32 != 0, b & 64 != 0, b & 128 != 0]
  }

  function AllBits(data: seq<bv8>): seq<bool> {
    if data == [] then [] else AllBits(data[..|data| - 1]) + BitsOf(data[|data| - 1])
  }

  function Wide(b: bv8): bv32 { b as bv32 }

  /** The register after the bytes, eight turns each. */
  function Register(data: seq<bv8>, from: bv32): bv32 {
    if data == [] then from else Eight(Sum(Register(data[..|data| - 1], from), Wide(data[|data| - 1])))
  }

  // ----- the table

  const ROW_0: seq<bv32> := [
    0x00000000, 0x77073096, 0xee0e612c, 0x990951ba, 0x076dc419, 0x706af48f, 0xe963a535, 0x9e6495a3,
    0x0edb8832, 0x79dcb8a4, 0xe0d5e91e, 0x97d2d988, 0x09b64c2b, 0x7eb17cbd, 0xe7b82d07, 0x90bf1d91]

  const ROW_1: seq<bv32> := [
    0x1db71064, 0x6ab020f2, 0xf3b97148, 0x84be41de, 0x1adad47d, 0x6ddde4eb, 0xf4d4b551, 0x83d385c7,
    0x136c9856, 0x646ba8c0, 0xfd62f97a, 0x8a65c9ec, 0x14015c4f, 0x63066cd9, 0xfa0f3d63, 0x8d080df5]

  const ROW_2: seq<bv32> := [
    0x3b6e20c8, 0x4c69105e, 0xd56041e4, 0xa2677172, 0x3c03e4d1, 0x4b04d447, 0xd20d85fd, 0xa50ab56b,
    0x35b5a8fa, 0x42b2986c, 0xdbbbc9d6, 0xacbcf940, 0x32d86ce3, 0x45df5c75, 0xdcd60dcf, 0xabd13d59]

  const ROW_3: seq<bv32> := [
    0x26d930ac, 0x51de003a, 0xc8d75180, 0xbfd06116, 0x21b4f4b5, 0x56b3c423, 0xcfba9599, 0xb8bda50f,
    0x2802b89e, 0x5f058808, 0xc60cd9b2, 0xb10be924, 0x2f6f7c87, 0x58684c11, 0xc1611dab, 0xb6662d3d]

  const ROW_4: seq<bv32> := [
    0x76dc4190, 0x01db7106, 0x98d220bc, 0xefd5102a, 0x71b18589, 0x06b6b51f, 0x9fbfe4a5, 0xe8b8d433,
    0x7807c9a2, 0x0f00f934, 0x9609a88e, 0xe10e9818, 0x7f6a0dbb, 0x086d3d2d, 0x91646c97, 0xe6635c01]

  const ROW_5: seq<bv32> := [
    0x6b6b51f4, 0x1c6c6162, 0x856530d8, 0xf262004e, 0x6c0695ed, 0x1b01a57b, 0x8208f4c1, 0xf50fc457,
    0x65b0d9c6, 0x12b7e950, 0x8bbeb8ea, 0xfcb9887c, 0x62dd1ddf, 0x15da2d49, 0x8cd37cf3, 0xfbd44c65]

  const ROW_6: seq<bv32> := [
    0x4db26158, 0x3ab551ce, 0xa3bc0074, 0xd4bb30e2, 0x4adfa541, 0x3dd895d7, 0xa4d1c46d, 0xd3d6f4fb,
    0x4369e96a, 0x346ed9fc, 0xad678846, 0xda60b8d0, 0x44042d73, 0x33031de5, 0xaa0a4c5f, 0xdd0d7cc9]

  const ROW_7: seq<bv32> := [
    0x5005713c, 0x270241aa, 0xbe0b1010, 0xc90c2086, 0x5768b525, 0x206f85b3, 0xb966d409, 0xce61e49f,
    0x5edef90e, 0x29d9c998, 0xb0d09822, 0xc7d7a8b4, 0x59b33d17, 0x2eb40d81, 0xb7bd5c3b, 0xc0ba6cad]

  const ROW_8: seq<bv32> := [
    0xedb88320, 0x9abfb3b6, 0x03b6e20c, 0x74b1d29a, 0xead54739, 0x9dd277af, 0x04db2615, 0x73dc1683,
    0xe3630b12, 0x94643b84, 0x0d6d6a3e, 0x7a6a5aa8, 0xe40ecf0b, 0x9309ff9d, 0x0a00ae27, 0x7d079eb1]

  const ROW_9: seq<bv32> := [
    0xf00f9344, 0x8708a3d2, 0x1e01f268, 0x6906c2fe, 0xf762575d, 0x806567cb, 0x196c3671, 0x6e6b06e7,
    0xfed41b76, 0x89d32be0, 0x10da7a5a, 0x67dd4acc, 0xf9b9df6f, 0x8ebeeff9, 0x17b7be43, 0x60b08ed5]

  const ROW_A: seq<bv32> := [
    0xd6d6a3e8, 0xa1d1937e, 0x38d8c2c4, 0x4fdff252, 0xd1bb67f1, 0xa6bc5767, 0x3fb506dd, 0x48b2364b,
    0xd80d2bda, 0xaf0a1b4c, 0x36034af6, 0x41047a60, 0xdf60efc3, 0xa867df55, 0x316e8eef, 0x4669be79]

  const ROW_B: seq<bv32> := [
    0xcb61b38c, 0xbc66831a, 0x256fd2a0, 0x5268e236, 0xcc0c7795, 0xbb0b4703, 0x220216b9, 0x5505262f,
    0xc5ba3bbe, 0xb2bd0b28, 0x2bb45a92, 0x5cb36a04, 0xc2d7ffa7, 0xb5d0cf31, 0x2cd99e8b, 0x5bdeae1d]

  const ROW_C: seq<bv32> := [
    0x9b64c2b0, 0xec63f226, 0x756aa39c, 0x026d930a, 0x9c0906a9, 0xeb0e363f, 0x72076785, 0x05005713,
    0x95bf4a82, 0xe2b87a14, 0x7bb12bae, 0x0cb61b38, 0x92d28e9b, 0xe5d5be0d, 0x7cdcefb7, 0x0bdbdf21]

  const ROW_D: seq<bv32> := [
    0x86d3d2d4, 0xf1d4e242, 0x68ddb3f8, 0x1fda836e, 0x81be16cd, 0xf6b9265b, 0x6fb077e1, 0x18b74777,
    0x88085ae6, 0xff0f6a70, 0x66063bca, 0x11010b5c, 0x8f659eff, 0xf862ae69, 0x616bffd3, 0x166ccf45]

  const ROW_E: seq<bv32> := [
    0xa00ae278, 0xd70dd2ee, 0x4e048354, 0x3903b3c2, 0xa7672661, 0xd06016f7, 0x4969474d, 0x3e6e77db,
    0xaed16a4a, 0xd9d65adc, 0x40df0b66, 0x37d83bf0, 0xa9bcae53, 0xdebb9ec5, 0x47b2cf7f, 0x30b5ffe9]

  const ROW_F: seq<bv32> := [
    0xbdbdf21c, 0xcabac28a, 0x53b39330, 0x24b4a3a6, 0xbad03605, 0xcdd70693, 0x54de5729, 0x23d967bf,
    0xb3667a2e, 0xc4614ab8, 0x5d681b02, 0x2a6f2b94, 0xb40bbe37, 0xc30c8ea1, 0x5a05df1b, 0x2d02ef8d]

  const QUARTER_0 := ROW_0 + ROW_1 + ROW_2 + ROW_3
  const QUARTER_1 := ROW_4 + ROW_5 + ROW_6 + ROW_7
  const QUARTER_2 := ROW_8 + ROW_9 + ROW_A + ROW_B
  const QUARTER_3 := ROW_C + ROW_D + ROW_E + ROW_F

  const CRC_TABLE := QUARTER_0 + QUARTER_1 + QUARTER_2 + QUARTER_3

  lemma Row0(c: bv32)
    requires 0 <= c as int < 16
    ensures ROW_0[c as int - 0] == Eight(c)
  {
    assert ROW_0 == [
      Eight(0x00), Eight(0x01), Eight(0x02), Eight(0x03), Eight(0x04), Eight(0x05), Eight(0x06), Eight(0x07),
      Eight(0x08), Eight(0x09), Eight(0x0A), Eight(0x0B), Eight(0x0C), Eight(0x0D), Eight(0x0E), Eight(0x0F)];
    hide Eight;
  }

  lemma Row1(c: bv32)
    requires 16 <= c as int < 32
    ensures ROW_1[c as int - 16] == Eight(c)
  {
    assert ROW_1 == [
      Eight(0x10), Eight(0x11), Eight(0x12), Eight(0x13), Eight(0x14), Eight(0x15), Eight(0x16), Eight(0x17),
      Eight(0x18), Eight(0x19), Eight(0x1A), Eight(0x1B), Eight(0x1C), Eight(0x1D), Eight(0x1E), Eight(0x1F)];
    hide Eight;
  }

  lemma Row2(c: bv32)
    requires 32 <= c as int < 48
    ensures ROW_2[c as int - 32] == Eight(c)
  {
    assert ROW_2 == [
      Eight(0x20), Eight(0x21), Eight(0x22), Eight(0x23), Eight(0x24), Eight(0x25), Eight(0x26), Eight(0x27),
      Eight(0x28), Eight(0x29), Eight(0x2A), Eight(0x2B), Eight(0x2C), Eight(0x2D), Eight(0x2E), Eight(0x2F)];
    hide Eight;
  }

  lemma Row3(c: bv32)
    requires 48 <= c as int < 64
    ensures ROW_3[c as int - 48] == Eight(c)
  {
    assert ROW_3 == [
      Eight(0x30), Eight(0x31), Eight(0x32), Eight(0x33), Eight(0x34), Eight(0x35), Eight(0x36), Eight(0x37),
      Eight(0x38), Eight(0x39), Eight(0x3A), Eight(0x3B), Eight(0x3C), Eight(0x3D), Eight(0x3E), Eight(0x3F)];
    hide Eight;
  }

  lemma Row4(c: bv32)
    requires 64 <= c as int < 80
    ensures ROW_4[c as int - 64] == Eight(c)
  {
    assert ROW_4 == [
      Eight(0x40), Eight(0x41), Eight(0x42), Eight(0x43), Eight(0x44), Eight(0x45), Eight(0x46), Eight(0x47),
      Eight(0x48), Eight(0x49), Eight(0x4A), Eight(0x4B), Eight(0x4C), Eight(0x4D), Eight(0x4E), Eight(0x4F)];
    hide Eight;
  }

  lemma Row5(c: bv32)
    requires 80 <= c as int < 96
    ensures ROW_5[c as int - 80] == Eight(c)
  {
    assert ROW_5 == [
      Eight(0x50), Eight(0x51), Eight(0x52), Eight(0x53), Eight(0x54), Eight(0x55), Eight(0x56), Eight(0x57),
      Eight(0x58), Eight(0x59), Eight(0x5A), Eight(0x5B), Eight(0x5C), Eight(0x5D), Eight(0x5E), Eight(0x5F)];
    hide Eight;
  }

  lemma Row6(c: bv32)
    requires 96 <= c as int < 112
    ensures ROW_6[c as int - 96] == Eight(c)
  {
    assert ROW_6 == [
      Eight(0x60), Eight(0x61), Eight(0x62), Eight(0x63), Eight(0x64), Eight(0x65), Eight(0x66), Eight(0x67),
      Eight(0x68), Eight(0x69), Eight(0x6A), Eight(0x6B), Eight(0x6C), Eight(0x6D), Eight(0x6E), Eight(0x6F)];
    hide Eight;
  }

  lemma Row7(c: bv32)
    requires 112 <= c as int < 128
    ensures ROW_7[c as int - 112] == Eight(c)
  {
    assert ROW_7 == [
      Eight(0x70), Eight(0x71), Eight(0x72), Eight(0x73), Eight(0x74), Eight(0x75), Eight(0x76), Eight(0x77),
      Eight(0x78), Eight(0x79), Eight(0x7A), Eight(0x7B), Eight(0x7C), Eight(0x7D), Eight(0x7E), Eight(0x7F)];
    hide Eight;
  }

  lemma Row8(c: bv32)
    requires 128 <= c as int < 144
    ensures ROW_8[c as int - 128] == Eight(c)
  {
    assert ROW_8 == [
      Eight(0x80), Eight(0x81), Eight(0x82), Eight(0x83), Eight(0x84), Eight(0x85), Eight(0x86), Eight(0x87),
      Eight(0x88), Eight(0x89), Eight(0x8A), Eight(0x8B), Eight(0x8C), Eight(0x8D), Eight(0x8E), Eight(0x8F)];
    hide Eight;
  }

  lemma Row9(c: bv32)
    requires 144 <= c as int < 160
    ensures ROW_9[c as int - 144] == Eight(c)
  {
    assert ROW_9 == [
      Eight(0x90), Eight(0x91), Eight(0x92), Eight(0x93), Eight(0x94), Eight(0x95), Eight(0x96), Eight(0x97),
      Eight(0x98), Eight(0x99), Eight(0x9A), Eight(0x9B), Eight(0x9C), Eight(0x9D), Eight(0x9E), Eight(0x9F)];
    hide Eight;
  }

  lemma RowA(c: bv32)
    requires 160 <= c as int < 176
    ensures ROW_A[c as int - 160] == Eight(c)
  {
    assert ROW_A == [
      Eight(0xA0), Eight(0xA1), Eight(0xA2), Eight(0xA3), Eight(0xA4), Eight(0xA5), Eight(0xA6), Eight(0xA7),
      Eight(0xA8), Eight(0xA9), Eight(0xAA), Eight(0xAB), Eight(0xAC), Eight(0xAD), Eight(0xAE), Eight(0xAF)];
    hide Eight;
  }

  lemma RowB(c: bv32)
    requires 176 <= c as int < 192
    ensures ROW_B[c as int - 176] == Eight(c)
  {
    assert ROW_B == [
      Eight(0xB0), Eight(0xB1), Eight(0xB2), Eight(0xB3), Eight(0xB4), Eight(0xB5), Eight(0xB6), Eight(0xB7),
      Eight(0xB8), Eight(0xB9), Eight(0xBA), Eight(0xBB), Eight(0xBC), Eight(0xBD), Eight(0xBE), Eight(0xBF)];
    hide Eight;
  }

  lemma RowC(c: bv32)
    requires 192 <= c as int < 208
    ensures ROW_C[c as int - 192] == Eight(c)
  {
    assert ROW_C == [
      Eight(0xC0), Eight(0xC1), Eight(0xC2), Eight(0xC3), Eight(0xC4), Eight(0xC5), Eight(0xC6), Eight(0xC7),
      Eight(0xC8), Eight(0xC9), Eight(0xCA), Eight(0xCB), Eight(0xCC), Eight(0xCD), Eight(0xCE), Eight(0xCF)];
    hide Eight;
  }

  lemma RowD(c: bv32)
    requires 208 <= c as int < 224
    ensures ROW_D[c as int - 208] == Eight(c)
  {
    assert ROW_D == [
      Eight(0xD0), Eight(0xD1), Eight(0xD2), Eight(0xD3), Eight(0xD4), Eight(0xD5), Eight(0xD6), Eight(0xD7),
      Eight(0xD8), Eight(0xD9), Eight(0xDA), Eight(0xDB), Eight(0xDC), Eight(0xDD), Eight(0xDE), Eight(0xDF)];
    hide Eight;
  }

  lemma RowE(c: bv32)
    requires 224 <= c as int < 240
    ensures ROW_E[c as int - 224] == Eight(c)
  {
    assert ROW_E == [
      Eight(0xE0), Eight(0xE1), Eight(0xE2), Eight(0xE3), Eight(0xE4), Eight(0xE5), Eight(0xE6), Eight(0xE7),
      Eight(0xE8), Eight(0xE9), Eight(0xEA), Eight(0xEB), Eight(0xEC), Eight(0xED), Eight(0xEE), Eight(0xEF)];
    hide Eight;
  }

  lemma RowF(c: bv32)
    requires 240 <= c as int < 256
    ensures ROW_F[c as int - 240] == Eight(c)
  {
    assert ROW_F == [
      Eight(0xF0), Eight(0xF1), Eight(0xF2), Eight(0xF3), Eight(0xF4), Eight(0xF5), Eight(0xF6), Eight(0xF7),
      Eight(0xF8), Eight(0xF9), Eight(0xFA), Eight(0xFB), Eight(0xFC), Eight(0xFD), Eight(0xFE), Eight(0xFF)];
    hide Eight;
  }

  lemma Quarter0(c: bv32)
    requires 0 <= c as int < 64
    ensures |QUARTER_0| == 64 && QUARTER_0[c as int - 0] == Eight(c)
  {
    hide Eight;
    if c as int < 16 {
      Row0(c);
    } else if c as int < 32 {
      Row1(c);
    } else if c as int < 48 {
      Row2(c);
    } else {
      Row3(c);
    }
  }

  lemma Quarter1(c: bv32)
    requires 64 <= c as int < 128
    ensures |QUARTER_1| == 64 && QUARTER_1[c as int - 64] == Eight(c)
  {
    hide Eight;
    if c as int < 80 {
      Row4(c);
    } else if c as int < 96 {
      Row5(c);
    } else if c as int < 112 {
      Row6(c);
    } else {
      Row7(c);
    }
  }

  lemma Quarter2(c: bv32)
    requires 128 <= c as int < 192
    ensures |QUARTER_2| == 64 && QUARTER_2[c as int - 128] == Eight(c)
  {
    hide Eight;
    if c as int < 144 {
      Row8(c);
    } else if c as int < 160 {
      Row9(c);
    } else if c as int < 176 {
      RowA(c);
    } else {
      RowB(c);
    }
  }

  lemma Quarter3(c: bv32)
    requires 192 <= c as int < 256
    ensures |QUARTER_3| == 64 && QUARTER_3[c as int - 192] == Eight(c)
  {
    hide Eight;
    if c as int < 208 {
      RowC(c);
    } else if c as int < 224 {
      RowD(c);
    } else if c as int < 240 {
      RowE(c);
    } else {
      RowF(c);
    }
  }

  lemma TableSize()
    ensures |QUARTER_0| == 64 && |QUARTER_1| == 64 && |QUARTER_2| == 64 && |QUARTER_3| == 64 && |CRC_TABLE| == 256
  {}

  /** Every entry of the table is its index after eight turns. */
  lemma TableEntry(c: bv32)
    requires c as int < 256
    ensures |CRC_TABLE| == 256 && CRC_TABLE[c as int] == Eight(c)
  {
    hide Eight;
    TableSize();
    if c as int < 64 {
      Quarter0(c);
    } else if c as int < 128 {
      Quarter1(c);
    } else if c as int < 192 {
      Quarter2(c);
    } else {
      Quarter3(c);
    }
  }

  lemma LowByteIsIndex(x: bv32)
    ensures (x & 0xFF) as int < 256
  {
    assert x & 0xFF <= 0xFF;
  }

  /** Eight turns by one lookup. */
  lemma LookUp(x: bv32)
    ensures Eight(x) == Sum(Eight(x & 0xFF), x >> 8)
  {
    SplitLow(x);
    EightLinear(x & 0xFF, x & 0xFFFFFF00);
    EightShifts(x);
    hide Eight, Sum;
  }

  lemma SplitLow(x: bv32)
    ensures x == Sum(x & 0xFF, x & 0xFFFFFF00)
  {}

  lemma EightShifts(x: bv32)
    ensures Eight(x & 0xFFFFFF00) == x >> 8
  {}

  // ----- linearity

  lemma XorShift(x: bv32, y: bv32)
    ensures (x ^ y) >> 1 == (x >> 1) ^ (y >> 1)
  {}

  lemma XorLowBit(x: bv32, y: bv32)
    ensures (x ^ y) & 1 == (x & 1) ^ (y & 1)
    ensures x & 1 == 0 || x & 1 == 1
    ensures y & 1 == 0 || y & 1 == 1
  {}

  lemma XorCancels(a: bv32, b: bv32, c: bv32)
    ensures (a ^ c) ^ (b ^ c) == a ^ b
  {}

  lemma XorMoves(a: bv32, b: bv32, c: bv32)
    ensures (a ^ c) ^ b == (a ^ b) ^ c
  {}

  lemma StepXor(x: bv32, y: bv32)
    ensures Step(x ^ y) == Step(x) ^ Step(y)
  {
    XorShift(x, y);
    XorLowBit(x, y);
    XorCancels(x >> 1, y >> 1, POLYNOMIAL);
    XorMoves(x >> 1, y >> 1, POLYNOMIAL);
  }

  lemma StepLinear(x: bv32, y: bv32)
    ensures Step(Sum(x, y)) == Sum(Step(x), Step(y))
  {
    StepXor(x, y);
    assert Sum(x, y) == x ^ y && Sum(Step(x), Step(y)) == Step(x) ^ Step(y);
    hide *;
  }

  lemma TwoLinear(x: bv32, y: bv32)
    ensures Step(Step(Sum(x, y))) == Sum(Step(Step(x)), Step(Step(y)))
  {
    hide Step, Sum;
    StepLinear(x, y);
    StepLinear(Step(x), Step(y));
  }

  lemma FourLinear(x: bv32, y: bv32)
    ensures Step(Step(Step(Step(Sum(x, y))))) == Sum(Step(Step(Step(Step(x)))), Step(Step(Step(Step(y)))))
  {
    hide Step, Sum;
    TwoLinear(x, y);
    TwoLinear(Step(Step(x)), Step(Step(y)));
  }

  lemma EightLinear(x: bv32, y: bv32)
    ensures Eight(Sum(x, y)) == Sum(Eight(x), Eight(y))
  {
    hide Step, Sum;
    FourLinear(x, y);
    FourLinear(Step(Step(Step(Step(x)))), Step(Step(Step(Step(y)))));
  }

  function Xor(a: seq<bv8>, b: seq<bv8>): (c: seq<bv8>)
    requires |a| == |b|
    ensures |c| == |a| && forall i :: 0 <= i < |a| ==> c[i] == a[i] ^ b[i]
  {
    seq(|a|, i requires 0 <= i < |a| => a[i] ^ b[i])
  }

  lemma SumOfBytes(p: bv32, q: bv32, a: bv8, b: bv8)
    ensures Sum(Sum(p, q), Wide(a ^ b)) == Sum(Sum(p, Wide(a)), Sum(q, Wide(b)))
  {}

  /** The register is linear in where it starts and in the data together. */
  lemma {:induction false} RegisterLinear(a: seq<bv8>, b: seq<bv8>, p: bv32, q: bv32)
    requires |a| == |b|
    ensures Register(Xor(a, b), Sum(p, q)) == Sum(Register(a, p), Register(b, q))
  {
    hide Eight, Sum, Wide;
    if a != [] {
      var n := |a| - 1;
      RegisterLinear(a[..n], b[..n], p, q);
      assert Xor(a, b)[..n] == Xor(a[..n], b[..n]);
      SumOfBytes(Register(a[..n], p), Register(b[..n], q), a[n], b[n]);
      EightLinear(Sum(Register(a[..n], p), Wide(a[n])), Sum(Register(b[..n], q), Wide(b[n])));
    }
  }

  /** So the checksum is affine in the data. */
  lemma ChecksumAffine(a: seq<bv8>, b: seq<bv8>, c: seq<bv8>)
    requires |a| == |b| == |c|
    ensures Register(Xor(Xor(a, b), c), ALL_ONES) ==
            Sum(Sum(Register(a, ALL_ONES), Register(b, ALL_ONES)), Register(c, ALL_ONES))
  {
    assert Sum(Sum(ALL_ONES, ALL_ONES), ALL_ONES) == ALL_ONES;
    hide Sum, Register;
    RegisterLinear(a, b, ALL_ONES, ALL_ONES);
    RegisterLinear(Xor(a, b), c, Sum(ALL_ONES, ALL_ONES), ALL_ONES);
  }

  // ----- bytes and bits

  /** A turn takes the low bit of what is added, and leaves the rest for the next turn. */
  lemma PeelBit(r: bv32, b: bv32)
    ensures Step(Sum(r, b)) == Sum(Step(Sum(r, b & 1)), b >> 1)
  {
    SplitBit(r, b);
    StepLinear(Sum(r, b & 1), b & 0xFFFFFFFE);
    StepOfRest(b);
    hide Step, Sum;
  }

  lemma SplitBit(r: bv32, b: bv32)
    ensures Sum(r, b) == Sum(Sum(r, b & 1), b & 0xFFFFFFFE)
  {}

  lemma StepOfRest(b: bv32)
    ensures Step(b & 0xFFFFFFFE) == b >> 1
  {}

  lemma BitOf(b: bv8)
    ensures (b as bv32) & 1 == (if b & 1 != 0 then 1 else 0)
    ensures ((b as bv32) >> 1) & 1 == (if b & 2 != 0 then 1 else 0)
    ensures ((b as bv32) >> 2) & 1 == (if b & 4 != 0 then 1 else 0)
    ensures ((b as bv32) >> 3) & 1 == (if b & 8 != 0 then 1 else 0)
    ensures ((b as bv32) >> 4) & 1 == (if b & 16 != 0 then 1 else 0)
    ensures ((b as bv32) >> 5) & 1 == (if b & 32 != 0 then 1 else 0)
    ensures ((b as bv32) >> 6) & 1 == (if b & 64 != 0 then 1 else 0)
    ensures ((b as bv32) >> 7) & 1 == (if b & 128 != 0 then 1 else 0)
    ensures (b as bv32) >> 8 == 0
  {}

  /** The part of a byte that is still to be added after `k` turns. */
  function Rest(b: bv8, k: bv32): bv32
    requires k <= 8
  {
    if k == 0 then b as bv32 else if k == 1 then (b as bv32) >> 1 else if k == 2 then (b as bv32) >> 2
    else if k == 3 then (b as bv32) >> 3 else if k == 4 then (b as bv32) >> 4 else if k == 5 then (b as bv32) >> 5
    else if k == 6 then (b as bv32) >> 6 else if k == 7 then (b as bv32) >> 7 else (b as bv32) >> 8
  }

  lemma RestLosesBits(b: bv8)
    ensures Rest(b, 0) >> 1 == Rest(b, 1) && Rest(b, 1) >> 1 == Rest(b, 2) && Rest(b, 2) >> 1 == Rest(b, 3)
    ensures Rest(b, 3) >> 1 == Rest(b, 4) && Rest(b, 4) >> 1 == Rest(b, 5) && Rest(b, 5) >> 1 == Rest(b, 6)
    ensures Rest(b, 6) >> 1 == Rest(b, 7) && Rest(b, 7) >> 1 == 0 && Rest(b, 0) == Wide(b)
  {}

  lemma RestHasBit(b: bv8)
    ensures var s := BitsOf(b);
            && Rest(b, 0) & 1 == Bit(s[0]) && Rest(b, 1) & 1 == Bit(s[1]) && Rest(b, 2) & 1 == Bit(s[2])
            && Rest(b, 3) & 1 == Bit(s[3]) && Rest(b, 4) & 1 == Bit(s[4]) && Rest(b, 5) & 1 == Bit(s[5])
            && Rest(b, 6) & 1 == Bit(s[6]) && Rest(b, 7) & 1 == Bit(s[7])
  {
    BitOf(b);
  }

  lemma SumZero(x: bv32)
    ensures Sum(x, 0) == x
  {}

  lemma SerialMore(bits: seq<bool>, bit: bool, from: bv32)
    ensures Serial(bits + [bit], from) == Step(Sum(Serial(bits, from), Bit(bit)))
  {
    hide Step, Sum;
    assert (bits + [bit])[..|bits|] == bits;
  }

  /** Turning with a byte's rest added is turning with its next bit, the smaller rest added after. */
  lemma OneBit(bits: seq<bool>, from: bv32, bit: bool, rest: bv32, next: bv32)
    requires rest & 1 == Bit(bit) && rest >> 1 == next
    ensures Step(Sum(Serial(bits, from), rest)) == Sum(Serial(bits + [bit], from), next)
  {
    hide Step, Sum, Serial;
    PeelBit(Serial(bits, from), rest);
    SerialMore(bits, bit, from);
  }

  lemma FourBits(bits: seq<bool>, from: bv32, s: seq<bool>, r0: bv32, r1: bv32, r2: bv32, r3: bv32, r4: bv32)
    requires |s| == 4
    requires r0 & 1 == Bit(s[0]) && r1 & 1 == Bit(s[1]) && r2 & 1 == Bit(s[2]) && r3 & 1 == Bit(s[3])
    requires r0 >> 1 == r1 && r1 >> 1 == r2 && r2 >> 1 == r3 && r3 >> 1 == r4
    ensures Step(Step(Step(Step(Sum(Serial(bits, from), r0))))) == Sum(Serial(bits + s, from), r4)
  {
    hide Step, Sum, Serial;
    OneBit(bits, from, s[0], r0, r1);
    OneBit(bits + [s[0]], from, s[1], r1, r2);
    OneBit(bits + [s[0]] + [s[1]], from, s[2], r2, r3);
    OneBit(bits + [s[0]] + [s[1]] + [s[2]], from, s[3], r3, r4);
    assert bits + s == bits + [s[0]] + [s[1]] + [s[2]] + [s[3]];
  }

  lemma Halves(s: seq<bool>, bits: seq<bool>)
    requires |s| == 8
    ensures bits + s[..4] + s[4..] == bits + s
    ensures s[..4][0] == s[0] && s[..4][1] == s[1] && s[..4][2] == s[2] && s[..4][3] == s[3]
    ensures s[4..][0] == s[4] && s[4..][1] == s[5] && s[4..][2] == s[6] && s[4..][3] == s[7]
  {}

  /** Eight turns with a byte added are its eight bits, one turn each. */
  lemma ByteBitByBit(bits: seq<bool>, from: bv32, b: bv8)
    ensures Eight(Sum(Serial(bits, from), Wide(b))) == Serial(bits + BitsOf(b), from)
  {
    var s := BitsOf(b);
    Halves(s, bits);
    RestHasBit(b);
    RestLosesBits(b);
    hide Step, Sum, Serial, Rest, BitsOf, Wide, Bit;
    FourBits(bits, from, s[..4], Rest(b, 0), Rest(b, 1), Rest(b, 2), Rest(b, 3), Rest(b, 4));
    FourBits(bits + s[..4], from, s[4..], Rest(b, 4), Rest(b, 5), Rest(b, 6), Rest(b, 7), 0);
    SumZero(Serial(bits + s, from));
  }

  /** The register, byte by byte, is the bit-serial one. */
  lemma {:induction false} RegisterIsSerial(data: seq<bv8>, from: bv32)
    ensures Register(data, from) == Serial(AllBits(data), from)
  {
    hide Eight, Serial, BitsOf, Sum, Wide;
    if data == [] {
      SerialNothing(from);
    } else {
      RegisterIsSerial(data[..|data| - 1], from);
      ByteBitByBit(AllBits(data[..|data| - 1]), from, data[|data| - 1]);
    }
  }

  lemma SerialNothing(from: bv32)
    ensures Serial([], from) == from
  {}

  // ----- what a checksum is for

  lemma StepInjective(x: bv32, y: bv32)
    requires Step(x) == Step(y)
    ensures x == y
  {}

  lemma EightInjective(x: bv32, y: bv32)
    requires Eight(x) == Eight(y)
    ensures x == y
  {
    hide Step;
    StepInjective(Step(Step(Step(Step(Step(Step(Step(x))))))), Step(Step(Step(Step(Step(Step(Step(y))))))));
    StepInjective(Step(Step(Step(Step(Step(Step(x)))))), Step(Step(Step(Step(Step(Step(y)))))));
    StepInjective(Step(Step(Step(Step(Step(x))))), Step(Step(Step(Step(Step(y))))));
    StepInjective(Step(Step(Step(Step(x)))), Step(Step(Step(Step(y)))));
    StepInjective(Step(Step(Step(x))), Step(Step(Step(y))));
    StepInjective(Step(Step(x)), Step(Step(y)));
    StepInjective(Step(x), Step(y));
    StepInjective(x, y);
  }

  lemma SumInjective(x: bv32, y: bv32, c: bv32)
    requires Sum(x, c) == Sum(y, c)
    ensures x == y
  {
    assert x == (x ^ c) ^ c && y == (y ^ c) ^ c;
  }

  lemma {:induction false} RegisterInjective(data: seq<bv8>, p: bv32, q: bv32)
    requires Register(data, p) == Register(data, q)
    ensures p == q
  {
    hide Eight, Sum, Wide;
    if data != [] {
      var n := |data| - 1;
      var x, y := Register(data[..n], p), Register(data[..n], q);
      EightInjective(Sum(x, Wide(data[n])), Sum(y, Wide(data[n])));
      SumInjective(x, y, Wide(data[n]));
      RegisterInjective(data[..n], p, q);
    }
  }

  lemma {:induction false} RegisterSplits(a: seq<bv8>, b: seq<bv8>, from: bv32)
    ensures Register(a + b, from) == Register(b, Register(a, from))
  {
    hide Eight, Sum, Wide;
    if b == [] {
      assert a + b == a;
    } else {
      RegisterSplits(a, b[..|b| - 1], from);
      assert (a + b)[..|a + b| - 1] == a + b[..|b| - 1];
    }
  }

  /** Four bytes as one word, first byte lowest. */
  function Word(a: bv8, b: bv8, c: bv8, d: bv8): bv32 {
    (a as bv32) ^ ((b as bv32) << 8) ^ ((c as bv32) << 16) ^ ((d as bv32) << 24)
  }

  lemma WordHasBytes(a: bv8, b: bv8, c: bv8, d: bv8)
    ensures var w := Word(a, b, c, d);
            && a == (w & 0xFF) as bv8 && b == ((w >> 8) & 0xFF) as bv8 && c == ((w >> 16) & 0xFF) as bv8
            && d == ((w >> 24) & 0xFF) as bv8
  {}

  lemma Upwards(b: bv8)
    ensures Eight(Wide(b) << 8) == Wide(b) && Eight(Wide(b) << 16) == Wide(b) << 8
            && Eight(Wide(b) << 24) == Wide(b) << 16
  {}

  /** What is added after eight turns could have been added a byte higher before them. */
  lemma AddedBefore(x: bv32, y: bv32, z: bv32)
    requires Eight(z) == y
    ensures Sum(Eight(x), y) == Eight(Sum(x, z))
  {
    hide Eight, Sum;
    EightLinear(x, z);
  }

  lemma OneByte(a: bv8, from: bv32)
    ensures Register([a], from) == Eight(Sum(from, Wide(a)))
  {
    hide Eight, Sum, Wide;
    assert [a][..0] == [];
    assert Register([], from) == from;
  }

  lemma FourBytes(a: bv8, b: bv8, c: bv8, d: bv8, from: bv32)
    ensures Register([a, b, c, d], from) ==
            Eight(Sum(Eight(Sum(Eight(Sum(Eight(Sum(from, Wide(a))), Wide(b))), Wide(c))), Wide(d)))
  {
    hide Register, Eight, Sum, Wide;
    RegisterSplits([a], [b], from);
    RegisterSplits([a, b], [c], from);
    RegisterSplits([a, b, c], [d], from);
    OneByte(a, from);
    OneByte(b, Register([a], from));
    OneByte(c, Register([a, b], from));
    OneByte(d, Register([a, b, c], from));
    assert [a] + [b] == [a, b] && [a, b] + [c] == [a, b, c] && [a, b, c] + [d] == [a, b, c, d];
  }

  lemma SumOfWord(x: bv32, a: bv8, b: bv8, c: bv8, d: bv8)
    ensures Sum(Sum(Sum(Sum(x, Wide(a)), Wide(b) << 8), Wide(c) << 16), Wide(d) << 24) == Sum(x, Word(a, b, c, d))
  {
    WordIsSum(a, b, c, d);
    var p, q, r, s := Wide(a), Wide(b) << 8, Wide(c) << 16, Wide(d) << 24;
    hide Sum, Wide, Word;
    SumRegroups(x, p, q);
    SumRegroups(x, Sum(p, q), r);
    SumRegroups(x, Sum(Sum(p, q), r), s);
  }

  lemma WordIsSum(a: bv8, b: bv8, c: bv8, d: bv8)
    ensures Word(a, b, c, d) == Sum(Sum(Sum(Wide(a), Wide(b) << 8), Wide(c) << 16), Wide(d) << 24)
  {}

  lemma SumRegroups(x: bv32, y: bv32, z: bv32)
    ensures Sum(Sum(x, y), z) == Sum(x, Sum(y, z))
  {}

  /** Four bytes taken one by one are one word taken at once. */
  lemma FourBytesAtOnce(a: bv8, b: bv8, c: bv8, d: bv8, from: bv32)
    ensures Register([a, b, c, d], from) == Eight(Eight(Eight(Eight(Sum(from, Word(a, b, c, d))))))
  {
    FourBytes(a, b, c, d, from);
    SumOfWord(from, a, b, c, d);
    Upwards(b);
    Upwards(c);
    Upwards(d);
    var c8, c16, d8, d16, d24, b8 := Wide(c) << 8, Wide(c) << 16, Wide(d) << 8, Wide(d) << 16, Wide(d) << 24,
        Wide(b) << 8;
    hide Eight, Register, Sum, Wide, Word;
    var x := Sum(from, Wide(a));
    AddedBefore(x, Wide(b), b8);
    var y := Sum(x, b8);
    AddedBefore(Eight(y), Wide(c), c8);
    AddedBefore(y, c8, c16);
    var z := Sum(y, c16);
    AddedBefore(Eight(Eight(z)), Wide(d), d8);
    AddedBefore(Eight(z), d8, d16);
    AddedBefore(z, d16, d24);
  }

  lemma SumBack(x: bv32, y: bv32)
    ensures Sum(x, Sum(x, y)) == y
  {}

  lemma FourBytesDecide(a: bv8, b: bv8, c: bv8, d: bv8, e: bv8, f: bv8, g: bv8, h: bv8, from: bv32)
    requires Register([a, b, c, d], from) == Register([e, f, g, h], from)
    ensures a == e && b == f && c == g && d == h
  {
    FourBytesAtOnce(a, b, c, d, from);
    FourBytesAtOnce(e, f, g, h, from);
    var v, w := Word(a, b, c, d), Word(e, f, g, h);
    WordHasBytes(a, b, c, d);
    WordHasBytes(e, f, g, h);
    hide *;
    var x, y := Sum(from, v), Sum(from, w);
    EightInjective(Eight(Eight(Eight(x))), Eight(Eight(Eight(y))));
    EightInjective(Eight(Eight(x)), Eight(Eight(y)));
    EightInjective(Eight(x), Eight(y));
    EightInjective(x, y);
    SumBack(from, v);
    SumBack(from, w);
  }

  /** No two strings of the same length, four bytes at most, take a register to the same place. */
  lemma {:induction false} ShortChange(a: seq<bv8>, b: seq<bv8>, from: bv32)
    requires |a| == |b| <= 4 && Register(a, from) == Register(b, from)
    ensures a == b
    decreases 4 - |a|
  {
    hide Register;
    if |a| < 4 {
      RegisterSplits(a, [0], from);
      RegisterSplits(b, [0], from);
      ShortChange(a + [0], b + [0], from);
      assert a == (a + [0])[..|a|] && b == (b + [0])[..|a|];
    } else {
      assert a == [a[0], a[1], a[2], a[3]] && b == [b[0], b[1], b[2], b[3]];
      FourBytesDecide(a[0], a[1], a[2], a[3], b[0], b[1], b[2], b[3], from);
    }
  }

  /** A change inside any four bytes in a row changes the checksum. */
  lemma ChangeIsDetected(before: seq<bv8>, a: seq<bv8>, b: seq<bv8>, after: seq<bv8>)
    requires |a| == |b| <= 4 && a != b
    ensures Register(before + a + after, ALL_ONES) != Register(before + b + after, ALL_ONES)
  {
    hide Register;
    RegisterSplits(before + a, after, ALL_ONES);
    RegisterSplits(before + b, after, ALL_ONES);
    RegisterSplits(before, a, ALL_ONES);
    RegisterSplits(before, b, ALL_ONES);
    var r := Register(before, ALL_ONES);
    if Register(before + a + after, ALL_ONES) == Register(before + b + after, ALL_ONES) {
      RegisterInjective(after, Register(a, r), Register(b, r));
      ShortChange(a, b, r);
    }
  }

  /** Data followed by its own checksum, low byte first, leaves the register at zero. */
  lemma FedItself(data: seq<bv8>, a: bv8, b: bv8, c: bv8, d: bv8)
    requires Word(a, b, c, d) == Register(data, ALL_ONES)
    ensures Register(data + [a, b, c, d], ALL_ONES) == 0
  {
    var w := Word(a, b, c, d);
    assert Sum(w, w) == 0 && Eight(0) == 0;
    hide *;
    RegisterSplits(data, [a, b, c, d], ALL_ONES);
    FourBytesAtOnce(a, b, c, d, w);
  }

  // ----- the program

  method Crc32(data: array<bv8>, length: nat) returns (crc: bv32)
    requires length <= data.Length
    ensures crc == Register(data[..length], ALL_ONES)
  {
    crc := ALL_ONES;
    hide Eight, Sum, Wide, Register;
    RegisterNothing(data[..0], crc);
    for i := 0 to length
      invariant crc == Register(data[..i], ALL_ONES)
    {
      ghost var before := data[..i];
      assert data[..i + 1] == before + [data[i]];
      RegisterSplits(before, [data[i]], ALL_ONES);
      crc := OneTurn(crc, data[i]);
    }
  }

  method OneTurn(crc: bv32, b: bv8) returns (next: bv32)
    ensures next == Register([b], crc)
  {
    hide *;
    var x := crc ^ (b as bv32);
    var c := x & 0xFF;
    LowByteIsIndex(x);
    TableEntry(c);
    var entry, shifted := CRC_TABLE[c as int], crc >> 8;
    ShiftedByte(crc, b);
    TurnByLookUp(crc, b, x, c, shifted);
    SumIsXor(entry, shifted);
    next := entry ^ shifted;
  }

  lemma TurnByLookUp(crc: bv32, b: bv8, x: bv32, c: bv32, shifted: bv32)
    requires x == Sum(crc, Wide(b)) && c == x & 0xFF && shifted == x >> 8
    ensures Register([b], crc) == Sum(Eight(c), shifted)
  {
    hide *;
    OneByte(b, crc);
    LookUp(x);
  }

  lemma SumIsXor(x: bv32, y: bv32)
    ensures Sum(x, y) == x ^ y
  {}

  lemma RegisterNothing(data: seq<bv8>, from: bv32)
    requires data == []
    ensures Register(data, from) == from
  {}

  lemma ShiftedByte(crc: bv32, b: bv8)
    ensures Sum(crc, Wide(b)) >> 8 == crc >> 8 && Sum(crc, Wide(b)) == crc ^ (b as bv32)
  {}

  // ----- the standard check

  /** The digits 1 to 9. */
  const CHECK: seq<bv8> := [0x31, 0x32, 0x33, 0x34, 0x35, 0x36, 0x37, 0x38, 0x39]

  lemma CheckWords()
    ensures Eight(0xFFFFFFCE) == 0x7C231048
    ensures Eight(0x7C23107A) == 0xB0ACBB32
    ensures Eight(0xB0ACBB01) == 0x77B79C2D
    ensures Eight(0x77B79C19) == 0x641C1F5C
    ensures Eight(0x641C1F69) == 0x340AC5E3
    ensures Eight(0x340AC5D5) == 0xF68D2C9E
    ensures Eight(0xF68D2CA9) == 0xAFFC9660
    ensures Eight(0xAFFC9658) == 0x651F2550
    ensures Eight(0x651F2569) == 0x340BC6D9
  {}

  lemma CheckTurn(k: nat, crc: bv32, x: bv32, next: bv32)
    requires k < 9 && Register(CHECK[..k], ALL_ONES) == crc && Sum(crc, Wide(CHECK[k])) == x && Eight(x) == next
    ensures Register(CHECK[..k + 1], ALL_ONES) == next
  {
    hide Eight, Sum, Wide;
    assert CHECK[..k + 1][..k] == CHECK[..k] && CHECK[..k + 1][k] == CHECK[k];
  }

  /** The register after the nine digits: the complement of 0xCBF43926, the value by which this CRC is checked. */
  lemma CheckValue()
    ensures Register(CHECK, ALL_ONES) == 0xFFFFFFFF ^ 0xCBF43926
  {
    hide Register, Eight;
    CheckWords();
    assert CHECK[..0] == [];
    RegisterNothing(CHECK[..0], ALL_ONES);
    CheckTurn(0, 0xFFFFFFFF, 0xFFFFFFCE, 0x7C231048);
    CheckTurn(1, 0x7C231048, 0x7C23107A, 0xB0ACBB32);
    CheckTurn(2, 0xB0ACBB32, 0xB0ACBB01, 0x77B79C2D);
    CheckTurn(3, 0x77B79C2D, 0x77B79C19, 0x641C1F5C);
    CheckTurn(4, 0x641C1F5C, 0x641C1F69, 0x340AC5E3);
    CheckTurn(5, 0x340AC5E3, 0x340AC5D5, 0xF68D2C9E);
    CheckTurn(6, 0xF68D2C9E, 0xF68D2CA9, 0xAFFC9660);
    CheckTurn(7, 0xAFFC9660, 0xAFFC9658, 0x651F2550);
    CheckTurn(8, 0x651F2550, 0x651F2569, 0x340BC6D9);
    assert CHECK[..9] == CHECK;
  }
}
