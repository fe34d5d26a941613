/** The AES-128 encryption circuit over plaintext bits (BitType = bool):
    the bit-sliced S-box and its inverse, MixColumns as a network of
    exclusive-ors, ShiftRows by swaps, and the round structure of
    encrypt_impl. Each circuit is checked against the definition in
    FIPS-197: the S-box against its table (Figure 7), the inverse S-box
    against its table (Figure 14), MixColumns against the matrix of
    section 5.1.3, and the whole encryption against the Cipher of
    Figure 5. */
module AesCircuits {
  import opened Common

  /** A ByteType: eight bits, b0 first. As the source's tests build bytes
      (bit i of the integer goes to position 7 - i), b0 is the most
      significant bit. */
  datatype Octet = Octet(b0: bool, b1: bool, b2: bool, b3: bool, b4: bool, b5: bool, b6: bool, b7: bool)

  const Zero := Octet(false, false, false, false, false, false, false, false)

  /** A WordType: one column of the state, row 0 first. */
  type Word = w: seq<Octet> | |w| == 4 witness [Zero, Zero, Zero, Zero]

  /** One block of the state: four words, column 0 first (the layout
      s[r, c] = in[r + 4c] of FIPS-197 section 3.4). */
  type Block = b: seq<Word> | |b| == 4 witness [[Zero, Zero, Zero, Zero], [Zero, Zero, Zero, Zero], [Zero, Zero, Zero, Zero], [Zero, Zero, Zero, Zero]]

  /** The upper and lower half of a byte as numbers: its row and column
      in the tables of FIPS-197. */
  function Hi(u: Octet): int
  {
    (if u.b0 then 8 else 0) + (if u.b1 then 4 else 0) + (if u.b2 then 2 else 0) + (if u.b3 then 1 else 0)
  }

  function Lo(u: Octet): int
  {
    (if u.b4 then 8 else 0) + (if u.b5 then 4 else 0) + (if u.b6 then 2 else 0) + (if u.b7 then 1 else 0)
  }

  /** The byte as the number 0..255 it stands for. */
  function ValueOf(u: Octet): (v: int)
    ensures 0 <= v < 256
  {
    16 * Hi(u) + Lo(u)
  }

  /** Bit k of a byte, in the order the source stores it. */
  function BitOf(u: Octet, k: nat): bool
    requires k < 8
  {
    match k
    case 0 => u.b0
    case 1 => u.b1
    case 2 => u.b2
    case 3 => u.b3
    case 4 => u.b4
    case 5 => u.b5
    case 6 => u.b6
    case _ => u.b7
  }

  /** Bitwise exclusive-or of two bytes (AddRoundKey on one byte). */
  function Xor(a: Octet, b: Octet): Octet
  {
    Octet(a.b0 != b.b0, a.b1 != b.b1, a.b2 != b.b2, a.b3 != b.b3, a.b4 != b.b4, a.b5 != b.b5, a.b6 != b.b6, a.b7 != b.b7)
  }

  // ---------------------------------------------------------------------
  // The S-box and its inverse (Boyar-Peralta style circuits). Wire names
  // follow the source: U input bits, T and R top linear layer, M shared
  // nonlinear layer, L and P bottom linear layer.
  // ---------------------------------------------------------------------

  /** The 18 products of the shared middle layer that the outer layers read. */
  datatype Products = Products(m46: bool, m47: bool, m48: bool, m49: bool, m50: bool, m51: bool, m52: bool, m53: bool, m54: bool, m55: bool, m56: bool, m57: bool, m58: bool, m59: bool, m60: bool, m61: bool, m62: bool, m63: bool)

  /** sharedSBoxInPlace: the nonlinear middle layer shared by the S-box and its inverse. */
  function SharedSBox(t1: bool, t2: bool, t3: bool, t4: bool, t6: bool, t8: bool, t9: bool, t10: bool, t13: bool, t14: bool, t15: bool, t16: bool, t17: bool, t19: bool, t20: bool, t22: bool, t23: bool, t24: bool, t25: bool, t26: bool, t27: bool, d: bool): (m: Products)
  {
    var m1 := t13 && t6;
    var m2 := t23 && t8;
    var m3 := t14 != m1;
    var m4 := t19 && d;
    var m5 := m4 != m1;
    var m6 := t3 && t16;
    var m7 := t22 && t9;
    var m8 := t26 != m6;
    var m9 := t20 && t17;
    var m10 := m9 != m6;
    var m11 := t1 && t15;
    var m12 := t4 && t27;
    var m13 := m12 != m11;
    var m14 := t2 && t10;
    var m15 := m14 != m11;
    var m16 := m3 != m2;
    var m17 := m5 != t24;
    var m18 := m8 != m7;
    var m19 := m10 != m15;
    var m20 := m16 != m13;
    var m21 := m17 != m15;
    var m22 := m18 != m13;
    var m23 := m19 != t25;
    var m24 := m22 != m23;
    var m25 := m22 && m20;
    var m26 := m21 != m25;
    var m27 := m20 != m21;
    var m28 := m23 != m25;
    var m29 := m28 && m27;
    var m30 := m26 && m24;
    var m31 := m20 && m23;
    var m32 := m27 && m31;
    var m33 := m27 != m25;
    var m34 := m21 && m22;
    var m35 := m24 && m34;
    var m36 := m24 != m25;
    var m37 := m21 != m29;
    var m38 := m32 != m33;
    var m39 := m23 != m30;
    var m40 := m35 != m36;
    var m41 := m38 != m40;
    var m42 := m37 != m39;
    var m43 := m37 != m38;
    var m44 := m39 != m40;
    var m45 := m42 != m41;
    var m46 := m44 && t6;
    var m47 := m40 && t8;
    var m48 := m39 && d;
    var m49 := m43 && t16;
    var m50 := m38 && t9;
    var m51 := m37 && t17;
    var m52 := m42 && t15;
    var m53 := m45 && t27;
    var m54 := m41 && t10;
    var m55 := m44 && t13;
    var m56 := m40 && t23;
    var m57 := m39 && t19;
    var m58 := m43 && t3;
    var m59 := m38 && t22;
    var m60 := m37 && t20;
    var m61 := m42 && t1;
    var m62 := m45 && t4;
    var m63 := m41 && t2;
    Products(m46, m47, m48, m49, m50, m51, m52, m53, m54, m55, m56, m57, m58, m59, m60, m61, m62, m63)
  }

  /** sBoxInPlace: the forward S-box circuit (top linear layer T, shared products M, bottom layer L). */
  function SBox(u: Octet): Octet
  {
    var u0, u1, u2, u3, u4, u5, u6, u7 := u.b0, u.b1, u.b2, u.b3, u.b4, u.b5, u.b6, u.b7;
    var t1 := u0 != u3;
    var t2 := u0 != u5;
    var t3 := u0 != u6;
    var t4 := u3 != u5;
    var t5 := u4 != u6;
    var t6 := t1 != t5;
    var t7 := u1 != u2;
    var t8 := u7 != t6;
    var t9 := u7 != t7;
    var t10 := t6 != t7;
    var t11 := u1 != u5;
    var t12 := u2 != u5;
    var t13 := t3 != t4;
    var t14 := t6 != t11;
    var t15 := t5 != t11;
    var t16 := t5 != t12;
    var t17 := t9 != t16;
    var t18 := u3 != u7;
    var t19 := t7 != t18;
    var t20 := t1 != t19;
    var t21 := u6 != u7;
    var t22 := t7 != t21;
    var t23 := t2 != t22;
    var t24 := t2 != t10;
    var t25 := t20 != t17;
    var t26 := t3 != t16;
    var t27 := t1 != t12;
    var d := u7;
    var m := SharedSBox(t1, t2, t3, t4, t6, t8, t9, t10, t13, t14, t15, t16, t17, t19, t20, t22, t23, t24, t25, t26, t27, d);
    var m46, m47, m48, m49, m50, m51, m52, m53, m54 := m.m46, m.m47, m.m48, m.m49, m.m50, m.m51, m.m52, m.m53, m.m54;
    var m55, m56, m57, m58, m59, m60, m61, m62, m63 := m.m55, m.m56, m.m57, m.m58, m.m59, m.m60, m.m61, m.m62, m.m63;
    var l0 := m61 != m62;
    var l1 := m50 != m56;
    var l2 := m46 != m48;
    var l3 := m47 != m55;
    var l4 := m54 != m58;
    var l5 := m49 != m61;
    var l6 := m62 != l5;
    var l7 := m46 != l3;
    var l8 := m51 != m59;
    var l9 := m52 != m53;
    var l10 := m53 != l4;
    var l11 := m60 != l2;
    var l12 := m48 != m51;
    var l13 := m50 != l0;
    var l14 := m52 != m61;
    var l15 := m55 != l1;
    var l16 := m56 != l0;
    var l17 := m57 != l1;
    var l18 := m58 != l8;
    var l19 := m63 != l4;
    var l20 := l0 != l1;
    var l21 := l1 != l7;
    var l22 := l3 != l12;
    var l23 := l18 != l2;
    var l24 := l15 != l9;
    var l25 := l6 != l10;
    var l26 := l7 != l9;
    var l27 := l8 != l10;
    var l28 := l11 != l14;
    var l29 := l11 != l17;
    Octet(l6 != l24, !(l16 != l26), !(l19 != l28), l6 != l21, l20 != l22, l25 != l29, !(l13 != l27), !(l6 != l23))
  }

  /** inverseSBoxInPlace: the inverse S-box circuit (top layer T and R, shared products M, bottom layer P). */
  function InverseSBox(u: Octet): Octet
  {
    var u0, u1, u2, u3, u4, u5, u6, u7 := u.b0, u.b1, u.b2, u.b3, u.b4, u.b5, u.b6, u.b7;
    var t23 := u0 != u3;
    var t22 := !(u1 != u3);
    var t2 := !(u0 != u1);
    var t1 := u3 != u4;
    var t24 := !(u4 != u7);
    var r5 := u6 != u7;
    var t8 := !(u1 != t23);
    var t19 := t22 != r5;
    var t9 := !(u7 != t1);
    var t10 := t2 != t24;
    var t13 := t2 != r5;
    var t3 := t1 != r5;
    var t25 := !(u2 != t1);
    var r13 := u1 != u6;
    var t17 := !(u2 != t19);
    var t20 := t24 != r13;
    var t4 := u4 != t8;
    var r17 := !(u2 != u5);
    var r18 := !(u5 != u6);
    var r19 := !(u2 != u4);
    var t6 := t22 != r17;
    var t16 := r13 != r19;
    var t27 := t1 != r18;
    var t15 := t10 != t27;
    var t14 := t10 != r18;
    var t26 := t3 != t16;
    var d := u0 != r17;
    var m := SharedSBox(t1, t2, t3, t4, t6, t8, t9, t10, t13, t14, t15, t16, t17, t19, t20, t22, t23, t24, t25, t26, t27, d);
    var m46, m47, m48, m49, m50, m51, m52, m53, m54 := m.m46, m.m47, m.m48, m.m49, m.m50, m.m51, m.m52, m.m53, m.m54;
    var m55, m56, m57, m58, m59, m60, m61, m62, m63 := m.m55, m.m56, m.m57, m.m58, m.m59, m.m60, m.m61, m.m62, m.m63;
    var p0 := m52 != m61;
    var p1 := m58 != m59;
    var p2 := m54 != m62;
    var p3 := m47 != m50;
    var p4 := m48 != m56;
    var p5 := m46 != m51;
    var p6 := m49 != m60;
    var p7 := p0 != p1;
    var p8 := m50 != m53;
    var p9 := m55 != m63;
    var p10 := m57 != p4;
    var p11 := p0 != p3;
    var p12 := m46 != m48;
    var p13 := m49 != m51;
    var p14 := m49 != m62;
    var p15 := m54 != m59;
    var p16 := m57 != m61;
    var p17 := m58 != p2;
    var p18 := m63 != p5;
    var p19 := p2 != p3;
    var p20 := p4 != p6;
    var p22 := p2 != p7;
    var p23 := p7 != p8;
    var p24 := p5 != p7;
    var p25 := p6 != p10;
    var p26 := p9 != p11;
    var p27 := p10 != p18;
    var p28 := p11 != p25;
    var p29 := p15 != p20;
    Octet(p13 != p22, p26 != p29, p17 != p28, p12 != p22, p23 != p27, p19 != p24, p14 != p23, p9 != p16)
  }

  const SBoxTable: seq<seq<int>> := [
      [0x63, 0x7c, 0x77, 0x7b, 0xf2, 0x6b, 0x6f, 0xc5, 0x30, 0x01, 0x67, 0x2b, 0xfe, 0xd7, 0xab, 0x76],
      [0xca, 0x82, 0xc9, 0x7d, 0xfa, 0x59, 0x47, 0xf0, 0xad, 0xd4, 0xa2, 0xaf, 0x9c, 0xa4, 0x72, 0xc0],
      [0xb7, 0xfd, 0x93, 0x26, 0x36, 0x3f, 0xf7, 0xcc, 0x34, 0xa5, 0xe5, 0xf1, 0x71, 0xd8, 0x31, 0x15],
      [0x04, 0xc7, 0x23, 0xc3, 0x18, 0x96, 0x05, 0x9a, 0x07, 0x12, 0x80, 0xe2, 0xeb, 0x27, 0xb2, 0x75],
      [0x09, 0x83, 0x2c, 0x1a, 0x1b, 0x6e, 0x5a, 0xa0, 0x52, 0x3b, 0xd6, 0xb3, 0x29, 0xe3, 0x2f, 0x84],
      [0x53, 0xd1, 0x00, 0xed, 0x20, 0xfc, 0xb1, 0x5b, 0x6a, 0xcb, 0xbe, 0x39, 0x4a, 0x4c, 0x58, 0xcf],
      [0xd0, 0xef, 0xaa, 0xfb, 0x43, 0x4d, 0x33, 0x85, 0x45, 0xf9, 0x02, 0x7f, 0x50, 0x3c, 0x9f, 0xa8],
      [0x51, 0xa3, 0x40, 0x8f, 0x92, 0x9d, 0x38, 0xf5, 0xbc, 0xb6, 0xda, 0x21, 0x10, 0xff, 0xf3, 0xd2],
      [0xcd, 0x0c, 0x13, 0xec, 0x5f, 0x97, 0x44, 0x17, 0xc4, 0xa7, 0x7e, 0x3d, 0x64, 0x5d, 0x19, 0x73],
      [0x60, 0x81, 0x4f, 0xdc, 0x22, 0x2a, 0x90, 0x88, 0x46, 0xee, 0xb8, 0x14, 0xde, 0x5e, 0x0b, 0xdb],
      [0xe0, 0x32, 0x3a, 0x0a, 0x49, 0x06, 0x24, 0x5c, 0xc2, 0xd3, 0xac, 0x62, 0x91, 0x95, 0xe4, 0x79],
      [0xe7, 0xc8, 0x37, 0x6d, 0x8d, 0xd5, 0x4e, 0xa9, 0x6c, 0x56, 0xf4, 0xea, 0x65, 0x7a, 0xae, 0x08],
      [0xba, 0x78, 0x25, 0x2e, 0x1c, 0xa6, 0xb4, 0xc6, 0xe8, 0xdd, 0x74, 0x1f, 0x4b, 0xbd, 0x8b, 0x8a],
      [0x70, 0x3e, 0xb5, 0x66, 0x48, 0x03, 0xf6, 0x0e, 0x61, 0x35, 0x57, 0xb9, 0x86, 0xc1, 0x1d, 0x9e],
      [0xe1, 0xf8, 0x98, 0x11, 0x69, 0xd9, 0x8e, 0x94, 0x9b, 0x1e, 0x87, 0xe9, 0xce, 0x55, 0x28, 0xdf],
      [0x8c, 0xa1, 0x89, 0x0d, 0xbf, 0xe6, 0x42, 0x68, 0x41, 0x99, 0x2d, 0x0f, 0xb0, 0x54, 0xbb, 0x16]
    ]

  const InverseSBoxTable: seq<seq<int>> := [
      [0x52, 0x09, 0x6a, 0xd5, 0x30, 0x36, 0xa5, 0x38, 0xbf, 0x40, 0xa3, 0x9e, 0x81, 0xf3, 0xd7, 0xfb],
      [0x7c, 0xe3, 0x39, 0x82, 0x9b, 0x2f, 0xff, 0x87, 0x34, 0x8e, 0x43, 0x44, 0xc4, 0xde, 0xe9, 0xcb],
      [0x54, 0x7b, 0x94, 0x32, 0xa6, 0xc2, 0x23, 0x3d, 0xee, 0x4c, 0x95, 0x0b, 0x42, 0xfa, 0xc3, 0x4e],
      [0x08, 0x2e, 0xa1, 0x66, 0x28, 0xd9, 0x24, 0xb2, 0x76, 0x5b, 0xa2, 0x49, 0x6d, 0x8b, 0xd1, 0x25],
      [0x72, 0xf8, 0xf6, 0x64, 0x86, 0x68, 0x98, 0x16, 0xd4, 0xa4, 0x5c, 0xcc, 0x5d, 0x65, 0xb6, 0x92],
      [0x6c, 0x70, 0x48, 0x50, 0xfd, 0xed, 0xb9, 0xda, 0x5e, 0x15, 0x46, 0x57, 0xa7, 0x8d, 0x9d, 0x84],
      [0x90, 0xd8, 0xab, 0x00, 0x8c, 0xbc, 0xd3, 0x0a, 0xf7, 0xe4, 0x58, 0x05, 0xb8, 0xb3, 0x45, 0x06],
      [0xd0, 0x2c, 0x1e, 0x8f, 0xca, 0x3f, 0x0f, 0x02, 0xc1, 0xaf, 0xbd, 0x03, 0x01, 0x13, 0x8a, 0x6b],
      [0x3a, 0x91, 0x11, 0x41, 0x4f, 0x67, 0xdc, 0xea, 0x97, 0xf2, 0xcf, 0xce, 0xf0, 0xb4, 0xe6, 0x73],
      [0x96, 0xac, 0x74, 0x22, 0xe7, 0xad, 0x35, 0x85, 0xe2, 0xf9, 0x37, 0xe8, 0x1c, 0x75, 0xdf, 0x6e],
      [0x47, 0xf1, 0x1a, 0x71, 0x1d, 0x29, 0xc5, 0x89, 0x6f, 0xb7, 0x62, 0x0e, 0xaa, 0x18, 0xbe, 0x1b],
      [0xfc, 0x56, 0x3e, 0x4b, 0xc6, 0xd2, 0x79, 0x20, 0x9a, 0xdb, 0xc0, 0xfe, 0x78, 0xcd, 0x5a, 0xf4],
      [0x1f, 0xdd, 0xa8, 0x33, 0x88, 0x07, 0xc7, 0x31, 0xb1, 0x12, 0x10, 0x59, 0x27, 0x80, 0xec, 0x5f],
      [0x60, 0x51, 0x7f, 0xa9, 0x19, 0xb5, 0x4a, 0x0d, 0x2d, 0xe5, 0x7a, 0x9f, 0x93, 0xc9, 0x9c, 0xef],
      [0xa0, 0xe0, 0x3b, 0x4d, 0xae, 0x2a, 0xf5, 0xb0, 0xc8, 0xeb, 0xbb, 0x3c, 0x83, 0x53, 0x99, 0x61],
      [0x17, 0x2b, 0x04, 0x7e, 0xba, 0x77, 0xd6, 0x26, 0xe1, 0x69, 0x14, 0x63, 0x55, 0x21, 0x0c, 0x7d]
    ]
  // Each table lemma is split on the two top bits of the byte: one
  // quarter of the table at a time stays within the solver's budget.

  lemma SBoxQuarter00(u: Octet)
    requires !u.b0 && !u.b1
    ensures ValueOf(SBox(u)) == SBoxTable[Hi(u)][Lo(u)]
  {
  }

  lemma SBoxQuarter01(u: Octet)
    requires !u.b0 && u.b1
    ensures ValueOf(SBox(u)) == SBoxTable[Hi(u)][Lo(u)]
  {
  }

  lemma SBoxQuarter10(u: Octet)
    requires u.b0 && !u.b1
    ensures ValueOf(SBox(u)) == SBoxTable[Hi(u)][Lo(u)]
  {
  }

  lemma SBoxQuarter11(u: Octet)
    requires u.b0 && u.b1
    ensures ValueOf(SBox(u)) == SBoxTable[Hi(u)][Lo(u)]
  {
  }

  /** The S-box circuit computes the S-box of FIPS-197 (Figure 7) on every byte. */
  lemma SBoxMatchesTable(u: Octet)
    ensures ValueOf(SBox(u)) == SBoxTable[Hi(u)][Lo(u)]
  {
    if u.b0 {
      if u.b1 { SBoxQuarter11(u); } else { SBoxQuarter10(u); }
    } else {
      if u.b1 { SBoxQuarter01(u); } else { SBoxQuarter00(u); }
    }
  }

  lemma InverseSBoxQuarter00(u: Octet)
    requires !u.b0 && !u.b1
    ensures ValueOf(InverseSBox(u)) == InverseSBoxTable[Hi(u)][Lo(u)]
  {
  }

  lemma InverseSBoxQuarter01(u: Octet)
    requires !u.b0 && u.b1
    ensures ValueOf(InverseSBox(u)) == InverseSBoxTable[Hi(u)][Lo(u)]
  {
  }

  lemma InverseSBoxQuarter10(u: Octet)
    requires u.b0 && !u.b1
    ensures ValueOf(InverseSBox(u)) == InverseSBoxTable[Hi(u)][Lo(u)]
  {
  }

  lemma InverseSBoxQuarter11(u: Octet)
    requires u.b0 && u.b1
    ensures ValueOf(InverseSBox(u)) == InverseSBoxTable[Hi(u)][Lo(u)]
  {
  }

  /** The inverse S-box circuit computes the inverse S-box of FIPS-197 (Figure 14) on every byte. */
  lemma InverseSBoxMatchesTable(u: Octet)
    ensures ValueOf(InverseSBox(u)) == InverseSBoxTable[Hi(u)][Lo(u)]
  {
    if u.b0 {
      if u.b1 { InverseSBoxQuarter11(u); } else { InverseSBoxQuarter10(u); }
    } else {
      if u.b1 { InverseSBoxQuarter01(u); } else { InverseSBoxQuarter00(u); }
    }
  }

  lemma InverseOfSBoxQuarter00(u: Octet)
    requires !u.b0 && !u.b1
    ensures InverseSBox(SBox(u)) == u
  {
  }

  lemma InverseOfSBoxQuarter01(u: Octet)
    requires !u.b0 && u.b1
    ensures InverseSBox(SBox(u)) == u
  {
  }

  lemma InverseOfSBoxQuarter10(u: Octet)
    requires u.b0 && !u.b1
    ensures InverseSBox(SBox(u)) == u
  {
  }

  lemma InverseOfSBoxQuarter11(u: Octet)
    requires u.b0 && u.b1
    ensures InverseSBox(SBox(u)) == u
  {
  }

  /** The inverse S-box circuit undoes the S-box circuit. */
  lemma InverseSBoxOfSBox(u: Octet)
    ensures InverseSBox(SBox(u)) == u
  {
    if u.b0 {
      if u.b1 { InverseOfSBoxQuarter11(u); } else { InverseOfSBoxQuarter10(u); }
    } else {
      if u.b1 { InverseOfSBoxQuarter01(u); } else { InverseOfSBoxQuarter00(u); }
    }
  }

  lemma SBoxOfInverseQuarter00(u: Octet)
    requires !u.b0 && !u.b1
    ensures SBox(InverseSBox(u)) == u
  {
  }

  lemma SBoxOfInverseQuarter01(u: Octet)
    requires !u.b0 && u.b1
    ensures SBox(InverseSBox(u)) == u
  {
  }

  lemma SBoxOfInverseQuarter10(u: Octet)
    requires u.b0 && !u.b1
    ensures SBox(InverseSBox(u)) == u
  {
  }

  lemma SBoxOfInverseQuarter11(u: Octet)
    requires u.b0 && u.b1
    ensures SBox(InverseSBox(u)) == u
  {
  }

  /** The S-box circuit undoes the inverse S-box circuit: both are bijections on bytes. */
  lemma SBoxOfInverseSBox(u: Octet)
    ensures SBox(InverseSBox(u)) == u
  {
    if u.b0 {
      if u.b1 { SBoxOfInverseQuarter11(u); } else { SBoxOfInverseQuarter10(u); }
    } else {
      if u.b1 { SBoxOfInverseQuarter01(u); } else { SBoxOfInverseQuarter00(u); }
    }
  }
  // ---------------------------------------------------------------------
  // MixColumns on one column (a WordType: four bytes, row 0 first), as
  // the exclusive-or network the source takes from eprint 2019/833. The
  // wires are one-bit vectors, so that exclusive-or is arithmetic the
  // solver normalises; Bv and `== 1` convert at the boundary.
  // ---------------------------------------------------------------------

  function Bv(b: bool): bv1
  {
    if b then 1 else 0
  }

  /** mixColumnsInPlace: X[7 - j + 8i] is bit j of byte i, Y likewise. */
  function MixColumns(src: Word): Word
  {
    var x7, x6, x5, x4, x3, x2, x1, x0 := Bv(src[0].b0), Bv(src[0].b1), Bv(src[0].b2), Bv(src[0].b3), Bv(src[0].b4), Bv(src[0].b5), Bv(src[0].b6), Bv(src[0].b7);
    var x15, x14, x13, x12, x11, x10, x9, x8 := Bv(src[1].b0), Bv(src[1].b1), Bv(src[1].b2), Bv(src[1].b3), Bv(src[1].b4), Bv(src[1].b5), Bv(src[1].b6), Bv(src[1].b7);
    var x23, x22, x21, x20, x19, x18, x17, x16 := Bv(src[2].b0), Bv(src[2].b1), Bv(src[2].b2), Bv(src[2].b3), Bv(src[2].b4), Bv(src[2].b5), Bv(src[2].b6), Bv(src[2].b7);
    var x31, x30, x29, x28, x27, x26, x25, x24 := Bv(src[3].b0), Bv(src[3].b1), Bv(src[3].b2), Bv(src[3].b3), Bv(src[3].b4), Bv(src[3].b5), Bv(src[3].b6), Bv(src[3].b7);
    var t0 := x0 ^ x8;
    var t1 := x16 ^ x24;
    var t2 := x1 ^ x9;
    var t3 := x17 ^ x25;
    var t4 := x2 ^ x10;
    var t5 := x18 ^ x26;
    var t6 := x3 ^ x11;
    var t7 := x19 ^ x27;
    var t8 := x4 ^ x12;
    var t9 := x20 ^ x28;
    var t10 := x5 ^ x13;
    var t11 := x21 ^ x29;
    var t12 := x6 ^ x14;
    var t13 := x22 ^ x30;
    var t14 := x23 ^ x31;
    var t15 := x7 ^ x15;
    var t16 := x8 ^ t1;
    var y0 := t15 ^ t16;
    var t17 := x7 ^ x23;
    var t18 := x24 ^ t0;
    var y16 := t14 ^ t18;
    var t19 := t1 ^ y16;
    var y24 := t17 ^ t19;
    var t20 := x27 ^ t14;
    var t21 := t0 ^ y0;
    var y8 := t17 ^ t21;
    var t22 := t5 ^ t20;
    var y19 := t6 ^ t22;
    var t23 := x11 ^ t15;
    var t24 := t7 ^ t23;
    var y3 := t4 ^ t24;
    var t25 := x2 ^ x18;
    var t26 := t17 ^ t25;
    var t27 := t9 ^ t23;
    var t28 := t8 ^ t20;
    var t29 := x10 ^ t2;
    var y2 := t5 ^ t29;
    var t30 := x26 ^ t3;
    var y18 := t4 ^ t30;
    var t31 := x9 ^ x25;
    var t32 := t25 ^ t31;
    var y10 := t30 ^ t32;
    var y26 := t29 ^ t32;
    var t33 := x1 ^ t18;
    var t34 := x30 ^ t11;
    var y22 := t12 ^ t34;
    var t35 := x14 ^ t13;
    var y6 := t10 ^ t35;
    var t36 := x5 ^ x21;
    var t37 := x30 ^ t17;
    var t38 := x17 ^ t16;
    var t39 := x13 ^ t8;
    var y5 := t11 ^ t39;
    var t40 := x12 ^ t36;
    var t41 := x29 ^ t9;
    var y21 := t10 ^ t41;
    var t42 := x28 ^ t40;
    var y13 := t41 ^ t42;
    var y29 := t39 ^ t42;
    var t43 := x15 ^ t12;
    var y7 := t14 ^ t43;
    var t44 := x14 ^ t37;
    var y31 := t43 ^ t44;
    var t45 := x31 ^ t13;
    var y15 := t44 ^ t45;
    var y23 := t15 ^ t45;
    var t46 := t12 ^ t36;
    var y14 := y6 ^ t46;
    var t47 := t31 ^ t33;
    var y17 := t19 ^ t47;
    var t48 := t6 ^ y3;
    var y11 := t26 ^ t48;
    var t49 := t2 ^ t38;
    var y25 := y24 ^ t49;
    var t50 := t7 ^ y19;
    var y27 := t26 ^ t50;
    var t51 := x22 ^ t46;
    var y30 := t11 ^ t51;
    var t52 := x19 ^ t28;
    var y20 := x28 ^ t52;
    var t53 := x3 ^ t27;
    var y4 := x12 ^ t53;
    var t54 := t3 ^ t33;
    var y9 := y8 ^ t54;
    var t55 := t21 ^ t31;
    var y1 := t38 ^ t55;
    var t56 := x4 ^ t17;
    var t57 := x19 ^ t56;
    var y12 := t27 ^ t57;
    var t58 := x3 ^ t28;
    var t59 := t17 ^ t58;
    var y28 := x20 ^ t59;
    [Octet(y7 == 1, y6 == 1, y5 == 1, y4 == 1, y3 == 1, y2 == 1, y1 == 1, y0 == 1),
     Octet(y15 == 1, y14 == 1, y13 == 1, y12 == 1, y11 == 1, y10 == 1, y9 == 1, y8 == 1),
     Octet(y23 == 1, y22 == 1, y21 == 1, y20 == 1, y19 == 1, y18 == 1, y17 == 1, y16 == 1),
     Octet(y31 == 1, y30 == 1, y29 == 1, y28 == 1, y27 == 1, y26 == 1, y25 == 1, y24 == 1)]
  }

  /** MixColumns as FIPS-197 section 5.1.3 defines it: the column (a, b,
      c, d) is multiplied by the matrix with rows (02 03 01 01),
      (01 02 03 01), (01 01 02 03), (03 01 01 02) over GF(2^8), where
      03 x = 02 x + x and 02 x is xtime (section 4.2.1): shift left one
      bit and, when the bit shifted out is set, add 0x1b. Bit k of a byte
      is written a_k, a_0 the most significant; xtime(a) is written da. */
  function MixColumnSpec(s: Word): Word
  {
    var a0, a1, a2, a3, a4, a5, a6, a7 := Bv(s[0].b0), Bv(s[0].b1), Bv(s[0].b2), Bv(s[0].b3), Bv(s[0].b4), Bv(s[0].b5), Bv(s[0].b6), Bv(s[0].b7);
    var b0, b1, b2, b3, b4, b5, b6, b7 := Bv(s[1].b0), Bv(s[1].b1), Bv(s[1].b2), Bv(s[1].b3), Bv(s[1].b4), Bv(s[1].b5), Bv(s[1].b6), Bv(s[1].b7);
    var c0, c1, c2, c3, c4, c5, c6, c7 := Bv(s[2].b0), Bv(s[2].b1), Bv(s[2].b2), Bv(s[2].b3), Bv(s[2].b4), Bv(s[2].b5), Bv(s[2].b6), Bv(s[2].b7);
    var d0, d1, d2, d3, d4, d5, d6, d7 := Bv(s[3].b0), Bv(s[3].b1), Bv(s[3].b2), Bv(s[3].b3), Bv(s[3].b4), Bv(s[3].b5), Bv(s[3].b6), Bv(s[3].b7);
    var da0, da1, da2, da3, da4, da5, da6, da7 := a1, a2, a3, a4 ^ a0, a5 ^ a0, a6, a7 ^ a0, a0;
    var db0, db1, db2, db3, db4, db5, db6, db7 := b1, b2, b3, b4 ^ b0, b5 ^ b0, b6, b7 ^ b0, b0;
    var dc0, dc1, dc2, dc3, dc4, dc5, dc6, dc7 := c1, c2, c3, c4 ^ c0, c5 ^ c0, c6, c7 ^ c0, c0;
    var dd0, dd1, dd2, dd3, dd4, dd5, dd6, dd7 := d1, d2, d3, d4 ^ d0, d5 ^ d0, d6, d7 ^ d0, d0;
    [// 02 a + 03 b + c + d
     Octet(da0 ^ db0 ^ b0 ^ c0 ^ d0 == 1, da1 ^ db1 ^ b1 ^ c1 ^ d1 == 1, da2 ^ db2 ^ b2 ^ c2 ^ d2 == 1, da3 ^ db3 ^ b3 ^ c3 ^ d3 == 1, da4 ^ db4 ^ b4 ^ c4 ^ d4 == 1, da5 ^ db5 ^ b5 ^ c5 ^ d5 == 1, da6 ^ db6 ^ b6 ^ c6 ^ d6 == 1, da7 ^ db7 ^ b7 ^ c7 ^ d7 == 1),
     // a + 02 b + 03 c + d
     Octet(a0 ^ db0 ^ dc0 ^ c0 ^ d0 == 1, a1 ^ db1 ^ dc1 ^ c1 ^ d1 == 1, a2 ^ db2 ^ dc2 ^ c2 ^ d2 == 1, a3 ^ db3 ^ dc3 ^ c3 ^ d3 == 1, a4 ^ db4 ^ dc4 ^ c4 ^ d4 == 1, a5 ^ db5 ^ dc5 ^ c5 ^ d5 == 1, a6 ^ db6 ^ dc6 ^ c6 ^ d6 == 1, a7 ^ db7 ^ dc7 ^ c7 ^ d7 == 1),
     // a + b + 02 c + 03 d
     Octet(a0 ^ b0 ^ dc0 ^ dd0 ^ d0 == 1, a1 ^ b1 ^ dc1 ^ dd1 ^ d1 == 1, a2 ^ b2 ^ dc2 ^ dd2 ^ d2 == 1, a3 ^ b3 ^ dc3 ^ dd3 ^ d3 == 1, a4 ^ b4 ^ dc4 ^ dd4 ^ d4 == 1, a5 ^ b5 ^ dc5 ^ dd5 ^ d5 == 1, a6 ^ b6 ^ dc6 ^ dd6 ^ d6 == 1, a7 ^ b7 ^ dc7 ^ dd7 ^ d7 == 1),
     // 03 a + b + c + 02 d
     Octet(da0 ^ a0 ^ b0 ^ c0 ^ dd0 == 1, da1 ^ a1 ^ b1 ^ c1 ^ dd1 == 1, da2 ^ a2 ^ b2 ^ c2 ^ dd2 == 1, da3 ^ a3 ^ b3 ^ c3 ^ dd3 == 1, da4 ^ a4 ^ b4 ^ c4 ^ dd4 == 1, da5 ^ a5 ^ b5 ^ c5 ^ dd5 == 1, da6 ^ a6 ^ b6 ^ c6 ^ dd6 == 1, da7 ^ a7 ^ b7 ^ c7 ^ dd7 == 1)]
  }

  /** The exclusive-or network computes MixColumns of FIPS-197. */
  lemma MixColumnsMatchesSpec(w: Word)
    ensures MixColumns(w) == MixColumnSpec(w)
  {
  }
  // ---------------------------------------------------------------------
  // The round functions of FIPS-197 on one block. Word c of a block is
  // column c of the state, byte r of a word is row r.
  // ---------------------------------------------------------------------

  /** SubBytes (FIPS-197 section 5.1.1): the S-box on every byte. */
  function SubBytes(b: Block): Block
  {
    seq(4, c requires 0 <= c < 4 => seq(4, r requires 0 <= r < 4 => SBox(b[c][r])))
  }

  /** ShiftRows (section 5.1.2): row r is rotated left by r columns. */
  function ShiftRows(b: Block): Block
  {
    seq(4, c requires 0 <= c < 4 => seq(4, r requires 0 <= r < 4 => b[(c + r) % 4][r]))
  }

  /** MixColumns (section 5.1.3) on every column. */
  function MixColumnsBlock(b: Block): Block
  {
    seq(4, c requires 0 <= c < 4 => MixColumnSpec(b[c]))
  }

  /** AddRoundKey (section 5.1.4): the round key is xored in byte by byte. */
  function AddRoundKey(b: Block, key: Block): Block
  {
    seq(4, c requires 0 <= c < 4 => seq(4, r requires 0 <= r < 4 => Xor(b[c][r], key[c][r])))
  }

  /** The number of rounds of AES-128. */
  const Rounds := 10

  /** Round 1 to 10 of the Cipher: SubBytes, ShiftRows, MixColumns
      (left out in the last round) and AddRoundKey. */
  function Round(b: Block, key: Block, last: bool): Block
  {
    var shifted := ShiftRows(SubBytes(b));
    AddRoundKey(if last then shifted else MixColumnsBlock(shifted), key)
  }

  /** Round r of the Cipher of FIPS-197 (Figure 5) with round keys
      keys[0..Rounds]: round 0 only adds the first round key, rounds 1 to
      9 apply SubBytes, ShiftRows, MixColumns and AddRoundKey, and the
      last round leaves MixColumns out. A round whose key is missing
      leaves the block alone (the Cipher never asks for one). */
  function RoundStep(keys: seq<Block>): (Block, nat) -> Block
  {
    (b: Block, r: nat) =>
      if r >= |keys| then b
      else if r == 0 then AddRoundKey(b, keys[0])
      else Round(b, keys[r], r == Rounds)
  }

  /** The state after rounds 0 to r of step, applied in turn. */
  function AfterRound<T>(x: T, step: (T, nat) -> T, r: nat): T
  {
    if r == 0 then step(x, 0) else step(AfterRound(x, step, r - 1), r)
  }

  /** Cipher(in, w) of FIPS-197 on one block. */
  function Cipher(b: Block, keys: seq<Block>): Block
    requires Rounds < |keys|
  {
    AfterRound(b, RoundStep(keys), Rounds)
  }

  // Properties of the round functions.

  /** Two blocks are equal when they agree on every byte. */
  lemma BlocksEqual(x: Block, y: Block)
    requires forall c, r :: 0 <= c < 4 && 0 <= r < 4 ==> x[c][r] == y[c][r]
    ensures x == y
  {
    forall c | 0 <= c < 4
      ensures x[c] == y[c]
    {
      assert forall r :: 0 <= r < 4 ==> x[c][r] == y[c][r];
    }
  }

  /** AddRoundKey with the same key twice gives the block back. */
  lemma AddRoundKeyInvolution(b: Block, key: Block)
    ensures AddRoundKey(AddRoundKey(b, key), key) == b
  {
    BlocksEqual(AddRoundKey(AddRoundKey(b, key), key), b);
  }

  /** SubBytes is undone byte by byte by the inverse S-box. */
  lemma SubBytesInvertible(b: Block)
    ensures seq(4, c requires 0 <= c < 4 => seq(4, r requires 0 <= r < 4 => InverseSBox(SubBytes(b)[c][r]))) == b
  {
    forall c, r | 0 <= c < 4 && 0 <= r < 4
      ensures InverseSBox(SubBytes(b)[c][r]) == b[c][r]
    {
      InverseSBoxOfSBox(b[c][r]);
    }
    BlocksEqual(seq(4, c requires 0 <= c < 4 => seq(4, r requires 0 <= r < 4 => InverseSBox(SubBytes(b)[c][r]))), b);
  }

  /** Four applications of ShiftRows rotate every row all the way round. */
  lemma ShiftRowsOrderFour(b: Block)
    ensures ShiftRows(ShiftRows(ShiftRows(ShiftRows(b)))) == b
  {
    var b1 := ShiftRows(b);
    var b2 := ShiftRows(b1);
    var b3 := ShiftRows(b2);
    var b4 := ShiftRows(b3);
    forall c, r | 0 <= c < 4 && 0 <= r < 4
      ensures b4[c][r] == b[c][r]
    {
      var c1 := (c + r) % 4;
      var c2 := (c1 + r) % 4;
      var c3 := (c2 + r) % 4;
      assert (c3 + r) % 4 == c;
      assert b4[c][r] == b3[c1][r] == b2[c2][r] == b1[c3][r];
    }
    BlocksEqual(b4, b);
  }

  // ---------------------------------------------------------------------
  // Bits to blocks and back (convertToWords, convertFromWords).
  // ---------------------------------------------------------------------

  /** The eight bits src[p..p+8] as a byte. */
  function OctetAt(src: seq<bool>, p: nat): Octet
    requires p + 8 <= |src|
  {
    Octet(src[p], src[p + 1], src[p + 2], src[p + 3], src[p + 4], src[p + 5], src[p + 6], src[p + 7])
  }

  /** The 128 bits from p on as a block: word i, byte j, bit k is bit
      p + 32i + 8j + k. */
  function BlockAt(src: seq<bool>, p: nat): Block
    requires p + 128 <= |src|
  {
    seq(4, i requires 0 <= i < 4 => seq(4, j requires 0 <= j < 4 => OctetAt(src, p + 32 * i + 8 * j)))
  }

  /** The blocks a bit vector of a multiple of 128 bits splits into. */
  function ToWords(src: seq<bool>): (r: seq<Block>)
    requires |src| % 128 == 0
    ensures |r| == |src| / 128
  {
    seq(|src| / 128, b requires 0 <= b < |src| / 128 => BlockAt(src, 128 * b))
  }

  /** The bits of a block, word by word, byte by byte: bit 32i + 8j + k
      is bit k of byte j of word i. */
  function BlockBits(b: Block): (bits: seq<bool>)
    ensures |bits| == 128
  {
    seq(128, n requires 0 <= n < 128 => BitOf(b[n / 32][n % 32 / 8], n % 8))
  }

  lemma SplitIndex(i: nat, j: nat, k: nat)
    requires i < 4 && j < 4 && k < 8
    ensures (32 * i + 8 * j + k) / 32 == i
    ensures (32 * i + 8 * j + k) % 32 / 8 == j
    ensures (32 * i + 8 * j + k) % 8 == k
  {
  }

  /** The bits of a sequence of blocks, block after block. */
  function FromWords(blocks: seq<Block>): (bits: seq<bool>)
    ensures |bits| == 128 * |blocks|
  {
    if |blocks| == 0 then []
    else FromWords(blocks[..|blocks| - 1]) + BlockBits(blocks[|blocks| - 1])
  }

  lemma BlockBitsAt(b: Block, i: nat, j: nat, k: nat)
    requires i < 4 && j < 4 && k < 8
    ensures BlockBits(b)[32 * i + 8 * j + k] == BitOf(b[i][j], k)
  {
    SplitIndex(i, j, k);
  }

  /** Two bytes with the same bits are equal. */
  lemma OctetsEqual(u: Octet, v: Octet)
    requires forall k :: 0 <= k < 8 ==> BitOf(u, k) == BitOf(v, k)
    ensures u == v
  {
    assert u.b0 == v.b0 by { assert BitOf(u, 0) == BitOf(v, 0); }
    assert u.b1 == v.b1 by { assert BitOf(u, 1) == BitOf(v, 1); }
    assert u.b2 == v.b2 by { assert BitOf(u, 2) == BitOf(v, 2); }
    assert u.b3 == v.b3 by { assert BitOf(u, 3) == BitOf(v, 3); }
    assert u.b4 == v.b4 by { assert BitOf(u, 4) == BitOf(v, 4); }
    assert u.b5 == v.b5 by { assert BitOf(u, 5) == BitOf(v, 5); }
    assert u.b6 == v.b6 by { assert BitOf(u, 6) == BitOf(v, 6); }
    assert u.b7 == v.b7 by { assert BitOf(u, 7) == BitOf(v, 7); }
  }

  /** Different blocks have different bits. */
  lemma BlockBitsInjective(x: Block, y: Block)
    requires BlockBits(x) == BlockBits(y)
    ensures x == y
  {
    forall i, j | 0 <= i < 4 && 0 <= j < 4
      ensures x[i][j] == y[i][j]
    {
      forall k | 0 <= k < 8
        ensures BitOf(x[i][j], k) == BitOf(y[i][j], k)
      {
        BlockBitsAt(x, i, j, k);
        BlockBitsAt(y, i, j, k);
      }
      OctetsEqual(x[i][j], y[i][j]);
    }
    BlocksEqual(x, y);
  }

  /** Different sequences of blocks have different bits. */
  lemma {:induction false} FromWordsInjective(xs: seq<Block>, ys: seq<Block>)
    requires FromWords(xs) == FromWords(ys)
    ensures xs == ys
    decreases |xs|
  {
    if |xs| > 0 {
      var n := |xs| - 1;
      var bits := FromWords(xs);
      assert bits[..128 * n] == FromWords(xs[..n]) && bits[128 * n..] == BlockBits(xs[n]);
      assert bits[..128 * n] == FromWords(ys[..n]) && bits[128 * n..] == BlockBits(ys[n]);
      FromWordsInjective(xs[..n], ys[..n]);
      BlockBitsInjective(xs[n], ys[n]);
      assert xs == xs[..n] + [xs[n]] && ys == ys[..n] + [ys[n]];
    }
  }

  /** Writing a block's bits back. */
  lemma BlockBitsBlockAt(src: seq<bool>, p: nat)
    requires p + 128 <= |src|
    ensures BlockBits(BlockAt(src, p)) == src[p..p + 128]
  {
    var b := BlockAt(src, p);
    var bits := BlockBits(b);
    forall n | 0 <= n < 128
      ensures bits[n] == src[p + n]
    {
      var i, j, k := n / 32, n % 32 / 8, n % 8;
      assert n == 32 * i + 8 * j + k;
    }
  }

  /** The block read at p depends only on the bits p..p+128. */
  lemma BlockAtPrefix(src: seq<bool>, m: nat, p: nat)
    requires p + 128 <= m <= |src|
    ensures BlockAt(src[..m], p) == BlockAt(src, p)
  {
    BlocksEqual(BlockAt(src[..m], p), BlockAt(src, p));
  }

  /** convertFromWords undoes convertToWords. */
  lemma {:induction false} FromWordsToWords(src: seq<bool>)
    requires |src| % 128 == 0
    ensures FromWords(ToWords(src)) == src
    decreases |src|
  {
    if |src| > 0 {
      var m := |src| - 128;
      var blocks := ToWords(src);
      assert blocks[..|blocks| - 1] == ToWords(src[..m]) by {
        forall b | 0 <= b < |blocks| - 1
          ensures blocks[b] == ToWords(src[..m])[b]
        {
          BlockAtPrefix(src, m, 128 * b);
        }
      }
      FromWordsToWords(src[..m]);
      BlockBitsBlockAt(src, m);
      assert src == src[..m] + src[m..];
    }
  }

  /** convertToWords undoes convertFromWords. */
  lemma ToWordsFromWords(blocks: seq<Block>)
    ensures ToWords(FromWords(blocks)) == blocks
  {
    FromWordsToWords(FromWords(blocks));
    FromWordsInjective(ToWords(FromWords(blocks)), blocks);
  }

  /** Bit k of byte j of word i of block b is bit 128b + 32i + 8j + k of
      the vector, as convertToWords reads it. */
  lemma ToWordsAt(src: seq<bool>, b: nat, i: nat, j: nat, k: nat)
    requires |src| % 128 == 0 && b < |src| / 128 && i < 4 && j < 4 && k < 8
    ensures BitOf(ToWords(src)[b][i][j], k) == src[128 * b + 32 * i + 8 * j + k]
  {
  }

  /** convertFromWords pushes bit k of byte j of word i of block b as
      bit 128b + 32i + 8j + k. */
  lemma {:induction false} FromWordsAt(blocks: seq<Block>, b: nat, i: nat, j: nat, k: nat)
    requires b < |blocks| && i < 4 && j < 4 && k < 8
    ensures FromWords(blocks)[128 * b + 32 * i + 8 * j + k] == BitOf(blocks[b][i][j], k)
    decreases |blocks|
  {
    var n := |blocks| - 1;
    if b < n {
      FromWordsAt(blocks[..n], b, i, j, k);
    } else {
      BlockBitsAt(blocks[n], i, j, k);
    }
  }

  // ---------------------------------------------------------------------
  // The in-place operations and encrypt_impl.
  // ---------------------------------------------------------------------

  /** convertToWords: the bit vector as blocks; a length that is not a
      multiple of 128 is a runtime_error. */
  method ConvertToWords(src: seq<bool>) returns (r: Result<seq<Block>>)
    ensures |src| % 128 != 0 ==> r == Err(RuntimeError)
    ensures |src| % 128 == 0 ==> r == Ok(ToWords(src))
  {
    if |src| % 128 != 0 {
      return Err(RuntimeError);
    }
    var wordVec: seq<Block> := [];
    var blockNo := |src| / 128;
    var iBlock := 0;
    while iBlock < blockNo
      invariant 0 <= iBlock <= blockNo
      invariant wordVec == ToWords(src)[..iBlock]
    {
      wordVec := wordVec + [BlockAt(src, 128 * iBlock)];
      iBlock := iBlock + 1;
    }
    assert ToWords(src)[..blockNo] == ToWords(src);
    return Ok(wordVec);
  }

  /** convertFromWords: the blocks as one bit vector. */
  method ConvertFromWords(src: seq<Block>) returns (bitVec: seq<bool>)
    ensures bitVec == FromWords(src)
  {
    bitVec := [];
    var i := 0;
    while i < |src|
      invariant 0 <= i <= |src|
      invariant bitVec == FromWords(src[..i])
    {
      assert src[..i + 1][..i] == src[..i];
      bitVec := bitVec + BlockBits(src[i]);
      i := i + 1;
    }
    assert src[..i] == src;
  }

  /** A ByteType, eight wires with the most significant bit first, as an octet. */
  function OctetOfBits(s: seq<bool>): Octet
    requires |s| == 8
  {
    Octet(s[0], s[1], s[2], s[3], s[4], s[5], s[6], s[7])
  }

  /** sBoxInPlace: the byte's eight wires are replaced by the S-box
      circuit's outputs. */
  method SBoxInPlace(src: array<bool>)
    requires src.Length == 8
    modifies src
    ensures OctetOfBits(src[..]) == SBox(OctetOfBits(old(src[..])))
  {
    var y := SBox(OctetOfBits(src[..]));
    src[0], src[1], src[2], src[3], src[4], src[5], src[6], src[7] :=
      y.b0, y.b1, y.b2, y.b3, y.b4, y.b5, y.b6, y.b7;
  }

  /** inverseSBoxInPlace: the byte's eight wires are replaced by the
      inverse S-box circuit's outputs. */
  method InverseSBoxInPlace(src: array<bool>)
    requires src.Length == 8
    modifies src
    ensures OctetOfBits(src[..]) == InverseSBox(OctetOfBits(old(src[..])))
  {
    var y := InverseSBox(OctetOfBits(src[..]));
    src[0], src[1], src[2], src[3], src[4], src[5], src[6], src[7] :=
      y.b0, y.b1, y.b2, y.b3, y.b4, y.b5, y.b6, y.b7;
  }

  /** shiftRowInPlace on a block held as a 4 x 4 array, word c and byte
      r at [c, r]: the swaps rotate row r left by r words (the source is
      a template over the bit type, and so is this method). */
  method ShiftRowInPlace<T>(src: array2<T>)
    requires src.Length0 == 4 && src.Length1 == 4
    modifies src
    ensures forall c, r :: 0 <= c < 4 && 0 <= r < 4 ==> src[c, r] == old(src[(c + r) % 4, r])
  {
    // row 1
    src[0, 1], src[1, 1] := src[1, 1], src[0, 1];
    src[1, 1], src[2, 1] := src[2, 1], src[1, 1];
    src[2, 1], src[3, 1] := src[3, 1], src[2, 1];
    // row 2
    src[0, 2], src[2, 2] := src[2, 2], src[0, 2];
    src[1, 2], src[3, 2] := src[3, 2], src[1, 2];
    // row 3
    src[3, 3], src[2, 3] := src[2, 3], src[3, 3];
    src[2, 3], src[1, 3] := src[1, 3], src[2, 3];
    src[1, 3], src[0, 3] := src[0, 3], src[1, 3];
  }

  /** mixColumnsInPlace: the exclusive-or network replaces the column by
      its MixColumns. */
  method MixColumnsInPlace(src: array<Octet>)
    requires src.Length == 4
    modifies src
    ensures src[..] == MixColumnSpec(old(src[..]))
  {
    var x := src[..];
    var y := MixColumns(x);
    MixColumnsMatchesSpec(x);
    src[0], src[1], src[2], src[3] := y[0], y[1], y[2], y[3];
    assert src[..] == y;
  }

  /** MixColumns applied n times. */
  function MixPower(w: Word, n: nat): Word
  {
    if n == 0 then w else MixColumnSpec(MixPower(w, n - 1))
  }

  /** inverseMixColumnsInPlace: MixColumns three more times. */
  method InverseMixColumnsInPlace(src: array<Octet>)
    requires src.Length == 4
    modifies src
    ensures src[..] == MixPower(old(src[..]), 3)
  {
    var i := 1;
    while i < 4
      invariant 1 <= i <= 4
      invariant src[..] == MixPower(old(src[..]), i - 1)
    {
      MixColumnsInPlace(src);
      i := i + 1;
    }
  }

  /** The byte with the given value, most significant bit first. */
  function OctetOfBv(v: bv8): (u: Octet)
    ensures u.b0 == (v & 0x80 != 0) && u.b7 == (v & 0x01 != 0)
  {
    Octet(v & 0x80 != 0, v & 0x40 != 0, v & 0x20 != 0, v & 0x10 != 0,
          v & 0x08 != 0, v & 0x04 != 0, v & 0x02 != 0, v & 0x01 != 0)
  }

  lemma MixPowerThree(w: Word)
    ensures MixPower(w, 3) == MixColumnSpec(MixColumnSpec(MixColumnSpec(w)))
  {
    assert MixPower(w, 1) == MixColumnSpec(w);
    assert MixPower(w, 2) == MixColumnSpec(MixColumnSpec(w));
  }

  /** The MixColumns example column (db 13 53 45 becomes 8e 4d a1 bc),
      and three more MixColumns take it back: on this column the
      inverseMixColumnsInPlace of the source undoes MixColumns. */
  lemma InverseMixColumnsExample()
    ensures MixColumnSpec([OctetOfBv(0xdb), OctetOfBv(0x13), OctetOfBv(0x53), OctetOfBv(0x45)])
            == [OctetOfBv(0x8e), OctetOfBv(0x4d), OctetOfBv(0xa1), OctetOfBv(0xbc)]
    ensures MixPower([OctetOfBv(0x8e), OctetOfBv(0x4d), OctetOfBv(0xa1), OctetOfBv(0xbc)], 3)
            == [OctetOfBv(0xdb), OctetOfBv(0x13), OctetOfBv(0x53), OctetOfBv(0x45)]
  {
    var w: Word := [OctetOfBv(0x8e), OctetOfBv(0x4d), OctetOfBv(0xa1), OctetOfBv(0xbc)];
    MixPowerThree(w);
    var w1 := MixColumnSpec(w);
    var w2 := MixColumnSpec(w1);
  }

  /** One of encrypt_impl's loops over the blocks, applying f to each. */
  method MapBlocks(state: array<Block>, f: Block -> Block)
    modifies state
    ensures forall b :: 0 <= b < state.Length ==> state[b] == f(old(state[b]))
  {
    var block := 0;
    while block < state.Length
      invariant 0 <= block <= state.Length
      invariant forall b :: 0 <= b < block ==> state[b] == f(old(state[b]))
      invariant forall b :: block <= b < state.Length ==> state[b] == old(state[b])
    {
      state[block] := f(state[block]);
      block := block + 1;
    }
  }

  /** encrypt_impl's AddRoundKey loop: roundKeys[round] is read only
      inside the loop over the blocks. */
  method AddRoundKeyInPlace(state: array<Block>, roundKeys: seq<Block>, round: nat)
    requires state.Length == 0 || round < |roundKeys|
    modifies state
    ensures forall b :: 0 <= b < state.Length ==> state[b] == AddRoundKey(old(state[b]), roundKeys[round])
  {
    var block := 0;
    while block < state.Length
      invariant 0 <= block <= state.Length
      invariant forall b :: 0 <= b < block ==> state[b] == AddRoundKey(old(state[b]), roundKeys[round])
      invariant forall b :: block <= b < state.Length ==> state[b] == old(state[b])
    {
      state[block] := AddRoundKey(state[block], roundKeys[round]);
      block := block + 1;
    }
  }

  /** Round r of step on every element. */
  function RoundAll<T>(s: seq<T>, step: (T, nat) -> T, r: nat): (t: seq<T>)
    ensures |t| == |s|
  {
    seq(|s|, i requires 0 <= i < |s| => step(s[i], r))
  }

  /** Rounds 0 to r of step on every element, one round at a time. */
  function AfterRoundAll<T>(s: seq<T>, step: (T, nat) -> T, r: nat): (t: seq<T>)
    ensures |t| == |s|
  {
    if r == 0 then RoundAll(s, step, 0) else RoundAll(AfterRoundAll(s, step, r - 1), step, r)
  }

  /** Running the rounds over the whole sequence runs them on each element. */
  lemma {:induction false} AfterRoundAllAt<T>(s: seq<T>, step: (T, nat) -> T, r: nat)
    ensures forall i :: 0 <= i < |s| ==> AfterRoundAll(s, step, r)[i] == AfterRound(s[i], step, r)
  {
    if r > 0 {
      AfterRoundAllAt(s, step, r - 1);
    }
  }

  /** The Cipher of FIPS-197 on every block with the same key schedule
      (an empty sequence of blocks needs no keys). */
  function EncryptBlocks(blocks: seq<Block>, keys: seq<Block>): (r: seq<Block>)
    requires |blocks| == 0 || Rounds < |keys|
    ensures |r| == |blocks|
  {
    seq(|blocks|, b requires 0 <= b < |blocks| => Cipher(blocks[b], keys))
  }

  /** One round of encrypt_impl on every block: SubBytes, ShiftRow,
      MixColumns except in the last round, and AddRoundKey. */
  method RoundInPlace(state: array<Block>, roundKeys: seq<Block>, round: nat)
    requires 1 <= round <= Rounds
    requires state.Length == 0 || round < |roundKeys|
    modifies state
    ensures state[..] == RoundAll(old(state[..]), RoundStep(roundKeys), round)
  {
    MapBlocks(state, SubBytes);
    MapBlocks(state, ShiftRows);
    if round != Rounds {
      MapBlocks(state, MixColumnsBlock);
    }
    AddRoundKeyInPlace(state, roundKeys, round);
  }

  /** The rounds of encrypt_impl: the pre-round and rounds 1 to 10 on
      every block in place. */
  method CipherInPlace(state: array<Block>, roundKeys: seq<Block>)
    requires state.Length == 0 || Rounds < |roundKeys|
    modifies state
    ensures state[..] == EncryptBlocks(old(state[..]), roundKeys)
  {
    ghost var initial := state[..];
    // pre-round
    AddRoundKeyInPlace(state, roundKeys, 0);
    PreRoundAll(initial, state[..], roundKeys);
    var round := 1;
    while round <= Rounds
      invariant 1 <= round <= Rounds + 1
      invariant state[..] == AfterRoundAll(initial, RoundStep(roundKeys), round - 1)
    {
      RoundInPlace(state, roundKeys, round);
      round := round + 1;
    }
    AllRoundsEncrypt(initial, roundKeys);
  }

  /** The pre-round on every block is AfterRoundAll at round 0. */
  lemma PreRoundAll(s: seq<Block>, t: seq<Block>, keys: seq<Block>)
    requires |s| == 0 || Rounds < |keys|
    requires |t| == |s|
    requires forall b :: 0 <= b < |s| ==> t[b] == AddRoundKey(s[b], keys[0])
    ensures t == AfterRoundAll(s, RoundStep(keys), 0)
  {
  }

  /** After the last round every block is enciphered. */
  lemma AllRoundsEncrypt(s: seq<Block>, keys: seq<Block>)
    requires |s| == 0 || Rounds < |keys|
    ensures AfterRoundAll(s, RoundStep(keys), Rounds) == EncryptBlocks(s, keys)
  {
    AfterRoundAllAt(s, RoundStep(keys), Rounds);
  }

  /** encrypt_impl: AES-128 on every block of the plaintext with the
      expanded key (11 round keys of 128 bits). Both vectors must be
      multiples of 128 bits; the eleventh round key is read unchecked,
      so a shorter key schedule is undefined behaviour once there is a
      block to encrypt. */
  method EncryptImpl(plaintext: seq<bool>, expandedEncKey: seq<bool>) returns (r: Result<seq<bool>>)
    requires |plaintext| % 128 == 0 && |plaintext| > 0 && |expandedEncKey| % 128 == 0 ==> Rounds < |expandedEncKey| / 128
    ensures |plaintext| % 128 != 0 || |expandedEncKey| % 128 != 0 <==> r == Err(RuntimeError)
    ensures |plaintext| % 128 == 0 && |expandedEncKey| % 128 == 0 ==>
      r == Ok(FromWords(EncryptBlocks(ToWords(plaintext), ToWords(expandedEncKey))))
  {
    var plaintextBlocks :- ConvertToWords(plaintext);
    var roundKeys :- ConvertToWords(expandedEncKey);
    var blockNo := |plaintextBlocks|;
    var state := new Block[blockNo](b requires 0 <= b < blockNo => plaintextBlocks[b]);
    CipherInPlace(state, roundKeys);
    assert state[..] == EncryptBlocks(plaintextBlocks, roundKeys);
    var bits := ConvertFromWords(state[..]);
    return Ok(bits);
  }

  /** decrypt_impl is not implemented: it always throws a runtime_error. */
  function DecryptImpl(ciphertext: seq<bool>, expandedDecKey: seq<bool>): (r: Result<seq<bool>>)
    ensures r == Err(RuntimeError)
  {
    Err(RuntimeError)
  }

}
