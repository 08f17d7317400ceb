/** The permutation steps of FIPS 202, sections 3.2.1 to 3.2.5, stated bit by bit. */
module Fips202 {
  import opened Word64

  // The state array A[x, y, z]: bit z of lane (x, y), and lane (x, y) is field lx of row ry.
  datatype Row = Row(l0: Word, l1: Word, l2: Word, l3: Word, l4: Word)
  datatype State = State(r0: Row, r1: Row, r2: Row, r3: Row, r4: Row)

  function Lane(a: State, x: nat, y: nat): Word
    requires x < 5 && y < 5
  {
    var r := if y == 0 then a.r0 else if y == 1 then a.r1 else if y == 2 then a.r2 else if y == 3 then a.r3 else a.r4;
    if x == 0 then r.l0 else if x == 1 then r.l1 else if x == 2 then r.l2 else if x == 3 then r.l3 else r.l4
  }

  function Bit(a: State, x: nat, y: nat, z: nat): bool
    requires x < 5 && y < 5 && z < 64
  {
    Lane(a, x, y).bits[z]
  }

  /** The state whose lane (x, y) is f(x, y). */
  function Tabulate(f: (nat, nat) --> Word): State
    requires forall x: nat, y: nat | x < 5 && y < 5 :: f.requires(x, y)
  {
    State(Row(f(0, 0), f(1, 0), f(2, 0), f(3, 0), f(4, 0)),
          Row(f(0, 1), f(1, 1), f(2, 1), f(3, 1), f(4, 1)),
          Row(f(0, 2), f(1, 2), f(2, 2), f(3, 2), f(4, 2)),
          Row(f(0, 3), f(1, 3), f(2, 3), f(3, 3), f(4, 3)),
          Row(f(0, 4), f(1, 4), f(2, 4), f(3, 4), f(4, 4)))
  }

  function Parity(a: State, x: nat, z: nat): bool
    requires x < 5 && z < 64
  {
    (((Bit(a, x, 0, z) != Bit(a, x, 1, z)) != Bit(a, x, 2, z)) != Bit(a, x, 3, z)) != Bit(a, x, 4, z)
  }

  function ThetaLane(a: State, x: nat, y: nat): Word
    requires x < 5 && y < 5
  {
    Word(seq(64, z requires 0 <= z < 64 =>
      Bit(a, x, y, z) != (Parity(a, (x - 1) % 5, z) != Parity(a, (x + 1) % 5, (z - 1) % 64))))
  }

  function Theta(a: State): State {
    Tabulate((x: nat, y: nat) requires x < 5 && y < 5 => ThetaLane(a, x, y))
  }

  /** The lane visited at step t of the walk that assigns the offsets of rho. */
  function Walk(t: nat): (p: (nat, nat))
    ensures p.0 < 5 && p.1 < 5
  {
    if t == 0 then (1, 0) else var (x, y) := Walk(t - 1); (y, (2 * x + 3 * y) % 5)
  }

  // Table 2 of section 3.2.2: the offset of lane (x, y).
  function Offset(x: nat, y: nat): nat
    requires x < 5 && y < 5
  {
    if y == 0 then Pick(x, 0, 1, 190, 28, 91)
    else if y == 1 then Pick(x, 36, 300, 6, 55, 276)
    else if y == 2 then Pick(x, 3, 10, 171, 153, 231)
    else if y == 3 then Pick(x, 105, 45, 15, 21, 136)
    else Pick(x, 210, 66, 253, 120, 78)
  }

  function Pick<T>(x: nat, v0: T, v1: T, v2: T, v3: T, v4: T): T
    requires x < 5
  {
    if x == 0 then v0 else if x == 1 then v1 else if x == 2 then v2 else if x == 3 then v3 else v4
  }

  /** Step t of the walk gives its lane the offset (t + 1)(t + 2)/2. */
  lemma OffsetsFollowTheWalk()
    ensures Offset(Walk(0).0, Walk(0).1) == 1 * 2 / 2
    ensures Offset(Walk(1).0, Walk(1).1) == 2 * 3 / 2
    ensures Offset(Walk(2).0, Walk(2).1) == 3 * 4 / 2
    ensures Offset(Walk(3).0, Walk(3).1) == 4 * 5 / 2
    ensures Offset(Walk(4).0, Walk(4).1) == 5 * 6 / 2
    ensures Offset(Walk(5).0, Walk(5).1) == 6 * 7 / 2
    ensures Offset(Walk(6).0, Walk(6).1) == 7 * 8 / 2
    ensures Offset(Walk(7).0, Walk(7).1) == 8 * 9 / 2
    ensures Offset(Walk(8).0, Walk(8).1) == 9 * 10 / 2
    ensures Offset(Walk(9).0, Walk(9).1) == 10 * 11 / 2
    ensures Offset(Walk(10).0, Walk(10).1) == 11 * 12 / 2
    ensures Offset(Walk(11).0, Walk(11).1) == 12 * 13 / 2
    ensures Offset(Walk(12).0, Walk(12).1) == 13 * 14 / 2
    ensures Offset(Walk(13).0, Walk(13).1) == 14 * 15 / 2
    ensures Offset(Walk(14).0, Walk(14).1) == 15 * 16 / 2
    ensures Offset(Walk(15).0, Walk(15).1) == 16 * 17 / 2
    ensures Offset(Walk(16).0, Walk(16).1) == 17 * 18 / 2
    ensures Offset(Walk(17).0, Walk(17).1) == 18 * 19 / 2
    ensures Offset(Walk(18).0, Walk(18).1) == 19 * 20 / 2
    ensures Offset(Walk(19).0, Walk(19).1) == 20 * 21 / 2
    ensures Offset(Walk(20).0, Walk(20).1) == 21 * 22 / 2
    ensures Offset(Walk(21).0, Walk(21).1) == 22 * 23 / 2
    ensures Offset(Walk(22).0, Walk(22).1) == 23 * 24 / 2
    ensures Offset(Walk(23).0, Walk(23).1) == 24 * 25 / 2
  {
    assert Walk(0) == (1, 0);
    assert Walk(1) == (0, 2);
    assert Walk(2) == (2, 1);
    assert Walk(3) == (1, 2);
    assert Walk(4) == (2, 3);
    assert Walk(5) == (3, 3);
    assert Walk(6) == (3, 0);
    assert Walk(7) == (0, 1);
    assert Walk(8) == (1, 3);
    assert Walk(9) == (3, 1);
    assert Walk(10) == (1, 4);
    assert Walk(11) == (4, 4);
    assert Walk(12) == (4, 0);
    assert Walk(13) == (0, 3);
    assert Walk(14) == (3, 4);
    assert Walk(15) == (4, 3);
    assert Walk(16) == (3, 2);
    assert Walk(17) == (2, 2);
    assert Walk(18) == (2, 0);
    assert Walk(19) == (0, 4);
    assert Walk(20) == (4, 2);
    assert Walk(21) == (2, 4);
    assert Walk(22) == (4, 1);
    assert Walk(23) == (1, 1);
  }

  function RhoLane(a: State, x: nat, y: nat): Word
    requires x < 5 && y < 5
  {
    Word(seq(64, z requires 0 <= z < 64 => Bit(a, x, y, (z - Offset(x, y)) % 64)))
  }

  function Rho(a: State): State {
    Tabulate((x: nat, y: nat) requires x < 5 && y < 5 => RhoLane(a, x, y))
  }

  function PiLane(a: State, x: nat, y: nat): Word
    requires x < 5 && y < 5
  {
    Word(seq(64, z requires 0 <= z < 64 => Bit(a, (x + 3 * y) % 5, x, z)))
  }

  function Pi(a: State): State {
    Tabulate((x: nat, y: nat) requires x < 5 && y < 5 => PiLane(a, x, y))
  }

  function ChiLane(a: State, x: nat, y: nat): Word
    requires x < 5 && y < 5
  {
    Word(seq(64, z requires 0 <= z < 64 =>
      Bit(a, x, y, z) != ((Bit(a, (x + 1) % 5, y, z) != true) && Bit(a, (x + 2) % 5, y, z))))
  }

  function Chi(a: State): State {
    Tabulate((x: nat, y: nat) requires x < 5 && y < 5 => ChiLane(a, x, y))
  }

  /** The register of Algorithm 5 after t steps; bit i of the byte is R[i]. */
  function Register(t: nat): bv8 {
    if t == 0 then 1
    else
      var r := Register(t - 1);
      if r & 0x80 != 0 then (r << 1) ^ 0x71 else r << 1
  }

  // rc(t) as a number; reducing t modulo 255 changes nothing for the t below 168 used here.
  function RcBit(t: nat): nat {
    if Register(t) & 1 != 0 then 1 else 0
  }

  /** RC of round r: binary digit 2^j - 1 is rc(7r + j) for j up to 6, every other digit is 0. */
  function RoundConstant(r: nat): nat {
    RcBit(7 * r) + RcBit(7 * r + 1) * 0x2 + RcBit(7 * r + 2) * 0x8 + RcBit(7 * r + 3) * 0x80 +
    RcBit(7 * r + 4) * 0x8000 + RcBit(7 * r + 5) * 0x8000_0000 + RcBit(7 * r + 6) * 0x8000_0000_0000_0000
  }

  const RC: seq<nat> := [
    0x0000000000000001, 0x0000000000008082, 0x800000000000808A, 0x8000000080008000,
    0x000000000000808B, 0x0000000080000001, 0x8000000080008081, 0x8000000000008009,
    0x000000000000008A, 0x0000000000000088, 0x0000000080008009, 0x000000008000000A,
    0x000000008000808B, 0x800000000000008B, 0x8000000000008089, 0x8000000000008003,
    0x8000000000008002, 0x8000000000000080, 0x000000000000800A, 0x800000008000000A,
    0x8000000080008081, 0x8000000000008080, 0x0000000080000001, 0x8000000080008008
  ]

  /** The table of the source holds, round by round, the constants Algorithm 5 generates. */
  lemma TableIsGenerated(r: nat)
    requires r < 24
    ensures RC[r] == RoundConstant(r)
  {
    if r < 12 {
      FirstHalfIsGenerated(r);
    } else {
      SecondHalfIsGenerated(r);
    }
  }

  lemma FirstHalfIsGenerated(r: nat)
    requires r < 12
    ensures RC[r] == RoundConstant(r)
  {
    RoundConstantsTo1();
    RoundConstantsTo2();
    RoundConstantsTo4();
    RoundConstantsTo6();
    RoundConstantsTo8();
    RoundConstantsTo10();
    RoundConstantsTo12();
  }

  lemma SecondHalfIsGenerated(r: nat)
    requires 12 <= r < 24
    ensures RC[r] == RoundConstant(r)
  {
    RoundConstantsTo14();
    RoundConstantsTo16();
    RoundConstantsTo18();
    RoundConstantsTo20();
    RoundConstantsTo22();
    RoundConstantsTo24();
  }

  lemma RoundConstantsTo1()
    ensures Register(7) == 0x80
    ensures RC[0] == RoundConstant(0)
  {
  }

  lemma RoundConstantsTo2()
    ensures Register(14) == 0xd8
    ensures RC[1] == RoundConstant(1)
  {
    RoundConstantsTo1();
    assert Register(8) == 0x71 && Register(9) == 0xe2 && Register(10) == 0xb5;
    assert Register(11) == 0x1b && Register(12) == 0x36 && Register(13) == 0x6c;
  }

  lemma RoundConstantsTo4()
    ensures Register(28) == 0xdf
    ensures RC[2] == RoundConstant(2) && RC[3] == RoundConstant(3)
  {
    RoundConstantsTo2();
    assert Register(21) == 0x1a && Register(28) == 0xdf;
  }

  lemma RoundConstantsTo6()
    ensures Register(42) == 0x35
    ensures RC[4] == RoundConstant(4) && RC[5] == RoundConstant(5)
  {
    RoundConstantsTo4();
    assert Register(35) == 0x09 && Register(42) == 0x35;
  }

  lemma RoundConstantsTo8()
    ensures Register(56) == 0xca
    ensures RC[6] == RoundConstant(6) && RC[7] == RoundConstant(7)
  {
    RoundConstantsTo6();
    assert Register(49) == 0x4f && Register(56) == 0xca;
  }

  lemma RoundConstantsTo10()
    ensures Register(70) == 0x41
    ensures RC[8] == RoundConstant(8) && RC[9] == RoundConstant(9)
  {
    RoundConstantsTo8();
    assert Register(63) == 0x70 && Register(70) == 0x41;
  }

  lemma RoundConstantsTo12()
    ensures Register(84) == 0xd5
    ensures RC[10] == RoundConstant(10) && RC[11] == RoundConstant(11)
  {
    RoundConstantsTo10();
    assert Register(77) == 0xec && Register(84) == 0xd5;
  }

  lemma RoundConstantsTo14()
    ensures Register(98) == 0x63
    ensures RC[12] == RoundConstant(12) && RC[13] == RoundConstant(13)
  {
    RoundConstantsTo12();
    assert Register(91) == 0xcd && Register(98) == 0x63;
  }

  lemma RoundConstantsTo16()
    ensures Register(112) == 0xaa
    ensures RC[14] == RoundConstant(14) && RC[15] == RoundConstant(15)
  {
    RoundConstantsTo14();
    assert Register(105) == 0xab && Register(112) == 0xaa;
  }

  lemma RoundConstantsTo18()
    ensures Register(126) == 0xf2
    ensures RC[16] == RoundConstant(16) && RC[17] == RoundConstant(17)
  {
    RoundConstantsTo16();
    assert Register(119) == 0x2a && Register(126) == 0xf2;
  }

  lemma RoundConstantsTo20()
    ensures Register(140) == 0x37
    ensures RC[18] == RoundConstant(18) && RC[19] == RoundConstant(19)
  {
    RoundConstantsTo18();
    assert Register(133) == 0xe8 && Register(140) == 0x37;
  }

  lemma RoundConstantsTo22()
    ensures Register(154) == 0x0b
    ensures RC[20] == RoundConstant(20) && RC[21] == RoundConstant(21)
  {
    RoundConstantsTo20();
    assert Register(147) == 0x3e && Register(154) == 0x0b;
  }

  lemma RoundConstantsTo24()
    ensures Register(168) == 0x8e
    ensures RC[22] == RoundConstant(22) && RC[23] == RoundConstant(23)
  {
    RoundConstantsTo22();
    assert Register(161) == 0x44 && Register(168) == 0x8e;
  }

  function Iota(a: State, r: nat): State
    requires r < 24
  {
    a.(r0 := a.r0.(l0 := Xor(a.r0.l0, FromNat(RC[r]))))
  }

  function Round(a: State, r: nat): State
    requires r < 24
  {
    Iota(Chi(Pi(Rho(Theta(a)))), r)
  }

  /** Rounds first, first + 1, ..., last - 1 in that order. */
  function Rounds(a: State, first: nat, last: nat): State
    requires first <= last <= 24
  {
    if first == last then a else Round(Rounds(a, first, last - 1), last - 1)
  }
}
