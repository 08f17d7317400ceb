/** The sponge of section 4 of FIPS 202 on bit strings: the hash over bytes and lanes computes it. */
module BitSponge {

  import opened Word64
  import opened Sponge
  import opened Keccak

  const WIDTH: nat := 1600
  const BIT_RATE: nat := 1088

  type StateBits = s: seq<bool> | |s| == WIDTH witness seq(WIDTH, _ => false)

  // ---------------------------------------------------------------- Algorithms 8 and 9

  /** pad10*1: a one, as many zeros as needed, a one. */
  function Pad101(x: nat, m: int): seq<bool>
    requires x > 0
  {
    [true] + seq((-m - 2) % x, _ => false) + [true]
  }

  function XorBits(a: seq<bool>, b: seq<bool>): seq<bool>
    requires |a| == |b|
  {
    seq(|a|, i requires 0 <= i < |a| => a[i] != b[i])
  }

  function AbsorbBits(f: StateBits -> StateBits, s: StateBits, p: seq<bool>): StateBits
    requires |p| % BIT_RATE == 0
    decreases |p|
  {
    if p == [] then s
    else AbsorbBits(f, f(XorBits(s, p[..BIT_RATE] + seq(WIDTH - BIT_RATE, _ => false))), p[BIT_RATE..])
  }

  lemma PadFills(n: nat)
    ensures (n + |Pad101(BIT_RATE, n)|) % BIT_RATE == 0
  {
    var m: int := n;
    var j := (-m - 2) % BIT_RATE;
    assert m + 2 + j == BIT_RATE * -((-m - 2) / BIT_RATE);
  }

  /** SPONGE[f, pad10*1, 1088](message, d), for an output within one block. */
  function BitHash(f: StateBits -> StateBits, message: seq<bool>, d: nat): seq<bool>
    requires d <= BIT_RATE
  {
    PadFills(|message|);
    AbsorbBits(f, seq(WIDTH, _ => false), message + Pad101(BIT_RATE, |message|))[..d]
  }

  // ---------------------------------------------------------------- states as bit strings, section 3.1

  function Concat(lanes: seq<Word>): (s: seq<bool>)
    ensures |s| == 64 * |lanes|
  {
    if lanes == [] then [] else lanes[0].bits + Concat(lanes[1..])
  }

  function AsBits(s: LaneArray): StateBits {
    Concat(s)
  }

  function AsLanes(s: StateBits): LaneArray {
    seq(25, i requires 0 <= i < 25 => Word(s[64 * i..64 * i + 64]))
  }

  lemma {:induction false} ConcatAt(lanes: seq<Word>, i: nat, z: nat)
    requires i < |lanes| && z < 64
    ensures Concat(lanes)[64 * i + z] == lanes[i].bits[z]
  {
    if i > 0 {
      ConcatAt(lanes[1..], i - 1, z);
    }
  }

  /** Bit z of lane 5y + x is bit 64(5y + x) + z of the string. */
  lemma BitOfState(s: LaneArray, x: nat, y: nat, z: nat)
    requires x < 5 && y < 5 && z < 64
    ensures AsBits(s)[64 * (5 * y + x) + z] == s[5 * y + x].bits[z]
  {
    ConcatAt(s, 5 * y + x, z);
  }

  lemma LanesOfBits(s: LaneArray)
    ensures AsLanes(AsBits(s)) == s
  {
    forall i | 0 <= i < 25 ensures AsLanes(AsBits(s))[i] == s[i] {
      forall z | 0 <= z < 64 ensures AsBits(s)[64 * i + z] == s[i].bits[z] {
        ConcatAt(s, i, z);
      }
      assert AsBits(s)[64 * i..64 * i + 64] == s[i].bits;
    }
  }

  /** The permutation on bit strings. */
  function OnBits(f: Permutation): StateBits -> StateBits {
    (s: StateBits) => AsBits(f(AsLanes(s)))
  }

  // ---------------------------------------------------------------- the parts correspond

  lemma {:induction false} BitsAppend(a: seq<Byte>, b: seq<Byte>)
    ensures BitsOfBytes(a + b) == BitsOfBytes(a) + BitsOfBytes(b)
  {
    if a == [] {
      assert a + b == b && [] + BitsOfBytes(b) == BitsOfBytes(b);
    } else {
      assert (a + b)[1..] == a[1..] + b;
      BitsAppend(a[1..], b);
    }
  }

  lemma {:induction false} BitsOfZeros(n: nat)
    ensures BitsOfBytes(Zeros(n)) == seq(8 * n, _ => false)
  {
    if n > 0 {
      assert Zeros(n)[1..] == Zeros(n - 1);
      BitsOfZeros(n - 1);
      assert Bits(0, 8) == seq(8, _ => false);
    }
  }

  lemma BitsOfFirstMark()
    ensures BitsOfBytes([0x06]) == [false, true, true] + seq(5, _ => false)
  {
    assert Bits(3, 7) == [true, true] + seq(5, _ => false);
  }

  lemma BitsOfLastMark()
    ensures BitsOfBytes([0x80]) == seq(7, _ => false) + [true]
  {
    assert Bits(8, 4) == seq(3, _ => false) + [true];
  }

  lemma BitsOfBothMarks()
    ensures BitsOfBytes([0x86]) == [false, true, true] + seq(4, _ => false) + [true]
  {
    assert Bits(0x10, 5) == seq(4, _ => false) + [true];
    assert Bits(0x43, 7) == [true, true] + Bits(0x10, 5);
  }

  /** The padding bytes are the suffix 01 and then pad10*1. */
  lemma PaddingIsPad101(length: nat)
    ensures BitsOfBytes(Padding(length)) == [false, true] + Pad101(BIT_RATE, 8 * length + 2)
  {
    var q := RATE - length % RATE;
    ZerosBetween(length, q);
    if q == 1 {
      BitsOfBothMarks();
    } else {
      MarksApart(q);
    }
  }

  lemma MarksApart(q: nat)
    requires q >= 2
    ensures BitsOfBytes([0x06] + Zeros(q - 2) + [0x80]) == [false, true, true] + seq(8 * q - 4, _ => false) + [true]
  {
    BitsOfFirstMark();
    BitsOfLastMark();
    BitsAppend([0x06] + Zeros(q - 2), [0x80]);
    BitsAppend([0x06], Zeros(q - 2));
    BitsOfZeros(q - 2);
  }

  lemma ZerosBetween(length: nat, q: nat)
    requires q == RATE - length % RATE
    ensures (-(8 * length + 2) - 2) % BIT_RATE == 8 * q - 4
  {
    var k := length / RATE;
    assert length == RATE * k + length % RATE;
    assert -(8 * length + 2) - 2 == BIT_RATE * (-k - 1) + (8 * q - 4);
  }

  lemma {:induction false} XorLanesInBits(lanes: seq<Word>, block: seq<Byte>)
    requires |block| == 8 * |lanes|
    ensures Concat(XorLanes(lanes, block)) == XorBits(Concat(lanes), BitsOfBytes(block))
  {
    if lanes != [] {
      XorLanesInBits(lanes[1..], block[8..]);
      BitsAppend(block[..8], block[8..]);
      assert block[..8] + block[8..] == block && block[0..8] == block[..8];
    }
  }

  lemma {:induction false} ConcatAppend(a: seq<Word>, b: seq<Word>)
    ensures Concat(a + b) == Concat(a) + Concat(b)
  {
    if a == [] {
      assert a + b == b;
    } else {
      assert (a + b)[1..] == a[1..] + b;
      ConcatAppend(a[1..], b);
    }
  }

  lemma XorBlockInBits(s: LaneArray, block: seq<Byte>)
    requires |block| == RATE
    ensures AsBits(XorBlock(s, block)) ==
            XorBits(AsBits(s), BitsOfBytes(block) + seq(WIDTH - BIT_RATE, _ => false))
  {
    var head, tail := s[..RATE / 8], s[RATE / 8..];
    XorLanesInBits(head, block);
    ConcatAppend(XorLanes(head, block), tail);
    ConcatAppend(head, tail);
    assert head + tail == s;
  }

  lemma {:induction false} AbsorbInBits(f: Permutation, s: LaneArray, blocks: seq<Byte>)
    requires |blocks| % RATE == 0
    ensures AsBits(Absorb(f, s, blocks)) == AbsorbBits(OnBits(f), AsBits(s), BitsOfBytes(blocks))
    decreases |blocks|
  {
    if blocks != [] {
      var block, rest := blocks[..RATE], blocks[RATE..];
      BitsAppend(block, rest);
      assert block + rest == blocks;
      XorBlockInBits(s, block);
      LanesOfBits(XorBlock(s, block));
      AbsorbInBits(f, f(XorBlock(s, block)), rest);
    }
  }

  lemma SqueezeInBits(s: LaneArray)
    ensures BitsOfBytes(Squeeze(s)) == AsBits(s)[..256]
  {
    var a, b, c, d := BytesOf(s[0]), BytesOf(s[1]), BytesOf(s[2]), BytesOf(s[3]);
    BitsAppend(a + b + c, d);
    BitsAppend(a + b, c);
    BitsAppend(a, b);
    PackThenUnpack(s[0].bits);
    PackThenUnpack(s[1].bits);
    PackThenUnpack(s[2].bits);
    PackThenUnpack(s[3].bits);
    FirstLanes(s);
  }

  lemma FirstLanes(s: LaneArray)
    ensures AsBits(s)[..256] == s[0].bits + s[1].bits + s[2].bits + s[3].bits
  {
    ConcatAppend(s[..4], s[4..]);
    assert s[..4] + s[4..] == s && s[..4] == [s[0], s[1], s[2], s[3]];
    assert s[..4][1..] == [s[1], s[2], s[3]] && s[..4][1..][1..] == [s[2], s[3]];
    assert [s[2], s[3]][1..] == [s[3]] && [s[3]][1..] == [];
    assert Concat([s[3]]) == s[3].bits + [] == s[3].bits;
    assert Concat([s[2], s[3]]) == s[2].bits + s[3].bits;
    assert Concat([s[1], s[2], s[3]]) == s[1].bits + (s[2].bits + s[3].bits);
    assert Concat(s[..4]) == s[0].bits + (s[1].bits + (s[2].bits + s[3].bits));
  }

  /** The hash of a message is SHA3-256 of section 6.1, with this permutation: 256 bits of the sponge of capacity 512
      over the message and the suffix 01. */
  lemma HashIsSponge(f: Permutation, data: seq<Byte>)
    ensures BitsOfBytes(Squeeze(FinalState(f, data))) ==
            BitHash(OnBits(f), BitsOfBytes(data) + [false, true], 256)
  {
    var m := BitsOfBytes(data) + [false, true];
    PaddingIsPad101(|data|);
    BitsAppend(data, Padding(|data|));
    assert BitsOfBytes(Padded(data)) == m + Pad101(BIT_RATE, |m|);
    AbsorbInBits(f, EmptyState(), Padded(data));
    EmptyInBits();
    SqueezeInBits(FinalState(f, data));
  }

  lemma {:induction false} ConcatZeros(n: nat)
    ensures Concat(seq(n, _ => ZERO)) == seq(64 * n, _ => false)
  {
    if n > 0 {
      assert seq(n, _ => ZERO)[1..] == seq(n - 1, _ => ZERO);
      ConcatZeros(n - 1);
    }
  }

  lemma EmptyInBits()
    ensures AsBits(EmptyState()) == seq(WIDTH, _ => false)
  {
    ConcatZeros(25);
  }
}
