/** The sponge of FIPS 202, sections 4 and 6.1, over bytes, and the one-shot hash DeepSeekHashV1. */
module Sponge {
  import opened Word64
  import opened Keccak

  type Byte = b: int | 0 <= b < 256

  const RATE: nat := 136

  // The sponge is stated over any permutation; Hash below instantiates it with Permute.
  type Permutation = LaneArray -> LaneArray

  /** f is the permutation KeccakF23 computes. */
  ghost predicate IsKeccakF23(f: Permutation) {
    forall s: LaneArray {:trigger Permute(s)} :: f(s) == Permute(s)
  }

  function BitsOfBytes(bytes: seq<Byte>): (bits: seq<bool>)
    ensures |bits| == 8 * |bytes|
  {
    if bytes == [] then [] else Bits(bytes[0], 8) + BitsOfBytes(bytes[1..])
  }

  /** The little-endian word held by eight bytes. */
  function WordAt(bytes: seq<Byte>, at: nat): Word
    requires at + 8 <= |bytes|
  {
    Word(BitsOfBytes(bytes[at..at + 8]))
  }

  function NumberOf(bits: seq<bool>): nat {
    if bits == [] then 0 else (if bits[0] then 1 else 0) + 2 * NumberOf(bits[1..])
  }

  /** The bytes a sequence of bits packs into, least significant bit first. */
  function BytesOfBits(bits: seq<bool>): (bytes: seq<Byte>)
    requires |bits| % 8 == 0
    ensures 8 * |bytes| == |bits|
  {
    if bits == [] then [] else [ByteOf(bits[..8])] + BytesOfBits(bits[8..])
  }

  /** The eight bytes of a word, least significant first. */
  function BytesOf(w: Word): (bytes: seq<Byte>)
    ensures |bytes| == 8
  {
    BytesOfBits(w.bits)
  }

  function ByteOf(bits: seq<bool>): Byte
    requires |bits| == 8
  {
    NumberFits(bits);
    NumberOf(bits)
  }

  function Power2(n: nat): nat {
    if n == 0 then 1 else 2 * Power2(n - 1)
  }

  lemma {:induction false} NumberFits(bits: seq<bool>)
    ensures NumberOf(bits) < Power2(|bits|)
    ensures Power2(8) == 256
  {
    assert Power2(8) == 2 * Power2(7) == 4 * Power2(6) == 8 * Power2(5) == 16 * Power2(4);
    if bits != [] {
      NumberFits(bits[1..]);
    }
  }

  lemma {:induction false} BitsOfNumber(bits: seq<bool>)
    ensures Bits(NumberOf(bits), |bits|) == bits
  {
    if bits != [] {
      BitsOfNumber(bits[1..]);
      assert NumberOf(bits) / 2 == NumberOf(bits[1..]);
    }
  }

  lemma {:induction false} NumberOfBits(n: nat, width: nat)
    requires n < Power2(width)
    ensures NumberOf(Bits(n, width)) == n
  {
    if width > 0 {
      NumberOfBits(n / 2, width - 1);
    }
  }

  /** Packing bits into bytes and unpacking them loses nothing, */
  lemma {:induction false} PackThenUnpack(bits: seq<bool>)
    requires |bits| % 8 == 0
    ensures BitsOfBytes(BytesOfBits(bits)) == bits
  {
    if bits != [] {
      PackThenUnpack(bits[8..]);
      BitsOfNumber(bits[..8]);
    }
  }

  /** and neither does unpacking bytes and packing their bits. */
  lemma {:induction false} UnpackThenPack(bytes: seq<Byte>)
    ensures BytesOfBits(BitsOfBytes(bytes)) == bytes
  {
    if bytes != [] {
      UnpackThenPack(bytes[1..]);
      NumberFits([]);
      NumberOfBits(bytes[0], 8);
      var bits := BitsOfBytes(bytes);
      assert bits[..8] == Bits(bytes[0], 8) && bits[8..] == BitsOfBytes(bytes[1..]);
    }
  }

  /** A word is eight given bytes exactly when it stores as those bytes. */
  lemma WordMatches(w: Word, bytes: seq<Byte>, at: nat)
    requires at + 8 <= |bytes|
    ensures w == WordAt(bytes, at) <==> BytesOf(w) == bytes[at..at + 8]
  {
    PackThenUnpack(w.bits);
    UnpackThenPack(bytes[at..at + 8]);
  }

  function Zeros(n: nat): seq<Byte> {
    seq(n, _ => 0)
  }

  /** The padding of SHA-3 to a multiple of the rate (suffix 01, then pad10*1), in bytes. */
  function Padding(length: nat): (p: seq<Byte>)
    ensures (length + |p|) % RATE == 0 && 1 <= |p| <= RATE
  {
    var q := RATE - length % RATE;
    if q == 1 then [0x86] else [0x06] + Zeros(q - 2) + [0x80]
  }

  function Padded(data: seq<Byte>): (p: seq<Byte>)
    ensures |p| % RATE == 0
  {
    data + Padding(|data|)
  }

  /** Lanes xored, one by one, with the words of a block. */
  function XorLanes(lanes: seq<Word>, block: seq<Byte>): (r: seq<Word>)
    requires |block| == 8 * |lanes|
    ensures |r| == |lanes|
  {
    if lanes == [] then [] else [Xor(lanes[0], WordAt(block, 0))] + XorLanes(lanes[1..], block[8..])
  }

  /** The first 17 lanes of the state xored with one block. */
  function XorBlock(s: LaneArray, block: seq<Byte>): LaneArray
    requires |block| == RATE
  {
    XorLanes(s[..RATE / 8], block) + s[RATE / 8..]
  }

  lemma {:induction false} XorLanesAt(lanes: seq<Word>, block: seq<Byte>, i: nat)
    requires |block| == 8 * |lanes| && i < |lanes|
    ensures XorLanes(lanes, block)[i] == Xor(lanes[i], WordAt(block, 8 * i))
  {
    if i > 0 {
      XorLanesAt(lanes[1..], block[8..], i - 1);
      assert block[8..][8 * (i - 1)..8 * (i - 1) + 8] == block[8 * i..8 * i + 8];
    }
  }

  /** Absorbing whole blocks, left to right. */
  function Absorb(f: Permutation, s: LaneArray, blocks: seq<Byte>): LaneArray
    requires |blocks| % RATE == 0
    decreases |blocks|
  {
    if blocks == [] then s else Absorb(f, f(XorBlock(s, blocks[..RATE])), blocks[RATE..])
  }

  function EmptyState(): LaneArray {
    seq(25, _ => ZERO)
  }

  /** The state from which the digest of data is read. */
  function FinalState(f: Permutation, data: seq<Byte>): LaneArray {
    Absorb(f, EmptyState(), Padded(data))
  }

  /** Squeezing 256 bits: the first four lanes. */
  function Squeeze(s: LaneArray): (digest: seq<Byte>)
    ensures |digest| == 32
  {
    BytesOf(s[0]) + BytesOf(s[1]) + BytesOf(s[2]) + BytesOf(s[3])
  }

  /** DeepSeekHashV1: SHA3-256 with Permute in place of the 24-round permutation. */
  function Hash(data: seq<Byte>): (digest: seq<Byte>)
    ensures |digest| == 32
  {
    Squeeze(FinalState(Permute, data))
  }

  lemma {:induction false} AbsorbInTwoParts(f: Permutation, s: LaneArray, first: seq<Byte>, second: seq<Byte>)
    requires |first| % RATE == 0 && |second| % RATE == 0
    ensures |first + second| % RATE == 0
    ensures Absorb(f, s, first + second) == Absorb(f, Absorb(f, s, first), second)
    decreases |first|
  {
    if first == [] {
      assert first + second == second;
    } else {
      assert (first + second)[..RATE] == first[..RATE];
      assert (first + second)[RATE..] == first[RATE..] + second;
      AbsorbInTwoParts(f, f(XorBlock(s, first[..RATE])), first[RATE..], second);
    }
  }

  lemma AbsorbOneBlock(f: Permutation, s: LaneArray, block: seq<Byte>)
    requires |block| == RATE
    ensures Absorb(f, s, block) == f(XorBlock(s, block))
  {
    assert block[..RATE] == block && block[RATE..] == [];
  }

  lemma AddWholeBlocks(m: nat, n: nat)
    requires m % RATE == 0
    ensures (m + n) % RATE == n % RATE
  {
    var q := m / RATE;
    assert m + n == RATE * (q + n / RATE) + n % RATE;
  }

  lemma PaddedAfterWholeBlocks(head: seq<Byte>, tail: seq<Byte>)
    requires |head| % RATE == 0
    ensures Padded(head + tail) == head + Padded(tail)
  {
    AddWholeBlocks(|head|, |tail|);
    assert Padding(|head| + |tail|) == Padding(|tail|);
  }

  /** Once the whole blocks of data are absorbed, only the tail matters. */
  lemma HashFromMidstate(f: Permutation, head: seq<Byte>, tail: seq<Byte>)
    requires |head| % RATE == 0
    ensures FinalState(f, head + tail) == Absorb(f, Absorb(f, EmptyState(), head), Padded(tail))
  {
    PaddedAfterWholeBlocks(head, tail);
    AbsorbInTwoParts(f, EmptyState(), head, Padded(tail));
  }

  method XorBlockInto(s: array<Word>, block: seq<Byte>)
    requires s.Length == 25 && |block| == RATE
    modifies s
    ensures s[..] == XorBlock(old(s[..]), block)
  {
    ghost var t := XorBlock(s[..], block);
    for i := 0 to RATE / 8
      invariant forall j | 0 <= j < i :: s[j] == t[j]
      invariant forall j | i <= j < 25 :: s[j] == old(s[j])
    {
      XorLanesAt(old(s[..RATE / 8]), block, i);
      s[i] := Xor(s[i], WordAt(block, 8 * i));
    }
  }

  method PermuteInPlace(s: array<Word>, ghost f: Permutation)
    requires s.Length == 25 && IsKeccakF23(f)
    modifies s
    ensures s[..] == f(old(s[..]))
  {
    ghost var before: LaneArray := s[..];
    assert f(before) == Permute(before);
    KeccakF23(s);
  }

  /** Absorbs one block: the lanes are xored with it and permuted. */
  method AbsorbBlock(s: array<Word>, block: seq<Byte>, ghost f: Permutation)
    requires s.Length == 25 && |block| == RATE && IsKeccakF23(f)
    modifies s
    ensures s[..] == Absorb(f, old(s[..]), block)
  {
    AbsorbOneBlock(f, s[..], block);
    XorBlockInto(s, block);
    PermuteInPlace(s, f);
  }

  /** The absorb loop over the whole blocks of data; returns where the tail starts. */
  method AbsorbWholeBlocks(s: array<Word>, data: seq<Byte>, ghost f: Permutation) returns (off: nat)
    requires s.Length == 25 && IsKeccakF23(f)
    modifies s
    ensures off <= |data| < off + RATE && off % RATE == 0
    ensures s[..] == Absorb(f, old(s[..]), data[..off])
  {
    off := 0;
    while off + RATE <= |data|
      invariant off <= |data| && off % RATE == 0
      invariant s[..] == Absorb(f, old(s[..]), data[..off])
    {
      ghost var block := data[off..off + RATE];
      assert data[..off + RATE] == data[..off] + block;
      AbsorbInTwoParts(f, old(s[..]), data[..off], block);
      AbsorbBlock(s, data[off..off + RATE], f);
      off := off + RATE;
    }
  }

  /** Bitwise or of 0x80 into a byte. */
  function WithHighBit(b: Byte): Byte {
    if b < 128 then b + 128 else b
  }

  /** The last block: the rest of the message, 0x06 after it and the high bit of the final byte. */
  method FinalBlock(rest: seq<Byte>) returns (block: seq<Byte>)
    requires |rest| < RATE
    ensures block == Padded(rest)
  {
    var buf := new Byte[RATE](_ => 0);
    forall i | 0 <= i < |rest| {
      buf[i] := rest[i];
    }
    buf[|rest|] := 0x06;
    buf[RATE - 1] := WithHighBit(buf[RATE - 1]);
    block := buf[..];
    assert |Padded(rest)| == RATE;
  }

  method DeepSeekHashV1(data: seq<Byte>) returns (out: seq<Byte>)
    ensures out == Hash(data)
  {
    out := HashWith(data, Permute);
  }

  method HashWith(data: seq<Byte>, ghost f: Permutation) returns (out: seq<Byte>)
    requires IsKeccakF23(f)
    ensures out == Squeeze(FinalState(f, data))
  {
    var s := new Word[25](_ => ZERO);
    assert s[..] == EmptyState();
    var off := AbsorbWholeBlocks(s, data, f);
    HashFromMidstate(f, data[..off], data[off..]);
    assert data[..off] + data[off..] == data;
    var block := FinalBlock(data[off..]);
    AbsorbBlock(s, block, f);
    assert s[..] == FinalState(f, data);
    out := BytesOf(s[0]) + BytesOf(s[1]) + BytesOf(s[2]) + BytesOf(s[3]);
  }
}
