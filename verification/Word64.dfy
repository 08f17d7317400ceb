/** Go's uint64 as a word of 64 bits; bit 0 is the least significant one. */
module Word64 {

  type Bits64 = b: seq<bool> | |b| == 64 witness seq(64, _ => false)

  datatype Word = Word(bits: Bits64)

  const ZERO := Word(seq(64, _ => false))

  function Xor(a: Word, b: Word): Word {
    Word(seq(64, z requires 0 <= z < 64 => a.bits[z] != b.bits[z]))
  }

  function And(a: Word, b: Word): Word {
    Word(seq(64, z requires 0 <= z < 64 => a.bits[z] && b.bits[z]))
  }

  function Or(a: Word, b: Word): Word {
    Word(seq(64, z requires 0 <= z < 64 => a.bits[z] || b.bits[z]))
  }

  function Not(a: Word): Word {
    Word(seq(64, z requires 0 <= z < 64 => !a.bits[z]))
  }

  function ShiftLeft(v: Word, k: nat): Word {
    Word(seq(64, z requires 0 <= z < 64 => z >= k && v.bits[z - k]))
  }

  function ShiftRight(v: Word, k: nat): Word {
    Word(seq(64, z requires 0 <= z < 64 => z + k < 64 && v.bits[z + k]))
  }

  /** The low `width` binary digits of n, least significant first. */
  function Bits(n: nat, width: nat): (bits: seq<bool>)
    ensures |bits| == width
  {
    if width == 0 then [] else [n % 2 == 1] + Bits(n / 2, width - 1)
  }

  function FromNat(n: nat): Word
    requires n < 0x1_0000_0000_0000_0000
  {
    Word(Bits(n, 64))
  }

  /** Left rotation written, as in the source, with two shifts. */
  function Rotl64(v: Word, k: nat): Word
    requires k <= 64
  {
    Or(ShiftLeft(v, k), ShiftRight(v, 64 - k))
  }

  lemma RotationMovesBits(v: Word, k: nat, z: nat)
    requires k < 64 && z < 64
    ensures Rotl64(v, k).bits[(z + k) % 64] == v.bits[z]
    ensures Rotl64(v, k).bits[z] == v.bits[(z - k) % 64]
  {
  }
}
