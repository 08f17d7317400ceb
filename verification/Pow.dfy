/** The proof-of-work search of pow/deepseek_pow.go against the naive search it must agree with. */
module Pow {
  import opened Basics
  import opened Keccak
  import opened Sponge
  import opened Word64

  datatype Outcome =
    | Found(nonce: nat)
    | BadChallengeLength
    | BadChallengeDigit
    | Cancelled
    | NoSolution

  const ZERO_DIGIT: nat := 48
  const MINUS: Byte := 45
  const UNDERSCORE: Byte := 95

  /** n in base ten, most significant digit first, without leading zeros. */
  function Decimal(n: nat): (digits: seq<Byte>)
    ensures |digits| > 0
  {
    if n < 10 then [ZERO_DIGIT + n] else Decimal(n / 10) + [ZERO_DIGIT + n % 10]
  }

  /** The number a decimal numeral stands for. */
  function ValueOf(digits: seq<Byte>): int {
    if digits == [] then 0 else 10 * ValueOf(digits[..|digits| - 1]) + (digits[|digits| - 1] - ZERO_DIGIT)
  }

  /** Decimal(n) is the numeral of n: digits only, no leading zero, and it reads back as n. */
  lemma {:induction false} DecimalReadsBack(n: nat)
    ensures ValueOf(Decimal(n)) == n
    ensures forall i | 0 <= i < |Decimal(n)| :: 48 <= Decimal(n)[i] <= 57
    ensures n > 0 ==> Decimal(n)[0] != ZERO_DIGIT
  {
    if n >= 10 {
      DecimalReadsBack(n / 10);
      assert Decimal(n)[..|Decimal(n)| - 1] == Decimal(n / 10);
    } else {
      assert Decimal(n)[..0] == [];
    }
  }

  function FormatInt(n: int): seq<Byte> {
    if n < 0 then [MINUS] + Decimal(-n) else Decimal(n)
  }

  function BuildPrefix(salt: seq<Byte>, expireAt: Int64): seq<Byte> {
    salt + [UNDERSCORE] + FormatInt(expireAt) + [UNDERSCORE]
  }

  function BytesOfText(text: string): seq<Byte>
    requires forall i | 0 <= i < |text| :: text[i] < '\U{0100}'
  {
    seq(|text|, i requires 0 <= i < |text| => text[i] as Byte)
  }

  /** The number a numeral with an optional sign stands for. */
  function ReadInt(text: seq<Byte>): int {
    if text != [] && text[0] == '-' as int then -ValueOf(text[1..]) else ValueOf(text)
  }

  /** The expiry is written as a numeral that reads back, between the salt and the nonce, with an underscore on
      either side. */
  lemma PrefixIs(salt: seq<Byte>, expireAt: Int64)
    ensures BuildPrefix(salt, expireAt) == salt + BytesOfText("_") + FormatInt(expireAt) + BytesOfText("_")
    ensures ReadInt(FormatInt(expireAt)) == expireAt && (FormatInt(expireAt)[0] == '-' as int <==> expireAt < 0)
  {
    assert BytesOfText("_") == [UNDERSCORE];
    FormatIntReadsBack(expireAt);
  }

  lemma FormatIntReadsBack(n: int)
    ensures ReadInt(FormatInt(n)) == n && (FormatInt(n)[0] == '-' as int <==> n < 0)
  {
    if n < 0 {
      DecimalReadsBack(-n);
      assert FormatInt(n)[1..] == Decimal(-n);
    } else {
      DecimalReadsBack(n);
    }
  }

  /** For instance. */
  lemma PrefixOfTestSalt()
    ensures BuildPrefix(BytesOfText("testsalt"), 1700) == BytesOfText("testsalt_1700_")
  {
    assert Decimal(1700) == [49, 55, 48, 48];
  }

  function HexDigit(c: Byte): Option<nat> {
    if 48 <= c <= 57 then Some(c - 48)
    else if 97 <= c <= 102 then Some(c - 97 + 10)
    else if 65 <= c <= 70 then Some(c - 65 + 10)
    else None
  }

  /** The bytes written by pairs of hexadecimal digits; None when a character is not one. */
  function DecodeHex(text: seq<Byte>): (r: Option<seq<Byte>>)
    requires |text| % 2 == 0
    ensures r.Some? ==> |r.value| == |text| / 2
  {
    if text == [] then Some([])
    else
      var hi, lo, rest := HexDigit(text[0]), HexDigit(text[1]), DecodeHex(text[2..]);
      if hi.Some? && lo.Some? && rest.Some? && hi.value < 16 && lo.value < 16
      then Some([16 * hi.value + lo.value] + rest.value)
      else None
  }

  const LOWER_DIGITS := "0123456789abcdef"
  const UPPER_DIGITS := "0123456789ABCDEF"

  /** c is the hexadecimal digit of d, in either case. */
  predicate IsHexDigit(c: Byte, d: int) {
    0 <= d < 16 && (c == LOWER_DIGITS[d] as int || c == UPPER_DIGITS[d] as int)
  }

  /** Two digits for each byte, the high one first. */
  predicate Spells(text: seq<Byte>, bytes: seq<Byte>) {
    |text| == 2 * |bytes| &&
    forall i | 0 <= i < |bytes| :: IsHexDigit(text[2 * i], bytes[i] / 16) && IsHexDigit(text[2 * i + 1], bytes[i] % 16)
  }

  ghost predicate IsHexText(text: seq<Byte>) {
    forall i | 0 <= i < |text| :: IsHexChar(text[i])
  }

  ghost predicate IsHexChar(c: Byte) {
    exists d :: IsHexDigit(c, d)
  }

  lemma HexDigitIff(c: Byte, d: nat)
    ensures HexDigit(c) == Some(d) <==> IsHexDigit(c, d)
  {
    if 48 <= c <= 57 {
      assert LOWER_DIGITS[c - 48] as int == c == UPPER_DIGITS[c - 48] as int;
    } else if 97 <= c <= 102 {
      assert LOWER_DIGITS[c - 97 + 10] as int == c;
    } else if 65 <= c <= 70 {
      assert UPPER_DIGITS[c - 65 + 10] as int == c;
    }
  }

  lemma HexDigitNone(c: Byte)
    ensures HexDigit(c) == None <==> !IsHexChar(c)
  {
    if HexDigit(c).Some? {
      HexDigitIff(c, HexDigit(c).value);
    } else if d :| IsHexDigit(c, d) {
      HexDigitIff(c, d);
    }
  }

  /** The decoder reads back exactly what two digits for each byte spell. */
  lemma {:induction false} DecodeHexIff(text: seq<Byte>, bytes: seq<Byte>)
    requires |text| % 2 == 0
    ensures DecodeHex(text) == Some(bytes) <==> Spells(text, bytes)
    decreases |text|
  {
    if text != [] && bytes != [] {
      var hi, lo := bytes[0] / 16, bytes[0] % 16;
      DecodeHexIff(text[2..], bytes[1..]);
      HexDigitIff(text[0], hi);
      HexDigitIff(text[1], lo);
      SpellsOneMore(text, bytes);
      DecodesOneMore(text, bytes);
    }
  }

  lemma DecodesOneMore(text: seq<Byte>, bytes: seq<Byte>)
    requires |text| % 2 == 0 && text != [] && bytes != []
    ensures DecodeHex(text) == Some(bytes) <==>
            (DecodeHex(text[2..]) == Some(bytes[1..]) &&
              HexDigit(text[0]) == Some(bytes[0] / 16) && HexDigit(text[1]) == Some(bytes[0] % 16))
  {
    var hi, lo, rest := HexDigit(text[0]), HexDigit(text[1]), DecodeHex(text[2..]);
    HexDigitsAreSmall(text[0]);
    HexDigitsAreSmall(text[1]);
    if hi.Some? && lo.Some? && rest.Some? {
      TwoDigits(hi.value, lo.value, bytes[0]);
      SameHeadAndTail(16 * hi.value + lo.value, rest.value, bytes);
    }
  }

  lemma SameHeadAndTail(b: int, rest: seq<Byte>, bytes: seq<Byte>)
    requires bytes != []
    ensures [b] + rest == bytes <==> b == bytes[0] && rest == bytes[1..]
  {
    assert [bytes[0]] + bytes[1..] == bytes;
    assert ([b] + rest)[0] == b && ([b] + rest)[1..] == rest;
  }

  lemma TwoDigits(hi: nat, lo: nat, b: Byte)
    requires hi < 16 && lo < 16
    ensures 16 * hi + lo == b <==> hi == b / 16 && lo == b % 16
  {
  }

  lemma SpellsOneMore(text: seq<Byte>, bytes: seq<Byte>)
    requires |text| >= 2 && bytes != []
    ensures Spells(text, bytes) <==>
            Spells(text[2..], bytes[1..]) && IsHexDigit(text[0], bytes[0] / 16) && IsHexDigit(text[1], bytes[0] % 16)
  {
    if Spells(text[2..], bytes[1..]) && IsHexDigit(text[0], bytes[0] / 16) && IsHexDigit(text[1], bytes[0] % 16) {
      forall i | 0 <= i < |bytes|
        ensures IsHexDigit(text[2 * i], bytes[i] / 16) && IsHexDigit(text[2 * i + 1], bytes[i] % 16)
      {
        if i > 0 {
          assert text[2..][2 * (i - 1)] == text[2 * i] && bytes[1..][i - 1] == bytes[i];
        }
      }
    }
    if Spells(text, bytes) {
      forall i | 0 <= i < |bytes[1..]|
        ensures IsHexDigit(text[2..][2 * i], bytes[1..][i] / 16) && IsHexDigit(text[2..][2 * i + 1], bytes[1..][i] % 16)
      {
        assert text[2 * (i + 1)] == text[2..][2 * i] && bytes[i + 1] == bytes[1..][i];
      }
      assert text[2 * 0] == text[0] && text[2 * 0 + 1] == text[1];
    }
  }

  /** It fails exactly on a character that is no digit. */
  lemma {:induction false} DecodeHexFailsIff(text: seq<Byte>)
    requires |text| % 2 == 0
    ensures DecodeHex(text) == None <==> !IsHexText(text)
    decreases |text|
  {
    if text != [] {
      DecodeHexFailsIff(text[2..]);
      HexDigitNone(text[0]);
      HexDigitNone(text[1]);
      HexDigitsAreSmall(text[0]);
      HexDigitsAreSmall(text[1]);
      HexTextOneMore(text);
    }
  }

  lemma HexTextOneMore(text: seq<Byte>)
    requires |text| >= 2
    ensures IsHexText(text) <==> IsHexChar(text[0]) && IsHexChar(text[1]) && IsHexText(text[2..])
  {
    assert text == [text[0], text[1]] + text[2..];
    forall i | 0 <= i < |text[2..]| ensures text[2..][i] == text[i + 2] {
    }
  }

  lemma HexDigitsAreSmall(c: Byte)
    ensures HexDigit(c).Some? ==> HexDigit(c).value < 16
  {
  }

  /** The naive test of a nonce, over a sponge with permutation f: hash the whole message and compare. */
  ghost predicate Matches(f: Permutation, prefix: seq<Byte>, target: seq<Byte>, n: nat) {
    Squeeze(FinalState(f, prefix + Decimal(n))) == target
  }

  ghost function NaiveTest(f: Permutation, prefix: seq<Byte>, target: seq<Byte>): nat -> bool {
    (n: nat) => Matches(f, prefix, target, n)
  }

  /** With Permute the naive test compares DeepSeekHashV1 of prefix ++ decimal(n) with the target. */
  lemma NaiveTestHashes(prefix: seq<Byte>, target: seq<Byte>, n: nat)
    ensures NaiveTest(Permute, prefix, target)(n) <==> Hash(prefix + Decimal(n)) == target
  {
  }

  ghost predicate NoneBelow(test: nat -> bool, bound: int) {
    forall m: nat | m < bound :: !test(m)
  }

  /** The context is polled before every nonce divisible by 1024. */
  ghost predicate PollFails(cancelled: nat -> bool, n: nat) {
    n % 1024 == 0 && cancelled(n)
  }

  lemma PollsAre(cancelled: nat -> bool, k: nat, r: nat)
    requires r < 1024
    ensures PollFails(cancelled, 1024 * k + r) <==> r == 0 && cancelled(1024 * k)
  {
  }

  ghost predicate NoPollFailsBelow(cancelled: nat -> bool, bound: int) {
    forall m: nat | m < bound :: !PollFails(cancelled, m)
  }

  /** What a search of [0, difficulty) for the least nonce passing the test returns. */
  ghost predicate IsOutcome(test: nat -> bool, difficulty: int, cancelled: nat -> bool, r: Outcome) {
    match r
    case Found(n) =>
      n < difficulty && test(n) && NoneBelow(test, n) && NoPollFailsBelow(cancelled, n + 1)
    case Cancelled =>
      exists n: nat | n < difficulty :: PollFails(cancelled, n) && NoneBelow(test, n) && NoPollFailsBelow(cancelled, n)
    case NoSolution =>
      NoneBelow(test, difficulty) && NoPollFailsBelow(cancelled, difficulty)
    case _ => false
  }

  function Power10(n: nat): nat {
    if n == 0 then 1 else 10 * Power10(n - 1)
  }

  lemma Power10Of19()
    ensures Power10(19) == 10_000_000_000_000_000_000
  {
    assert Power10(4) == 10_000;
    assert Power10(9) == 100_000 * Power10(4);
    assert Power10(14) == 100_000 * Power10(9);
    assert Power10(19) == 100_000 * Power10(14);
  }

  lemma LastDigit(v: nat, rest: seq<Byte>)
    requires v > 0
    ensures Decimal(v) + rest == (if v / 10 > 0 then Decimal(v / 10) else []) + ([ZERO_DIGIT + v % 10] + rest)
  {
    if v >= 10 {
      Associates(Decimal(v / 10), [ZERO_DIGIT + v % 10], rest);
    } else {
      assert v / 10 == 0 && v % 10 == v;
      Associates([], [ZERO_DIGIT + v], rest);
    }
  }

  /** The digit loop: renders n into the end of the 20-byte buffer and returns where it starts. */
  method RenderDigits(n: nat, numBuf: array<Byte>) returns (pos: nat)
    requires numBuf.Length == 20 && n < 0x8000_0000_0000_0000
    modifies numBuf
    ensures 1 <= pos < 20 && numBuf[pos..] == Decimal(n)
  {
    Power10Of19();
    assert n < Power10(20 - 1);
    var v := n;
    pos := 20;
    if v == 0 {
      pos := pos - 1;
      numBuf[pos] := ZERO_DIGIT;
      assert numBuf[pos..] == [ZERO_DIGIT];
      assert Decimal(n) == [ZERO_DIGIT];
    } else {
      assert Decimal(v) + numBuf[pos..] == Decimal(n);
      while v > 0
        invariant 1 <= pos <= 20 && v < Power10(pos - 1) && (pos == 20 ==> v == n)
        invariant Decimal(n) == (if v > 0 then Decimal(v) else []) + numBuf[pos..]
        decreases v
      {
        ghost var rest := numBuf[pos..];
        pos := pos - 1;
        numBuf[pos] := ZERO_DIGIT + v % 10;
        assert numBuf[pos..] == [ZERO_DIGIT + v % 10] + rest;
        LastDigit(v, rest);
        v := v / 10;
      }
      assert [] + numBuf[pos..] == numBuf[pos..];
    }
  }

  /** A tail of 136 to 271 bytes is a full block and one padded block. */
  lemma LongTail(f: Permutation, s: LaneArray, tail: seq<Byte>)
    requires RATE <= |tail| < 2 * RATE
    ensures Absorb(f, s, Padded(tail)) == Absorb(f, Absorb(f, s, tail[..RATE]), Padded(tail[RATE..]))
  {
    assert tail == tail[..RATE] + tail[RATE..];
    PaddedAfterWholeBlocks(tail[..RATE], tail[RATE..]);
    AbsorbInTwoParts(f, s, tail[..RATE], Padded(tail[RATE..]));
  }

  /** One nonce of the search: finishes the sponge from the absorbed prefix. */
  method FinishFromMidstate(baseState: array<Word>, tail: seq<Byte>, digits: seq<Byte>, ghost f: Permutation)
    returns (s: array<Word>)
    requires baseState.Length == 25 && IsKeccakF23(f)
    requires |tail| < RATE && |digits| <= 20
    ensures fresh(s) && s.Length == 25
    ensures s[..] == Absorb(f, baseState[..], Padded(tail + digits))
  {
    s := new Word[25](i requires 0 <= i < 25 reads baseState => baseState[i]);
    assert s[..] == baseState[..];
    var totalTail := |tail| + |digits|;
    if totalTail < RATE {
      var buf := FinalBlock(tail + digits);
      AbsorbBlock(s, buf, f);
    } else {
      LongTail(f, s[..], tail + digits);
      var split := RATE - |tail|;
      assert (tail + digits)[..RATE] == tail + digits[..split];
      assert (tail + digits)[RATE..] == digits[split..];
      AbsorbBlock(s, tail + digits[..split], f);
      var buf2 := FinalBlock(digits[split..]);
      AbsorbBlock(s, buf2, f);
    }
  }

  ghost predicate IsNaiveTest(test: nat -> bool, f: Permutation, prefix: seq<Byte>, target: seq<Byte>) {
    forall n: nat {:trigger Matches(f, prefix, target, n)} :: test(n) <==> Matches(f, prefix, target, n)
  }

  /** One turn of the search loop: whether nonce n solves the challenge. */
  method TestNonce(target: seq<Byte>, prefix: seq<Byte>, off: nat, baseState: array<Word>, n: nat, numBuf: array<Byte>,
                   ghost f: Permutation, ghost test: nat -> bool)
    returns (solved: bool)
    requires IsKeccakF23(f) && IsNaiveTest(test, f, prefix, target) && |target| == 32
    requires baseState.Length == 25 && numBuf.Length == 20 && n < 0x8000_0000_0000_0000
    requires off <= |prefix| < off + RATE && off % RATE == 0
    requires baseState[..] == Absorb(f, EmptyState(), prefix[..off])
    modifies numBuf
    ensures solved <==> test(n)
  {
    var pos := RenderDigits(n, numBuf);
    var s := FinishFromMidstate(baseState, prefix[off..], numBuf[pos..], f);
    WordsDecide(f, prefix, off, n, s[..], target);
    solved := s[0] == WordAt(target, 0) && s[1] == WordAt(target, 8) && s[2] == WordAt(target, 16) &&
      s[3] == WordAt(target, 24);
  }

  method AbsorbPrefix(prefix: seq<Byte>, ghost f: Permutation) returns (baseState: array<Word>, off: nat)
    requires IsKeccakF23(f)
    ensures fresh(baseState) && baseState.Length == 25
    ensures off <= |prefix| < off + RATE && off % RATE == 0
    ensures baseState[..] == Absorb(f, EmptyState(), prefix[..off])
  {
    baseState := new Word[25](_ => ZERO);
    assert baseState[..] == EmptyState();
    off := AbsorbWholeBlocks(baseState, prefix, f);
  }

  /** The search loop over [0, difficulty), with the prefix absorbed once. */
  method Search(target: seq<Byte>, prefix: seq<Byte>, difficulty: Int64, cancelled: nat -> bool,
                ghost f: Permutation, ghost test: nat -> bool)
    returns (r: Outcome)
    requires IsKeccakF23(f) && IsNaiveTest(test, f, prefix, target) && |target| == 32
    ensures IsOutcome(test, difficulty, cancelled, r)
  {
    var baseState, off := AbsorbPrefix(prefix, f);
    var numBuf := new Byte[20](_ => 0);
    var n := 0;
    while n < difficulty
      invariant 0 <= n && (n <= difficulty || n == 0)
      invariant baseState[..] == Absorb(f, EmptyState(), prefix[..off])
      invariant NoneBelow(test, n) && NoPollFailsBelow(cancelled, n)
    {
      if n % 1024 == 0 {
        if cancelled(n) {
          assert PollFails(cancelled, n);
          return Cancelled;
        }
      }
      var solved := TestNonce(target, prefix, off, baseState, n, numBuf, f, test);
      if solved {
        return Found(n);
      }
      n := n + 1;
    }
    return NoSolution;
  }

  lemma MidstateReuse(f: Permutation, prefix: seq<Byte>, off: nat, digits: seq<Byte>)
    requires off <= |prefix| && off % RATE == 0
    ensures FinalState(f, prefix + digits) ==
      Absorb(f, Absorb(f, EmptyState(), prefix[..off]), Padded(prefix[off..] + digits))
  {
    assert prefix + digits == prefix[..off] + (prefix[off..] + digits);
    HashFromMidstate(f, prefix[..off], prefix[off..] + digits);
  }

  /** The four word comparisons of the search decide the naive test. */
  lemma WordsDecide(f: Permutation, prefix: seq<Byte>, off: nat, n: nat, s: LaneArray, target: seq<Byte>)
    requires off <= |prefix| && off % RATE == 0 && |target| == 32
    requires s == Absorb(f, Absorb(f, EmptyState(), prefix[..off]), Padded(prefix[off..] + Decimal(n)))
    ensures Matches(f, prefix, target, n) <==>
            s[0] == WordAt(target, 0) && s[1] == WordAt(target, 8) && s[2] == WordAt(target, 16) &&
              s[3] == WordAt(target, 24)
  {
    MidstateReuse(f, prefix, off, Decimal(n));
    DigestMatches(s, target);
  }

  /** Comparing four words of the state with the words of the target compares the digests. */
  lemma DigestMatches(s: LaneArray, target: seq<Byte>)
    requires |target| == 32
    ensures Squeeze(s) == target <==>
            s[0] == WordAt(target, 0) && s[1] == WordAt(target, 8) && s[2] == WordAt(target, 16) &&
              s[3] == WordAt(target, 24)
  {
    var d := Squeeze(s);
    assert d[0..8] == BytesOf(s[0]) && d[8..16] == BytesOf(s[1]) && d[16..24] == BytesOf(s[2]) &&
      d[24..32] == BytesOf(s[3]);
    WordMatches(s[0], target, 0);
    WordMatches(s[1], target, 8);
    WordMatches(s[2], target, 16);
    WordMatches(s[3], target, 24);
    assert target == target[0..8] + target[8..16] + target[16..24] + target[24..32];
  }

  /** The search of [0, difficulty) for the least nonce whose naive hash is the target. */
  method SearchLeast(target: seq<Byte>, prefix: seq<Byte>, difficulty: Int64, cancelled: nat -> bool,
                     ghost f: Permutation)
    returns (r: Outcome)
    requires IsKeccakF23(f) && |target| == 32
    ensures IsOutcome(NaiveTest(f, prefix, target), difficulty, cancelled, r)
  {
    NaiveTestIsNaive(f, prefix, target);
    r := Search(target, prefix, difficulty, cancelled, f, NaiveTest(f, prefix, target));
  }

  /** SolvePow: the least nonce whose naive hash is the challenge, or why there is none. */
  method SolvePow(challengeHex: seq<Byte>, salt: seq<Byte>, expireAt: Int64, difficulty: Int64, cancelled: nat -> bool)
    returns (r: Outcome)
    ensures r == BadChallengeLength <==> |challengeHex| != 64
    ensures r == BadChallengeDigit <==> |challengeHex| == 64 && !IsHexText(challengeHex)
    ensures forall target | |challengeHex| == 64 && Spells(challengeHex, target) ::
      IsOutcome(NaiveTest(Permute, BuildPrefix(salt, expireAt), target), difficulty, cancelled, r)
  {
    if |challengeHex| != 64 {
      return BadChallengeLength;
    }
    var target := DecodeHex(challengeHex);
    DecodeHexFailsIff(challengeHex);
    forall bytes ensures target == Some(bytes) <==> Spells(challengeHex, bytes) {
      DecodeHexIff(challengeHex, bytes);
    }
    if target == None {
      return BadChallengeDigit;
    }
    var prefix := BuildPrefix(salt, expireAt);
    PermuteIsKeccakF23();
    r := SearchLeast(target.value, prefix, difficulty, cancelled, Permute);
  }

  /** When the challenge is the hexadecimal text of the hash for some nonce in range, and the context stays alive,
      that nonce is found, or a smaller one with the same hash. */
  method SolvePlanted(challengeHex: seq<Byte>, salt: seq<Byte>, expireAt: Int64, difficulty: Int64,
                      cancelled: nat -> bool, planted: nat) returns (r: Outcome)
    requires planted < difficulty && forall n: nat :: !cancelled(n)
    requires Spells(challengeHex, Hash(BuildPrefix(salt, expireAt) + Decimal(planted)))
    ensures r.Found? && r.nonce <= planted
    ensures Spells(challengeHex, Hash(BuildPrefix(salt, expireAt) + Decimal(r.nonce)))
  {
    var prefix, target := BuildPrefix(salt, expireAt), Hash(BuildPrefix(salt, expireAt) + Decimal(planted));
    var test := NaiveTest(Permute, prefix, target);
    r := SolvePow(challengeHex, salt, expireAt, difficulty, cancelled);
    NaiveTestHashes(prefix, target, planted);
    PlantedIsFound(test, difficulty, cancelled, r, planted);
    NaiveTestHashes(prefix, target, r.nonce);
  }

  lemma PlantedIsFound(test: nat -> bool, difficulty: int, cancelled: nat -> bool, r: Outcome, planted: nat)
    requires IsOutcome(test, difficulty, cancelled, r) && test(planted) && planted < difficulty
    requires forall n: nat :: !cancelled(n)
    ensures r.Found? && r.nonce <= planted && test(r.nonce)
  {
    AliveSearchIsComplete(test, difficulty, cancelled, r);
  }

  lemma PermuteIsKeccakF23()
    ensures IsKeccakF23(Permute)
  {
  }

  lemma NaiveTestIsNaive(f: Permutation, prefix: seq<Byte>, target: seq<Byte>)
    ensures IsNaiveTest(NaiveTest(f, prefix, target), f, prefix, target)
  {
  }

  /** The outcome is determined by the test and the polls: the search has one right answer. */
  lemma OutcomeIsUnique(test: nat -> bool, difficulty: int, cancelled: nat -> bool, r: Outcome, r': Outcome)
    requires IsOutcome(test, difficulty, cancelled, r)
    requires IsOutcome(test, difficulty, cancelled, r')
    ensures r == r'
  {
  }

  /** While the context stays alive, the search fails exactly when no nonce in range solves. */
  lemma AliveSearchIsComplete(test: nat -> bool, difficulty: int, cancelled: nat -> bool, r: Outcome)
    requires IsOutcome(test, difficulty, cancelled, r)
    requires forall n: nat :: !cancelled(n)
    ensures r.Found? <==> exists n: nat | n < difficulty :: test(n)
    ensures r.Found? ==> forall n: nat | test(n) :: r.nonce <= n
    ensures !r.Found? ==> r == NoSolution
  {
  }
}
