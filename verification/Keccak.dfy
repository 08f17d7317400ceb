/** The permutation of DeepSeekHashV1: the unrolled rounds 1 to 23 of pow/deepseek_hash.go. */
module Keccak {
  import opened Word64
  import opened Fips202

  // The array [25]uint64 of the source, as a value.
  type LaneArray = s: seq<Word> | |s| == 25 witness seq(25, _ => ZERO)

  /** The reference state held by the 25 lanes of the array, lane (x, y) at index 5y + x. */
  function StateOf(s: seq<Word>): State
    requires |s| == 25
  {
    Tabulate((x: nat, y: nat) requires x < 5 && y < 5 => s[5 * y + x])
  }

  function Column(a: State, x: nat): Word
    requires x < 5
  {
    Xor(Xor(Xor(Xor(Lane(a, x, 0), Lane(a, x, 1)), Lane(a, x, 2)), Lane(a, x, 3)), Lane(a, x, 4))
  }

  /** What theta adds to every lane of sheet x, given the columns. */
  function Mix(column: nat -> Word, x: nat): Word {
    Xor(column((x - 1) % 5), Rotl64(column((x + 1) % 5), 1))
  }

  function ThetaWord(a: State, mix: nat -> Word, x: nat, y: nat): Word
    requires x < 5 && y < 5
  {
    Xor(Lane(a, x, y), mix(x))
  }

  ghost predicate AreColumns(column: nat -> Word, a: State) {
    forall x: nat | x < 5 :: column(x) == Column(a, x)
  }

  /** Theta on whole lanes: what the bitwise definition says of all 64 bits at once. */
  lemma ThetaOnLanes(a: State, column: nat -> Word, x: nat, y: nat)
    requires x < 5 && y < 5 && AreColumns(column, a)
    ensures ThetaLane(a, x, y) == Xor(Lane(a, x, y), Mix(column, x))
  {
    var l, r := (x - 1) % 5, (x + 1) % 5;
    forall z | 0 <= z < 64
      ensures ThetaLane(a, x, y).bits[z] == Xor(Lane(a, x, y), Mix(column, x)).bits[z]
    {
      ColumnIsParity(a, l, z);
      ColumnIsParity(a, r, (z - 1) % 64);
      RotationMovesBits(Column(a, r), 1, z);
    }
  }

  lemma ColumnIsParity(a: State, x: nat, z: nat)
    requires x < 5 && z < 64
    ensures Column(a, x).bits[z] == Parity(a, x, z)
  {
  }

  /** Rho on whole lanes: a rotation by the offset reduced modulo the lane width. */
  lemma RhoOnLanes(a: State, x: nat, y: nat)
    requires x < 5 && y < 5
    ensures RhoLane(a, x, y) == Rotl64(Lane(a, x, y), Offset(x, y) % 64)
  {
    forall z | 0 <= z < 64
      ensures RhoLane(a, x, y).bits[z] == Rotl64(Lane(a, x, y), Offset(x, y) % 64).bits[z]
    {
      RotationMovesBits(Lane(a, x, y), Offset(x, y) % 64, z);
      assert RhoLane(a, x, y).bits[z] == Bit(a, x, y, (z - Offset(x, y)) % 64);
      ShiftByWidths(z - Offset(x, y) % 64, Offset(x, y) / 64);
    }
  }

  lemma ShiftByWidths(n: int, q: nat)
    ensures (n - 64 * q) % 64 == n % 64
  {
  }

  lemma PiOnLanes(a: State, x: nat, y: nat)
    requires x < 5 && y < 5
    ensures PiLane(a, x, y) == Lane(a, (x + 3 * y) % 5, x)
  {
  }

  function ChiWord(a: State, x: nat, y: nat): Word
    requires x < 5 && y < 5
  {
    Xor(Lane(a, x, y), And(Not(Lane(a, (x + 1) % 5, y)), Lane(a, (x + 2) % 5, y)))
  }

  lemma ChiOnLanes(a: State, x: nat, y: nat)
    requires x < 5 && y < 5
    ensures ChiLane(a, x, y) == ChiWord(a, x, y)
  {
    var p, q, r := Lane(a, x, y), Lane(a, (x + 1) % 5, y), Lane(a, (x + 2) % 5, y);
    forall z | 0 <= z < 64
      ensures ChiLane(a, x, y).bits[z] == Xor(p, And(Not(q), r)).bits[z]
    {
      assert ChiLane(a, x, y).bits[z] ==
        (Bit(a, x, y, z) != ((Bit(a, (x + 1) % 5, y, z) != true) && Bit(a, (x + 2) % 5, y, z)));
      assert Not(q).bits[z] == !q.bits[z];
      assert Xor(p, And(Not(q), r)).bits[z] == (p.bits[z] != And(Not(q), r).bits[z]);
      assert And(Not(q), r).bits[z] == (!q.bits[z] && r.bits[z]);
    }
  }

  // The three straight-line steps of one unrolled round. The 25 lane variables a0, ..., a24
  // of the source are the lanes of a, with a(5y + x) in row y.
  function UnrolledTheta(a: State): State {
    MixSheets(a, Column(a, 0), Column(a, 1), Column(a, 2), Column(a, 3), Column(a, 4))
  }

  function MixSheets(a: State, c0: Word, c1: Word, c2: Word, c3: Word, c4: Word): State {
    var d0 := Xor(c4, Rotl64(c1, 1));
    var d1 := Xor(c0, Rotl64(c2, 1));
    var d2 := Xor(c1, Rotl64(c3, 1));
    var d3 := Xor(c2, Rotl64(c4, 1));
    var d4 := Xor(c3, Rotl64(c0, 1));
    AddToSheets(a, d0, d1, d2, d3, d4)
  }

  function AddToSheets(a: State, d0: Word, d1: Word, d2: Word, d3: Word, d4: Word): State {
    State(Row(Xor(a.r0.l0, d0), Xor(a.r0.l1, d1), Xor(a.r0.l2, d2), Xor(a.r0.l3, d3), Xor(a.r0.l4, d4)),
          Row(Xor(a.r1.l0, d0), Xor(a.r1.l1, d1), Xor(a.r1.l2, d2), Xor(a.r1.l3, d3), Xor(a.r1.l4, d4)),
          Row(Xor(a.r2.l0, d0), Xor(a.r2.l1, d1), Xor(a.r2.l2, d2), Xor(a.r2.l3, d3), Xor(a.r2.l4, d4)),
          Row(Xor(a.r3.l0, d0), Xor(a.r3.l1, d1), Xor(a.r3.l2, d2), Xor(a.r3.l3, d3), Xor(a.r3.l4, d4)),
          Row(Xor(a.r4.l0, d0), Xor(a.r4.l1, d1), Xor(a.r4.l2, d2), Xor(a.r4.l3, d3), Xor(a.r4.l4, d4)))
  }

  function UnrolledRhoPi(a: State): State {
    var b0 := a.r0.l0;
    var b10 := Rotl64(a.r0.l1, 1);
    var b20 := Rotl64(a.r0.l2, 62);
    var b5 := Rotl64(a.r0.l3, 28);
    var b15 := Rotl64(a.r0.l4, 27);
    var b16 := Rotl64(a.r1.l0, 36);
    var b1 := Rotl64(a.r1.l1, 44);
    var b11 := Rotl64(a.r1.l2, 6);
    var b21 := Rotl64(a.r1.l3, 55);
    var b6 := Rotl64(a.r1.l4, 20);
    var b7 := Rotl64(a.r2.l0, 3);
    var b17 := Rotl64(a.r2.l1, 10);
    var b2 := Rotl64(a.r2.l2, 43);
    var b12 := Rotl64(a.r2.l3, 25);
    var b22 := Rotl64(a.r2.l4, 39);
    var b23 := Rotl64(a.r3.l0, 41);
    var b8 := Rotl64(a.r3.l1, 45);
    var b18 := Rotl64(a.r3.l2, 15);
    var b3 := Rotl64(a.r3.l3, 21);
    var b13 := Rotl64(a.r3.l4, 8);
    var b14 := Rotl64(a.r4.l0, 18);
    var b24 := Rotl64(a.r4.l1, 2);
    var b9 := Rotl64(a.r4.l2, 61);
    var b19 := Rotl64(a.r4.l3, 56);
    var b4 := Rotl64(a.r4.l4, 14);
    State(Row(b0, b1, b2, b3, b4),
          Row(b5, b6, b7, b8, b9),
          Row(b10, b11, b12, b13, b14),
          Row(b15, b16, b17, b18, b19),
          Row(b20, b21, b22, b23, b24))
  }

  function UnrolledChi(b: State): State {
    State(ChiRow(b.r0), ChiRow(b.r1), ChiRow(b.r2), ChiRow(b.r3), ChiRow(b.r4))
  }

  function ChiRow(r: Row): Row {
    Row(Xor(r.l0, And(Not(r.l1), r.l2)), Xor(r.l1, And(Not(r.l2), r.l3)), Xor(r.l2, And(Not(r.l3), r.l4)),
        Xor(r.l3, And(Not(r.l4), r.l0)), Xor(r.l4, And(Not(r.l0), r.l1)))
  }

  /** The bitwise theta, computed a lane at a time. */
  lemma ThetaIsUnrolled(a: State)
    ensures Theta(a) == UnrolledTheta(a)
  {
    ThetaIsUnrolledBy(a, (x: nat) => if x < 5 then Column(a, x) else ZERO);
  }

  lemma ThetaIsUnrolledBy(a: State, column: nat -> Word)
    requires AreColumns(column, a)
    ensures Theta(a) == UnrolledTheta(a)
  {
    var mix := (x: nat) => Mix(column, x);
    ThetaIsTabulated(a, column, mix);
    ThetaTableIsUnrolled(a, mix);
    SheetsAreMixed(a, column, mix);
  }

  lemma ThetaIsTabulated(a: State, column: nat -> Word, mix: nat -> Word)
    requires AreColumns(column, a) && forall x: nat :: mix(x) == Mix(column, x)
    ensures Theta(a) == ThetaTable(a, mix)
  {
    forall x: nat, y: nat | x < 5 && y < 5
      ensures ThetaLane(a, x, y) == ThetaWord(a, mix, x, y)
    {
      ThetaOnLanes(a, column, x, y);
    }
  }

  lemma SheetsAreMixed(a: State, column: nat -> Word, mix: nat -> Word)
    requires forall x: nat :: mix(x) == Mix(column, x)
    ensures MixSheets(a, column(0), column(1), column(2), column(3), column(4)) ==
            AddToSheets(a, mix(0), mix(1), mix(2), mix(3), mix(4))
  {
  }

  function ThetaTable(a: State, mix: nat -> Word): State {
    Tabulate((x: nat, y: nat) requires x < 5 && y < 5 => ThetaWord(a, mix, x, y))
  }

  lemma ThetaTableIsUnrolled(a: State, mix: nat -> Word)
    ensures ThetaTable(a, mix) == AddToSheets(a, mix(0), mix(1), mix(2), mix(3), mix(4))
  {
  }

  function ChiTable(a: State): State {
    Tabulate((x: nat, y: nat) requires x < 5 && y < 5 => ChiWord(a, x, y))
  }

  lemma RhoPiOnLanes(a: State, x: nat, y: nat, k: nat)
    requires x < 5 && y < 5
    requires k == Offset((x + 3 * y) % 5, x) % 64
    ensures Lane(Pi(Rho(a)), x, y) == Rotl64(Lane(a, (x + 3 * y) % 5, x), k)
  {
    var s := (x + 3 * y) % 5;
    PiOnLanes(Rho(a), x, y);
    RhoOnLanes(a, s, x);
    TabulatedLane((x: nat, y: nat) requires x < 5 && y < 5 => PiLane(Rho(a), x, y), x, y);
    TabulatedLane((x: nat, y: nat) requires x < 5 && y < 5 => RhoLane(a, x, y), s, x);
  }

  lemma TabulatedLane(f: (nat, nat) --> Word, x: nat, y: nat)
    requires forall x: nat, y: nat | x < 5 && y < 5 :: f.requires(x, y)
    requires x < 5 && y < 5
    ensures Lane(Tabulate(f), x, y) == f(x, y)
  {
  }

  lemma RotlZero(v: Word)
    ensures Rotl64(v, 0) == v
  {
    assert forall z | 0 <= z < 64 :: Rotl64(v, 0).bits[z] == v.bits[z];
  }

  /** Lane by lane, b is a after rho and pi. */
  ghost predicate Rotates(a: State, b: State) {
    forall x: nat, y: nat | x < 5 && y < 5 ::
      Lane(b, x, y) == Rotl64(Lane(a, (x + 3 * y) % 5, x), Offset((x + 3 * y) % 5, x) % 64)
  }

  ghost predicate RowRotates(a: State, b: State, y: nat, k0: nat, k1: nat, k2: nat, k3: nat, k4: nat)
    requires y < 5 && k0 < 64 && k1 < 64 && k2 < 64 && k3 < 64 && k4 < 64
  {
    && Lane(b, 0, y) == Rotl64(Lane(a, 3 * y % 5, 0), k0) && Lane(b, 1, y) == Rotl64(Lane(a, (1 + 3 * y) % 5, 1), k1)
    && Lane(b, 2, y) == Rotl64(Lane(a, (2 + 3 * y) % 5, 2), k2) &&
      Lane(b, 3, y) == Rotl64(Lane(a, (3 + 3 * y) % 5, 3), k3)
    && Lane(b, 4, y) == Rotl64(Lane(a, (4 + 3 * y) % 5, 4), k4)
  }

  lemma RowOf(a: State, b: State, y: nat, k0: nat, k1: nat, k2: nat, k3: nat, k4: nat)
    requires Rotates(a, b) && y < 5 && k0 == Offset(3 * y % 5, 0) % 64 && k1 == Offset((1 + 3 * y) % 5, 1) % 64
    requires k2 == Offset((2 + 3 * y) % 5, 2) % 64 && k3 == Offset((3 + 3 * y) % 5, 3) % 64
    requires k4 == Offset((4 + 3 * y) % 5, 4) % 64
    ensures RowRotates(a, b, y, k0, k1, k2, k3, k4)
  {
    assert Lane(b, 0, y) == Rotl64(Lane(a, (0 + 3 * y) % 5, 0), k0);
  }

  lemma FirstRowIs(a: State, b: State)
    requires RowRotates(a, b, 0, 0, 44, 43, 21, 14)
    ensures b.r0 == UnrolledRhoPi(a).r0
  {
    RotlZero(a.r0.l0);
  }

  lemma SecondRowIs(a: State, b: State)
    requires RowRotates(a, b, 1, 28, 20, 3, 45, 61)
    ensures b.r1 == UnrolledRhoPi(a).r1
  {
  }

  lemma ThirdRowIs(a: State, b: State)
    requires RowRotates(a, b, 2, 1, 6, 25, 8, 18)
    ensures b.r2 == UnrolledRhoPi(a).r2
  {
  }

  lemma FourthRowIs(a: State, b: State)
    requires RowRotates(a, b, 3, 27, 36, 10, 15, 56)
    ensures b.r3 == UnrolledRhoPi(a).r3
  {
  }

  lemma LastRowIs(a: State, b: State)
    requires RowRotates(a, b, 4, 62, 55, 39, 41, 2)
    ensures b.r4 == UnrolledRhoPi(a).r4
  {
  }

  lemma RhoPiIsUnrolled(a: State)
    ensures Pi(Rho(a)) == UnrolledRhoPi(a)
  {
    forall x: nat, y: nat | x < 5 && y < 5
      ensures Lane(Pi(Rho(a)), x, y) == Rotl64(Lane(a, (x + 3 * y) % 5, x), Offset((x + 3 * y) % 5, x) % 64)
    {
      RhoPiOnLanes(a, x, y, Offset((x + 3 * y) % 5, x) % 64);
    }
    RotatedIsUnrolled(a, Pi(Rho(a)));
  }

  lemma RhoPiFirstRow(a: State, b: State)
    requires Rotates(a, b)
    ensures b.r0 == UnrolledRhoPi(a).r0
  {
    RowOf(a, b, 0, 0, 44, 43, 21, 14);
    FirstRowIs(a, b);
  }

  lemma RhoPiSecondRow(a: State, b: State)
    requires Rotates(a, b)
    ensures b.r1 == UnrolledRhoPi(a).r1
  {
    RowOf(a, b, 1, 28, 20, 3, 45, 61);
    SecondRowIs(a, b);
  }

  lemma RhoPiThirdRow(a: State, b: State)
    requires Rotates(a, b)
    ensures b.r2 == UnrolledRhoPi(a).r2
  {
    RowOf(a, b, 2, 1, 6, 25, 8, 18);
    ThirdRowIs(a, b);
  }

  lemma RhoPiFourthRow(a: State, b: State)
    requires Rotates(a, b)
    ensures b.r3 == UnrolledRhoPi(a).r3
  {
    RowOf(a, b, 3, 27, 36, 10, 15, 56);
    FourthRowIs(a, b);
  }

  lemma RhoPiLastRow(a: State, b: State)
    requires Rotates(a, b)
    ensures b.r4 == UnrolledRhoPi(a).r4
  {
    RowOf(a, b, 4, 62, 55, 39, 41, 2);
    LastRowIs(a, b);
  }

  lemma RotatedIsUnrolled(a: State, b: State)
    requires Rotates(a, b)
    ensures b == UnrolledRhoPi(a)
  {
    RhoPiFirstRow(a, b);
    RhoPiSecondRow(a, b);
    RhoPiThirdRow(a, b);
    RhoPiFourthRow(a, b);
    RhoPiLastRow(a, b);
  }

  lemma ChiIsUnrolled(a: State)
    ensures Chi(a) == UnrolledChi(a)
  {
    ChiIsTabulated(a);
    ChiTableIsUnrolled(a);
  }

  lemma ChiIsTabulated(a: State)
    ensures Chi(a) == ChiTable(a)
  {
    forall x: nat, y: nat | x < 5 && y < 5
      ensures ChiLane(a, x, y) == ChiWord(a, x, y)
    {
      ChiOnLanes(a, x, y);
    }
  }

  lemma ChiTableIsUnrolled(a: State)
    ensures UnrolledChi(a) == ChiTable(a)
  {
  }

  function UnrolledRound(a: State, r: nat): State
    requires r < 24
  {
    var c := UnrolledChi(UnrolledRhoPi(UnrolledTheta(a)));
    c.(r0 := c.r0.(l0 := Xor(c.r0.l0, FromNat(RC[r]))))
  }

  lemma RoundIsUnrolled(a: State, r: nat)
    requires r < 24
    ensures Round(a, r) == UnrolledRound(a, r)
  {
    ThetaIsUnrolled(a);
    RhoPiIsUnrolled(Theta(a));
    ChiIsUnrolled(Pi(Rho(Theta(a))));
  }

  /** The 25 lanes of a state in array order. */
  function Lanes(a: State): (s: seq<Word>)
    ensures |s| == 25
  {
    RowLanes(a.r0) + RowLanes(a.r1) + RowLanes(a.r2) + RowLanes(a.r3) + RowLanes(a.r4)
  }

  function RowLanes(r: Row): (s: seq<Word>)
    ensures |s| == 5
  {
    [r.l0, r.l1, r.l2, r.l3, r.l4]
  }

  lemma LanesAndStatesCorrespond(a: State)
    ensures StateOf(Lanes(a)) == a
  {
    var s := Lanes(a);
    assert s[..5] == RowLanes(a.r0) && s[5..10] == RowLanes(a.r1) && s[10..15] == RowLanes(a.r2);
    assert s[15..20] == RowLanes(a.r3) && s[20..] == RowLanes(a.r4);
  }

  /** DeepSeek's permutation: Keccak-p[1600] without its round 0. */
  function Permute(s: LaneArray): LaneArray {
    Lanes(Rounds(StateOf(s), 1, 24))
  }

  /** The permutation, in place: 23 unrolled rounds. */
  method KeccakF23(s: array<Word>)
    requires s.Length == 25
    modifies s
    ensures s[..] == Permute(old(s[..]))
  {
    var a := RunRounds(StateOf(s[..]));
    Store(a, s);
  }

  method RunRounds(a: State) returns (b: State)
    ensures b == Rounds(a, 1, 24)
  {
    b := a;
    for r := 1 to 24
      invariant b == Rounds(a, 1, r)
    {
      RoundIsUnrolled(b, r);
      b := UnrolledRound(b, r);
    }
  }

  method Store(a: State, s: array<Word>)
    requires s.Length == 25
    modifies s
    ensures s[..] == Lanes(a)
  {
    StoreRow(a.r0, s, 0);
    StoreRow(a.r1, s, 5);
    StoreRow(a.r2, s, 10);
    StoreRow(a.r3, s, 15);
    StoreRow(a.r4, s, 20);
    assert s[..] == s[..25];
  }

  method StoreRow(r: Row, s: array<Word>, at: nat)
    requires at + 5 <= s.Length
    modifies s
    ensures s[..at + 5] == old(s[..at]) + RowLanes(r)
  {
    s[at], s[at + 1], s[at + 2], s[at + 3], s[at + 4] := r.l0, r.l1, r.l2, r.l3, r.l4;
  }
}
