/** AES-128 (FIPS 197): the round transformations on a 16-byte state, the cipher and its inverse,
    and the in-place code that computes them.

    A state is the 16 bytes of a block in memory order: byte 4*c + r is row r of column c. */
module Aes {
  import opened AesTables

  type Bytes = seq<bv8>

  const ROUNDS: nat := 10

  type Block = s: Bytes | |s| == 16 witness seq(16, i => 0)
  type Key = k: Bytes | |k| == 16 witness seq(16, i => 0)
  type RoundKeys = w: Bytes | |w| == 176 witness seq(176, i => 0)

  // ---- The round transformations, as FIPS 197 section 5.1 and 5.3 defines them.

  /** Addition in GF(2^8). */
  function Add(x: bv8, y: bv8): bv8 {
    x ^ y
  }

  /** Product of x with a field element below {20}: the sum of the doublings of x that y selects. */
  function Multiply(x: bv8, y: bv8): bv8 {
    ((y & 1) * x) ^
    (((y >> 1) & 1) * Xtime(x)) ^
    (((y >> 2) & 1) * Xtime(Xtime(x))) ^
    (((y >> 3) & 1) * Xtime(Xtime(Xtime(x)))) ^
    (((y >> 4) & 1) * Xtime(Xtime(Xtime(Xtime(x)))))
  }

  function Sum4(a: bv8, b: bv8, c: bv8, d: bv8): bv8 {
    a ^ b ^ c ^ d
  }

  /** A matrix row times a column. */
  function Row(k0: bv8, k1: bv8, k2: bv8, k3: bv8, a: bv8, b: bv8, c: bv8, d: bv8): bv8 {
    Sum4(Multiply(a, k0), Multiply(b, k1), Multiply(c, k2), Multiply(d, k3))
  }

  /** Row i of the circulant matrix of section 5.1.3, for a column rotated so that row i comes first. */
  function MixRow(a: bv8, b: bv8, c: bv8, d: bv8): bv8 {
    Row(0x02, 0x03, 0x01, 0x01, a, b, c, d)
  }

  /** The same for the matrix of section 5.3.3. */
  function InvMixRow(a: bv8, b: bv8, c: bv8, d: bv8): bv8 {
    Row(0x0e, 0x0b, 0x0d, 0x09, a, b, c, d)
  }

  /** Reduction modulo 4 of a sum of two row or column numbers. */
  function Wrap(i: nat): (j: nat)
    requires i < 8
    ensures j < 4
  {
    if i < 4 then i else i - 4
  }

  /** The index, in the same column, of the row j below the row of index k. */
  function Below(k: nat, j: nat): (i: nat)
    requires k < 16 && j < 4
    ensures i < 16
  {
    k / 4 * 4 + Wrap(k % 4 + j)
  }

  /** Where byte k of the shifted state comes from: its row, rotated left by the row number. */
  function ShiftSource(k: nat): (i: nat)
    requires k < 16
    ensures i < 16
  {
    Wrap(k / 4 + k % 4) * 4 + k % 4
  }

  function UnshiftSource(k: nat): (i: nat)
    requires k < 16
    ensures i < 16
  {
    Wrap(k / 4 + (4 - k % 4)) * 4 + k % 4
  }

  function AddKey(s: Block, w: RoundKeys, round: nat): Block
    requires round <= ROUNDS
  {
    seq(16, k requires 0 <= k < 16 => s[k] ^ w[16 * round + k])
  }

  function Sub(s: Block): Block {
    seq(16, k requires 0 <= k < 16 => SubByte(s[k]))
  }

  function InvSub(s: Block): Block {
    seq(16, k requires 0 <= k < 16 => InvSubByte(s[k]))
  }

  function Shift(s: Block): Block {
    seq(16, k requires 0 <= k < 16 => s[ShiftSource(k)])
  }

  function InvShift(s: Block): Block {
    seq(16, k requires 0 <= k < 16 => s[UnshiftSource(k)])
  }

  function Mix(s: Block): Block {
    seq(16, k requires 0 <= k < 16 => MixRow(s[k], s[Below(k, 1)], s[Below(k, 2)], s[Below(k, 3)]))
  }

  function InvMix(s: Block): Block {
    seq(16, k requires 0 <= k < 16 => InvMixRow(s[k], s[Below(k, 1)], s[Below(k, 2)], s[Below(k, 3)]))
  }

  /** The state after the initial key addition and rounds 1 to r. */
  function RoundState(s: Block, w: RoundKeys, r: nat): Block
    requires r < ROUNDS
  {
    if r == 0 then AddKey(s, w, 0) else AddKey(Mix(Shift(Sub(RoundState(s, w, r - 1)))), w, r)
  }

  function Cipher(s: Block, w: RoundKeys): Block {
    AddKey(Shift(Sub(RoundState(s, w, ROUNDS - 1))), w, ROUNDS)
  }

  /** The state of the inverse cipher before its round r, counted down from ROUNDS. */
  function InvRoundState(s: Block, w: RoundKeys, r: nat): Block
    requires 1 <= r <= ROUNDS
    decreases ROUNDS - r
  {
    if r == ROUNDS then AddKey(s, w, ROUNDS)
    else InvMix(AddKey(InvSub(InvShift(InvRoundState(s, w, r + 1))), w, r))
  }

  function InvCipher(s: Block, w: RoundKeys): Block {
    AddKey(InvSub(InvShift(InvRoundState(s, w, 1))), w, 0)
  }

  // ---- Each transformation undoes its counterpart.

  lemma AddKeyTwice(s: Block, w: RoundKeys, round: nat)
    requires round <= ROUNDS
    ensures AddKey(AddKey(s, w, round), w, round) == s
  {
    forall k | 0 <= k < 16 ensures AddKey(AddKey(s, w, round), w, round)[k] == s[k] {
      XorTwice(s[k], w[16 * round + k]);
    }
  }

  lemma XorTwice(a: bv8, b: bv8)
    ensures (a ^ b) ^ b == a
  {}

  lemma SubInverse(s: Block)
    ensures InvSub(Sub(s)) == s
    ensures Sub(InvSub(s)) == s
  {
    forall k | 0 <= k < 16 ensures InvSub(Sub(s))[k] == s[k] && Sub(InvSub(s))[k] == s[k] {
      SubBytesInverse(s[k]);
    }
  }

  lemma ColumnRow(c: nat, r: nat)
    requires c < 4 && r < 4
    ensures (c * 4 + r) / 4 == c && (c * 4 + r) % 4 == r
  {}

  lemma UnshiftAfterShift(k: nat)
    requires k < 16
    ensures UnshiftSource(ShiftSource(k)) == k
  {
    ColumnRow(Wrap(k / 4 + k % 4), k % 4);
  }

  lemma ShiftAfterUnshift(k: nat)
    requires k < 16
    ensures ShiftSource(UnshiftSource(k)) == k
  {
    ColumnRow(Wrap(k / 4 + (4 - k % 4)), k % 4);
  }

  lemma ShiftInverse(s: Block)
    ensures InvShift(Shift(s)) == s
    ensures Shift(InvShift(s)) == s
  {
    hide ShiftSource, UnshiftSource;
    forall k | 0 <= k < 16 ensures InvShift(Shift(s))[k] == s[k] && Shift(InvShift(s))[k] == s[k] {
      UnshiftAfterShift(k);
      ShiftAfterUnshift(k);
    }
  }

  lemma BelowBelow(k: nat, i: nat, j: nat)
    requires k < 16 && i < 4 && j < 4
    ensures Below(Below(k, i), j) == Below(k, Wrap(i + j))
    ensures Below(k, 0) == k
  {
    ColumnRow(k / 4, Wrap(k % 4 + i));
  }

  // ---- Column mixing. Multiplication by a constant is linear, so the product of the two matrices
  // can be checked one column byte at a time.

  lemma AddComm(x: bv8, y: bv8)
    ensures Add(x, y) == Add(y, x)
  {}

  lemma AddAssoc(x: bv8, y: bv8, z: bv8)
    ensures Add(Add(x, y), z) == Add(x, Add(y, z))
  {}

  lemma AddSwap(a: bv8, b: bv8, c: bv8, d: bv8)
    ensures Add(Add(a, b), Add(c, d)) == Add(Add(a, c), Add(b, d))
  {
    AddAssoc(a, b, Add(c, d));
    AddAssoc(b, c, d);
    AddComm(b, c);
    AddAssoc(c, b, d);
    AddAssoc(a, c, Add(b, d));
  }

  lemma XtimeAdd(x: bv8, y: bv8)
    ensures Xtime(Add(x, y)) == Add(Xtime(x), Xtime(y))
  {
    hide Xtime;
    XtimeXor(x, y);
  }

  lemma Xtime2Add(x: bv8, y: bv8)
    ensures Xtime(Xtime(Add(x, y))) == Add(Xtime(Xtime(x)), Xtime(Xtime(y)))
  {
    XtimeAdd(x, y);
    XtimeAdd(Xtime(x), Xtime(y));
  }

  lemma Xtime3Add(x: bv8, y: bv8)
    ensures Xtime(Xtime(Xtime(Add(x, y)))) == Add(Xtime(Xtime(Xtime(x))), Xtime(Xtime(Xtime(y))))
  {
    Xtime2Add(x, y);
    XtimeAdd(Xtime(Xtime(x)), Xtime(Xtime(y)));
  }

  lemma Multiply1(x: bv8)
    ensures Multiply(x, 0x01) == x
  {}

  lemma Multiply2(x: bv8)
    ensures Multiply(x, 0x02) == Xtime(x)
  {}

  lemma Multiply3(x: bv8)
    ensures Multiply(x, 0x03) == Add(Xtime(x), x)
  {}

  lemma Multiply9(x: bv8)
    ensures Multiply(x, 0x09) == Add(Xtime(Xtime(Xtime(x))), x)
  {}

  lemma MultiplyB(x: bv8)
    ensures Multiply(x, 0x0b) == Add(Add(Xtime(Xtime(Xtime(x))), x), Xtime(x))
  {}

  lemma MultiplyD(x: bv8)
    ensures Multiply(x, 0x0d) == Add(Add(Xtime(Xtime(Xtime(x))), x), Xtime(Xtime(x)))
  {}

  lemma MultiplyE(x: bv8)
    ensures Multiply(x, 0x0e) == Add(Add(Xtime(Xtime(Xtime(x))), Xtime(x)), Xtime(Xtime(x)))
  {}

  lemma Multiply3Add(x: bv8, y: bv8)
    ensures Multiply(Add(x, y), 0x03) == Add(Multiply(x, 0x03), Multiply(y, 0x03))
  {
    Multiply3(x);
    Multiply3(y);
    Multiply3(Add(x, y));
    XtimeAdd(x, y);
    AddSwap(Xtime(x), Xtime(y), x, y);
  }

  lemma Multiply9Add(x: bv8, y: bv8)
    ensures Multiply(Add(x, y), 0x09) == Add(Multiply(x, 0x09), Multiply(y, 0x09))
  {
    Multiply9(x);
    Multiply9(y);
    Multiply9(Add(x, y));
    Xtime3Add(x, y);
    AddSwap(Xtime(Xtime(Xtime(x))), Xtime(Xtime(Xtime(y))), x, y);
  }

  lemma MultiplyBAdd(x: bv8, y: bv8)
    ensures Multiply(Add(x, y), 0x0b) == Add(Multiply(x, 0x0b), Multiply(y, 0x0b))
  {
    MultiplyB(x);
    MultiplyB(y);
    MultiplyB(Add(x, y));
    XtimeAdd(x, y);
    Xtime3Add(x, y);
    var x8, y8 := Xtime(Xtime(Xtime(x))), Xtime(Xtime(Xtime(y)));
    AddSwap(x8, y8, x, y);
    AddSwap(Add(x8, x), Add(y8, y), Xtime(x), Xtime(y));
  }

  lemma MultiplyDAdd(x: bv8, y: bv8)
    ensures Multiply(Add(x, y), 0x0d) == Add(Multiply(x, 0x0d), Multiply(y, 0x0d))
  {
    MultiplyD(x);
    MultiplyD(y);
    MultiplyD(Add(x, y));
    Xtime2Add(x, y);
    Xtime3Add(x, y);
    var x8, y8 := Xtime(Xtime(Xtime(x))), Xtime(Xtime(Xtime(y)));
    AddSwap(x8, y8, x, y);
    AddSwap(Add(x8, x), Add(y8, y), Xtime(Xtime(x)), Xtime(Xtime(y)));
  }

  lemma MultiplyEAdd(x: bv8, y: bv8)
    ensures Multiply(Add(x, y), 0x0e) == Add(Multiply(x, 0x0e), Multiply(y, 0x0e))
  {
    MultiplyE(x);
    MultiplyE(y);
    MultiplyE(Add(x, y));
    XtimeAdd(x, y);
    Xtime2Add(x, y);
    Xtime3Add(x, y);
    var x8, y8 := Xtime(Xtime(Xtime(x))), Xtime(Xtime(Xtime(y)));
    AddSwap(x8, y8, Xtime(x), Xtime(y));
    AddSwap(Add(x8, Xtime(x)), Add(y8, Xtime(y)), Xtime(Xtime(x)), Xtime(Xtime(y)));
  }

  predicate MixConstant(k: bv8) {
    k == 0x01 || k == 0x02 || k == 0x03 || k == 0x09 || k == 0x0b || k == 0x0d || k == 0x0e
  }

  /** Multiplication by each constant of the two matrices distributes over addition. */
  lemma MultiplyAdd(x: bv8, y: bv8, k: bv8)
    requires MixConstant(k)
    ensures Multiply(Add(x, y), k) == Add(Multiply(x, k), Multiply(y, k))
  {
    match k
    case 0x01 => Multiply1(x); Multiply1(y); Multiply1(Add(x, y));
    case 0x02 => Multiply2(x); Multiply2(y); Multiply2(Add(x, y)); XtimeAdd(x, y);
    case 0x03 => Multiply3Add(x, y);
    case 0x09 => Multiply9Add(x, y);
    case 0x0b => MultiplyBAdd(x, y);
    case 0x0d => MultiplyDAdd(x, y);
    case _ => MultiplyEAdd(x, y);
  }

  lemma Sum4Paired(a: bv8, b: bv8, c: bv8, d: bv8)
    ensures Sum4(a, b, c, d) == Add(Add(a, b), Add(c, d))
  {}

  lemma MultiplySum4(a: bv8, b: bv8, c: bv8, d: bv8, k: bv8)
    requires MixConstant(k)
    ensures Multiply(Sum4(a, b, c, d), k) == Sum4(Multiply(a, k), Multiply(b, k), Multiply(c, k), Multiply(d, k))
  {
    Sum4Paired(a, b, c, d);
    MultiplyAdd(Add(a, b), Add(c, d), k);
    MultiplyAdd(a, b, k);
    MultiplyAdd(c, d, k);
    Sum4Paired(Multiply(a, k), Multiply(b, k), Multiply(c, k), Multiply(d, k));
  }

  lemma AddSum4(a: bv8, b: bv8, c: bv8, d: bv8, a': bv8, b': bv8, c': bv8, d': bv8)
    ensures Add(Sum4(a, b, c, d), Sum4(a', b', c', d')) == Sum4(Add(a, a'), Add(b, b'), Add(c, c'), Add(d, d'))
  {
    Sum4Paired(a, b, c, d);
    Sum4Paired(a', b', c', d');
    AddSwap(Add(a, b), Add(c, d), Add(a', b'), Add(c', d'));
    AddSwap(a, b, a', b');
    AddSwap(c, d, c', d');
    Sum4Paired(Add(a, a'), Add(b, b'), Add(c, c'), Add(d, d'));
  }

  /** A sum of four row sums is the sum of the four column sums. */
  lemma Sum4Transposed(a0: bv8, b0: bv8, c0: bv8, d0: bv8, a1: bv8, b1: bv8, c1: bv8, d1: bv8,
                       a2: bv8, b2: bv8, c2: bv8, d2: bv8, a3: bv8, b3: bv8, c3: bv8, d3: bv8)
    ensures Sum4(Sum4(a0, b0, c0, d0), Sum4(a1, b1, c1, d1), Sum4(a2, b2, c2, d2), Sum4(a3, b3, c3, d3)) ==
            Sum4(Sum4(a0, a1, a2, a3), Sum4(b0, b1, b2, b3), Sum4(c0, c1, c2, c3), Sum4(d0, d1, d2, d3))
  {
    AddSum4(a0, b0, c0, d0, a1, b1, c1, d1);
    AddSum4(a2, b2, c2, d2, a3, b3, c3, d3);
    AddSum4(Add(a0, a1), Add(b0, b1), Add(c0, c1), Add(d0, d1), Add(a2, a3), Add(b2, b3), Add(c2, c3), Add(d2, d3));
    Sum4Paired(Sum4(a0, b0, c0, d0), Sum4(a1, b1, c1, d1), Sum4(a2, b2, c2, d2), Sum4(a3, b3, c3, d3));
    Sum4Paired(a0, a1, a2, a3);
    Sum4Paired(b0, b1, b2, b3);
    Sum4Paired(c0, c1, c2, c3);
    Sum4Paired(d0, d1, d2, d3);
  }

  lemma Sum4Rotate(a: bv8, b: bv8, c: bv8, d: bv8)
    ensures Sum4(b, c, d, a) == Sum4(a, b, c, d)
  {}

  /** One entry of a product of two circulant matrices, applied to a byte. */
  function Entry(k0: bv8, k1: bv8, k2: bv8, k3: bv8, m0: bv8, m1: bv8, m2: bv8, m3: bv8, x: bv8): bv8 {
    Sum4(Multiply(Multiply(x, m0), k0), Multiply(Multiply(x, m1), k1),
         Multiply(Multiply(x, m2), k2), Multiply(Multiply(x, m3), k3))
  }

  lemma RowInOrder(m0: bv8, m1: bv8, m2: bv8, m3: bv8, a: bv8, b: bv8, c: bv8, d: bv8)
    ensures Row(m0, m1, m2, m3, b, c, d, a) == Row(m3, m0, m1, m2, a, b, c, d)
  {
    Sum4Rotate(Multiply(a, m3), Multiply(b, m0), Multiply(c, m1), Multiply(d, m2));
  }

  lemma MultiplyRow(m0: bv8, m1: bv8, m2: bv8, m3: bv8, a: bv8, b: bv8, c: bv8, d: bv8, k: bv8)
    requires MixConstant(k)
    ensures Multiply(Row(m0, m1, m2, m3, a, b, c, d), k) ==
            Sum4(Multiply(Multiply(a, m0), k), Multiply(Multiply(b, m1), k),
                 Multiply(Multiply(c, m2), k), Multiply(Multiply(d, m3), k))
  {
    MultiplySum4(Multiply(a, m0), Multiply(b, m1), Multiply(c, m2), Multiply(d, m3), k);
  }

  /** A circulant matrix applied to the result of another, collected by the bytes of the column. */
  lemma RowOfRows(k0: bv8, k1: bv8, k2: bv8, k3: bv8, m0: bv8, m1: bv8, m2: bv8, m3: bv8,
                  a: bv8, b: bv8, c: bv8, d: bv8)
    requires MixConstant(k0) && MixConstant(k1) && MixConstant(k2) && MixConstant(k3)
    ensures Row(k0, k1, k2, k3, Row(m0, m1, m2, m3, a, b, c, d), Row(m0, m1, m2, m3, b, c, d, a),
                Row(m0, m1, m2, m3, c, d, a, b), Row(m0, m1, m2, m3, d, a, b, c)) ==
            Sum4(Entry(k0, k1, k2, k3, m0, m3, m2, m1, a), Entry(k0, k1, k2, k3, m1, m0, m3, m2, b),
                 Entry(k0, k1, k2, k3, m2, m1, m0, m3, c), Entry(k0, k1, k2, k3, m3, m2, m1, m0, d))
  {
    RowInOrder(m0, m1, m2, m3, a, b, c, d);
    RowInOrder(m0, m1, m2, m3, b, c, d, a);
    RowInOrder(m3, m0, m1, m2, a, b, c, d);
    RowInOrder(m0, m1, m2, m3, c, d, a, b);
    RowInOrder(m3, m0, m1, m2, b, c, d, a);
    RowInOrder(m2, m3, m0, m1, a, b, c, d);
    MultiplyRow(m0, m1, m2, m3, a, b, c, d, k0);
    MultiplyRow(m3, m0, m1, m2, a, b, c, d, k1);
    MultiplyRow(m2, m3, m0, m1, a, b, c, d, k2);
    MultiplyRow(m1, m2, m3, m0, a, b, c, d, k3);
    Sum4Transposed(
      Multiply(Multiply(a, m0), k0), Multiply(Multiply(b, m1), k0),
      Multiply(Multiply(c, m2), k0), Multiply(Multiply(d, m3), k0),
      Multiply(Multiply(a, m3), k1), Multiply(Multiply(b, m0), k1),
      Multiply(Multiply(c, m1), k1), Multiply(Multiply(d, m2), k1),
      Multiply(Multiply(a, m2), k2), Multiply(Multiply(b, m3), k2),
      Multiply(Multiply(c, m0), k2), Multiply(Multiply(d, m1), k2),
      Multiply(Multiply(a, m1), k3), Multiply(Multiply(b, m2), k3),
      Multiply(Multiply(c, m3), k3), Multiply(Multiply(d, m0), k3));
  }

  lemma InvTimesMixDiagonal(x: bv8)
    ensures Entry(0x0e, 0x0b, 0x0d, 0x09, 0x02, 0x01, 0x01, 0x03, x) == x
  {}

  lemma InvTimesMixOff1(x: bv8)
    ensures Entry(0x0e, 0x0b, 0x0d, 0x09, 0x03, 0x02, 0x01, 0x01, x) == 0
  {}

  lemma InvTimesMixOff2(x: bv8)
    ensures Entry(0x0e, 0x0b, 0x0d, 0x09, 0x01, 0x03, 0x02, 0x01, x) == 0
  {}

  lemma InvTimesMixOff3(x: bv8)
    ensures Entry(0x0e, 0x0b, 0x0d, 0x09, 0x01, 0x01, 0x03, 0x02, x) == 0
  {}

  lemma MixTimesInvDiagonal(x: bv8)
    ensures Entry(0x02, 0x03, 0x01, 0x01, 0x0e, 0x09, 0x0d, 0x0b, x) == x
  {}

  lemma MixTimesInvOff1(x: bv8)
    ensures Entry(0x02, 0x03, 0x01, 0x01, 0x0b, 0x0e, 0x09, 0x0d, x) == 0
  {}

  lemma MixTimesInvOff2(x: bv8)
    ensures Entry(0x02, 0x03, 0x01, 0x01, 0x0d, 0x0b, 0x0e, 0x09, x) == 0
  {}

  lemma MixTimesInvOff3(x: bv8)
    ensures Entry(0x02, 0x03, 0x01, 0x01, 0x09, 0x0d, 0x0b, 0x0e, x) == 0
  {}

  lemma OnlyFirst(a: bv8)
    ensures Sum4(a, 0, 0, 0) == a
  {}

  /** The matrices of sections 5.1.3 and 5.3.3 are inverse to each other. */
  lemma MixRowInverse(a: bv8, b: bv8, c: bv8, d: bv8)
    ensures InvMixRow(MixRow(a, b, c, d), MixRow(b, c, d, a), MixRow(c, d, a, b), MixRow(d, a, b, c)) == a
    ensures MixRow(InvMixRow(a, b, c, d), InvMixRow(b, c, d, a), InvMixRow(c, d, a, b), InvMixRow(d, a, b, c)) == a
  {
    InvTimesMix(a, b, c, d);
    MixTimesInv(a, b, c, d);
  }

  lemma InvTimesMix(a: bv8, b: bv8, c: bv8, d: bv8)
    ensures InvMixRow(MixRow(a, b, c, d), MixRow(b, c, d, a), MixRow(c, d, a, b), MixRow(d, a, b, c)) == a
  {
    RowOfRows(0x0e, 0x0b, 0x0d, 0x09, 0x02, 0x03, 0x01, 0x01, a, b, c, d);
    InvTimesMixDiagonal(a);
    InvTimesMixOff1(b);
    InvTimesMixOff2(c);
    InvTimesMixOff3(d);
    OnlyFirst(a);
  }

  lemma MixTimesInv(a: bv8, b: bv8, c: bv8, d: bv8)
    ensures MixRow(InvMixRow(a, b, c, d), InvMixRow(b, c, d, a), InvMixRow(c, d, a, b), InvMixRow(d, a, b, c)) == a
  {
    RowOfRows(0x02, 0x03, 0x01, 0x01, 0x0e, 0x0b, 0x0d, 0x09, a, b, c, d);
    MixTimesInvDiagonal(a);
    MixTimesInvOff1(b);
    MixTimesInvOff2(c);
    MixTimesInvOff3(d);
    OnlyFirst(a);
  }

  lemma MixInverse(s: Block)
    ensures InvMix(Mix(s)) == s
    ensures Mix(InvMix(s)) == s
  {
    forall k | 0 <= k < 16 ensures InvMix(Mix(s))[k] == s[k] && Mix(InvMix(s))[k] == s[k] {
      BelowCycle(k);
      MixRowInverse(s[k], s[Below(k, 1)], s[Below(k, 2)], s[Below(k, 3)]);
    }
  }

  lemma BelowCycle(k: nat)
    requires k < 16
    ensures Below(Below(k, 1), 1) == Below(k, 2) && Below(Below(k, 1), 2) == Below(k, 3) && Below(Below(k, 1), 3) == k
    ensures Below(Below(k, 2), 1) == Below(k, 3) && Below(Below(k, 2), 2) == k && Below(Below(k, 2), 3) == Below(k, 1)
    ensures Below(Below(k, 3), 1) == k && Below(Below(k, 3), 2) == Below(k, 1) && Below(Below(k, 3), 3) == Below(k, 2)
  {
    BelowBelow(k, 1, 1); BelowBelow(k, 1, 2); BelowBelow(k, 1, 3);
    BelowBelow(k, 2, 1); BelowBelow(k, 2, 2); BelowBelow(k, 2, 3);
    BelowBelow(k, 3, 1); BelowBelow(k, 3, 2); BelowBelow(k, 3, 3);
  }

  // ---- The ciphers undo each other, for any 176 bytes of round keys.

  lemma InvRound(s: Block)
    ensures InvSub(InvShift(Shift(Sub(s)))) == s
    ensures Shift(Sub(InvSub(InvShift(s)))) == s
  {
    ShiftInverse(Sub(s));
    SubInverse(s);
    SubInverse(InvShift(s));
    ShiftInverse(s);
  }

  lemma UndoRound(shifted: Block, w: RoundKeys, r: nat)
    requires r <= ROUNDS
    ensures InvMix(AddKey(InvSub(InvShift(Shift(Sub(AddKey(Mix(shifted), w, r))))), w, r)) == shifted
  {
    hide Sub, InvSub, Shift, InvShift, Mix, InvMix, AddKey;
    InvRound(AddKey(Mix(shifted), w, r));
    AddKeyTwice(Mix(shifted), w, r);
    MixInverse(shifted);
  }

  lemma {:induction false} DecryptedState(s: Block, c: Block, w: RoundKeys, r: nat)
    requires 1 <= r <= ROUNDS
    requires InvRoundState(c, w, ROUNDS) == Shift(Sub(RoundState(s, w, ROUNDS - 1)))
    ensures InvRoundState(c, w, r) == Shift(Sub(RoundState(s, w, r - 1)))
    decreases ROUNDS - r
  {
    hide Sub, InvSub, Shift, InvShift, Mix, InvMix, AddKey;
    if r < ROUNDS {
      DecryptedState(s, c, w, r + 1);
      UndoRound(Shift(Sub(RoundState(s, w, r - 1))), w, r);
    }
  }

  lemma {:induction false} EncryptedState(s: Block, w: RoundKeys, r: nat)
    requires r < ROUNDS
    ensures RoundState(InvCipher(s, w), w, r) == InvSub(InvShift(InvRoundState(s, w, r + 1)))
  {
    hide Sub, InvSub, Shift, InvShift, Mix, InvMix, AddKey;
    if r == 0 {
      AddKeyTwice(InvSub(InvShift(InvRoundState(s, w, 1))), w, 0);
    } else {
      EncryptedState(s, w, r - 1);
      InvRound(InvRoundState(s, w, r));
      var keyed := InvSub(InvShift(InvRoundState(s, w, r + 1)));
      MixInverse(AddKey(keyed, w, r));
      AddKeyTwice(keyed, w, r);
    }
  }

  /** Decryption undoes encryption, whatever the round keys are. */
  lemma InvCipherUndoesCipher(s: Block, w: RoundKeys)
    ensures InvCipher(Cipher(s, w), w) == s
  {
    hide Sub, InvSub, Shift, InvShift, Mix, InvMix, AddKey;
    AddKeyTwice(Shift(Sub(RoundState(s, w, ROUNDS - 1))), w, ROUNDS);
    DecryptedState(s, Cipher(s, w), w, 1);
    InvRound(RoundState(s, w, 0));
    AddKeyTwice(s, w, 0);
  }

  /** Encryption undoes decryption, whatever the round keys are. */
  lemma CipherUndoesInvCipher(s: Block, w: RoundKeys)
    ensures Cipher(InvCipher(s, w), w) == s
  {
    hide Sub, InvSub, Shift, InvShift, Mix, InvMix, AddKey;
    EncryptedState(s, w, ROUNDS - 1);
    InvRound(InvRoundState(s, w, ROUNDS));
    AddKeyTwice(s, w, ROUNDS);
  }

  // ---- The key schedule of section 5.2, in words of four bytes.

  type Word = w: Bytes | |w| == 4 witness seq(4, i => 0)

  function XorWord(x: Word, y: Word): Word {
    [x[0] ^ y[0], x[1] ^ y[1], x[2] ^ y[2], x[3] ^ y[3]]
  }

  function RotWord(w: Word): Word {
    [w[1], w[2], w[3], w[0]]
  }

  function SubWord(w: Word): Word {
    [SubByte(w[0]), SubByte(w[1]), SubByte(w[2]), SubByte(w[3])]
  }

  function ScheduleWord(key: Key, i: nat): Word
    requires i < 44
  {
    if i < 4 then key[4 * i..4 * i + 4]
    else if i % 4 == 0 then
      XorWord(ScheduleWord(key, i - 4),
              XorWord(SubWord(RotWord(ScheduleWord(key, i - 1))), [Rcon(i / 4), 0, 0, 0]))
    else XorWord(ScheduleWord(key, i - 4), ScheduleWord(key, i - 1))
  }

  function KeySchedule(key: Key): RoundKeys {
    seq(176, k requires 0 <= k < 176 => ScheduleWord(key, k / 4)[k % 4])
  }

  /** One block encrypted, and decrypted, under a 16-byte key. */
  function Encrypt(key: Key, block: Block): Block {
    Cipher(block, KeySchedule(key))
  }

  function Decrypt(key: Key, block: Block): Block {
    InvCipher(block, KeySchedule(key))
  }

  /** Encryption and decryption under a key are inverse bijections of the blocks. */
  lemma EncryptDecryptInverse(key: Key, block: Block)
    ensures Decrypt(key, Encrypt(key, block)) == block
    ensures Encrypt(key, Decrypt(key, block)) == block
  {
    InvCipherUndoesCipher(block, KeySchedule(key));
    CipherUndoesInvCipher(block, KeySchedule(key));
  }
}
