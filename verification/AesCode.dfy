/** The AES code itself: every step overwrites 16 bytes of a buffer in place, at an offset. Each
    method is proved to compute the FIPS 197 function of the same step and to leave the rest of the
    buffer alone. */
module AesCode {
  import opened AesTables
  import opened Aes

  /** A buffer with its 16 bytes at offset o replaced. */
  function Spliced(all: Bytes, o: nat, block: Block): Bytes
    requires o + 16 <= |all|
  {
    all[..o] + block + all[o + 16..]
  }

  /** The block at offset o. */
  function BlockAt(all: Bytes, o: nat): Block
    requires o + 16 <= |all|
  {
    all[o..o + 16]
  }

  lemma SplicedTwice(all: Bytes, o: nat, b: Block, c: Block)
    requires o + 16 <= |all|
    ensures |Spliced(all, o, b)| == |all|
    ensures BlockAt(Spliced(all, o, b), o) == b
    ensures Spliced(Spliced(all, o, b), o, c) == Spliced(all, o, c)
  {}

  lemma SplicedBytes(before: Bytes, after: Bytes, o: nat, b: Block)
    requires |after| == |before| && o + 16 <= |before|
    requires forall k | 0 <= k < 16 :: after[o + k] == b[k]
    requires after[..o] == before[..o] && after[o + 16..] == before[o + 16..]
    ensures after == Spliced(before, o, b)
  {
    assert after[o..o + 16] == b;
    assert after == after[..o] + after[o..o + 16] + after[o + 16..];
  }

  method AddRoundKey(round: nat, buf: array<bv8>, o: nat, w: RoundKeys)
    requires round <= ROUNDS && o + 16 <= buf.Length
    modifies buf
    ensures buf[..] == Spliced(old(buf[..]), o, AddKey(BlockAt(old(buf[..]), o), w, round))
  {
    ghost var s := BlockAt(buf[..], o);
    ghost var added := AddKey(s, w, round);
    for i := 0 to 4
      invariant buf[..o] == old(buf[..o]) && buf[o + 16..] == old(buf[o + 16..])
      invariant forall k | 0 <= k < 16 :: buf[o + k] == if k < 4 * i then added[k] else s[k]
    {
      for j := 0 to 4
        invariant buf[..o] == old(buf[..o]) && buf[o + 16..] == old(buf[o + 16..])
        invariant forall k | 0 <= k < 16 :: buf[o + k] == if k < 4 * i + j then added[k] else s[k]
      {
        buf[o + 4 * i + j] := buf[o + 4 * i + j] ^ w[(round * 4 * 4) + (i * 4) + j];
      }
    }
    SplicedBytes(old(buf[..]), buf[..], o, added);
  }

  method SubBytes(buf: array<bv8>, o: nat)
    requires o + 16 <= buf.Length
    modifies buf
    ensures buf[..] == Spliced(old(buf[..]), o, Sub(BlockAt(old(buf[..]), o)))
  {
    ghost var s := BlockAt(buf[..], o);
    ghost var subbed := Sub(s);
    for i := 0 to 4
      invariant buf[..o] == old(buf[..o]) && buf[o + 16..] == old(buf[o + 16..])
      invariant forall k | 0 <= k < 16 :: buf[o + k] == if k % 4 < i then subbed[k] else s[k]
    {
      for j := 0 to 4
        invariant buf[..o] == old(buf[..o]) && buf[o + 16..] == old(buf[o + 16..])
        invariant forall k | 0 <= k < 16 ::
                    buf[o + k] == if k % 4 < i || (k % 4 == i && k / 4 < j) then subbed[k] else s[k]
      {
        ColumnRow(j, i);
        buf[o + 4 * j + i] := SubByte(buf[o + 4 * j + i]);
      }
    }
    SplicedBytes(old(buf[..]), buf[..], o, subbed);
  }

  method InvSubBytes(buf: array<bv8>, o: nat)
    requires o + 16 <= buf.Length
    modifies buf
    ensures buf[..] == Spliced(old(buf[..]), o, InvSub(BlockAt(old(buf[..]), o)))
  {
    ghost var s := BlockAt(buf[..], o);
    ghost var subbed := InvSub(s);
    for i := 0 to 4
      invariant buf[..o] == old(buf[..o]) && buf[o + 16..] == old(buf[o + 16..])
      invariant forall k | 0 <= k < 16 :: buf[o + k] == if k % 4 < i then subbed[k] else s[k]
    {
      for j := 0 to 4
        invariant buf[..o] == old(buf[..o]) && buf[o + 16..] == old(buf[o + 16..])
        invariant forall k | 0 <= k < 16 ::
                    buf[o + k] == if k % 4 < i || (k % 4 == i && k / 4 < j) then subbed[k] else s[k]
      {
        ColumnRow(j, i);
        buf[o + 4 * j + i] := InvSubByte(buf[o + 4 * j + i]);
      }
    }
    SplicedBytes(old(buf[..]), buf[..], o, subbed);
  }

  /** One row of the block at offset o has rotated and the rest of the buffer has not changed. */
  ghost predicate RowMoved(before: Bytes, after: Bytes, o: nat, row: nat, left: bool)
    requires o + 16 <= |before|
  {
    && |after| == |before|
    && after[..o] == before[..o] && after[o + 16..] == before[o + 16..]
    && forall k | 0 <= k < 16 ::
         after[o + k] == before[o + RowSource(k, row, left)]
  }

  lemma ShiftedRow1()
    ensures ShiftSource(1) == 5 && ShiftSource(5) == 9 && ShiftSource(9) == 13 && ShiftSource(13) == 1
  {}

  lemma ShiftedRow2()
    ensures ShiftSource(2) == 10 && ShiftSource(6) == 14 && ShiftSource(10) == 2 && ShiftSource(14) == 6
  {}

  lemma ShiftedRow3()
    ensures ShiftSource(3) == 15 && ShiftSource(7) == 3 && ShiftSource(11) == 7 && ShiftSource(15) == 11
  {}

  lemma UnshiftedRow1()
    ensures UnshiftSource(1) == 13 && UnshiftSource(5) == 1 && UnshiftSource(9) == 5 && UnshiftSource(13) == 9
  {}

  lemma UnshiftedRow3()
    ensures UnshiftSource(3) == 7 && UnshiftSource(7) == 11 && UnshiftSource(11) == 15 && UnshiftSource(15) == 3
  {}

  method ShiftRow1(buf: array<bv8>, o: nat)
    requires o + 16 <= buf.Length
    modifies buf
    ensures RowMoved(old(buf[..]), buf[..], o, 1, true)
  {
    hide ShiftSource, UnshiftSource;
    ShiftedRow1();
    var temp := buf[o + 1];
    buf[o + 1] := buf[o + 5];
    buf[o + 5] := buf[o + 9];
    buf[o + 9] := buf[o + 13];
    buf[o + 13] := temp;
  }

  method SwapRow2(buf: array<bv8>, o: nat)
    requires o + 16 <= buf.Length
    modifies buf
    ensures RowMoved(old(buf[..]), buf[..], o, 2, true)
  {
    hide ShiftSource, UnshiftSource;
    ShiftedRow2();
    var temp := buf[o + 2];
    buf[o + 2] := buf[o + 10];
    buf[o + 10] := temp;
    temp := buf[o + 6];
    buf[o + 6] := buf[o + 14];
    buf[o + 14] := temp;
  }

  method ShiftRow3(buf: array<bv8>, o: nat)
    requires o + 16 <= buf.Length
    modifies buf
    ensures RowMoved(old(buf[..]), buf[..], o, 3, true)
  {
    hide ShiftSource, UnshiftSource;
    ShiftedRow3();
    var temp := buf[o + 3];
    buf[o + 3] := buf[o + 15];
    buf[o + 15] := buf[o + 11];
    buf[o + 11] := buf[o + 7];
    buf[o + 7] := temp;
  }

  method InvShiftRow1(buf: array<bv8>, o: nat)
    requires o + 16 <= buf.Length
    modifies buf
    ensures RowMoved(old(buf[..]), buf[..], o, 1, false)
  {
    hide ShiftSource, UnshiftSource;
    UnshiftedRow1();
    var temp := buf[o + 13];
    buf[o + 13] := buf[o + 9];
    buf[o + 9] := buf[o + 5];
    buf[o + 5] := buf[o + 1];
    buf[o + 1] := temp;
  }

  method InvShiftRow3(buf: array<bv8>, o: nat)
    requires o + 16 <= buf.Length
    modifies buf
    ensures RowMoved(old(buf[..]), buf[..], o, 3, false)
  {
    hide ShiftSource, UnshiftSource;
    UnshiftedRow3();
    var temp := buf[o + 3];
    buf[o + 3] := buf[o + 7];
    buf[o + 7] := buf[o + 11];
    buf[o + 11] := buf[o + 15];
    buf[o + 15] := temp;
  }

  function RowSource(k: nat, row: nat, left: bool): (i: nat)
    requires k < 16
    ensures i < 16
  {
    if k % 4 != row then k else if left then ShiftSource(k) else UnshiftSource(k)
  }

  lemma RowSources(k: nat, left: bool)
    requires k < 16
    ensures RowSource(RowSource(RowSource(k, 3, left), 2, true), 1, left) ==
            if left then ShiftSource(k) else UnshiftSource(k)
  {}

  lemma RowMovedByte(before: Bytes, after: Bytes, o: nat, row: nat, left: bool, k: nat)
    requires o + 16 <= |before| && RowMoved(before, after, o, row, left) && k < 16
    ensures |after| == |before| && after[o + k] == before[o + RowSource(k, row, left)]
    ensures after[..o] == before[..o] && after[o + 16..] == before[o + 16..]
  {}

  lemma RowsMovedByte(s0: Bytes, s1: Bytes, s2: Bytes, s3: Bytes, o: nat, left: bool, k: nat)
    requires o + 16 <= |s0| && k < 16
    requires RowMoved(s0, s1, o, 1, left)
    requires |s1| == |s0| && RowMoved(s1, s2, o, 2, true)
    requires |s2| == |s1| && RowMoved(s2, s3, o, 3, left)
    ensures |s3| == |s0| && s3[o + k] == s0[o + if left then ShiftSource(k) else UnshiftSource(k)]
  {
    hide RowMoved, RowSource, ShiftSource, UnshiftSource;
    RowSources(k, left);
    var k2 := RowSource(k, 3, left);
    RowMovedByte(s2, s3, o, 3, left, k);
    RowMovedByte(s1, s2, o, 2, true, k2);
    RowMovedByte(s0, s1, o, 1, left, RowSource(k2, 2, true));
  }

  lemma ShiftedByte(b: Block, left: bool, k: nat)
    requires k < 16
    ensures (if left then Shift(b) else InvShift(b))[k] == b[if left then ShiftSource(k) else UnshiftSource(k)]
  {
    hide ShiftSource, UnshiftSource;
  }

  lemma RowsMoved(s0: Bytes, s1: Bytes, s2: Bytes, s3: Bytes, o: nat, left: bool)
    requires o + 16 <= |s0|
    requires RowMoved(s0, s1, o, 1, left)
    requires |s1| == |s0| && RowMoved(s1, s2, o, 2, true)
    requires |s2| == |s1| && RowMoved(s2, s3, o, 3, left)
    ensures s3 == Spliced(s0, o, if left then Shift(BlockAt(s0, o)) else InvShift(BlockAt(s0, o)))
  {
    hide RowMoved, ShiftSource, UnshiftSource, Shift, InvShift;
    RowMovedByte(s0, s1, o, 1, left, 0);
    RowMovedByte(s1, s2, o, 2, true, 0);
    RowMovedByte(s2, s3, o, 3, left, 0);
    var shifted := if left then Shift(BlockAt(s0, o)) else InvShift(BlockAt(s0, o));
    forall k | 0 <= k < 16 ensures s3[o + k] == shifted[k] {
      RowsMovedByte(s0, s1, s2, s3, o, left, k);
      ShiftedByte(BlockAt(s0, o), left, k);
    }
    SplicedBytes(s0, s3, o, shifted);
  }

  method ShiftRows(buf: array<bv8>, o: nat)
    requires o + 16 <= buf.Length
    modifies buf
    ensures buf[..] == Spliced(old(buf[..]), o, Shift(BlockAt(old(buf[..]), o)))
  {
    ShiftRow1(buf, o);
    ghost var s1 := buf[..];
    SwapRow2(buf, o);
    ghost var s2 := buf[..];
    ShiftRow3(buf, o);
    RowsMoved(old(buf[..]), s1, s2, buf[..], o, true);
  }

  method InvShiftRows(buf: array<bv8>, o: nat)
    requires o + 16 <= buf.Length
    modifies buf
    ensures buf[..] == Spliced(old(buf[..]), o, InvShift(BlockAt(old(buf[..]), o)))
  {
    InvShiftRow1(buf, o);
    ghost var s1 := buf[..];
    SwapRow2(buf, o);
    ghost var s2 := buf[..];
    InvShiftRow3(buf, o);
    RowsMoved(old(buf[..]), s1, s2, buf[..], o, false);
  }

  // ---- The code doubles the sum of two neighbours where the matrix row doubles each of them.

  lemma CodedSum(a: bv8, b: bv8, c: bv8, d: bv8, t: bv8)
    ensures a ^ (t ^ (a ^ b ^ c ^ d)) == Add(Add(t, b), Add(c, d))
  {}

  lemma MixRowAsCoded(a: bv8, b: bv8, c: bv8, d: bv8, t: bv8)
    requires t == Xtime(a ^ b)
    ensures MixRow(a, b, c, d) == a ^ (t ^ (a ^ b ^ c ^ d))
  {
    Multiply2(a);
    Multiply3(b);
    Multiply1(c);
    Multiply1(d);
    Sum4Paired(Multiply(a, 0x02), Multiply(b, 0x03), Multiply(c, 0x01), Multiply(d, 0x01));
    AddAssoc(Xtime(a), Xtime(b), b);
    assert Add(a, b) == a ^ b;
    XtimeAdd(a, b);
    CodedSum(a, b, c, d, t);
  }

  lemma InvMixRowAsCoded(a: bv8, b: bv8, c: bv8, d: bv8)
    ensures InvMixRow(a, b, c, d) ==
            Multiply(a, 0x0e) ^ Multiply(b, 0x0b) ^ Multiply(c, 0x0d) ^ Multiply(d, 0x09)
  {
    hide Multiply;
  }

  lemma ColumnBelow(c: nat, r: nat, j: nat)
    requires c < 4 && r < 4 && j < 4
    ensures Below(4 * c + r, j) == 4 * c + Wrap(r + j)
  {
    ColumnRow(c, r);
  }

  /** A column, listed from row 0, after mixing. */
  function MixedColumn(a: bv8, b: bv8, c: bv8, d: bv8): Bytes {
    [MixRow(a, b, c, d), MixRow(b, c, d, a), MixRow(c, d, a, b), MixRow(d, a, b, c)]
  }

  function InvMixedColumn(a: bv8, b: bv8, c: bv8, d: bv8): Bytes {
    [InvMixRow(a, b, c, d), InvMixRow(b, c, d, a), InvMixRow(c, d, a, b), InvMixRow(d, a, b, c)]
  }

  lemma MixAt(s: Block, c: nat, r: nat)
    requires c < 4 && r < 4
    ensures Mix(s)[4 * c + r] ==
            MixRow(s[4 * c + r], s[4 * c + Wrap(r + 1)], s[4 * c + Wrap(r + 2)], s[4 * c + Wrap(r + 3)])
  {
    hide MixRow;
    ColumnBelow(c, r, 1);
    ColumnBelow(c, r, 2);
    ColumnBelow(c, r, 3);
  }

  lemma InvMixAt(s: Block, c: nat, r: nat)
    requires c < 4 && r < 4
    ensures InvMix(s)[4 * c + r] ==
            InvMixRow(s[4 * c + r], s[4 * c + Wrap(r + 1)], s[4 * c + Wrap(r + 2)], s[4 * c + Wrap(r + 3)])
  {
    hide InvMixRow;
    ColumnBelow(c, r, 1);
    ColumnBelow(c, r, 2);
    ColumnBelow(c, r, 3);
  }

  lemma FourInARow<T>(s: seq<T>, j: nat, four: seq<T>)
    requires j + 4 <= |s| && |four| == 4
    requires s[j] == four[0] && s[j + 1] == four[1] && s[j + 2] == four[2] && s[j + 3] == four[3]
    ensures s[j..j + 4] == four
  {}

  lemma WrapValues()
    ensures Wrap(0) == 0 && Wrap(1) == 1 && Wrap(2) == 2 && Wrap(3) == 3
    ensures Wrap(4) == 0 && Wrap(5) == 1 && Wrap(6) == 2
  {}

  /** Mixing a state mixes each of its columns. */
  lemma MixRows(s: Block, i: nat)
    requires i < 4
    ensures var a, b, c, d, m := s[4 * i], s[4 * i + 1], s[4 * i + 2], s[4 * i + 3], Mix(s);
            && m[4 * i] == MixRow(a, b, c, d) && m[4 * i + 1] == MixRow(b, c, d, a)
            && m[4 * i + 2] == MixRow(c, d, a, b) && m[4 * i + 3] == MixRow(d, a, b, c)
  {
    hide MixRow, Mix, Wrap;
    WrapValues();
    MixAt(s, i, 0);
    MixAt(s, i, 1);
    MixAt(s, i, 2);
    MixAt(s, i, 3);
  }

  lemma MixByColumn(s: Block, i: nat)
    requires i < 4
    ensures Mix(s)[4 * i..4 * i + 4] == MixedColumn(s[4 * i], s[4 * i + 1], s[4 * i + 2], s[4 * i + 3])
  {
    hide MixRow, Mix;
    MixRows(s, i);
    FourInARow(Mix(s), 4 * i, MixedColumn(s[4 * i], s[4 * i + 1], s[4 * i + 2], s[4 * i + 3]));
  }

  lemma InvMixRows(s: Block, i: nat)
    requires i < 4
    ensures var a, b, c, d, m := s[4 * i], s[4 * i + 1], s[4 * i + 2], s[4 * i + 3], InvMix(s);
            && m[4 * i] == InvMixRow(a, b, c, d) && m[4 * i + 1] == InvMixRow(b, c, d, a)
            && m[4 * i + 2] == InvMixRow(c, d, a, b) && m[4 * i + 3] == InvMixRow(d, a, b, c)
  {
    hide InvMixRow, InvMix, Wrap;
    WrapValues();
    InvMixAt(s, i, 0);
    InvMixAt(s, i, 1);
    InvMixAt(s, i, 2);
    InvMixAt(s, i, 3);
  }

  lemma InvMixByColumn(s: Block, i: nat)
    requires i < 4
    ensures InvMix(s)[4 * i..4 * i + 4] == InvMixedColumn(s[4 * i], s[4 * i + 1], s[4 * i + 2], s[4 * i + 3])
  {
    hide InvMixRow, InvMix;
    InvMixRows(s, i);
    FourInARow(InvMix(s), 4 * i, InvMixedColumn(s[4 * i], s[4 * i + 1], s[4 * i + 2], s[4 * i + 3]));
  }

  /** One byte of a mixed column, from the sum of the column the code computes once. */
  method MixByte(own: bv8, next: bv8, tmp: bv8, ghost c: bv8, ghost d: bv8) returns (r: bv8)
    requires tmp == own ^ next ^ c ^ d
    ensures r == MixRow(own, next, c, d)
  {
    var tm := Xtime(own ^ next);
    r := own ^ (tm ^ tmp);
    MixRowAsCoded(own, next, c, d, tm);
  }

  /** The four bytes at index j, and nothing else, have been replaced. */
  ghost predicate ColumnReplaced(before: Bytes, after: Bytes, j: nat, column: Bytes)
    requires j + 4 <= |before|
  {
    && |after| == |before|
    && after[..j] == before[..j] && after[j + 4..] == before[j + 4..]
    && after[j..j + 4] == column
  }

  method MixFourBytes(t: bv8, t1: bv8, t2: bv8, t3: bv8) returns (r: bv8, r1: bv8, r2: bv8, r3: bv8)
    ensures r == MixRow(t, t1, t2, t3) && r1 == MixRow(t1, t2, t3, t)
    ensures r2 == MixRow(t2, t3, t, t1) && r3 == MixRow(t3, t, t1, t2)
  {
    hide MixRow;
    var tmp := t ^ t1 ^ t2 ^ t3;
    r := MixByte(t, t1, tmp, t2, t3);
    r1 := MixByte(t1, t2, tmp, t3, t);
    r2 := MixByte(t2, t3, tmp, t, t1);
    r3 := MixByte(t3, t, tmp, t1, t2);
  }

  method MixColumn(buf: array<bv8>, j: nat)
    requires j + 4 <= buf.Length
    modifies buf
    ensures ColumnReplaced(old(buf[..]), buf[..], j, old(MixedColumn(buf[j], buf[j + 1], buf[j + 2], buf[j + 3])))
  {
    hide MixRow;
    var r, r1, r2, r3 := MixFourBytes(buf[j], buf[j + 1], buf[j + 2], buf[j + 3]);
    buf[j] := r;
    buf[j + 1] := r1;
    buf[j + 2] := r2;
    buf[j + 3] := r3;
  }

  method InvMixColumn(buf: array<bv8>, j: nat)
    requires j + 4 <= buf.Length
    modifies buf
    ensures ColumnReplaced(old(buf[..]), buf[..], j, old(InvMixedColumn(buf[j], buf[j + 1], buf[j + 2], buf[j + 3])))
  {
    hide InvMixRow, Multiply;
    var a, b, c, d := buf[j], buf[j + 1], buf[j + 2], buf[j + 3];
    InvMixRowAsCoded(a, b, c, d);
    InvMixRowAsCoded(b, c, d, a);
    InvMixRowAsCoded(c, d, a, b);
    InvMixRowAsCoded(d, a, b, c);
    buf[j] := Multiply(a, 0x0e) ^ Multiply(b, 0x0b) ^ Multiply(c, 0x0d) ^ Multiply(d, 0x09);
    buf[j + 1] := Multiply(a, 0x09) ^ Multiply(b, 0x0e) ^ Multiply(c, 0x0b) ^ Multiply(d, 0x0d);
    buf[j + 2] := Multiply(a, 0x0d) ^ Multiply(b, 0x09) ^ Multiply(c, 0x0e) ^ Multiply(d, 0x0b);
    buf[j + 3] := Multiply(a, 0x0b) ^ Multiply(b, 0x0d) ^ Multiply(c, 0x09) ^ Multiply(d, 0x0e);
  }

  /** The first i columns of the block at offset o have been mixed. */
  ghost predicate MixedUpTo(all: Bytes, after: Bytes, o: nat, i: nat, mixed: Block)
    requires o + 16 <= |all| && i <= 4
  {
    && |after| == |all|
    && after[..o] == all[..o]
    && after[o..o + 4 * i] == mixed[..4 * i]
    && after[o + 4 * i..] == all[o + 4 * i..]
  }

  lemma OneMoreColumn(all: Bytes, before: Bytes, after: Bytes, o: nat, i: nat, mixed: Block)
    requires o + 16 <= |all| && i < 4
    requires MixedUpTo(all, before, o, i, mixed)
    requires ColumnReplaced(before, after, o + 4 * i, mixed[4 * i..4 * i + 4])
    ensures MixedUpTo(all, after, o, i + 1, mixed)
  {
    var j := o + 4 * i;
    assert after[..o] == after[..j][..o] && before[..o] == before[..j][..o];
    assert after[o..j] == after[..j][o..] && before[o..j] == before[..j][o..];
    assert after[o..j + 4] == after[o..j] + after[j..j + 4];
    assert mixed[..4 * i + 4] == mixed[..4 * i] + mixed[4 * i..4 * i + 4];
    assert before[j + 4..] == before[j..][4..] && all[j + 4..] == all[j..][4..];
  }

  lemma NextColumn(all: Bytes, before: Bytes, o: nat, i: nat, mixed: Block, r: nat)
    requires o + 16 <= |all| && i < 4 && r < 4
    requires MixedUpTo(all, before, o, i, mixed)
    ensures before[o + 4 * i + r] == BlockAt(all, o)[4 * i + r]
  {
    assert before[o + 4 * i..][r] == all[o + 4 * i..][r];
  }

  method MixColumns(buf: array<bv8>, o: nat)
    requires o + 16 <= buf.Length
    modifies buf
    ensures buf[..] == Spliced(old(buf[..]), o, Mix(BlockAt(old(buf[..]), o)))
  {
    hide MixedColumn, Mix;
    ghost var s := BlockAt(buf[..], o);
    ghost var mixed := Mix(s);
    for i := 0 to 4
      invariant MixedUpTo(old(buf[..]), buf[..], o, i, mixed)
    {
      ghost var before := buf[..];
      NextColumn(old(buf[..]), before, o, i, mixed, 0);
      NextColumn(old(buf[..]), before, o, i, mixed, 1);
      NextColumn(old(buf[..]), before, o, i, mixed, 2);
      NextColumn(old(buf[..]), before, o, i, mixed, 3);
      MixByColumn(s, i);
      MixColumn(buf, o + 4 * i);
      OneMoreColumn(old(buf[..]), before, buf[..], o, i, mixed);
    }
    SplicedBytes(old(buf[..]), buf[..], o, mixed);
  }

  method InvMixColumns(buf: array<bv8>, o: nat)
    requires o + 16 <= buf.Length
    modifies buf
    ensures buf[..] == Spliced(old(buf[..]), o, InvMix(BlockAt(old(buf[..]), o)))
  {
    hide InvMixedColumn, InvMix;
    ghost var s := BlockAt(buf[..], o);
    ghost var mixed := InvMix(s);
    for i := 0 to 4
      invariant MixedUpTo(old(buf[..]), buf[..], o, i, mixed)
    {
      ghost var before := buf[..];
      NextColumn(old(buf[..]), before, o, i, mixed, 0);
      NextColumn(old(buf[..]), before, o, i, mixed, 1);
      NextColumn(old(buf[..]), before, o, i, mixed, 2);
      NextColumn(old(buf[..]), before, o, i, mixed, 3);
      InvMixByColumn(s, i);
      InvMixColumn(buf, o + 4 * i);
      OneMoreColumn(old(buf[..]), before, buf[..], o, i, mixed);
    }
    SplicedBytes(old(buf[..]), buf[..], o, mixed);
  }

  /** Encrypts the block at offset o. The loop counts rounds 1 to 10 and leaves before the last mixing. */
  method CipherInPlace(buf: array<bv8>, o: nat, w: RoundKeys)
    requires o + 16 <= buf.Length
    modifies buf
    ensures buf[..] == Spliced(old(buf[..]), o, Cipher(BlockAt(old(buf[..]), o), w))
  {
    hide Sub, Shift, Mix, AddKey;
    ghost var all, s := buf[..], BlockAt(buf[..], o);
    AddRoundKey(0, buf, o, w);
    var round := 1;
    while true
      invariant 1 <= round <= ROUNDS
      invariant buf[..] == Spliced(all, o, RoundState(s, w, round - 1))
      decreases ROUNDS - round
    {
      ghost var st := RoundState(s, w, round - 1);
      SplicedTwice(all, o, st, Sub(st));
      SubBytes(buf, o);
      SplicedTwice(all, o, Sub(st), Shift(Sub(st)));
      ShiftRows(buf, o);
      if round == ROUNDS {
        break;
      }
      SplicedTwice(all, o, Shift(Sub(st)), Mix(Shift(Sub(st))));
      MixColumns(buf, o);
      SplicedTwice(all, o, Mix(Shift(Sub(st))), RoundState(s, w, round));
      AddRoundKey(round, buf, o, w);
      round := round + 1;
    }
    SplicedTwice(all, o, Shift(Sub(RoundState(s, w, ROUNDS - 1))), Cipher(s, w));
    AddRoundKey(ROUNDS, buf, o, w);
  }

  /** Decrypts the block at offset o. The loop counts rounds 9 down to 0 and leaves before the last mixing. */
  method InvCipherInPlace(buf: array<bv8>, o: nat, w: RoundKeys)
    requires o + 16 <= buf.Length
    modifies buf
    ensures buf[..] == Spliced(old(buf[..]), o, InvCipher(BlockAt(old(buf[..]), o), w))
  {
    hide InvSub, InvShift, InvMix, AddKey;
    ghost var all, s := buf[..], BlockAt(buf[..], o);
    AddRoundKey(ROUNDS, buf, o, w);
    var round := ROUNDS - 1;
    while true
      invariant 0 <= round < ROUNDS
      invariant buf[..] == Spliced(all, o, InvRoundState(s, w, round + 1))
      decreases round
    {
      ghost var st := InvRoundState(s, w, round + 1);
      SplicedTwice(all, o, st, InvShift(st));
      InvShiftRows(buf, o);
      SplicedTwice(all, o, InvShift(st), InvSub(InvShift(st)));
      InvSubBytes(buf, o);
      SplicedTwice(all, o, InvSub(InvShift(st)), AddKey(InvSub(InvShift(st)), w, round));
      AddRoundKey(round, buf, o, w);
      if round == 0 {
        break;
      }
      SplicedTwice(all, o, AddKey(InvSub(InvShift(st)), w, round), InvRoundState(s, w, round));
      InvMixColumns(buf, o);
      round := round - 1;
    }
  }

  lemma ScheduleByWord(key: Key, i: nat, r: nat)
    requires i < 44 && r < 4
    ensures KeySchedule(key)[4 * i + r] == ScheduleWord(key, i)[r]
  {
    assert (4 * i + r) / 4 == i && (4 * i + r) % 4 == r;
  }

  /** The word a new schedule word is formed from, besides the word four places earlier. */
  function ScheduleTemp(key: Key, i: nat): Word
    requires 4 <= i < 44
  {
    var prev := ScheduleWord(key, i - 1);
    if i % 4 == 0 then XorWord(SubWord(RotWord(prev)), [Rcon(i / 4), 0, 0, 0]) else prev
  }

  lemma ScheduleStep(key: Key, i: nat)
    requires 4 <= i < 44
    ensures ScheduleWord(key, i) == XorWord(ScheduleWord(key, i - 4), ScheduleTemp(key, i))
  {}

  lemma ScheduleByWords(key: Key, i: nat)
    requires i < 44
    ensures var w, s := ScheduleWord(key, i), KeySchedule(key);
            s[4 * i] == w[0] && s[4 * i + 1] == w[1] && s[4 * i + 2] == w[2] && s[4 * i + 3] == w[3]
  {
    hide ScheduleWord, KeySchedule;
    ScheduleByWord(key, i, 0);
    ScheduleByWord(key, i, 1);
    ScheduleByWord(key, i, 2);
    ScheduleByWord(key, i, 3);
  }

  lemma XorZeros(w: Word, c: bv8)
    ensures XorWord(w, [c, 0, 0, 0]) == w[0 := w[0] ^ c]
  {}

  lemma ScheduleSlice(key: Key, i: nat)
    requires i < 44
    ensures KeySchedule(key)[4 * i..4 * i + 4] == ScheduleWord(key, i)
  {
    hide ScheduleWord, KeySchedule;
    ScheduleByWords(key, i);
    FourInARow(KeySchedule(key), 4 * i, ScheduleWord(key, i));
  }

  /** Four bytes written at index j. */
  method PutFour(buf: array<bv8>, j: nat, a: bv8, b: bv8, c: bv8, d: bv8)
    requires j + 4 <= buf.Length
    modifies buf
    ensures ColumnReplaced(old(buf[..]), buf[..], j, [a, b, c, d])
  {
    buf[j + 0] := a;
    buf[j + 1] := b;
    buf[j + 2] := c;
    buf[j + 3] := d;
  }

  lemma OneMoreWord(before: Bytes, after: Bytes, j: nat, word: Bytes, all: Bytes)
    requires j + 4 <= |before| && j + 4 <= |all|
    requires before[..j] == all[..j] && all[j..j + 4] == word
    requires ColumnReplaced(before, after, j, word)
    ensures after[..j + 4] == all[..j + 4]
  {
    assert after[..j + 4] == after[..j] + after[j..j + 4];
    assert all[..j + 4] == all[..j] + all[j..j + 4];
  }

  /** The first round key is the key itself. */
  method CopyKey(roundKey: array<bv8>, key: Key)
    requires roundKey.Length == 176
    modifies roundKey
    ensures roundKey[..16] == KeySchedule(key)[..16]
  {
    hide KeySchedule, ColumnReplaced;
    var i := 0;
    while i < 4
      invariant 0 <= i <= 4
      invariant roundKey[..4 * i] == KeySchedule(key)[..4 * i]
    {
      ghost var before := roundKey[..];
      ScheduleSlice(key, i);
      FourInARow(key, 4 * i, [key[i * 4], key[i * 4 + 1], key[i * 4 + 2], key[i * 4 + 3]]);
      PutFour(roundKey, i * 4, key[i * 4 + 0], key[i * 4 + 1], key[i * 4 + 2], key[i * 4 + 3]);
      OneMoreWord(before, roundKey[..], 4 * i, ScheduleWord(key, i), KeySchedule(key));
      i := i + 1;
    }
  }

  /** Word i of what has been expanded so far. */
  method ReadWord(roundKey: array<bv8>, ghost key: Key, i: nat, ghost n: nat) returns (w: Word)
    requires i < n <= 44 && roundKey.Length == 176
    requires roundKey[..4 * n] == KeySchedule(key)[..4 * n]
    ensures w == ScheduleWord(key, i)
  {
    hide ScheduleWord, KeySchedule;
    w := roundKey[4 * i..4 * i + 4];
    assert w == roundKey[..4 * n][4 * i..4 * i + 4];
    ScheduleSlice(key, i);
    assert KeySchedule(key)[4 * i..4 * i + 4] == KeySchedule(key)[..4 * n][4 * i..4 * i + 4];
  }

  /** The word before word i, rotated, substituted and given its round constant when i is a multiple of 4. */
  method TempWord(prev: Word, ghost key: Key, i: nat) returns (tempa: Word)
    requires 4 <= i < 44
    requires prev == ScheduleWord(key, i - 1)
    ensures tempa == ScheduleTemp(key, i)
  {
    hide ScheduleWord, XorWord, SubWord, RotWord, Rcon;
    tempa := prev;
    if i % 4 == 0 {
      tempa := RotWord(tempa);
      tempa := SubWord(tempa);
      XorZeros(tempa, Rcon(i / 4));
      tempa := tempa[0 := tempa[0] ^ Rcon(i / 4)];
    }
  }

  /** Fills the 176 bytes of round keys, first with the key itself and then word by word. */
  method KeyExpansion(roundKey: array<bv8>, key: Key)
    requires roundKey.Length == 176
    modifies roundKey
    ensures roundKey[..] == KeySchedule(key)
  {
    hide KeySchedule, ScheduleTemp, ScheduleWord, ColumnReplaced;
    CopyKey(roundKey, key);
    var i := 4;
    while i < 44
      invariant 4 <= i <= 44
      invariant roundKey[..4 * i] == KeySchedule(key)[..4 * i]
    {
      ghost var before := roundKey[..];
      var prev := ReadWord(roundKey, key, i - 1, i);
      var tempa := TempWord(prev, key, i);
      var k := ReadWord(roundKey, key, i - 4, i);
      ScheduleStep(key, i);
      ScheduleSlice(key, i);
      PutFour(roundKey, i * 4, k[0] ^ tempa[0], k[1] ^ tempa[1], k[2] ^ tempa[2], k[3] ^ tempa[3]);
      OneMoreWord(before, roundKey[..], 4 * i, XorWord(k, tempa), KeySchedule(key));
      i := i + 1;
    }
    assert roundKey[..] == roundKey[..176] && KeySchedule(key) == KeySchedule(key)[..176];
  }
}
