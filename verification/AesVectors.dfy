/** The cipher on the example of FIPS 197: the round keys of appendix A.1 and the ciphertext of appendix B. */
module AesVectors {
  import opened AesTables
  import opened Aes
  import opened AesCode

  const EXAMPLE_KEY: Key :=
    [0x2b, 0x7e, 0x15, 0x16, 0x28, 0xae, 0xd2, 0xa6, 0xab, 0xf7, 0x15, 0x88, 0x09, 0xcf, 0x4f, 0x3c]
  const EXAMPLE_INPUT: Block :=
    [0x32, 0x43, 0xf6, 0xa8, 0x88, 0x5a, 0x30, 0x8d, 0x31, 0x31, 0x98, 0xa2, 0xe0, 0x37, 0x07, 0x34]

  // ---- The key schedule, byte by byte.

  /** Every byte of the round keys, byte j of word i: the first 16 are the key; the first word of each later round key
      takes the word before it rotated, substituted and with a round constant, the other words take it as it is. */
  lemma ScheduleBytes(key: Key, i: nat)
    requires i < 44
    ensures var w, j := KeySchedule(key), 4 * i;
            && (i < 4 ==> w[j] == key[j] && w[j + 1] == key[j + 1] && w[j + 2] == key[j + 2] && w[j + 3] == key[j + 3])
            && (i >= 4 && i % 4 != 0 ==>
                && w[j] == Add(w[j - 16], w[j - 4]) && w[j + 1] == Add(w[j - 15], w[j - 3])
                && w[j + 2] == Add(w[j - 14], w[j - 2]) && w[j + 3] == Add(w[j - 13], w[j - 1]))
            && (i >= 4 && i % 4 == 0 ==>
                && w[j] == Add(Add(w[j - 16], SubByte(w[j - 3])), RoundConstant(i / 4))
                && w[j + 1] == Add(w[j - 15], SubByte(w[j - 2]))
                && w[j + 2] == Add(w[j - 14], SubByte(w[j - 1]))
                && w[j + 3] == Add(w[j - 13], SubByte(w[j - 4])))
  {
    hide SubByte, KeySchedule, Add, ScheduleWord, XorWord, SubWord, RotWord, Rcon, RoundConstant;
    ScheduleByWords(key, i);
    if i < 4 {
      FirstWord(key, i);
    } else {
      ScheduleByWords(key, i - 4);
      ScheduleByWords(key, i - 1);
      ScheduleStep(key, i);
      if i % 4 == 0 {
        RconLiteral(i / 4);
        RotatedWord(ScheduleWord(key, i - 4), ScheduleWord(key, i - 1), Rcon(i / 4));
      } else {
        AddedWord(ScheduleWord(key, i - 4), ScheduleWord(key, i - 1));
      }
    }
  }

  /** The first bytes of the words Rcon[i] of section 5.2. */
  function RoundConstant(i: nat): bv8
    requires 1 <= i <= 10
  {
    [0x01, 0x02, 0x04, 0x08, 0x10, 0x20, 0x40, 0x80, 0x1b, 0x36][i - 1]
  }

  lemma RconLiteral(i: nat)
    requires 1 <= i <= 10
    ensures Rcon(i) == RoundConstant(i)
  {}

  lemma FirstWord(key: Key, i: nat)
    requires i < 4
    ensures var w := ScheduleWord(key, i);
            w[0] == key[4 * i] && w[1] == key[4 * i + 1] && w[2] == key[4 * i + 2] && w[3] == key[4 * i + 3]
  {}

  lemma AddedWord(x: Word, y: Word)
    ensures var z := XorWord(x, y);
            z[0] == Add(x[0], y[0]) && z[1] == Add(x[1], y[1]) && z[2] == Add(x[2], y[2]) && z[3] == Add(x[3], y[3])
  {}

  lemma RotatedWord(x: Word, y: Word, c: bv8)
    ensures var z := XorWord(x, XorWord(SubWord(RotWord(y)), [c, 0, 0, 0]));
            && z[0] == Add(Add(x[0], SubByte(y[1])), c) && z[1] == Add(x[1], SubByte(y[2]))
            && z[2] == Add(x[2], SubByte(y[3])) && z[3] == Add(x[3], SubByte(y[0]))
  {
    hide SubByte, XorWord, Add;
    var u := SubWord(RotWord(y));
    var v: Word := [c, 0, 0, 0];
    AddedWord(u, v);
    AddedWord(x, XorWord(u, v));
    AddAssoc(x[0], u[0], c);
    AddNothing(u[1]);
    AddNothing(u[2]);
    AddNothing(u[3]);
  }

  lemma AddNothing(x: bv8)
    ensures Add(x, 0) == x
  {}

  // ---- The round keys of the example.

  lemma Words0()
    ensures ScheduleWord(EXAMPLE_KEY, 0) == [0x2b, 0x7e, 0x15, 0x16]
    ensures ScheduleWord(EXAMPLE_KEY, 1) == [0x28, 0xae, 0xd2, 0xa6]
    ensures ScheduleWord(EXAMPLE_KEY, 2) == [0xab, 0xf7, 0x15, 0x88]
    ensures ScheduleWord(EXAMPLE_KEY, 3) == [0x09, 0xcf, 0x4f, 0x3c]
  {}

  lemma Words1()
    ensures ScheduleWord(EXAMPLE_KEY, 4) == [0xa0, 0xfa, 0xfe, 0x17]
    ensures ScheduleWord(EXAMPLE_KEY, 5) == [0x88, 0x54, 0x2c, 0xb1]
    ensures ScheduleWord(EXAMPLE_KEY, 6) == [0x23, 0xa3, 0x39, 0x39]
    ensures ScheduleWord(EXAMPLE_KEY, 7) == [0x2a, 0x6c, 0x76, 0x05]
  {
    hide ScheduleWord;
    Words0();
    ScheduleStep(EXAMPLE_KEY, 4);
    ScheduleStep(EXAMPLE_KEY, 5);
    ScheduleStep(EXAMPLE_KEY, 6);
    ScheduleStep(EXAMPLE_KEY, 7);
  }

  lemma Words2()
    ensures ScheduleWord(EXAMPLE_KEY, 8) == [0xf2, 0xc2, 0x95, 0xf2]
    ensures ScheduleWord(EXAMPLE_KEY, 9) == [0x7a, 0x96, 0xb9, 0x43]
    ensures ScheduleWord(EXAMPLE_KEY, 10) == [0x59, 0x35, 0x80, 0x7a]
    ensures ScheduleWord(EXAMPLE_KEY, 11) == [0x73, 0x59, 0xf6, 0x7f]
  {
    hide ScheduleWord;
    Words1();
    ScheduleStep(EXAMPLE_KEY, 8);
    ScheduleStep(EXAMPLE_KEY, 9);
    ScheduleStep(EXAMPLE_KEY, 10);
    ScheduleStep(EXAMPLE_KEY, 11);
  }

  lemma Words3()
    ensures ScheduleWord(EXAMPLE_KEY, 12) == [0x3d, 0x80, 0x47, 0x7d]
    ensures ScheduleWord(EXAMPLE_KEY, 13) == [0x47, 0x16, 0xfe, 0x3e]
    ensures ScheduleWord(EXAMPLE_KEY, 14) == [0x1e, 0x23, 0x7e, 0x44]
    ensures ScheduleWord(EXAMPLE_KEY, 15) == [0x6d, 0x7a, 0x88, 0x3b]
  {
    hide ScheduleWord;
    Words2();
    ScheduleStep(EXAMPLE_KEY, 12);
    ScheduleStep(EXAMPLE_KEY, 13);
    ScheduleStep(EXAMPLE_KEY, 14);
    ScheduleStep(EXAMPLE_KEY, 15);
  }

  lemma Words4()
    ensures ScheduleWord(EXAMPLE_KEY, 16) == [0xef, 0x44, 0xa5, 0x41]
    ensures ScheduleWord(EXAMPLE_KEY, 17) == [0xa8, 0x52, 0x5b, 0x7f]
    ensures ScheduleWord(EXAMPLE_KEY, 18) == [0xb6, 0x71, 0x25, 0x3b]
    ensures ScheduleWord(EXAMPLE_KEY, 19) == [0xdb, 0x0b, 0xad, 0x00]
  {
    hide ScheduleWord;
    Words3();
    ScheduleStep(EXAMPLE_KEY, 16);
    ScheduleStep(EXAMPLE_KEY, 17);
    ScheduleStep(EXAMPLE_KEY, 18);
    ScheduleStep(EXAMPLE_KEY, 19);
  }

  lemma Words5()
    ensures ScheduleWord(EXAMPLE_KEY, 20) == [0xd4, 0xd1, 0xc6, 0xf8]
    ensures ScheduleWord(EXAMPLE_KEY, 21) == [0x7c, 0x83, 0x9d, 0x87]
    ensures ScheduleWord(EXAMPLE_KEY, 22) == [0xca, 0xf2, 0xb8, 0xbc]
    ensures ScheduleWord(EXAMPLE_KEY, 23) == [0x11, 0xf9, 0x15, 0xbc]
  {
    hide ScheduleWord;
    Words4();
    ScheduleStep(EXAMPLE_KEY, 20);
    ScheduleStep(EXAMPLE_KEY, 21);
    ScheduleStep(EXAMPLE_KEY, 22);
    ScheduleStep(EXAMPLE_KEY, 23);
  }

  lemma Words6()
    ensures ScheduleWord(EXAMPLE_KEY, 24) == [0x6d, 0x88, 0xa3, 0x7a]
    ensures ScheduleWord(EXAMPLE_KEY, 25) == [0x11, 0x0b, 0x3e, 0xfd]
    ensures ScheduleWord(EXAMPLE_KEY, 26) == [0xdb, 0xf9, 0x86, 0x41]
    ensures ScheduleWord(EXAMPLE_KEY, 27) == [0xca, 0x00, 0x93, 0xfd]
  {
    hide ScheduleWord;
    Words5();
    ScheduleStep(EXAMPLE_KEY, 24);
    ScheduleStep(EXAMPLE_KEY, 25);
    ScheduleStep(EXAMPLE_KEY, 26);
    ScheduleStep(EXAMPLE_KEY, 27);
  }

  lemma Words7()
    ensures ScheduleWord(EXAMPLE_KEY, 28) == [0x4e, 0x54, 0xf7, 0x0e]
    ensures ScheduleWord(EXAMPLE_KEY, 29) == [0x5f, 0x5f, 0xc9, 0xf3]
    ensures ScheduleWord(EXAMPLE_KEY, 30) == [0x84, 0xa6, 0x4f, 0xb2]
    ensures ScheduleWord(EXAMPLE_KEY, 31) == [0x4e, 0xa6, 0xdc, 0x4f]
  {
    hide ScheduleWord;
    Words6();
    ScheduleStep(EXAMPLE_KEY, 28);
    ScheduleStep(EXAMPLE_KEY, 29);
    ScheduleStep(EXAMPLE_KEY, 30);
    ScheduleStep(EXAMPLE_KEY, 31);
  }

  lemma Words8()
    ensures ScheduleWord(EXAMPLE_KEY, 32) == [0xea, 0xd2, 0x73, 0x21]
    ensures ScheduleWord(EXAMPLE_KEY, 33) == [0xb5, 0x8d, 0xba, 0xd2]
    ensures ScheduleWord(EXAMPLE_KEY, 34) == [0x31, 0x2b, 0xf5, 0x60]
    ensures ScheduleWord(EXAMPLE_KEY, 35) == [0x7f, 0x8d, 0x29, 0x2f]
  {
    hide ScheduleWord;
    Words7();
    ScheduleStep(EXAMPLE_KEY, 32);
    ScheduleStep(EXAMPLE_KEY, 33);
    ScheduleStep(EXAMPLE_KEY, 34);
    ScheduleStep(EXAMPLE_KEY, 35);
  }

  lemma Words9()
    ensures ScheduleWord(EXAMPLE_KEY, 36) == [0xac, 0x77, 0x66, 0xf3]
    ensures ScheduleWord(EXAMPLE_KEY, 37) == [0x19, 0xfa, 0xdc, 0x21]
    ensures ScheduleWord(EXAMPLE_KEY, 38) == [0x28, 0xd1, 0x29, 0x41]
    ensures ScheduleWord(EXAMPLE_KEY, 39) == [0x57, 0x5c, 0x00, 0x6e]
  {
    hide ScheduleWord;
    Words8();
    ScheduleStep(EXAMPLE_KEY, 36);
    ScheduleStep(EXAMPLE_KEY, 37);
    ScheduleStep(EXAMPLE_KEY, 38);
    ScheduleStep(EXAMPLE_KEY, 39);
  }

  lemma Words10()
    ensures ScheduleWord(EXAMPLE_KEY, 40) == [0xd0, 0x14, 0xf9, 0xa8]
    ensures ScheduleWord(EXAMPLE_KEY, 41) == [0xc9, 0xee, 0x25, 0x89]
    ensures ScheduleWord(EXAMPLE_KEY, 42) == [0xe1, 0x3f, 0x0c, 0xc8]
    ensures ScheduleWord(EXAMPLE_KEY, 43) == [0xb6, 0x63, 0x0c, 0xa6]
  {
    hide ScheduleWord;
    Words9();
    ScheduleStep(EXAMPLE_KEY, 40);
    ScheduleStep(EXAMPLE_KEY, 41);
    ScheduleStep(EXAMPLE_KEY, 42);
    ScheduleStep(EXAMPLE_KEY, 43);
  }

  // ---- The states of the example.

  /** A column after substitution, row shift and mixing. */
  function RoundColumn(a: bv8, b: bv8, c: bv8, d: bv8): Bytes {
    MixedColumn(SubByte(a), SubByte(b), SubByte(c), SubByte(d))
  }

  lemma RoundColumns(s: Block)
    ensures var x := Mix(Shift(Sub(s)));
            && x[0..4] == RoundColumn(s[0], s[5], s[10], s[15]) && x[4..8] == RoundColumn(s[4], s[9], s[14], s[3])
            && x[8..12] == RoundColumn(s[8], s[13], s[2], s[7]) && x[12..16] == RoundColumn(s[12], s[1], s[6], s[11])
  {
    hide SubByte, MixedColumn, Mix, Shift, Sub;
    var x := Shift(Sub(s));
    ShiftedColumn(s, 0);
    ShiftedColumn(s, 1);
    ShiftedColumn(s, 2);
    ShiftedColumn(s, 3);
    MixByColumn(x, 0);
    MixByColumn(x, 1);
    MixByColumn(x, 2);
    MixByColumn(x, 3);
  }

  lemma ShiftedAt(s: Block, k: nat, i: nat)
    requires k < 16 && i == ShiftSource(k)
    ensures Shift(Sub(s))[k] == SubByte(s[i])
  {
    hide SubByte;
  }

  /** The row shift takes the columns of the next state from the diagonals. */
  lemma ShiftedColumn(s: Block, c: nat)
    requires c < 4
    ensures var x := Shift(Sub(s));
            && x[4 * c] == SubByte(s[4 * c]) && x[4 * c + 1] == SubByte(s[(4 * c + 5) % 16])
            && x[4 * c + 2] == SubByte(s[(4 * c + 10) % 16]) && x[4 * c + 3] == SubByte(s[(4 * c + 15) % 16])
  {
    hide SubByte, Shift, Sub;
    Sources(c);
    ShiftedAt(s, 4 * c, 4 * c);
    ShiftedAt(s, 4 * c + 1, (4 * c + 5) % 16);
    ShiftedAt(s, 4 * c + 2, (4 * c + 10) % 16);
    ShiftedAt(s, 4 * c + 3, (4 * c + 15) % 16);
  }

  lemma Sources(c: nat)
    requires c < 4
    ensures ShiftSource(4 * c) == 4 * c && ShiftSource(4 * c + 1) == (4 * c + 5) % 16
    ensures ShiftSource(4 * c + 2) == (4 * c + 10) % 16 && ShiftSource(4 * c + 3) == (4 * c + 15) % 16
  {
    match c
    case 0 =>
    case 1 =>
    case 2 =>
    case _ =>
  }

  const STATE0: Block :=
    [0x19, 0x3d, 0xe3, 0xbe, 0xa0, 0xf4, 0xe2, 0x2b, 0x9a, 0xc6, 0x8d, 0x2a, 0xe9, 0xf8, 0x48, 0x08]
  const STATE1: Block :=
    [0xa4, 0x9c, 0x7f, 0xf2, 0x68, 0x9f, 0x35, 0x2b, 0x6b, 0x5b, 0xea, 0x43, 0x02, 0x6a, 0x50, 0x49]
  const STATE2: Block :=
    [0xaa, 0x8f, 0x5f, 0x03, 0x61, 0xdd, 0xe3, 0xef, 0x82, 0xd2, 0x4a, 0xd2, 0x68, 0x32, 0x46, 0x9a]
  const STATE3: Block :=
    [0x48, 0x6c, 0x4e, 0xee, 0x67, 0x1d, 0x9d, 0x0d, 0x4d, 0xe3, 0xb1, 0x38, 0xd6, 0x5f, 0x58, 0xe7]
  const STATE4: Block :=
    [0xe0, 0x92, 0x7f, 0xe8, 0xc8, 0x63, 0x63, 0xc0, 0xd9, 0xb1, 0x35, 0x50, 0x85, 0xb8, 0xbe, 0x01]
  const STATE5: Block :=
    [0xf1, 0x00, 0x6f, 0x55, 0xc1, 0x92, 0x4c, 0xef, 0x7c, 0xc8, 0x8b, 0x32, 0x5d, 0xb5, 0xd5, 0x0c]
  const STATE6: Block :=
    [0x26, 0x0e, 0x2e, 0x17, 0x3d, 0x41, 0xb7, 0x7d, 0xe8, 0x64, 0x72, 0xa9, 0xfd, 0xd2, 0x8b, 0x25]
  const STATE7: Block :=
    [0x5a, 0x41, 0x42, 0xb1, 0x19, 0x49, 0xdc, 0x1f, 0xa3, 0xe0, 0x19, 0x65, 0x7a, 0x8c, 0x04, 0x0c]
  const STATE8: Block :=
    [0xea, 0x83, 0x5c, 0xf0, 0x04, 0x45, 0x33, 0x2d, 0x65, 0x5d, 0x98, 0xad, 0x85, 0x96, 0xb0, 0xc5]
  const STATE9: Block :=
    [0xeb, 0x40, 0xf2, 0x1e, 0x59, 0x2e, 0x38, 0x84, 0x8b, 0xa1, 0x13, 0xe7, 0x1b, 0xc3, 0x42, 0xd2]
  const STATE10: Block :=
    [0x39, 0x25, 0x84, 0x1d, 0x02, 0xdc, 0x09, 0xfb, 0xdc, 0x11, 0x85, 0x97, 0x19, 0x6a, 0x0b, 0x32]

  const MIXED1: Block :=
    [0x04, 0x66, 0x81, 0xe5, 0xe0, 0xcb, 0x19, 0x9a, 0x48, 0xf8, 0xd3, 0x7a, 0x28, 0x06, 0x26, 0x4c]
  const MIXED2: Block :=
    [0x58, 0x4d, 0xca, 0xf1, 0x1b, 0x4b, 0x5a, 0xac, 0xdb, 0xe7, 0xca, 0xa8, 0x1b, 0x6b, 0xb0, 0xe5]
  const MIXED3: Block :=
    [0x75, 0xec, 0x09, 0x93, 0x20, 0x0b, 0x63, 0x33, 0x53, 0xc0, 0xcf, 0x7c, 0xbb, 0x25, 0xd0, 0xdc]
  const MIXED4: Block :=
    [0x0f, 0xd6, 0xda, 0xa9, 0x60, 0x31, 0x38, 0xbf, 0x6f, 0xc0, 0x10, 0x6b, 0x5e, 0xb3, 0x13, 0x01]
  const MIXED5: Block :=
    [0x25, 0xd1, 0xa9, 0xad, 0xbd, 0x11, 0xd1, 0x68, 0xb6, 0x3a, 0x33, 0x8e, 0x4c, 0x4c, 0xc0, 0xb0]
  const MIXED6: Block :=
    [0x4b, 0x86, 0x8d, 0x6d, 0x2c, 0x4a, 0x89, 0x80, 0x33, 0x9d, 0xf4, 0xe8, 0x37, 0xd2, 0x18, 0xd8]
  const MIXED7: Block :=
    [0x14, 0x15, 0xb5, 0xbf, 0x46, 0x16, 0x15, 0xec, 0x27, 0x46, 0x56, 0xd7, 0x34, 0x2a, 0xd8, 0x43]
  const MIXED8: Block :=
    [0x00, 0x51, 0x2f, 0xd1, 0xb1, 0xc8, 0x89, 0xff, 0x54, 0x76, 0x6d, 0xcd, 0xfa, 0x1b, 0x99, 0xea]
  const MIXED9: Block :=
    [0x47, 0x37, 0x94, 0xed, 0x40, 0xd4, 0xe4, 0xa5, 0xa3, 0x70, 0x3a, 0xa6, 0x4c, 0x9f, 0x42, 0xbc]
  const MIXED10: Block :=
    [0xe9, 0x31, 0x7d, 0xb5, 0xcb, 0x32, 0x2c, 0x72, 0x3d, 0x2e, 0x89, 0x5f, 0xaf, 0x09, 0x07, 0x94]

  /** A block from four columns plus a round key of four words. */
  function Sum(a: Word, b: Word, c: Word, d: Word, k: Word, l: Word, m: Word, n: Word): Block {
    XorWord(a, k) + XorWord(b, l) + XorWord(c, m) + XorWord(d, n)
  }

  lemma KeyAdded(x: Block, r: nat)
    requires r <= 10
    ensures AddKey(x, KeySchedule(EXAMPLE_KEY), r) ==
            Sum(x[0..4], x[4..8], x[8..12], x[12..16],
                ScheduleWord(EXAMPLE_KEY, 4 * r), ScheduleWord(EXAMPLE_KEY, 4 * r + 1),
                ScheduleWord(EXAMPLE_KEY, 4 * r + 2), ScheduleWord(EXAMPLE_KEY, 4 * r + 3))
  {
    hide ScheduleWord, KeySchedule, XorWord, AddKey;
    ColumnAdded(x, r, 0);
    ColumnAdded(x, r, 1);
    ColumnAdded(x, r, 2);
    ColumnAdded(x, r, 3);
    var y := AddKey(x, KeySchedule(EXAMPLE_KEY), r);
    Joined(y, y[0..4], y[4..8], y[8..12], y[12..16]);
  }

  lemma ColumnAdded(x: Block, r: nat, c: nat)
    requires r <= 10 && c < 4
    ensures AddKey(x, KeySchedule(EXAMPLE_KEY), r)[4 * c..4 * c + 4] ==
            XorWord(x[4 * c..4 * c + 4], ScheduleWord(EXAMPLE_KEY, 4 * r + c))
  {
    hide ScheduleWord, KeySchedule, AddKey, XorWord, Add;
    var i := 4 * c;
    var word, y := ScheduleWord(EXAMPLE_KEY, 4 * r + c), AddKey(x, KeySchedule(EXAMPLE_KEY), r);
    ScheduleByWords(EXAMPLE_KEY, 4 * r + c);
    AddedWord(x[i..i + 4], word);
    KeyAddedAt(x, KeySchedule(EXAMPLE_KEY), r, i);
    KeyAddedAt(x, KeySchedule(EXAMPLE_KEY), r, i + 1);
    KeyAddedAt(x, KeySchedule(EXAMPLE_KEY), r, i + 2);
    KeyAddedAt(x, KeySchedule(EXAMPLE_KEY), r, i + 3);
    FourInARow(y, i, XorWord(x[i..i + 4], word));
  }

  lemma KeyAddedAt(x: Block, w: RoundKeys, r: nat, k: nat)
    requires r <= 10 && k < 16
    ensures AddKey(x, w, r)[k] == Add(x[k], w[16 * r + k])
  {}

  /** A block is known by its four columns. */
  lemma Joined(x: Block, a: Bytes, b: Bytes, c: Bytes, d: Bytes)
    requires x[0..4] == a && x[4..8] == b && x[8..12] == c && x[12..16] == d
    ensures x == a + b + c + d
  {
    assert x == x[0..4] + x[4..8] + x[8..12] + x[12..16];
  }

  lemma Columns0Of()
    ensures EXAMPLE_INPUT[0..4] == [0x32, 0x43, 0xf6, 0xa8] && EXAMPLE_INPUT[4..8] == [0x88, 0x5a, 0x30, 0x8d]
    ensures EXAMPLE_INPUT[8..12] == [0x31, 0x31, 0x98, 0xa2] && EXAMPLE_INPUT[12..16] == [0xe0, 0x37, 0x07, 0x34]
  {}

  lemma Sum0()
    ensures Sum([0x32, 0x43, 0xf6, 0xa8], [0x88, 0x5a, 0x30, 0x8d],
                [0x31, 0x31, 0x98, 0xa2], [0xe0, 0x37, 0x07, 0x34],
                [0x2b, 0x7e, 0x15, 0x16], [0x28, 0xae, 0xd2, 0xa6],
                [0xab, 0xf7, 0x15, 0x88], [0x09, 0xcf, 0x4f, 0x3c]) == STATE0
  {}

  lemma Keyed0()
    ensures AddKey(EXAMPLE_INPUT, KeySchedule(EXAMPLE_KEY), 0) == STATE0
  {
    hide AddKey, KeySchedule, ScheduleWord, Sum, EXAMPLE_INPUT, STATE0;
    KeyAdded(EXAMPLE_INPUT, 0);
    Words0();
    Columns0Of();
    Sum0();
  }

  lemma Columns1Of()
    ensures MIXED1[0..4] == [0x04, 0x66, 0x81, 0xe5] && MIXED1[4..8] == [0xe0, 0xcb, 0x19, 0x9a]
    ensures MIXED1[8..12] == [0x48, 0xf8, 0xd3, 0x7a] && MIXED1[12..16] == [0x28, 0x06, 0x26, 0x4c]
  {}

  lemma Sum1()
    ensures Sum([0x04, 0x66, 0x81, 0xe5], [0xe0, 0xcb, 0x19, 0x9a],
                [0x48, 0xf8, 0xd3, 0x7a], [0x28, 0x06, 0x26, 0x4c],
                [0xa0, 0xfa, 0xfe, 0x17], [0x88, 0x54, 0x2c, 0xb1],
                [0x23, 0xa3, 0x39, 0x39], [0x2a, 0x6c, 0x76, 0x05]) == STATE1
  {}

  lemma Keyed1()
    ensures AddKey(MIXED1, KeySchedule(EXAMPLE_KEY), 1) == STATE1
  {
    hide AddKey, KeySchedule, ScheduleWord, Sum, EXAMPLE_INPUT, STATE1, MIXED1;
    KeyAdded(MIXED1, 1);
    Words1();
    Columns1Of();
    Sum1();
  }

  lemma Columns2Of()
    ensures MIXED2[0..4] == [0x58, 0x4d, 0xca, 0xf1] && MIXED2[4..8] == [0x1b, 0x4b, 0x5a, 0xac]
    ensures MIXED2[8..12] == [0xdb, 0xe7, 0xca, 0xa8] && MIXED2[12..16] == [0x1b, 0x6b, 0xb0, 0xe5]
  {}

  lemma Sum2()
    ensures Sum([0x58, 0x4d, 0xca, 0xf1], [0x1b, 0x4b, 0x5a, 0xac],
                [0xdb, 0xe7, 0xca, 0xa8], [0x1b, 0x6b, 0xb0, 0xe5],
                [0xf2, 0xc2, 0x95, 0xf2], [0x7a, 0x96, 0xb9, 0x43],
                [0x59, 0x35, 0x80, 0x7a], [0x73, 0x59, 0xf6, 0x7f]) == STATE2
  {}

  lemma Keyed2()
    ensures AddKey(MIXED2, KeySchedule(EXAMPLE_KEY), 2) == STATE2
  {
    hide AddKey, KeySchedule, ScheduleWord, Sum, EXAMPLE_INPUT, STATE2, MIXED2;
    KeyAdded(MIXED2, 2);
    Words2();
    Columns2Of();
    Sum2();
  }

  lemma Columns3Of()
    ensures MIXED3[0..4] == [0x75, 0xec, 0x09, 0x93] && MIXED3[4..8] == [0x20, 0x0b, 0x63, 0x33]
    ensures MIXED3[8..12] == [0x53, 0xc0, 0xcf, 0x7c] && MIXED3[12..16] == [0xbb, 0x25, 0xd0, 0xdc]
  {}

  lemma Sum3()
    ensures Sum([0x75, 0xec, 0x09, 0x93], [0x20, 0x0b, 0x63, 0x33],
                [0x53, 0xc0, 0xcf, 0x7c], [0xbb, 0x25, 0xd0, 0xdc],
                [0x3d, 0x80, 0x47, 0x7d], [0x47, 0x16, 0xfe, 0x3e],
                [0x1e, 0x23, 0x7e, 0x44], [0x6d, 0x7a, 0x88, 0x3b]) == STATE3
  {}

  lemma Keyed3()
    ensures AddKey(MIXED3, KeySchedule(EXAMPLE_KEY), 3) == STATE3
  {
    hide AddKey, KeySchedule, ScheduleWord, Sum, EXAMPLE_INPUT, STATE3, MIXED3;
    KeyAdded(MIXED3, 3);
    Words3();
    Columns3Of();
    Sum3();
  }

  lemma Columns4Of()
    ensures MIXED4[0..4] == [0x0f, 0xd6, 0xda, 0xa9] && MIXED4[4..8] == [0x60, 0x31, 0x38, 0xbf]
    ensures MIXED4[8..12] == [0x6f, 0xc0, 0x10, 0x6b] && MIXED4[12..16] == [0x5e, 0xb3, 0x13, 0x01]
  {}

  lemma Sum4()
    ensures Sum([0x0f, 0xd6, 0xda, 0xa9], [0x60, 0x31, 0x38, 0xbf],
                [0x6f, 0xc0, 0x10, 0x6b], [0x5e, 0xb3, 0x13, 0x01],
                [0xef, 0x44, 0xa5, 0x41], [0xa8, 0x52, 0x5b, 0x7f],
                [0xb6, 0x71, 0x25, 0x3b], [0xdb, 0x0b, 0xad, 0x00]) == STATE4
  {}

  lemma Keyed4()
    ensures AddKey(MIXED4, KeySchedule(EXAMPLE_KEY), 4) == STATE4
  {
    hide AddKey, KeySchedule, ScheduleWord, Sum, EXAMPLE_INPUT, STATE4, MIXED4;
    KeyAdded(MIXED4, 4);
    Words4();
    Columns4Of();
    Sum4();
  }

  lemma Columns5Of()
    ensures MIXED5[0..4] == [0x25, 0xd1, 0xa9, 0xad] && MIXED5[4..8] == [0xbd, 0x11, 0xd1, 0x68]
    ensures MIXED5[8..12] == [0xb6, 0x3a, 0x33, 0x8e] && MIXED5[12..16] == [0x4c, 0x4c, 0xc0, 0xb0]
  {}

  lemma Sum5()
    ensures Sum([0x25, 0xd1, 0xa9, 0xad], [0xbd, 0x11, 0xd1, 0x68],
                [0xb6, 0x3a, 0x33, 0x8e], [0x4c, 0x4c, 0xc0, 0xb0],
                [0xd4, 0xd1, 0xc6, 0xf8], [0x7c, 0x83, 0x9d, 0x87],
                [0xca, 0xf2, 0xb8, 0xbc], [0x11, 0xf9, 0x15, 0xbc]) == STATE5
  {}

  lemma Keyed5()
    ensures AddKey(MIXED5, KeySchedule(EXAMPLE_KEY), 5) == STATE5
  {
    hide AddKey, KeySchedule, ScheduleWord, Sum, EXAMPLE_INPUT, STATE5, MIXED5;
    KeyAdded(MIXED5, 5);
    Words5();
    Columns5Of();
    Sum5();
  }

  lemma Columns6Of()
    ensures MIXED6[0..4] == [0x4b, 0x86, 0x8d, 0x6d] && MIXED6[4..8] == [0x2c, 0x4a, 0x89, 0x80]
    ensures MIXED6[8..12] == [0x33, 0x9d, 0xf4, 0xe8] && MIXED6[12..16] == [0x37, 0xd2, 0x18, 0xd8]
  {}

  lemma Sum6()
    ensures Sum([0x4b, 0x86, 0x8d, 0x6d], [0x2c, 0x4a, 0x89, 0x80],
                [0x33, 0x9d, 0xf4, 0xe8], [0x37, 0xd2, 0x18, 0xd8],
                [0x6d, 0x88, 0xa3, 0x7a], [0x11, 0x0b, 0x3e, 0xfd],
                [0xdb, 0xf9, 0x86, 0x41], [0xca, 0x00, 0x93, 0xfd]) == STATE6
  {}

  lemma Keyed6()
    ensures AddKey(MIXED6, KeySchedule(EXAMPLE_KEY), 6) == STATE6
  {
    hide AddKey, KeySchedule, ScheduleWord, Sum, EXAMPLE_INPUT, STATE6, MIXED6;
    KeyAdded(MIXED6, 6);
    Words6();
    Columns6Of();
    Sum6();
  }

  lemma Columns7Of()
    ensures MIXED7[0..4] == [0x14, 0x15, 0xb5, 0xbf] && MIXED7[4..8] == [0x46, 0x16, 0x15, 0xec]
    ensures MIXED7[8..12] == [0x27, 0x46, 0x56, 0xd7] && MIXED7[12..16] == [0x34, 0x2a, 0xd8, 0x43]
  {}

  lemma Sum7()
    ensures Sum([0x14, 0x15, 0xb5, 0xbf], [0x46, 0x16, 0x15, 0xec],
                [0x27, 0x46, 0x56, 0xd7], [0x34, 0x2a, 0xd8, 0x43],
                [0x4e, 0x54, 0xf7, 0x0e], [0x5f, 0x5f, 0xc9, 0xf3],
                [0x84, 0xa6, 0x4f, 0xb2], [0x4e, 0xa6, 0xdc, 0x4f]) == STATE7
  {}

  lemma Keyed7()
    ensures AddKey(MIXED7, KeySchedule(EXAMPLE_KEY), 7) == STATE7
  {
    hide AddKey, KeySchedule, ScheduleWord, Sum, EXAMPLE_INPUT, STATE7, MIXED7;
    KeyAdded(MIXED7, 7);
    Words7();
    Columns7Of();
    Sum7();
  }

  lemma Columns8Of()
    ensures MIXED8[0..4] == [0x00, 0x51, 0x2f, 0xd1] && MIXED8[4..8] == [0xb1, 0xc8, 0x89, 0xff]
    ensures MIXED8[8..12] == [0x54, 0x76, 0x6d, 0xcd] && MIXED8[12..16] == [0xfa, 0x1b, 0x99, 0xea]
  {}

  lemma Sum8()
    ensures Sum([0x00, 0x51, 0x2f, 0xd1], [0xb1, 0xc8, 0x89, 0xff],
                [0x54, 0x76, 0x6d, 0xcd], [0xfa, 0x1b, 0x99, 0xea],
                [0xea, 0xd2, 0x73, 0x21], [0xb5, 0x8d, 0xba, 0xd2],
                [0x31, 0x2b, 0xf5, 0x60], [0x7f, 0x8d, 0x29, 0x2f]) == STATE8
  {}

  lemma Keyed8()
    ensures AddKey(MIXED8, KeySchedule(EXAMPLE_KEY), 8) == STATE8
  {
    hide AddKey, KeySchedule, ScheduleWord, Sum, EXAMPLE_INPUT, STATE8, MIXED8;
    KeyAdded(MIXED8, 8);
    Words8();
    Columns8Of();
    Sum8();
  }

  lemma Columns9Of()
    ensures MIXED9[0..4] == [0x47, 0x37, 0x94, 0xed] && MIXED9[4..8] == [0x40, 0xd4, 0xe4, 0xa5]
    ensures MIXED9[8..12] == [0xa3, 0x70, 0x3a, 0xa6] && MIXED9[12..16] == [0x4c, 0x9f, 0x42, 0xbc]
  {}

  lemma Sum9()
    ensures Sum([0x47, 0x37, 0x94, 0xed], [0x40, 0xd4, 0xe4, 0xa5],
                [0xa3, 0x70, 0x3a, 0xa6], [0x4c, 0x9f, 0x42, 0xbc],
                [0xac, 0x77, 0x66, 0xf3], [0x19, 0xfa, 0xdc, 0x21],
                [0x28, 0xd1, 0x29, 0x41], [0x57, 0x5c, 0x00, 0x6e]) == STATE9
  {}

  lemma Keyed9()
    ensures AddKey(MIXED9, KeySchedule(EXAMPLE_KEY), 9) == STATE9
  {
    hide AddKey, KeySchedule, ScheduleWord, Sum, EXAMPLE_INPUT, STATE9, MIXED9;
    KeyAdded(MIXED9, 9);
    Words9();
    Columns9Of();
    Sum9();
  }

  lemma Columns10Of()
    ensures MIXED10[0..4] == [0xe9, 0x31, 0x7d, 0xb5] && MIXED10[4..8] == [0xcb, 0x32, 0x2c, 0x72]
    ensures MIXED10[8..12] == [0x3d, 0x2e, 0x89, 0x5f] && MIXED10[12..16] == [0xaf, 0x09, 0x07, 0x94]
  {}

  lemma Sum10()
    ensures Sum([0xe9, 0x31, 0x7d, 0xb5], [0xcb, 0x32, 0x2c, 0x72],
                [0x3d, 0x2e, 0x89, 0x5f], [0xaf, 0x09, 0x07, 0x94],
                [0xd0, 0x14, 0xf9, 0xa8], [0xc9, 0xee, 0x25, 0x89],
                [0xe1, 0x3f, 0x0c, 0xc8], [0xb6, 0x63, 0x0c, 0xa6]) == STATE10
  {}

  lemma Keyed10()
    ensures AddKey(MIXED10, KeySchedule(EXAMPLE_KEY), 10) == STATE10
  {
    hide AddKey, KeySchedule, ScheduleWord, Sum, EXAMPLE_INPUT, STATE10, MIXED10;
    KeyAdded(MIXED10, 10);
    Words10();
    Columns10Of();
    Sum10();
  }

  lemma Columns1()
    ensures RoundColumn(0x19, 0xf4, 0x8d, 0x08) == [0x04, 0x66, 0x81, 0xe5]
    ensures RoundColumn(0xa0, 0xc6, 0x48, 0xbe) == [0xe0, 0xcb, 0x19, 0x9a]
    ensures RoundColumn(0x9a, 0xf8, 0xe3, 0x2b) == [0x48, 0xf8, 0xd3, 0x7a]
    ensures RoundColumn(0xe9, 0x3d, 0xe2, 0x2a) == [0x28, 0x06, 0x26, 0x4c]
  {}

  lemma Mixed1()
    ensures Mix(Shift(Sub(STATE0))) == MIXED1
  {
    hide Mix, Shift, Sub, RoundColumn;
    Columns1();
    RoundColumns(STATE0);
    Joined(Mix(Shift(Sub(STATE0))), [0x04, 0x66, 0x81, 0xe5],
           [0xe0, 0xcb, 0x19, 0x9a], [0x48, 0xf8, 0xd3, 0x7a], [0x28, 0x06, 0x26, 0x4c]);
  }

  lemma Columns2()
    ensures RoundColumn(0xa4, 0x9f, 0xea, 0x49) == [0x58, 0x4d, 0xca, 0xf1]
    ensures RoundColumn(0x68, 0x5b, 0x50, 0xf2) == [0x1b, 0x4b, 0x5a, 0xac]
    ensures RoundColumn(0x6b, 0x6a, 0x7f, 0x2b) == [0xdb, 0xe7, 0xca, 0xa8]
    ensures RoundColumn(0x02, 0x9c, 0x35, 0x43) == [0x1b, 0x6b, 0xb0, 0xe5]
  {}

  lemma Mixed2()
    ensures Mix(Shift(Sub(STATE1))) == MIXED2
  {
    hide Mix, Shift, Sub, RoundColumn;
    Columns2();
    RoundColumns(STATE1);
    Joined(Mix(Shift(Sub(STATE1))), [0x58, 0x4d, 0xca, 0xf1],
           [0x1b, 0x4b, 0x5a, 0xac], [0xdb, 0xe7, 0xca, 0xa8], [0x1b, 0x6b, 0xb0, 0xe5]);
  }

  lemma Columns3()
    ensures RoundColumn(0xaa, 0xdd, 0x4a, 0x9a) == [0x75, 0xec, 0x09, 0x93]
    ensures RoundColumn(0x61, 0xd2, 0x46, 0x03) == [0x20, 0x0b, 0x63, 0x33]
    ensures RoundColumn(0x82, 0x32, 0x5f, 0xef) == [0x53, 0xc0, 0xcf, 0x7c]
    ensures RoundColumn(0x68, 0x8f, 0xe3, 0xd2) == [0xbb, 0x25, 0xd0, 0xdc]
  {}

  lemma Mixed3()
    ensures Mix(Shift(Sub(STATE2))) == MIXED3
  {
    hide Mix, Shift, Sub, RoundColumn;
    Columns3();
    RoundColumns(STATE2);
    Joined(Mix(Shift(Sub(STATE2))), [0x75, 0xec, 0x09, 0x93],
           [0x20, 0x0b, 0x63, 0x33], [0x53, 0xc0, 0xcf, 0x7c], [0xbb, 0x25, 0xd0, 0xdc]);
  }

  lemma Columns4()
    ensures RoundColumn(0x48, 0x1d, 0xb1, 0xe7) == [0x0f, 0xd6, 0xda, 0xa9]
    ensures RoundColumn(0x67, 0xe3, 0x58, 0xee) == [0x60, 0x31, 0x38, 0xbf]
    ensures RoundColumn(0x4d, 0x5f, 0x4e, 0x0d) == [0x6f, 0xc0, 0x10, 0x6b]
    ensures RoundColumn(0xd6, 0x6c, 0x9d, 0x38) == [0x5e, 0xb3, 0x13, 0x01]
  {}

  lemma Mixed4()
    ensures Mix(Shift(Sub(STATE3))) == MIXED4
  {
    hide Mix, Shift, Sub, RoundColumn;
    Columns4();
    RoundColumns(STATE3);
    Joined(Mix(Shift(Sub(STATE3))), [0x0f, 0xd6, 0xda, 0xa9],
           [0x60, 0x31, 0x38, 0xbf], [0x6f, 0xc0, 0x10, 0x6b], [0x5e, 0xb3, 0x13, 0x01]);
  }

  lemma Columns5()
    ensures RoundColumn(0xe0, 0x63, 0x35, 0x01) == [0x25, 0xd1, 0xa9, 0xad]
    ensures RoundColumn(0xc8, 0xb1, 0xbe, 0xe8) == [0xbd, 0x11, 0xd1, 0x68]
    ensures RoundColumn(0xd9, 0xb8, 0x7f, 0xc0) == [0xb6, 0x3a, 0x33, 0x8e]
    ensures RoundColumn(0x85, 0x92, 0x63, 0x50) == [0x4c, 0x4c, 0xc0, 0xb0]
  {}

  lemma Mixed5()
    ensures Mix(Shift(Sub(STATE4))) == MIXED5
  {
    hide Mix, Shift, Sub, RoundColumn;
    Columns5();
    RoundColumns(STATE4);
    Joined(Mix(Shift(Sub(STATE4))), [0x25, 0xd1, 0xa9, 0xad],
           [0xbd, 0x11, 0xd1, 0x68], [0xb6, 0x3a, 0x33, 0x8e], [0x4c, 0x4c, 0xc0, 0xb0]);
  }

  lemma Columns6()
    ensures RoundColumn(0xf1, 0x92, 0x8b, 0x0c) == [0x4b, 0x86, 0x8d, 0x6d]
    ensures RoundColumn(0xc1, 0xc8, 0xd5, 0x55) == [0x2c, 0x4a, 0x89, 0x80]
    ensures RoundColumn(0x7c, 0xb5, 0x6f, 0xef) == [0x33, 0x9d, 0xf4, 0xe8]
    ensures RoundColumn(0x5d, 0x00, 0x4c, 0x32) == [0x37, 0xd2, 0x18, 0xd8]
  {}

  lemma Mixed6()
    ensures Mix(Shift(Sub(STATE5))) == MIXED6
  {
    hide Mix, Shift, Sub, RoundColumn;
    Columns6();
    RoundColumns(STATE5);
    Joined(Mix(Shift(Sub(STATE5))), [0x4b, 0x86, 0x8d, 0x6d],
           [0x2c, 0x4a, 0x89, 0x80], [0x33, 0x9d, 0xf4, 0xe8], [0x37, 0xd2, 0x18, 0xd8]);
  }

  lemma Columns7()
    ensures RoundColumn(0x26, 0x41, 0x72, 0x25) == [0x14, 0x15, 0xb5, 0xbf]
    ensures RoundColumn(0x3d, 0x64, 0x8b, 0x17) == [0x46, 0x16, 0x15, 0xec]
    ensures RoundColumn(0xe8, 0xd2, 0x2e, 0x7d) == [0x27, 0x46, 0x56, 0xd7]
    ensures RoundColumn(0xfd, 0x0e, 0xb7, 0xa9) == [0x34, 0x2a, 0xd8, 0x43]
  {}

  lemma Mixed7()
    ensures Mix(Shift(Sub(STATE6))) == MIXED7
  {
    hide Mix, Shift, Sub, RoundColumn;
    Columns7();
    RoundColumns(STATE6);
    Joined(Mix(Shift(Sub(STATE6))), [0x14, 0x15, 0xb5, 0xbf],
           [0x46, 0x16, 0x15, 0xec], [0x27, 0x46, 0x56, 0xd7], [0x34, 0x2a, 0xd8, 0x43]);
  }

  lemma Columns8()
    ensures RoundColumn(0x5a, 0x49, 0x19, 0x0c) == [0x00, 0x51, 0x2f, 0xd1]
    ensures RoundColumn(0x19, 0xe0, 0x04, 0xb1) == [0xb1, 0xc8, 0x89, 0xff]
    ensures RoundColumn(0xa3, 0x8c, 0x42, 0x1f) == [0x54, 0x76, 0x6d, 0xcd]
    ensures RoundColumn(0x7a, 0x41, 0xdc, 0x65) == [0xfa, 0x1b, 0x99, 0xea]
  {}

  lemma Mixed8()
    ensures Mix(Shift(Sub(STATE7))) == MIXED8
  {
    hide Mix, Shift, Sub, RoundColumn;
    Columns8();
    RoundColumns(STATE7);
    Joined(Mix(Shift(Sub(STATE7))), [0x00, 0x51, 0x2f, 0xd1],
           [0xb1, 0xc8, 0x89, 0xff], [0x54, 0x76, 0x6d, 0xcd], [0xfa, 0x1b, 0x99, 0xea]);
  }

  lemma Columns9()
    ensures RoundColumn(0xea, 0x45, 0x98, 0xc5) == [0x47, 0x37, 0x94, 0xed]
    ensures RoundColumn(0x04, 0x5d, 0xb0, 0xf0) == [0x40, 0xd4, 0xe4, 0xa5]
    ensures RoundColumn(0x65, 0x96, 0x5c, 0x2d) == [0xa3, 0x70, 0x3a, 0xa6]
    ensures RoundColumn(0x85, 0x83, 0x33, 0xad) == [0x4c, 0x9f, 0x42, 0xbc]
  {}

  lemma Mixed9()
    ensures Mix(Shift(Sub(STATE8))) == MIXED9
  {
    hide Mix, Shift, Sub, RoundColumn;
    Columns9();
    RoundColumns(STATE8);
    Joined(Mix(Shift(Sub(STATE8))), [0x47, 0x37, 0x94, 0xed],
           [0x40, 0xd4, 0xe4, 0xa5], [0xa3, 0x70, 0x3a, 0xa6], [0x4c, 0x9f, 0x42, 0xbc]);
  }

  /** A column after substitution and row shift. */
  function LastColumn(a: bv8, b: bv8, c: bv8, d: bv8): Bytes {
    [SubByte(a), SubByte(b), SubByte(c), SubByte(d)]
  }

  lemma LastColumns(s: Block)
    ensures var x := Shift(Sub(s));
            && x[0..4] == LastColumn(s[0], s[5], s[10], s[15]) && x[4..8] == LastColumn(s[4], s[9], s[14], s[3])
            && x[8..12] == LastColumn(s[8], s[13], s[2], s[7]) && x[12..16] == LastColumn(s[12], s[1], s[6], s[11])
  {
    hide SubByte, Shift, Sub;
    ShiftedColumn(s, 0);
    ShiftedColumn(s, 1);
    ShiftedColumn(s, 2);
    ShiftedColumn(s, 3);
    var x := Shift(Sub(s));
    FourInARow(x, 0, LastColumn(s[0], s[5], s[10], s[15]));
    FourInARow(x, 4, LastColumn(s[4], s[9], s[14], s[3]));
    FourInARow(x, 8, LastColumn(s[8], s[13], s[2], s[7]));
    FourInARow(x, 12, LastColumn(s[12], s[1], s[6], s[11]));
  }

  lemma Columns10()
    ensures LastColumn(0xeb, 0x2e, 0x13, 0xd2) == [0xe9, 0x31, 0x7d, 0xb5]
    ensures LastColumn(0x59, 0xa1, 0x42, 0x1e) == [0xcb, 0x32, 0x2c, 0x72]
    ensures LastColumn(0x8b, 0xc3, 0xf2, 0x84) == [0x3d, 0x2e, 0x89, 0x5f]
    ensures LastColumn(0x1b, 0x40, 0x38, 0xe7) == [0xaf, 0x09, 0x07, 0x94]
  {}

  lemma Mixed10()
    ensures Shift(Sub(STATE9)) == MIXED10
  {
    hide Shift, Sub, LastColumn;
    Columns10();
    LastColumns(STATE9);
    Joined(Shift(Sub(STATE9)), [0xe9, 0x31, 0x7d, 0xb5],
           [0xcb, 0x32, 0x2c, 0x72], [0x3d, 0x2e, 0x89, 0x5f], [0xaf, 0x09, 0x07, 0x94]);
  }

  /** The state after every round of the example. */
  lemma States()
    ensures var w := KeySchedule(EXAMPLE_KEY);
            RoundState(EXAMPLE_INPUT, w, 0) == STATE0 &&
            RoundState(EXAMPLE_INPUT, w, 1) == STATE1 &&
            RoundState(EXAMPLE_INPUT, w, 2) == STATE2 &&
            RoundState(EXAMPLE_INPUT, w, 3) == STATE3 &&
            RoundState(EXAMPLE_INPUT, w, 4) == STATE4 &&
            RoundState(EXAMPLE_INPUT, w, 5) == STATE5 &&
            RoundState(EXAMPLE_INPUT, w, 6) == STATE6 &&
            RoundState(EXAMPLE_INPUT, w, 7) == STATE7 &&
            RoundState(EXAMPLE_INPUT, w, 8) == STATE8 &&
            RoundState(EXAMPLE_INPUT, w, 9) == STATE9
  {
    hide KeySchedule, RoundState, AddKey, Mix, Shift, Sub, EXAMPLE_KEY, EXAMPLE_INPUT, STATE0, STATE1, STATE2, STATE3,
         STATE4, STATE5, STATE6, STATE7, STATE8, STATE9, MIXED1, MIXED2, MIXED3, MIXED4, MIXED5, MIXED6, MIXED7, MIXED8,
         MIXED9;
    First();
    Mixed1();
    Keyed1();
    NextState(1, STATE0, MIXED1, STATE1);
    Mixed2();
    Keyed2();
    NextState(2, STATE1, MIXED2, STATE2);
    Mixed3();
    Keyed3();
    NextState(3, STATE2, MIXED3, STATE3);
    Mixed4();
    Keyed4();
    NextState(4, STATE3, MIXED4, STATE4);
    Mixed5();
    Keyed5();
    NextState(5, STATE4, MIXED5, STATE5);
    Mixed6();
    Keyed6();
    NextState(6, STATE5, MIXED6, STATE6);
    Mixed7();
    Keyed7();
    NextState(7, STATE6, MIXED7, STATE7);
    Mixed8();
    Keyed8();
    NextState(8, STATE7, MIXED8, STATE8);
    Mixed9();
    Keyed9();
    NextState(9, STATE8, MIXED9, STATE9);
  }

  lemma First()
    ensures RoundState(EXAMPLE_INPUT, KeySchedule(EXAMPLE_KEY), 0) == STATE0
  {
    hide KeySchedule, AddKey;
    Keyed0();
  }

  lemma NextState(r: nat, s: Block, x: Block, next: Block)
    requires 0 < r < ROUNDS && RoundState(EXAMPLE_INPUT, KeySchedule(EXAMPLE_KEY), r - 1) == s
    requires Mix(Shift(Sub(s))) == x && AddKey(x, KeySchedule(EXAMPLE_KEY), r) == next
    ensures RoundState(EXAMPLE_INPUT, KeySchedule(EXAMPLE_KEY), r) == next
  {
    hide Mix, Shift, Sub, AddKey, KeySchedule;
  }

  /** The example of appendix B: the ciphertext, and the block it decrypts to. */
  lemma CipherExample()
    ensures Encrypt(EXAMPLE_KEY, EXAMPLE_INPUT) ==
            [0x39, 0x25, 0x84, 0x1d, 0x02, 0xdc, 0x09, 0xfb, 0xdc, 0x11, 0x85, 0x97, 0x19, 0x6a, 0x0b, 0x32]
    ensures Decrypt(EXAMPLE_KEY,
                    [0x39, 0x25, 0x84, 0x1d, 0x02, 0xdc, 0x09, 0xfb, 0xdc, 0x11, 0x85, 0x97, 0x19, 0x6a, 0x0b, 0x32]) ==
            EXAMPLE_INPUT
  {
    hide KeySchedule, AddKey, Shift, Sub, RoundState, InvCipher, EXAMPLE_KEY, EXAMPLE_INPUT, MIXED10, STATE9;
    States();
    Mixed10();
    Keyed10();
    EncryptDecryptInverse(EXAMPLE_KEY, EXAMPLE_INPUT);
  }
}
