/** The byte tables of AES and the field GF(2^8) they come from (FIPS 197 sections 4.2, 5.1.1 and 5.3.2).

    Each table of 256 entries is written as one function per table row; the high nibble of a byte
    selects the row and the low nibble the entry, so that proofs stay inside the bit-vector theory. */
module AesTables {

  /** Multiplication by {02} modulo x^8 + x^4 + x^3 + x + 1. */
  function Xtime(x: bv8): bv8 {
    (x << 1) ^ (((x >> 7) & 1) * 0x1b)
  }

  // ---- The substitution table, row by row.

  function SboxRow0(c: bv8): bv8 {
    if c < 8 then
      (if c < 4 then (if c < 2 then (if c < 1 then 0x63 else 0x7c) else (if c < 3 then 0x77 else 0x7b))
       else (if c < 6 then (if c < 5 then 0xf2 else 0x6b) else (if c < 7 then 0x6f else 0xc5)))
    else
      (if c < 12 then (if c < 10 then (if c < 9 then 0x30 else 0x01) else (if c < 11 then 0x67 else 0x2b))
       else (if c < 14 then (if c < 13 then 0xfe else 0xd7) else (if c < 15 then 0xab else 0x76)))
  }

  function SboxRow1(c: bv8): bv8 {
    if c < 8 then
      (if c < 4 then (if c < 2 then (if c < 1 then 0xca else 0x82) else (if c < 3 then 0xc9 else 0x7d))
       else (if c < 6 then (if c < 5 then 0xfa else 0x59) else (if c < 7 then 0x47 else 0xf0)))
    else
      (if c < 12 then (if c < 10 then (if c < 9 then 0xad else 0xd4) else (if c < 11 then 0xa2 else 0xaf))
       else (if c < 14 then (if c < 13 then 0x9c else 0xa4) else (if c < 15 then 0x72 else 0xc0)))
  }

  function SboxRow2(c: bv8): bv8 {
    if c < 8 then
      (if c < 4 then (if c < 2 then (if c < 1 then 0xb7 else 0xfd) else (if c < 3 then 0x93 else 0x26))
       else (if c < 6 then (if c < 5 then 0x36 else 0x3f) else (if c < 7 then 0xf7 else 0xcc)))
    else
      (if c < 12 then (if c < 10 then (if c < 9 then 0x34 else 0xa5) else (if c < 11 then 0xe5 else 0xf1))
       else (if c < 14 then (if c < 13 then 0x71 else 0xd8) else (if c < 15 then 0x31 else 0x15)))
  }

  function SboxRow3(c: bv8): bv8 {
    if c < 8 then
      (if c < 4 then (if c < 2 then (if c < 1 then 0x04 else 0xc7) else (if c < 3 then 0x23 else 0xc3))
       else (if c < 6 then (if c < 5 then 0x18 else 0x96) else (if c < 7 then 0x05 else 0x9a)))
    else
      (if c < 12 then (if c < 10 then (if c < 9 then 0x07 else 0x12) else (if c < 11 then 0x80 else 0xe2))
       else (if c < 14 then (if c < 13 then 0xeb else 0x27) else (if c < 15 then 0xb2 else 0x75)))
  }

  function SboxRow4(c: bv8): bv8 {
    if c < 8 then
      (if c < 4 then (if c < 2 then (if c < 1 then 0x09 else 0x83) else (if c < 3 then 0x2c else 0x1a))
       else (if c < 6 then (if c < 5 then 0x1b else 0x6e) else (if c < 7 then 0x5a else 0xa0)))
    else
      (if c < 12 then (if c < 10 then (if c < 9 then 0x52 else 0x3b) else (if c < 11 then 0xd6 else 0xb3))
       else (if c < 14 then (if c < 13 then 0x29 else 0xe3) else (if c < 15 then 0x2f else 0x84)))
  }

  function SboxRow5(c: bv8): bv8 {
    if c < 8 then
      (if c < 4 then (if c < 2 then (if c < 1 then 0x53 else 0xd1) else (if c < 3 then 0x00 else 0xed))
       else (if c < 6 then (if c < 5 then 0x20 else 0xfc) else (if c < 7 then 0xb1 else 0x5b)))
    else
      (if c < 12 then (if c < 10 then (if c < 9 then 0x6a else 0xcb) else (if c < 11 then 0xbe else 0x39))
       else (if c < 14 then (if c < 13 then 0x4a else 0x4c) else (if c < 15 then 0x58 else 0xcf)))
  }

  function SboxRow6(c: bv8): bv8 {
    if c < 8 then
      (if c < 4 then (if c < 2 then (if c < 1 then 0xd0 else 0xef) else (if c < 3 then 0xaa else 0xfb))
       else (if c < 6 then (if c < 5 then 0x43 else 0x4d) else (if c < 7 then 0x33 else 0x85)))
    else
      (if c < 12 then (if c < 10 then (if c < 9 then 0x45 else 0xf9) else (if c < 11 then 0x02 else 0x7f))
       else (if c < 14 then (if c < 13 then 0x50 else 0x3c) else (if c < 15 then 0x9f else 0xa8)))
  }

  function SboxRow7(c: bv8): bv8 {
    if c < 8 then
      (if c < 4 then (if c < 2 then (if c < 1 then 0x51 else 0xa3) else (if c < 3 then 0x40 else 0x8f))
       else (if c < 6 then (if c < 5 then 0x92 else 0x9d) else (if c < 7 then 0x38 else 0xf5)))
    else
      (if c < 12 then (if c < 10 then (if c < 9 then 0xbc else 0xb6) else (if c < 11 then 0xda else 0x21))
       else (if c < 14 then (if c < 13 then 0x10 else 0xff) else (if c < 15 then 0xf3 else 0xd2)))
  }

  function SboxRow8(c: bv8): bv8 {
    if c < 8 then
      (if c < 4 then (if c < 2 then (if c < 1 then 0xcd else 0x0c) else (if c < 3 then 0x13 else 0xec))
       else (if c < 6 then (if c < 5 then 0x5f else 0x97) else (if c < 7 then 0x44 else 0x17)))
    else
      (if c < 12 then (if c < 10 then (if c < 9 then 0xc4 else 0xa7) else (if c < 11 then 0x7e else 0x3d))
       else (if c < 14 then (if c < 13 then 0x64 else 0x5d) else (if c < 15 then 0x19 else 0x73)))
  }

  function SboxRow9(c: bv8): bv8 {
    if c < 8 then
      (if c < 4 then (if c < 2 then (if c < 1 then 0x60 else 0x81) else (if c < 3 then 0x4f else 0xdc))
       else (if c < 6 then (if c < 5 then 0x22 else 0x2a) else (if c < 7 then 0x90 else 0x88)))
    else
      (if c < 12 then (if c < 10 then (if c < 9 then 0x46 else 0xee) else (if c < 11 then 0xb8 else 0x14))
       else (if c < 14 then (if c < 13 then 0xde else 0x5e) else (if c < 15 then 0x0b else 0xdb)))
  }

  function SboxRowA(c: bv8): bv8 {
    if c < 8 then
      (if c < 4 then (if c < 2 then (if c < 1 then 0xe0 else 0x32) else (if c < 3 then 0x3a else 0x0a))
       else (if c < 6 then (if c < 5 then 0x49 else 0x06) else (if c < 7 then 0x24 else 0x5c)))
    else
      (if c < 12 then (if c < 10 then (if c < 9 then 0xc2 else 0xd3) else (if c < 11 then 0xac else 0x62))
       else (if c < 14 then (if c < 13 then 0x91 else 0x95) else (if c < 15 then 0xe4 else 0x79)))
  }

  function SboxRowB(c: bv8): bv8 {
    if c < 8 then
      (if c < 4 then (if c < 2 then (if c < 1 then 0xe7 else 0xc8) else (if c < 3 then 0x37 else 0x6d))
       else (if c < 6 then (if c < 5 then 0x8d else 0xd5) else (if c < 7 then 0x4e else 0xa9)))
    else
      (if c < 12 then (if c < 10 then (if c < 9 then 0x6c else 0x56) else (if c < 11 then 0xf4 else 0xea))
       else (if c < 14 then (if c < 13 then 0x65 else 0x7a) else (if c < 15 then 0xae else 0x08)))
  }

  function SboxRowC(c: bv8): bv8 {
    if c < 8 then
      (if c < 4 then (if c < 2 then (if c < 1 then 0xba else 0x78) else (if c < 3 then 0x25 else 0x2e))
       else (if c < 6 then (if c < 5 then 0x1c else 0xa6) else (if c < 7 then 0xb4 else 0xc6)))
    else
      (if c < 12 then (if c < 10 then (if c < 9 then 0xe8 else 0xdd) else (if c < 11 then 0x74 else 0x1f))
       else (if c < 14 then (if c < 13 then 0x4b else 0xbd) else (if c < 15 then 0x8b else 0x8a)))
  }

  function SboxRowD(c: bv8): bv8 {
    if c < 8 then
      (if c < 4 then (if c < 2 then (if c < 1 then 0x70 else 0x3e) else (if c < 3 then 0xb5 else 0x66))
       else (if c < 6 then (if c < 5 then 0x48 else 0x03) else (if c < 7 then 0xf6 else 0x0e)))
    else
      (if c < 12 then (if c < 10 then (if c < 9 then 0x61 else 0x35) else (if c < 11 then 0x57 else 0xb9))
       else (if c < 14 then (if c < 13 then 0x86 else 0xc1) else (if c < 15 then 0x1d else 0x9e)))
  }

  function SboxRowE(c: bv8): bv8 {
    if c < 8 then
      (if c < 4 then (if c < 2 then (if c < 1 then 0xe1 else 0xf8) else (if c < 3 then 0x98 else 0x11))
       else (if c < 6 then (if c < 5 then 0x69 else 0xd9) else (if c < 7 then 0x8e else 0x94)))
    else
      (if c < 12 then (if c < 10 then (if c < 9 then 0x9b else 0x1e) else (if c < 11 then 0x87 else 0xe9))
       else (if c < 14 then (if c < 13 then 0xce else 0x55) else (if c < 15 then 0x28 else 0xdf)))
  }

  function SboxRowF(c: bv8): bv8 {
    if c < 8 then
      (if c < 4 then (if c < 2 then (if c < 1 then 0x8c else 0xa1) else (if c < 3 then 0x89 else 0x0d))
       else (if c < 6 then (if c < 5 then 0xbf else 0xe6) else (if c < 7 then 0x42 else 0x68)))
    else
      (if c < 12 then (if c < 10 then (if c < 9 then 0x41 else 0x99) else (if c < 11 then 0x2d else 0x0f))
       else (if c < 14 then (if c < 13 then 0xb0 else 0x54) else (if c < 15 then 0xbb else 0x16)))
  }

  function SubByte(x: bv8): bv8 {
    var r, c := x >> 4, x & 0x0f;
    if r < 8 then
      (if r < 4 then (if r < 2 then (if r < 1 then SboxRow0(c) else SboxRow1(c))
         else (if r < 3 then SboxRow2(c) else SboxRow3(c)))
       else (if r < 6 then (if r < 5 then SboxRow4(c) else SboxRow5(c))
          else (if r < 7 then SboxRow6(c) else SboxRow7(c))))
    else
      (if r < 12 then (if r < 10 then (if r < 9 then SboxRow8(c) else SboxRow9(c))
         else (if r < 11 then SboxRowA(c) else SboxRowB(c)))
       else (if r < 14 then (if r < 13 then SboxRowC(c) else SboxRowD(c))
          else (if r < 15 then SboxRowE(c) else SboxRowF(c))))
  }

  // ---- The inverse substitution table, row by row.

  function RsboxRow0(c: bv8): bv8 {
    if c < 8 then
      (if c < 4 then (if c < 2 then (if c < 1 then 0x52 else 0x09) else (if c < 3 then 0x6a else 0xd5))
       else (if c < 6 then (if c < 5 then 0x30 else 0x36) else (if c < 7 then 0xa5 else 0x38)))
    else
      (if c < 12 then (if c < 10 then (if c < 9 then 0xbf else 0x40) else (if c < 11 then 0xa3 else 0x9e))
       else (if c < 14 then (if c < 13 then 0x81 else 0xf3) else (if c < 15 then 0xd7 else 0xfb)))
  }

  function RsboxRow1(c: bv8): bv8 {
    if c < 8 then
      (if c < 4 then (if c < 2 then (if c < 1 then 0x7c else 0xe3) else (if c < 3 then 0x39 else 0x82))
       else (if c < 6 then (if c < 5 then 0x9b else 0x2f) else (if c < 7 then 0xff else 0x87)))
    else
      (if c < 12 then (if c < 10 then (if c < 9 then 0x34 else 0x8e) else (if c < 11 then 0x43 else 0x44))
       else (if c < 14 then (if c < 13 then 0xc4 else 0xde) else (if c < 15 then 0xe9 else 0xcb)))
  }

  function RsboxRow2(c: bv8): bv8 {
    if c < 8 then
      (if c < 4 then (if c < 2 then (if c < 1 then 0x54 else 0x7b) else (if c < 3 then 0x94 else 0x32))
       else (if c < 6 then (if c < 5 then 0xa6 else 0xc2) else (if c < 7 then 0x23 else 0x3d)))
    else
      (if c < 12 then (if c < 10 then (if c < 9 then 0xee else 0x4c) else (if c < 11 then 0x95 else 0x0b))
       else (if c < 14 then (if c < 13 then 0x42 else 0xfa) else (if c < 15 then 0xc3 else 0x4e)))
  }

  function RsboxRow3(c: bv8): bv8 {
    if c < 8 then
      (if c < 4 then (if c < 2 then (if c < 1 then 0x08 else 0x2e) else (if c < 3 then 0xa1 else 0x66))
       else (if c < 6 then (if c < 5 then 0x28 else 0xd9) else (if c < 7 then 0x24 else 0xb2)))
    else
      (if c < 12 then (if c < 10 then (if c < 9 then 0x76 else 0x5b) else (if c < 11 then 0xa2 else 0x49))
       else (if c < 14 then (if c < 13 then 0x6d else 0x8b) else (if c < 15 then 0xd1 else 0x25)))
  }

  function RsboxRow4(c: bv8): bv8 {
    if c < 8 then
      (if c < 4 then (if c < 2 then (if c < 1 then 0x72 else 0xf8) else (if c < 3 then 0xf6 else 0x64))
       else (if c < 6 then (if c < 5 then 0x86 else 0x68) else (if c < 7 then 0x98 else 0x16)))
    else
      (if c < 12 then (if c < 10 then (if c < 9 then 0xd4 else 0xa4) else (if c < 11 then 0x5c else 0xcc))
       else (if c < 14 then (if c < 13 then 0x5d else 0x65) else (if c < 15 then 0xb6 else 0x92)))
  }

  function RsboxRow5(c: bv8): bv8 {
    if c < 8 then
      (if c < 4 then (if c < 2 then (if c < 1 then 0x6c else 0x70) else (if c < 3 then 0x48 else 0x50))
       else (if c < 6 then (if c < 5 then 0xfd else 0xed) else (if c < 7 then 0xb9 else 0xda)))
    else
      (if c < 12 then (if c < 10 then (if c < 9 then 0x5e else 0x15) else (if c < 11 then 0x46 else 0x57))
       else (if c < 14 then (if c < 13 then 0xa7 else 0x8d) else (if c < 15 then 0x9d else 0x84)))
  }

  function RsboxRow6(c: bv8): bv8 {
    if c < 8 then
      (if c < 4 then (if c < 2 then (if c < 1 then 0x90 else 0xd8) else (if c < 3 then 0xab else 0x00))
       else (if c < 6 then (if c < 5 then 0x8c else 0xbc) else (if c < 7 then 0xd3 else 0x0a)))
    else
      (if c < 12 then (if c < 10 then (if c < 9 then 0xf7 else 0xe4) else (if c < 11 then 0x58 else 0x05))
       else (if c < 14 then (if c < 13 then 0xb8 else 0xb3) else (if c < 15 then 0x45 else 0x06)))
  }

  function RsboxRow7(c: bv8): bv8 {
    if c < 8 then
      (if c < 4 then (if c < 2 then (if c < 1 then 0xd0 else 0x2c) else (if c < 3 then 0x1e else 0x8f))
       else (if c < 6 then (if c < 5 then 0xca else 0x3f) else (if c < 7 then 0x0f else 0x02)))
    else
      (if c < 12 then (if c < 10 then (if c < 9 then 0xc1 else 0xaf) else (if c < 11 then 0xbd else 0x03))
       else (if c < 14 then (if c < 13 then 0x01 else 0x13) else (if c < 15 then 0x8a else 0x6b)))
  }

  function RsboxRow8(c: bv8): bv8 {
    if c < 8 then
      (if c < 4 then (if c < 2 then (if c < 1 then 0x3a else 0x91) else (if c < 3 then 0x11 else 0x41))
       else (if c < 6 then (if c < 5 then 0x4f else 0x67) else (if c < 7 then 0xdc else 0xea)))
    else
      (if c < 12 then (if c < 10 then (if c < 9 then 0x97 else 0xf2) else (if c < 11 then 0xcf else 0xce))
       else (if c < 14 then (if c < 13 then 0xf0 else 0xb4) else (if c < 15 then 0xe6 else 0x73)))
  }

  function RsboxRow9(c: bv8): bv8 {
    if c < 8 then
      (if c < 4 then (if c < 2 then (if c < 1 then 0x96 else 0xac) else (if c < 3 then 0x74 else 0x22))
       else (if c < 6 then (if c < 5 then 0xe7 else 0xad) else (if c < 7 then 0x35 else 0x85)))
    else
      (if c < 12 then (if c < 10 then (if c < 9 then 0xe2 else 0xf9) else (if c < 11 then 0x37 else 0xe8))
       else (if c < 14 then (if c < 13 then 0x1c else 0x75) else (if c < 15 then 0xdf else 0x6e)))
  }

  function RsboxRowA(c: bv8): bv8 {
    if c < 8 then
      (if c < 4 then (if c < 2 then (if c < 1 then 0x47 else 0xf1) else (if c < 3 then 0x1a else 0x71))
       else (if c < 6 then (if c < 5 then 0x1d else 0x29) else (if c < 7 then 0xc5 else 0x89)))
    else
      (if c < 12 then (if c < 10 then (if c < 9 then 0x6f else 0xb7) else (if c < 11 then 0x62 else 0x0e))
       else (if c < 14 then (if c < 13 then 0xaa else 0x18) else (if c < 15 then 0xbe else 0x1b)))
  }

  function RsboxRowB(c: bv8): bv8 {
    if c < 8 then
      (if c < 4 then (if c < 2 then (if c < 1 then 0xfc else 0x56) else (if c < 3 then 0x3e else 0x4b))
       else (if c < 6 then (if c < 5 then 0xc6 else 0xd2) else (if c < 7 then 0x79 else 0x20)))
    else
      (if c < 12 then (if c < 10 then (if c < 9 then 0x9a else 0xdb) else (if c < 11 then 0xc0 else 0xfe))
       else (if c < 14 then (if c < 13 then 0x78 else 0xcd) else (if c < 15 then 0x5a else 0xf4)))
  }

  function RsboxRowC(c: bv8): bv8 {
    if c < 8 then
      (if c < 4 then (if c < 2 then (if c < 1 then 0x1f else 0xdd) else (if c < 3 then 0xa8 else 0x33))
       else (if c < 6 then (if c < 5 then 0x88 else 0x07) else (if c < 7 then 0xc7 else 0x31)))
    else
      (if c < 12 then (if c < 10 then (if c < 9 then 0xb1 else 0x12) else (if c < 11 then 0x10 else 0x59))
       else (if c < 14 then (if c < 13 then 0x27 else 0x80) else (if c < 15 then 0xec else 0x5f)))
  }

  function RsboxRowD(c: bv8): bv8 {
    if c < 8 then
      (if c < 4 then (if c < 2 then (if c < 1 then 0x60 else 0x51) else (if c < 3 then 0x7f else 0xa9))
       else (if c < 6 then (if c < 5 then 0x19 else 0xb5) else (if c < 7 then 0x4a else 0x0d)))
    else
      (if c < 12 then (if c < 10 then (if c < 9 then 0x2d else 0xe5) else (if c < 11 then 0x7a else 0x9f))
       else (if c < 14 then (if c < 13 then 0x93 else 0xc9) else (if c < 15 then 0x9c else 0xef)))
  }

  function RsboxRowE(c: bv8): bv8 {
    if c < 8 then
      (if c < 4 then (if c < 2 then (if c < 1 then 0xa0 else 0xe0) else (if c < 3 then 0x3b else 0x4d))
       else (if c < 6 then (if c < 5 then 0xae else 0x2a) else (if c < 7 then 0xf5 else 0xb0)))
    else
      (if c < 12 then (if c < 10 then (if c < 9 then 0xc8 else 0xeb) else (if c < 11 then 0xbb else 0x3c))
       else (if c < 14 then (if c < 13 then 0x83 else 0x53) else (if c < 15 then 0x99 else 0x61)))
  }

  function RsboxRowF(c: bv8): bv8 {
    if c < 8 then
      (if c < 4 then (if c < 2 then (if c < 1 then 0x17 else 0x2b) else (if c < 3 then 0x04 else 0x7e))
       else (if c < 6 then (if c < 5 then 0xba else 0x77) else (if c < 7 then 0xd6 else 0x26)))
    else
      (if c < 12 then (if c < 10 then (if c < 9 then 0xe1 else 0x69) else (if c < 11 then 0x14 else 0x63))
       else (if c < 14 then (if c < 13 then 0x55 else 0x21) else (if c < 15 then 0x0c else 0x7d)))
  }

  function InvSubByte(x: bv8): bv8 {
    var r, c := x >> 4, x & 0x0f;
    if r < 8 then
      (if r < 4 then (if r < 2 then (if r < 1 then RsboxRow0(c) else RsboxRow1(c))
         else (if r < 3 then RsboxRow2(c) else RsboxRow3(c)))
       else (if r < 6 then (if r < 5 then RsboxRow4(c) else RsboxRow5(c))
          else (if r < 7 then RsboxRow6(c) else RsboxRow7(c))))
    else
      (if r < 12 then (if r < 10 then (if r < 9 then RsboxRow8(c) else RsboxRow9(c))
         else (if r < 11 then RsboxRowA(c) else RsboxRowB(c)))
       else (if r < 14 then (if r < 13 then RsboxRowC(c) else RsboxRowD(c))
          else (if r < 15 then RsboxRowE(c) else RsboxRowF(c))))
  }

  /** The two tables are inverse permutations of the bytes. */
  lemma SubBytesInverse(x: bv8)
    ensures InvSubByte(SubByte(x)) == x
    ensures SubByte(InvSubByte(x)) == x
  {
    InvAfterSub(x);
    SubAfterInv(x);
  }

  lemma InvAfterSub(x: bv8)
    ensures InvSubByte(SubByte(x)) == x
  {}

  lemma SubAfterInv(x: bv8)
    ensures SubByte(InvSubByte(x)) == x
  {}

  // ---- The S-box is not just some permutation: it is the one FIPS 197 section 5.1.1 defines.

  /** Product in GF(2^8): shift and reduce x once per bit of y, adding the selected multiples. */
  function FieldProduct(x: bv8, y: bv8): bv8 {
    var p := if y & 0x01 != 0 then x else 0;
    var a := (x << 1) ^ (((x >> 7) & 1) * 0x1b);
    var p := if y & 0x02 != 0 then p ^ a else p;
    var a := (a << 1) ^ (((a >> 7) & 1) * 0x1b);
    var p := if y & 0x04 != 0 then p ^ a else p;
    var a := (a << 1) ^ (((a >> 7) & 1) * 0x1b);
    var p := if y & 0x08 != 0 then p ^ a else p;
    var a := (a << 1) ^ (((a >> 7) & 1) * 0x1b);
    var p := if y & 0x10 != 0 then p ^ a else p;
    var a := (a << 1) ^ (((a >> 7) & 1) * 0x1b);
    var p := if y & 0x20 != 0 then p ^ a else p;
    var a := (a << 1) ^ (((a >> 7) & 1) * 0x1b);
    var p := if y & 0x40 != 0 then p ^ a else p;
    var a := (a << 1) ^ (((a >> 7) & 1) * 0x1b);
    if y & 0x80 != 0 then p ^ a else p
  }

  /** The affine map of FIPS 197 equation (5.1). */
  function Affine(b: bv8): bv8 {
    b ^ ((b << 1) | (b >> 7)) ^ ((b << 2) | (b >> 6)) ^ ((b << 3) | (b >> 5)) ^ ((b << 4) | (b >> 4)) ^ 0x63
  }

  function InverseAffine(b: bv8): bv8 {
    ((b << 1) | (b >> 7)) ^ ((b << 3) | (b >> 5)) ^ ((b << 6) | (b >> 2)) ^ 0x05
  }

  lemma AffineInverse(b: bv8)
    ensures Affine(InverseAffine(b)) == b
    ensures InverseAffine(Affine(b)) == b
  {}

  lemma SboxInvertsField(x: bv8)
    requires x != 0
    ensures FieldProduct(x, InverseAffine(SubByte(x))) == 1
  {
    if x < 0x80 {
      SboxInvertsLowerHalf(x);
    } else {
      SboxInvertsUpperHalf(x);
    }
  }

  lemma SboxInvertsLowerHalf(x: bv8)
    requires 0 < x < 0x80
    ensures FieldProduct(x, InverseAffine(SubByte(x))) == 1
  {}

  lemma SboxInvertsUpperHalf(x: bv8)
    requires 0x80 <= x
    ensures FieldProduct(x, InverseAffine(SubByte(x))) == 1
  {}

  /** The multiplicative inverse in GF(2^8), with {00} as its own inverse. */
  predicate InvertsField(x: bv8, inv: bv8) {
    if x == 0 then inv == 0 else FieldProduct(x, inv) == 1
  }

  /** SubByte(x) is the affine image of the inverse of x. */
  lemma SboxIsAffineOfInverse(x: bv8)
    ensures exists inv :: InvertsField(x, inv) && SubByte(x) == Affine(inv)
  {
    var inv := InverseAffine(SubByte(x));
    AffineInverse(SubByte(x));
    if x != 0 {
      SboxInvertsField(x);
    }
    assert InvertsField(x, inv);
  }

  // ---- Round constants.

  function Rcon(i: nat): bv8
    requires i <= 10
  {
    [0x8d, 0x01, 0x02, 0x04, 0x08, 0x10, 0x20, 0x40, 0x80, 0x1b, 0x36][i]
  }

  /** The constants used by the key schedule are the successive powers of x, starting from {01}. */
  lemma RconIsPowerOfX(i: nat)
    requires 1 <= i <= 10
    ensures Rcon(i) == if i == 1 then 0x01 else Xtime(Rcon(i - 1))
  {}

  // ---- Xtime is linear over exclusive or.

  lemma XtimeXor(a: bv8, b: bv8)
    ensures Xtime(a ^ b) == Xtime(a) ^ Xtime(b)
  {}
}
