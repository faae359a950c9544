/** The table-driven CRC behind the hash, against the bit-serial register it stands for. `unsigned long` is
    a word of 64 bits, lowest first, with the C operators spelled out on the bits; that the CRC stays below
    2^32 is a theorem. */
module Crc {
  import opened ShiftRegister

  const BYTE: nat := 8

  type Word = w: seq<bool> | |w| == 64 witness seq(64, _ => false)

  function Zero(): Word { seq(64, i requires 0 <= i < 64 => false) }

  /** The reflected polynomial of section 8 of RFC 1952. */
  const POLY: bv32 := 0xedb88320

  function BitAt(v: bv32, i: nat): bool {
    match i
    case 0 => v & 0x1 != 0 case 1 => v & 0x2 != 0 case 2 => v & 0x4 != 0 case 3 => v & 0x8 != 0
    case 4 => v & 0x10 != 0 case 5 => v & 0x20 != 0 case 6 => v & 0x40 != 0 case 7 => v & 0x80 != 0
    case 8 => v & 0x100 != 0 case 9 => v & 0x200 != 0 case 10 => v & 0x400 != 0 case 11 => v & 0x800 != 0
    case 12 => v & 0x1000 != 0 case 13 => v & 0x2000 != 0 case 14 => v & 0x4000 != 0 case 15 => v & 0x8000 != 0
    case 16 => v & 0x10000 != 0 case 17 => v & 0x20000 != 0 case 18 => v & 0x40000 != 0 case 19 => v & 0x80000 != 0
    case 20 => v & 0x100000 != 0 case 21 => v & 0x200000 != 0 case 22 => v & 0x400000 != 0 case 23 => v & 0x800000 != 0
    case 24 => v & 0x1000000 != 0 case 25 => v & 0x2000000 != 0 case 26 => v & 0x4000000 != 0
    case 27 => v & 0x8000000 != 0 case 28 => v & 0x10000000 != 0 case 29 => v & 0x20000000 != 0
    case 30 => v & 0x40000000 != 0 case 31 => v & 0x80000000 != 0
    case _ => false
  }

  function Bits(v: bv32): Word { seq(64, i requires 0 <= i < 64 => BitAt(v, i)) }

  function Xor(x: Word, y: Word): Word { seq(64, i requires 0 <= i < 64 => x[i] != y[i]) }

  function Low(b: Word): Word { seq(64, i requires 0 <= i < 64 => i == 0 && b[0]) }

  function Down(b: Word): Word { seq(64, i requires 0 <= i < 64 => i + 1 < 64 && b[i + 1]) }

  /** One shift of the register, feeding the dropped bit back through the polynomial. */
  function Shift(r: Word): Word {
    seq(64, i requires 0 <= i < 64 => (i + 1 < 64 && r[i + 1]) != (r[0] && BitAt(POLY, i)))
  }

  const OPS: Ops<Word> := Ops(Shift, Xor, Low, Down)

  /** An `unsigned char`, promoted to a word. */
  type Octet = w: seq<bool> | |w| == 64 && forall i :: 8 <= i < 64 ==> !w[i] witness seq(64, i => false)

  /** The eight low bits of `b`, fed one at a time. */
  function FeedByte(r: Word, b: Word): Word { Feed(OPS, r, b, BYTE) }

  /** The reference: the register started at 0, after every message bit was fed into it, the lowest bit of
      each byte first. */
  function Serial(s: seq<Octet>): Word { Prefix(s, |s|) }

  function Prefix(s: seq<Octet>, n: nat): Word
    requires n <= |s|
  {
    After<Word>(FeedByte, Zero(), s, n)
  }

  lemma IsRegister()
    ensures Register(OPS)
  {
    forall x, y ensures LinearAt(OPS, x, y) {
      assert Shift(Xor(x, y)) == Xor(Shift(x), Shift(y));
    }
    forall r, b ensures MovesAt(OPS, r, b) {
      assert Shift(Xor(r, b)) == Xor(Shift(Xor(r, Low(b))), Down(b));
    }
  }

  // ---- The table ----

  /** `crc32_tab`. */
  function Table(b: bv8): bv32 {
    match b >> 4
    case 0 => (match b & 15
      case 0 => 0x00000000 case 1 => 0x77073096 case 2 => 0xee0e612c case 3 => 0x990951ba
      case 4 => 0x076dc419 case 5 => 0x706af48f case 6 => 0xe963a535 case 7 => 0x9e6495a3
      case 8 => 0x0edb8832 case 9 => 0x79dcb8a4 case 10 => 0xe0d5e91e case 11 => 0x97d2d988
      case 12 => 0x09b64c2b case 13 => 0x7eb17cbd case 14 => 0xe7b82d07 case _ => 0x90bf1d91)
    case 1 => (match b & 15
      case 0 => 0x1db71064 case 1 => 0x6ab020f2 case 2 => 0xf3b97148 case 3 => 0x84be41de
      case 4 => 0x1adad47d case 5 => 0x6ddde4eb case 6 => 0xf4d4b551 case 7 => 0x83d385c7
      case 8 => 0x136c9856 case 9 => 0x646ba8c0 case 10 => 0xfd62f97a case 11 => 0x8a65c9ec
      case 12 => 0x14015c4f case 13 => 0x63066cd9 case 14 => 0xfa0f3d63 case _ => 0x8d080df5)
    case 2 => (match b & 15
      case 0 => 0x3b6e20c8 case 1 => 0x4c69105e case 2 => 0xd56041e4 case 3 => 0xa2677172
      case 4 => 0x3c03e4d1 case 5 => 0x4b04d447 case 6 => 0xd20d85fd case 7 => 0xa50ab56b
      case 8 => 0x35b5a8fa case 9 => 0x42b2986c case 10 => 0xdbbbc9d6 case 11 => 0xacbcf940
      case 12 => 0x32d86ce3 case 13 => 0x45df5c75 case 14 => 0xdcd60dcf case _ => 0xabd13d59)
    case 3 => (match b & 15
      case 0 => 0x26d930ac case 1 => 0x51de003a case 2 => 0xc8d75180 case 3 => 0xbfd06116
      case 4 => 0x21b4f4b5 case 5 => 0x56b3c423 case 6 => 0xcfba9599 case 7 => 0xb8bda50f
      case 8 => 0x2802b89e case 9 => 0x5f058808 case 10 => 0xc60cd9b2 case 11 => 0xb10be924
      case 12 => 0x2f6f7c87 case 13 => 0x58684c11 case 14 => 0xc1611dab case _ => 0xb6662d3d)
    case 4 => (match b & 15
      case 0 => 0x76dc4190 case 1 => 0x01db7106 case 2 => 0x98d220bc case 3 => 0xefd5102a
      case 4 => 0x71b18589 case 5 => 0x06b6b51f case 6 => 0x9fbfe4a5 case 7 => 0xe8b8d433
      case 8 => 0x7807c9a2 case 9 => 0x0f00f934 case 10 => 0x9609a88e case 11 => 0xe10e9818
      case 12 => 0x7f6a0dbb case 13 => 0x086d3d2d case 14 => 0x91646c97 case _ => 0xe6635c01)
    case 5 => (match b & 15
      case 0 => 0x6b6b51f4 case 1 => 0x1c6c6162 case 2 => 0x856530d8 case 3 => 0xf262004e
      case 4 => 0x6c0695ed case 5 => 0x1b01a57b case 6 => 0x8208f4c1 case 7 => 0xf50fc457
      case 8 => 0x65b0d9c6 case 9 => 0x12b7e950 case 10 => 0x8bbeb8ea case 11 => 0xfcb9887c
      case 12 => 0x62dd1ddf case 13 => 0x15da2d49 case 14 => 0x8cd37cf3 case _ => 0xfbd44c65)
    case 6 => (match b & 15
      case 0 => 0x4db26158 case 1 => 0x3ab551ce case 2 => 0xa3bc0074 case 3 => 0xd4bb30e2
      case 4 => 0x4adfa541 case 5 => 0x3dd895d7 case 6 => 0xa4d1c46d case 7 => 0xd3d6f4fb
      case 8 => 0x4369e96a case 9 => 0x346ed9fc case 10 => 0xad678846 case 11 => 0xda60b8d0
      case 12 => 0x44042d73 case 13 => 0x33031de5 case 14 => 0xaa0a4c5f case _ => 0xdd0d7cc9)
    case 7 => (match b & 15
      case 0 => 0x5005713c case 1 => 0x270241aa case 2 => 0xbe0b1010 case 3 => 0xc90c2086
      case 4 => 0x5768b525 case 5 => 0x206f85b3 case 6 => 0xb966d409 case 7 => 0xce61e49f
      case 8 => 0x5edef90e case 9 => 0x29d9c998 case 10 => 0xb0d09822 case 11 => 0xc7d7a8b4
      case 12 => 0x59b33d17 case 13 => 0x2eb40d81 case 14 => 0xb7bd5c3b case _ => 0xc0ba6cad)
    case 8 => (match b & 15
      case 0 => 0xedb88320 case 1 => 0x9abfb3b6 case 2 => 0x03b6e20c case 3 => 0x74b1d29a
      case 4 => 0xead54739 case 5 => 0x9dd277af case 6 => 0x04db2615 case 7 => 0x73dc1683
      case 8 => 0xe3630b12 case 9 => 0x94643b84 case 10 => 0x0d6d6a3e case 11 => 0x7a6a5aa8
      case 12 => 0xe40ecf0b case 13 => 0x9309ff9d case 14 => 0x0a00ae27 case _ => 0x7d079eb1)
    case 9 => (match b & 15
      case 0 => 0xf00f9344 case 1 => 0x8708a3d2 case 2 => 0x1e01f268 case 3 => 0x6906c2fe
      case 4 => 0xf762575d case 5 => 0x806567cb case 6 => 0x196c3671 case 7 => 0x6e6b06e7
      case 8 => 0xfed41b76 case 9 => 0x89d32be0 case 10 => 0x10da7a5a case 11 => 0x67dd4acc
      case 12 => 0xf9b9df6f case 13 => 0x8ebeeff9 case 14 => 0x17b7be43 case _ => 0x60b08ed5)
    case 10 => (match b & 15
      case 0 => 0xd6d6a3e8 case 1 => 0xa1d1937e case 2 => 0x38d8c2c4 case 3 => 0x4fdff252
      case 4 => 0xd1bb67f1 case 5 => 0xa6bc5767 case 6 => 0x3fb506dd case 7 => 0x48b2364b
      case 8 => 0xd80d2bda case 9 => 0xaf0a1b4c case 10 => 0x36034af6 case 11 => 0x41047a60
      case 12 => 0xdf60efc3 case 13 => 0xa867df55 case 14 => 0x316e8eef case _ => 0x4669be79)
    case 11 => (match b & 15
      case 0 => 0xcb61b38c case 1 => 0xbc66831a case 2 => 0x256fd2a0 case 3 => 0x5268e236
      case 4 => 0xcc0c7795 case 5 => 0xbb0b4703 case 6 => 0x220216b9 case 7 => 0x5505262f
      case 8 => 0xc5ba3bbe case 9 => 0xb2bd0b28 case 10 => 0x2bb45a92 case 11 => 0x5cb36a04
      case 12 => 0xc2d7ffa7 case 13 => 0xb5d0cf31 case 14 => 0x2cd99e8b case _ => 0x5bdeae1d)
    case 12 => (match b & 15
      case 0 => 0x9b64c2b0 case 1 => 0xec63f226 case 2 => 0x756aa39c case 3 => 0x026d930a
      case 4 => 0x9c0906a9 case 5 => 0xeb0e363f case 6 => 0x72076785 case 7 => 0x05005713
      case 8 => 0x95bf4a82 case 9 => 0xe2b87a14 case 10 => 0x7bb12bae case 11 => 0x0cb61b38
      case 12 => 0x92d28e9b case 13 => 0xe5d5be0d case 14 => 0x7cdcefb7 case _ => 0x0bdbdf21)
    case 13 => (match b & 15
      case 0 => 0x86d3d2d4 case 1 => 0xf1d4e242 case 2 => 0x68ddb3f8 case 3 => 0x1fda836e
      case 4 => 0x81be16cd case 5 => 0xf6b9265b case 6 => 0x6fb077e1 case 7 => 0x18b74777
      case 8 => 0x88085ae6 case 9 => 0xff0f6a70 case 10 => 0x66063bca case 11 => 0x11010b5c
      case 12 => 0x8f659eff case 13 => 0xf862ae69 case 14 => 0x616bffd3 case _ => 0x166ccf45)
    case 14 => (match b & 15
      case 0 => 0xa00ae278 case 1 => 0xd70dd2ee case 2 => 0x4e048354 case 3 => 0x3903b3c2
      case 4 => 0xa7672661 case 5 => 0xd06016f7 case 6 => 0x4969474d case 7 => 0x3e6e77db
      case 8 => 0xaed16a4a case 9 => 0xd9d65adc case 10 => 0x40df0b66 case 11 => 0x37d83bf0
      case 12 => 0xa9bcae53 case 13 => 0xdebb9ec5 case 14 => 0x47b2cf7f case _ => 0x30b5ffe9)
    case _ => (match b & 15
      case 0 => 0xbdbdf21c case 1 => 0xcabac28a case 2 => 0x53b39330 case 3 => 0x24b4a3a6
      case 4 => 0xbad03605 case 5 => 0xcdd70693 case 6 => 0x54de5729 case 7 => 0x23d967bf
      case 8 => 0xb3667a2e case 9 => 0xc4614ab8 case 10 => 0x5d681b02 case 11 => 0x2a6f2b94
      case 12 => 0xb40bbe37 case 13 => 0xc30c8ea1 case 14 => 0x5a05df1b case _ => 0x2d02ef8d)
  }

  function ShiftBits(r: bv32): bv32 {
    if r & 1 == 1 then (r >> 1) ^ 0xedb88320 else r >> 1
  }

  function Shift8(r: bv32): bv32 {
    ShiftBits(ShiftBits(ShiftBits(ShiftBits(ShiftBits(ShiftBits(ShiftBits(ShiftBits(r))))))))
  }

  /** All 256 entries are the register contents they stand for. */
  lemma TableEntry(b: bv8)
    ensures Table(b) == Shift8(b as bv32)
  {
  }

  ghost predicate Fits32(w: Word) { forall i :: 32 <= i < 64 ==> !w[i] }

  lemma BitsFit(v: bv32)
    ensures Fits32(Bits(v))
  {
  }

  lemma ShiftFits(w: Word)
    requires Fits32(w)
    ensures Fits32(Shift(w))
  {
  }

  /** The two words agree on the q-th group of four bits. */
  ghost predicate Same4(x: Word, y: Word, q: nat)
    requires q < 16
  {
    x[4 * q] == y[4 * q] && x[4 * q + 1] == y[4 * q + 1] && x[4 * q + 2] == y[4 * q + 2] && x[4 * q + 3] == y[4 * q + 3]
  }

  lemma SameAt(x: Word, y: Word, q: nat, i: nat)
    requires q < 16 && Same4(x, y, q) && 4 * q <= i < 4 * q + 4
    ensures x[i] == y[i]
  {
  }

  lemma SameWord(x: Word, y: Word)
    requires Fits32(x) && Fits32(y) && Same4(x, y, 0) && Same4(x, y, 1) && Same4(x, y, 2) && Same4(x, y, 3)
    requires Same4(x, y, 4) && Same4(x, y, 5) && Same4(x, y, 6) && Same4(x, y, 7)
    ensures x == y
  {
    forall i | 0 <= i < 32 ensures x[i] == y[i] {
      SameAt(x, y, i / 4, i);
    }
  }

  ghost predicate ShiftedBits(r: bv32, q: nat)
    requires q < 16
  {
    Same4(Bits(ShiftBits(r)), Shift(Bits(r)), q)
  }

  lemma ShiftedBits0(r: bv32)
    ensures ShiftedBits(r, 0)
  {
  }

  lemma ShiftedBits1(r: bv32)
    ensures ShiftedBits(r, 1)
  {
  }

  lemma ShiftedBits2(r: bv32)
    ensures ShiftedBits(r, 2)
  {
  }

  lemma ShiftedBits3(r: bv32)
    ensures ShiftedBits(r, 3)
  {
  }

  lemma ShiftedBits4(r: bv32)
    ensures ShiftedBits(r, 4)
  {
  }

  lemma ShiftedBits5(r: bv32)
    ensures ShiftedBits(r, 5)
  {
  }

  lemma ShiftedBits6(r: bv32)
    ensures ShiftedBits(r, 6)
  {
  }

  lemma ShiftedBits7(r: bv32)
    ensures ShiftedBits(r, 7)
  {
  }

  lemma BitsShift(r: bv32)
    ensures Bits(ShiftBits(r)) == Shift(Bits(r))
  {
    ShiftedBits0(r); ShiftedBits1(r); ShiftedBits2(r); ShiftedBits3(r);
    ShiftedBits4(r); ShiftedBits5(r); ShiftedBits6(r); ShiftedBits7(r);
    BitsFit(ShiftBits(r)); BitsFit(r); ShiftFits(Bits(r));
    SameWord(Bits(ShiftBits(r)), Shift(Bits(r)));
  }

  /** An entry of the table is its index shifted through the register. */
  lemma TableWord(b: bv8)
    ensures Bits(Table(b)) == Shifts(OPS, Bits(b as bv32), BYTE)
  {
    TableEntry(b);
    var r0: bv32 := b as bv32;
    var r1 := ShiftBits(r0);
    var r2 := ShiftBits(r1);
    var r3 := ShiftBits(r2);
    var r4 := ShiftBits(r3);
    var r5 := ShiftBits(r4);
    var r6 := ShiftBits(r5);
    var r7 := ShiftBits(r6);
    BitsShift(r0); BitsShift(r1); BitsShift(r2); BitsShift(r3);
    BitsShift(r4); BitsShift(r5); BitsShift(r6); BitsShift(r7);
    assert Shifts(OPS, Bits(r0), 8) == Shifts(OPS, Bits(r2), 6) == Shifts(OPS, Bits(r4), 4) == Shifts(OPS, Bits(r6), 2);
  }

  // ---- The loop ----

  /** `w & 0xff` as a table index. */
  function Low8(w: Word): bv8 {
    (if w[0] then 1 else 0) | (if w[1] then 2 else 0) | (if w[2] then 4 else 0) | (if w[3] then 8 else 0) |
    (if w[4] then 16 else 0) | (if w[5] then 32 else 0) | (if w[6] then 64 else 0) | (if w[7] then 128 else 0)
  }

  /** `w >> 8`. */
  function Right8(w: Word): Word { seq(64, i requires 0 <= i < 64 => i + 8 < 64 && w[i + 8]) }

  function Mask8(w: Word): Word { seq(64, i requires 0 <= i < 64 => i < 8 && w[i]) }

  function Upper(w: Word): Word { seq(64, i requires 0 <= i < 64 => i >= 8 && w[i]) }

  lemma Low8Bits(w: Word)
    ensures Bits(Low8(w) as bv32) == Mask8(w)
  {
  }

  lemma {:induction false} ShiftsUp(w: Word, n: nat)
    requires n <= 64 && forall i :: 0 <= i < n ==> !w[i]
    ensures forall i :: 0 <= i < 64 ==> Shifts(OPS, w, n)[i] == (i + n < 64 && w[i + n])
    decreases n
  {
    if n > 0 {
      ShiftsUp(Shift(w), n - 1);
    }
  }

  lemma {:induction false} DownsAt(w: Word, n: nat)
    ensures forall i :: 0 <= i < 64 ==> Downs(OPS, w, n)[i] == (i + n < 64 && w[i + n])
    decreases n
  {
    if n > 0 {
      DownsAt(Down(w), n - 1);
    }
  }

  lemma DownsOctet(b: Octet)
    ensures Downs(OPS, b, BYTE) == Zero()
  {
    DownsAt(b, BYTE);
  }

  lemma XorZero(w: Word)
    ensures Xor(w, Zero()) == w
  {
  }

  lemma XorSwap(r: Word, q: Word, x: Word, y: Word)
    ensures Xor(Xor(r, q), Xor(x, y)) == Xor(Xor(r, x), Xor(q, y))
  {
  }

  /** A byte fed bit by bit is a byte xored in and shifted through. */
  lemma FeedByteShifts(r: Word, b: Octet)
    ensures FeedByte(r, b) == Shifts(OPS, Xor(r, b), BYTE)
  {
    IsRegister();
    FeedIsShift(OPS, r, b, BYTE);
    DownsOctet(b);
    XorZero(FeedByte(r, b));
  }

  lemma ShiftsUpper(x: Word)
    ensures Shifts(OPS, Upper(x), BYTE) == Right8(x)
  {
    ShiftsUp(Upper(x), BYTE);
  }

  /** Shifting a byte through is one table lookup and moving the rest down. */
  lemma ShiftByTable(x: Word)
    ensures Shifts(OPS, x, BYTE) == Xor(Bits(Table(Low8(x))), Right8(x))
  {
    IsRegister();
    assert x == Xor(Mask8(x), Upper(x));
    ShiftsLinear(OPS, Mask8(x), Upper(x), BYTE);
    ShiftsUpper(x);
    Low8Bits(x);
    TableWord(Low8(x));
  }

  /** `crc32_tab[(r ^ b) & 0xff] ^ (r >> 8)`. */
  function TableFeed(r: Word, b: Word): Word { Xor(Bits(Table(Low8(Xor(r, b)))), Right8(r)) }

  /** One table lookup is eight steps of the register. */
  lemma TableStep(r: Word, b: Octet)
    ensures TableFeed(r, b) == FeedByte(r, b)
  {
    FeedByteShifts(r, b);
    ShiftByTable(Xor(r, b));
    assert Right8(Xor(r, b)) == Right8(r);
  }

  /** The loop body. */
  method Update(r: Word, b: Octet) returns (crc: Word)
    ensures crc == FeedByte(r, b)
  {
    TableStep(r, b);
    crc := TableFeed(r, b);
  }

  /** The table-driven loop computes the bit-serial register. */
  method Crc32(s: seq<Octet>) returns (crc: Word)
    ensures crc == Serial(s)
  {
    crc := Zero();
    for i := 0 to |s|
      invariant crc == Prefix(s, i)
    {
      crc := Update(crc, s[i]);
    }
  }

  // ---- What the register has: 32 bits, linearity, no collisions within 32 bits ----

  lemma {:induction false} ShiftsFit(w: Word, n: nat)
    requires Fits32(w)
    ensures Fits32(Shifts(OPS, w, n))
    decreases n
  {
    if n > 0 {
      ShiftsFit(Shift(w), n - 1);
    }
  }

  lemma PrefixFits(s: seq<Octet>, n: nat)
    requires n <= |s|
    ensures Fits32(Prefix(s, n))
  {
    KeepsFits(s);
    AfterKeeps<Word>(FeedByte, Zero(), s, n, Fits32);
  }

  lemma KeepsFits(s: seq<Octet>)
    ensures forall r: Word, j :: 0 <= j < |s| ==> KeepsAt<Word>(FeedByte, Fits32, r, s[j])
  {
    forall r: Word, j | 0 <= j < |s| ensures KeepsAt<Word>(FeedByte, Fits32, r, s[j]) {
      FeedFits(r, s[j]);
    }
  }

  lemma FeedFits(r: Word, b: Octet)
    ensures Fits32(r) ==> Fits32(FeedByte(r, b))
  {
    if Fits32(r) {
      FeedByteShifts(r, b);
      ShiftsFit(Xor(r, b), BYTE);
    }
  }

  /** The CRC never reaches 2^32. */
  lemma SerialFits(s: seq<Octet>)
    ensures Fits32(Serial(s))
  {
    PrefixFits(s, |s|);
  }

  function XorOctet(x: Octet, y: Octet): Octet { Xor(x, y) }

  function XorBytes(a: seq<Octet>, b: seq<Octet>): (c: seq<Octet>)
    requires |a| == |b|
    ensures |c| == |a|
  {
    seq(|a|, i requires 0 <= i < |a| => XorOctet(a[i], b[i]))
  }

  lemma FeedXor(r: Word, x: Octet, q: Word, y: Octet)
    ensures FeedByte(Xor(r, q), XorOctet(x, y)) == Xor(FeedByte(r, x), FeedByte(q, y))
  {
    FeedByteShifts(Xor(r, q), XorOctet(x, y));
    FeedByteShifts(r, x);
    FeedByteShifts(q, y);
    XorSwap(r, q, x, y);
    IsRegister();
    ShiftsLinear(OPS, Xor(r, x), Xor(q, y), BYTE);
  }

  /** The CRC is linear: messages of equal length xored byte by byte xor their CRCs. */
  lemma SerialLinear(a: seq<Octet>, b: seq<Octet>)
    requires |a| == |b|
    ensures Serial(XorBytes(a, b)) == Xor(Serial(a), Serial(b))
  {
    forall r: Word, q: Word, i | 0 <= i < |a| ensures FeedXorAt<Word>(FeedByte, Xor, r, a[i], q, b[i]) {
      FeedXor(r, a[i], q, b[i]);
    }
    XorZero(Zero());
    AfterLinear<Word>(FeedByte, Xor, Zero(), a, b, XorBytes(a, b), |a|);
  }

  lemma {:induction false} ShiftsKernel(w: Word, n: nat)
    requires Fits32(w) && Shifts(OPS, w, n) == Zero()
    ensures w == Zero()
    decreases n
  {
    if n > 0 {
      ShiftsFit(w, 1);
      ShiftsKernel(Shift(w), n - 1);
      assert BitAt(POLY, 31) && !Shift(w)[31];
      forall i | 1 <= i < 64 ensures !w[i] {
        assert !Shift(w)[i - 1];
      }
    }
  }

  /** `b` placed `k` bytes up. */
  function Place(b: Octet, k: nat): Word
    requires k <= 4
  {
    seq(64, i requires 0 <= i < 64 => i >= 8 * k && b[i - 8 * k])
  }

  lemma PlaceShifts(b: Octet, k: nat)
    requires k <= 4
    ensures Shifts(OPS, Place(b, k), 8 * k) == b
  {
    ShiftsUp(Place(b, k), 8 * k);
  }

  function Placed(d: seq<Octet>, p: nat, m: nat): (o: seq<Word>)
    requires m <= 5 && p + m <= |d|
    ensures |o| == m && forall j :: 0 <= j < m ==> o[j] == Place(d[p + j], j)
  {
    if m == 0 then [] else Placed(d, p, m - 1) + [Place(d[p + m - 1], m - 1)]
  }

  lemma Wholes(d: seq<Octet>)
    ensures forall r: Word, j :: 0 <= j < |d| ==> WholeAt<Word>(OPS, FeedByte, r, d[j])
  {
    forall r: Word, j | 0 <= j < |d| ensures WholeAt<Word>(OPS, FeedByte, r, d[j]) {
      FeedByteShifts(r, d[j]);
    }
  }

  /** At most five bytes after a zero prefix act as one word. */
  lemma PrefixWindow(d: seq<Octet>, p: nat, m: nat)
    requires m <= 5 && p + m <= |d| && Prefix(d, p) == Zero()
    ensures Prefix(d, p + m) == Shifts(OPS, Joined(OPS, Zero(), Placed(d, p, m), m), 8 * m)
  {
    IsRegister();
    Wholes(d);
    var placed := Placed(d, p, m);
    forall j | 0 <= j < m ensures Shifts(OPS, placed[j], 8 * j) == d[p + j] {
      PlaceShifts(d[p + j], j);
    }
    AfterIsShifts<Word>(OPS, FeedByte, Zero(), d, p, placed, m);
  }

  /** Bit `8j + i` of the joined bytes is bit `i` of byte `j`. */
  ghost predicate JoinsAt(w: Word, d: seq<Octet>, p: nat, k: nat)
    requires k <= 5 && p + k <= |d|
  {
    forall i :: 0 <= i < 64 ==> w[i] == (i / 8 < k && d[p + i / 8][i % 8])
  }

  lemma {:induction false} JoinedBits(d: seq<Octet>, p: nat, m: nat, k: nat)
    requires k <= m <= 5 && p + m <= |d|
    ensures JoinsAt(Joined(OPS, Zero(), Placed(d, p, m), k), d, p, k)
  {
    if k > 0 {
      JoinedBits(d, p, m, k - 1);
      JoinPlace(Joined(OPS, Zero(), Placed(d, p, m), k - 1), d, p, k - 1);
    }
  }

  lemma JoinPlace(w: Word, d: seq<Octet>, p: nat, k: nat)
    requires k < 5 && p + k < |d| && JoinsAt(w, d, p, k)
    ensures JoinsAt(Xor(w, Place(d[p + k], k)), d, p, k + 1)
  {
  }

  lemma FeedZero(r: Word)
    ensures FeedByte(r, Zero()) == Shifts(OPS, r, BYTE)
    ensures r == Zero() ==> Shifts(OPS, r, BYTE) == Zero()
  {
    FeedByteShifts(r, Zero());
    XorZero(r);
    ShiftsUp(Zero(), BYTE);
  }

  ghost predicate ZeroBetween(d: seq<Octet>, a: nat, b: nat)
    requires a <= b <= |d|
  {
    forall i :: a <= i < b ==> d[i] == Zero()
  }

  lemma ZeroSuffix(d: seq<Octet>, n: nat)
    requires n <= |d| && ZeroBetween(d, n, |d|) && Serial(d) == Zero()
    ensures Prefix(d, n) == Zero()
  {
    forall r: Word ensures KernelAt<Word>(FeedByte, Zero(), Fits32, r) {
      FeedKernel(r);
    }
    KeepsFits(d);
    BeforeZeros<Word>(FeedByte, Zero(), d, n, |d|, Fits32);
  }

  lemma FeedKernel(r: Word)
    ensures Fits32(r) && FeedByte(r, Zero()) == Zero() ==> r == Zero()
  {
    FeedZero(r);
    if Fits32(r) && Shifts(OPS, r, BYTE) == Zero() {
      ShiftsKernel(r, BYTE);
    }
  }

  lemma ZeroPrefix(d: seq<Octet>, p: nat)
    requires p <= |d| && ZeroBetween(d, 0, p)
    ensures Prefix(d, p) == Zero()
  {
    FeedZero(Zero());
    AfterZeros<Word>(FeedByte, Zero(), d, p);
  }

  /** All bits that are set lie within 32 consecutive ones from bit `s` on, counted as they are fed. */
  ghost predicate Within(d: seq<Octet>, s: nat) {
    forall q, i :: 0 <= q < |d| && 0 <= i < 8 && d[q][i] ==> s <= 8 * q + i < s + 32
  }

  lemma ZeroOutside(d: seq<Octet>, s: nat, q: nat)
    requires Within(d, s) && q < |d| && (8 * q + 8 <= s || s + 32 <= 8 * q)
    ensures d[q] == Zero()
  {
    var b := d[q];
    forall i | 0 <= i < 8 ensures !b[i] {
      assert b[i] ==> s <= 8 * q + i < s + 32;
    }
  }

  lemma ZeroByte(w: Word, d: seq<Octet>, p: nat, m: nat, j: nat)
    requires m <= 5 && p + m <= |d| && j < m && w == Zero() && JoinsAt(w, d, p, m)
    ensures d[p + j] == Zero()
  {
    var b := d[p + j];
    forall i | 0 <= i < 8 ensures !b[i] {
      assert (8 * j + i) / 8 == j && (8 * j + i) % 8 == i;
      assert !w[8 * j + i];
    }
  }

  /** All bits of `w` that are set lie within 32 consecutive ones from bit `o` on. */
  ghost predicate Narrow(w: Word, o: nat) { forall i :: 0 <= i < 64 && w[i] ==> o <= i < o + 32 }

  lemma JoinedNarrow(w: Word, d: seq<Octet>, p: nat, m: nat, s: nat)
    requires m <= 5 && p + m <= |d| && JoinsAt(w, d, p, m) && Within(d, s) && 8 * p <= s
    ensures Narrow(w, s - 8 * p)
  {
    forall i | 0 <= i < 64 && w[i] ensures s - 8 * p <= i < s - 8 * p + 32 {
      var q, k := p + i / 8, i % 8;
      assert d[q][k];
      assert 8 * q + k == 8 * p + i;
    }
  }

  /** `v` is `w` moved down by `o` bits. */
  ghost predicate MovedDown(v: Word, w: Word, o: nat) { forall i :: 0 <= i < 64 ==> v[i] == (i + o < 64 && w[i + o]) }

  lemma NarrowFits(v: Word, w: Word, o: nat)
    requires Narrow(w, o) && MovedDown(v, w, o)
    ensures Fits32(v)
  {
  }

  lemma NarrowZero(v: Word, w: Word, o: nat)
    requires Narrow(w, o) && MovedDown(v, w, o) && v == Zero()
    ensures w == Zero()
  {
    forall i | 0 <= i < 64 ensures !w[i] {
      assert i >= o ==> !v[i - o];
    }
  }

  lemma ShiftsUpMoved(w: Word, o: nat)
    requires o < 8 && Narrow(w, o)
    ensures MovedDown(Shifts(OPS, w, o), w, o)
  {
    ShiftsUp(w, o);
  }

  lemma NarrowDown(w: Word, o: nat, n: nat) returns (v: Word)
    requires o <= n && o < 8 && Narrow(w, o)
    ensures MovedDown(v, w, o) && Shifts(OPS, v, n - o) == Shifts(OPS, w, n)
  {
    v := Shifts(OPS, w, o);
    ShiftsUpMoved(w, o);
    ShiftsAdd(OPS, w, o, n - o);
  }

  /** Shifting does not turn 32 bits at a low offset into zero. */
  lemma NarrowKernel(w: Word, o: nat, n: nat)
    requires o <= n && o < 8 && Narrow(w, o) && Shifts(OPS, w, n) == Zero()
    ensures w == Zero()
  {
    var v := NarrowDown(w, o, n);
    NarrowFits(v, w, o);
    ShiftsKernel(v, n - o);
    NarrowZero(v, w, o);
  }

  /** If the bytes around a burst, after a zero prefix, leave the register at zero, they are zero. */
  lemma WindowKernel(d: seq<Octet>, p: nat, m: nat, j: nat, s: nat)
    requires m <= 5 && p + m <= |d| && j < m && Within(d, s) && 8 * p <= s < 8 * p + 8
    requires Prefix(d, p) == Zero() && Prefix(d, p + m) == Zero()
    ensures d[p + j] == Zero()
  {
    var w := Joined(OPS, Zero(), Placed(d, p, m), m);
    JoinedBits(d, p, m, m);
    JoinedNarrow(w, d, p, m, s);
    PrefixWindow(d, p, m);
    NarrowKernel(w, s - 8 * p, 8 * m);
    ZeroByte(w, d, p, m, j);
  }

  lemma PrefixWindowZero(d: seq<Octet>, p: nat, m: nat, j: nat, s: nat)
    requires m <= 5 && p + m <= |d| && j < m && Within(d, s) && 8 * p <= s < 8 * p + 8
    requires ZeroBetween(d, 0, p) && Prefix(d, p + m) == Zero()
    ensures d[p + j] == Zero()
  {
    ZeroPrefix(d, p);
    WindowKernel(d, p, m, j, s);
  }

  lemma BurstWindow(d: seq<Octet>, s: nat, p: nat, m: nat)
    requires Within(d, s) && p == s / 8 && p + m <= |d| && (m == 5 || p + m == |d|)
    ensures ZeroBetween(d, 0, p) && ZeroBetween(d, p + m, |d|)
  {
    forall q | 0 <= q < |d| && (q < p || p + m <= q) ensures d[q] == Zero() {
      ZeroOutside(d, s, q);
    }
  }

  /** A message whose set bits lie within 32 consecutive ones and whose CRC is zero is zero. */
  lemma BurstZero(d: seq<Octet>, s: nat, q: nat)
    requires Within(d, s) && Serial(d) == Zero() && q < |d|
    ensures d[q] == Zero()
  {
    var p := s / 8;
    if q < p || p + 5 <= q {
      ZeroOutside(d, s, q);
    } else {
      var m := if p + 5 <= |d| then 5 else |d| - p;
      BurstWindow(d, s, p, m);
      ZeroSuffix(d, p + m);
      PrefixWindowZero(d, p, m, q - p, s);
    }
  }

  /** Outside 32 consecutive bits from bit `s` on, counted as they are fed, the two messages agree. */
  ghost predicate DifferWithin(a: seq<Octet>, b: seq<Octet>, s: nat)
    requires |a| == |b|
  {
    forall q, i :: 0 <= q < |a| && 0 <= i < 8 && a[q][i] != b[q][i] ==> s <= 8 * q + i < s + 32
  }

  lemma XorWithin(a: seq<Octet>, b: seq<Octet>, s: nat)
    requires |a| == |b| && DifferWithin(a, b, s)
    ensures Within(XorBytes(a, b), s)
  {
  }

  /** Equally long keys that differ only within 32 consecutive bits, at any offset, never have the same CRC. */
  lemma BurstsDetected(a: seq<Octet>, b: seq<Octet>, s: nat)
    requires |a| == |b| && DifferWithin(a, b, s)
    ensures Serial(a) == Serial(b) <==> a == b
  {
    if Serial(a) == Serial(b) {
      BurstEqual(a, b, s);
    }
  }

  lemma BurstEqual(a: seq<Octet>, b: seq<Octet>, s: nat)
    requires |a| == |b| && DifferWithin(a, b, s) && Serial(a) == Serial(b)
    ensures a == b
  {
    var d := XorBytes(a, b);
    XorWithin(a, b, s);
    SerialLinear(a, b);
    XorSame(Serial(a), Serial(b));
    forall q | 0 <= q < |a| ensures a[q] == b[q] {
      BurstZero(d, s, q);
      XorSame(a[q], b[q]);
    }
  }

  lemma XorSame(x: Word, y: Word)
    ensures Xor(x, y) == Zero() <==> x == y
  {
    if Xor(x, y) == Zero() {
      forall i | 0 <= i < 64 ensures x[i] == y[i] {
        assert !Xor(x, y)[i];
      }
    }
  }
}
