/** The MD5 message digest as RFC 1321 defines it: padding (sections 3.1 and 3.2), initial
    buffer (3.3), the four rounds driven by tables (3.4) and the output order (3.5).
    This is the reference that Md5.dfy is proved against; nothing here is taken from md5.c. */
module Md5Spec {

  type Byte = x: int | 0 <= x < 256
  type Word = x: int | 0 <= x < TWO32

  const TWO32: int := 0x1_0000_0000
  const TWO64: int := 0x1_0000_0000_0000_0000

  // ---- words and bytes, low-order byte first (section 2) ----

  function WordOf(b: seq<Byte>): Word
    requires |b| == 4
  {
    b[0] as int + 0x100 * b[1] as int + 0x1_0000 * b[2] as int + 0x100_0000 * b[3] as int
  }

  function WordsOf(block: seq<Byte>): (x: seq<Word>)
    requires |block| == 64
    ensures |x| == 16
  {
    seq(16, k requires 0 <= k < 16 => WordOf(block[4 * k..4 * k + 4]))
  }

  // The 'count' low-order bytes of v, low-order byte first.
  function LittleEndian(v: nat, count: nat): (b: seq<Byte>)
    ensures |b| == count
  {
    if count == 0 then [] else [v % 256] + LittleEndian(v / 256, count - 1)
  }

  // A word as 32 bits, for the bitwise operations only.
  function Bits(x: Word): bv32 { x as bv32 }
  function Int(b: bv32): Word { b as int }

  // ---- section 3.4: auxiliary functions, tables and the 64 operations ----

  function F(x: Word, y: Word, z: Word): Word { Int((Bits(x) & Bits(y)) | (!Bits(x) & Bits(z))) }
  function G(x: Word, y: Word, z: Word): Word { Int((Bits(x) & Bits(z)) | (Bits(y) & !Bits(z))) }
  function H(x: Word, y: Word, z: Word): Word { Int(Bits(x) ^ Bits(y) ^ Bits(z)) }
  function I(x: Word, y: Word, z: Word): Word { Int(Bits(y) ^ (Bits(x) | !Bits(z))) }

  // T[i + 1] of section 3.4, the operations being counted from 0 here.
  function Sine(i: nat): Word
    requires i < 64
  {
    if i < 16 then Sine1(i)
    else if i < 32 then Sine2(i - 16)
    else if i < 48 then Sine3(i - 32)
    else Sine4(i - 48)
  }

  function Sine1(j: nat): Word
    requires j < 16
  {
    match j
    case 0 => 0xd76aa478 case 1 => 0xe8c7b756 case 2 => 0x242070db case 3 => 0xc1bdceee
    case 4 => 0xf57c0faf case 5 => 0x4787c62a case 6 => 0xa8304613 case 7 => 0xfd469501
    case 8 => 0x698098d8 case 9 => 0x8b44f7af case 10 => 0xffff5bb1 case 11 => 0x895cd7be
    case 12 => 0x6b901122 case 13 => 0xfd987193 case 14 => 0xa679438e case _ => 0x49b40821
  }

  function Sine2(j: nat): Word
    requires j < 16
  {
    match j
    case 0 => 0xf61e2562 case 1 => 0xc040b340 case 2 => 0x265e5a51 case 3 => 0xe9b6c7aa
    case 4 => 0xd62f105d case 5 => 0x02441453 case 6 => 0xd8a1e681 case 7 => 0xe7d3fbc8
    case 8 => 0x21e1cde6 case 9 => 0xc33707d6 case 10 => 0xf4d50d87 case 11 => 0x455a14ed
    case 12 => 0xa9e3e905 case 13 => 0xfcefa3f8 case 14 => 0x676f02d9 case _ => 0x8d2a4c8a
  }

  function Sine3(j: nat): Word
    requires j < 16
  {
    match j
    case 0 => 0xfffa3942 case 1 => 0x8771f681 case 2 => 0x6d9d6122 case 3 => 0xfde5380c
    case 4 => 0xa4beea44 case 5 => 0x4bdecfa9 case 6 => 0xf6bb4b60 case 7 => 0xbebfbc70
    case 8 => 0x289b7ec6 case 9 => 0xeaa127fa case 10 => 0xd4ef3085 case 11 => 0x04881d05
    case 12 => 0xd9d4d039 case 13 => 0xe6db99e5 case 14 => 0x1fa27cf8 case _ => 0xc4ac5665
  }

  function Sine4(j: nat): Word
    requires j < 16
  {
    match j
    case 0 => 0xf4292244 case 1 => 0x432aff97 case 2 => 0xab9423a7 case 3 => 0xfc93a039
    case 4 => 0x655b59c3 case 5 => 0x8f0ccc92 case 6 => 0xffeff47d case 7 => 0x85845dd1
    case 8 => 0x6fa87e4f case 9 => 0xfe2ce6e0 case 10 => 0xa3014314 case 11 => 0x4e0811a1
    case 12 => 0xf7537e82 case 13 => 0xbd3af235 case 14 => 0x2ad7d2bb case _ => 0xeb86d391
  }

  function Shift(i: nat): (s: nat)
    requires i < 64
    ensures 4 <= s <= 23
  {
    var j := i % 4;
    if i < 16 then Pick(j, 7, 12, 17, 22)
    else if i < 32 then Pick(j, 5, 9, 14, 20)
    else if i < 48 then Pick(j, 4, 11, 16, 23)
    else Pick(j, 6, 10, 15, 21)
  }

  function Pick(j: nat, w: nat, x: nat, y: nat, z: nat): nat {
    if j == 0 then w else if j == 1 then x else if j == 2 then y else z
  }

  // Which message word operation i reads.
  function Index(i: nat): (k: nat)
    requires i < 64
    ensures k < 16
  {
    if i < 16 then i
    else if i < 32 then (5 * i + 1) % 16
    else if i < 48 then (3 * i + 5) % 16
    else (7 * i) % 16
  }

  function Auxiliary(i: nat, x: Word, y: Word, z: Word): Word {
    if i < 16 then F(x, y, z)
    else if i < 32 then G(x, y, z)
    else if i < 48 then H(x, y, z)
    else I(x, y, z)
  }

  // Addition of words, modulo 2^32.
  function Plus(x: Word, y: Word): Word {
    if x + y < TWO32 then x + y else x + y - TWO32
  }

  // X <<< s
  function CircularShift(x: Word, s: nat): Word
    requires s <= 32
  {
    Int(Bits(x).RotateLeft(s))
  }

  // The new value of register a in operation [abcd k s i].
  function Operation(i: nat, a: Word, b: Word, c: Word, d: Word, xk: Word): Word
    requires i < 64
  {
    Plus(b, CircularShift(Plus(Plus(Plus(a, Auxiliary(i, b, c, d)), xk), Sine(i)), Shift(i)))
  }

  // Registers A, B, C, D after the first n of the 64 operations on block x; the register
  // roles step ABCD, DABC, CDAB, BCDA.
  function Rounds(n: nat, r: seq<Word>, x: seq<Word>): (r': seq<Word>)
    requires n <= 64 && |r| == 4 && |x| == 16
    ensures |r'| == 4
  {
    if n == 0 then r else
      var s := Rounds(n - 1, r, x);
      var p := (65 - n) % 4;
      s[p := Operation(n - 1, s[p], s[(p + 1) % 4], s[(p + 2) % 4], s[(p + 3) % 4], x[Index(n - 1)])]
  }

  function Compress(r: seq<Word>, x: seq<Word>): (r': seq<Word>)
    requires |r| == 4 && |x| == 16
    ensures |r'| == 4
  {
    var s := Rounds(64, r, x);
    [Plus(r[0], s[0]), Plus(r[1], s[1]), Plus(r[2], s[2]), Plus(r[3], s[3])]
  }

  // ---- sections 3.1, 3.2, 3.3 and 3.5 ----

  const INITIAL: seq<Word> := [0x67452301, 0xefcdab89, 0x98badcfe, 0x10325476]

  // The chaining value after all whole blocks of 'bytes'.
  function Chain(r: seq<Word>, bytes: seq<Byte>): (r': seq<Word>)
    requires |r| == 4
    ensures |r'| == 4
    decreases |bytes|
  {
    if |bytes| < 64 then r else Chain(Compress(r, WordsOf(bytes[..64])), bytes[64..])
  }

  function Zeros(n: nat): (z: seq<Byte>)
    ensures |z| == n
  {
    seq(n, _ => 0)
  }

  // The bits "1", "0"*, then the bit length as 64 bits, added to a message of n bytes.
  function Padding(n: nat): (p: seq<Byte>)
  {
    [0x80] + Zeros((119 - n % 64) % 64) + LittleEndian(8 * n % TWO64, 8)
  }

  function DigestOf(r: seq<Word>): (d: seq<Byte>)
    requires |r| == 4
    ensures |d| == 16
  {
    LittleEndian(r[0], 4) + LittleEndian(r[1], 4) + LittleEndian(r[2], 4) + LittleEndian(r[3], 4)
  }

  function Digest(message: seq<Byte>): (d: seq<Byte>)
    ensures |d| == 16
  {
    DigestOf(Chain(INITIAL, message + Padding(|message|)))
  }
}
