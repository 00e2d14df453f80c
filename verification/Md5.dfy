/** md5.c: the streaming implementation, on a context that is updated in place.
    Machine words are numbers below 2^32 with the wrap-around written out; only the bitwise
    operations go through bv32. The host is little-endian, so byteReverse does nothing and the
    cast of 'in' to uint32_t[16] reads each word low-order byte first. */
module Md5 {
  import opened Md5Spec

  // ---- MD5Transform ----

  lemma XorMux(x: bv32, y: bv32, z: bv32)
    ensures z ^ (x & (y ^ z)) == (x & y) | (!x & z)
    ensures z ^ (x & (y ^ z)) == (y & x) | (z & !x)
  {
  }

  function F1(x: Word, y: Word, z: Word): (w: Word)
    ensures w == F(x, y, z)
  {
    XorMux(Bits(x), Bits(y), Bits(z));
    Int(Bits(z) ^ (Bits(x) & (Bits(y) ^ Bits(z))))
  }

  function F2(x: Word, y: Word, z: Word): (w: Word)
    ensures w == G(x, y, z)
  {
    XorMux(Bits(z), Bits(x), Bits(y));
    F1(z, x, y)
  }

  function F3(x: Word, y: Word, z: Word): (w: Word)
    ensures w == H(x, y, z)
  {
    Int(Bits(x) ^ Bits(y) ^ Bits(z))
  }

  function F4(x: Word, y: Word, z: Word): (w: Word)
    ensures w == I(x, y, z)
  {
    Int(Bits(y) ^ (Bits(x) | !Bits(z)))
  }

  function Rotate(w: Word, s: nat): Word
    requires s <= 32
  {
    Int((Bits(w) << s) | (Bits(w) >> (32 - s)))
  }

  lemma RotateLiteral(w: bv32)
    ensures (w << 4) | (w >> 28) == w.RotateLeft(4)
    ensures (w << 5) | (w >> 27) == w.RotateLeft(5)
    ensures (w << 6) | (w >> 26) == w.RotateLeft(6)
    ensures (w << 7) | (w >> 25) == w.RotateLeft(7)
    ensures (w << 9) | (w >> 23) == w.RotateLeft(9)
    ensures (w << 10) | (w >> 22) == w.RotateLeft(10)
    ensures (w << 11) | (w >> 21) == w.RotateLeft(11)
    ensures (w << 12) | (w >> 20) == w.RotateLeft(12)
    ensures (w << 14) | (w >> 18) == w.RotateLeft(14)
    ensures (w << 15) | (w >> 17) == w.RotateLeft(15)
    ensures (w << 16) | (w >> 16) == w.RotateLeft(16)
    ensures (w << 17) | (w >> 15) == w.RotateLeft(17)
    ensures (w << 20) | (w >> 12) == w.RotateLeft(20)
    ensures (w << 21) | (w >> 11) == w.RotateLeft(21)
    ensures (w << 22) | (w >> 10) == w.RotateLeft(22)
    ensures (w << 23) | (w >> 9) == w.RotateLeft(23)
  {
  }

  lemma RotateTable(w: Word)
    ensures Rotate(w, 4) == CircularShift(w, 4) && Rotate(w, 5) == CircularShift(w, 5)
    ensures Rotate(w, 6) == CircularShift(w, 6) && Rotate(w, 7) == CircularShift(w, 7)
    ensures Rotate(w, 9) == CircularShift(w, 9) && Rotate(w, 10) == CircularShift(w, 10)
    ensures Rotate(w, 11) == CircularShift(w, 11) && Rotate(w, 12) == CircularShift(w, 12)
    ensures Rotate(w, 14) == CircularShift(w, 14) && Rotate(w, 15) == CircularShift(w, 15)
    ensures Rotate(w, 16) == CircularShift(w, 16) && Rotate(w, 17) == CircularShift(w, 17)
    ensures Rotate(w, 20) == CircularShift(w, 20) && Rotate(w, 21) == CircularShift(w, 21)
    ensures Rotate(w, 22) == CircularShift(w, 22) && Rotate(w, 23) == CircularShift(w, 23)
  {
    RotateLiteral(Bits(w));
  }

  // The shift-and-or of MD5STEP is the circular shift, for every amount in the table.
  lemma RotateIsCircularShift(w: Word, n: nat)
    requires n < 64
    ensures Rotate(w, Shift(n)) == CircularShift(w, Shift(n))
  {
    hide Rotate, CircularShift;
    RotateTable(w);
  }

  // a, b, c, d are the registers after n operations, in the roles operation n gives them.
  ghost predicate InRoles(n: nat, r: seq<Word>, m: seq<Word>, a: Word, b: Word, c: Word, d: Word)
    requires n <= 64 && |r| == 4 && |m| == 16
  {
    var s := Rounds(n, r, m);
    var p := (64 - n) % 4;
    a == s[p] && b == s[(p + 1) % 4] && c == s[(p + 2) % 4] && d == s[(p + 3) % 4]
  }

  // The additions of MD5STEP, in its order and in the order of the RFC.
  lemma PlusOrder(w: Word, f: Word, x: Word, k: Word)
    ensures Plus(w, Plus(f, Plus(x, k))) == Plus(Plus(Plus(w, f), x), k)
  {
  }

  lemma PlusCommutes(x: Word, y: Word)
    ensures Plus(x, y) == Plus(y, x)
  {
  }

  lemma StepIsOperation(n: nat, w: Word, x: Word, y: Word, z: Word, xk: Word)
    requires n < 64
    ensures Plus(Rotate(Plus(w, Plus(Auxiliary(n, x, y, z), Plus(xk, Sine(n)))), Shift(n)), x)
         == Operation(n, w, x, y, z, xk)
  {
    hide Rotate, CircularShift, Auxiliary, Sine, Shift, Plus;
    var v := Plus(w, Plus(Auxiliary(n, x, y, z), Plus(xk, Sine(n))));
    RotateIsCircularShift(v, n);
    PlusOrder(w, Auxiliary(n, x, y, z), xk, Sine(n));
    PlusCommutes(Rotate(v, Shift(n)), x);
  }

  lemma InRolesStep(n: nat, r: seq<Word>, m: seq<Word>, a: Word, b: Word, c: Word, d: Word)
    requires n < 64 && |r| == 4 && |m| == 16
    requires InRoles(n, r, m, a, b, c, d)
    ensures InRoles(n + 1, r, m, d, Operation(n, a, b, c, d, m[Index(n)]), b, c)
  {
    hide Operation, Index;
    if n % 4 == 0 {
      assert (64 - n) % 4 == 0;
    } else if n % 4 == 1 {
      assert (64 - n) % 4 == 3;
    } else if n % 4 == 2 {
      assert (64 - n) % 4 == 2;
    } else {
      assert (64 - n) % 4 == 1;
    }
  }

  lemma InRolesStart(r: seq<Word>, m: seq<Word>)
    requires |r| == 4 && |m| == 16
    ensures InRoles(0, r, m, r[0], r[1], r[2], r[3])
  {
  }

  lemma InRolesEnd(r: seq<Word>, m: seq<Word>, a: Word, b: Word, c: Word, d: Word)
    requires |r| == 4 && |m| == 16
    requires InRoles(64, r, m, a, b, c, d)
    ensures Rounds(64, r, m) == [a, b, c, d]
  {
    hide Rounds;
  }

  // MD5STEP as operation n of the table; f is the value of its function argument.
  method Md5Step(ghost n: nat, f: Word, w: Word, x: Word, ghost y: Word, ghost z: Word,
                 data: Word, s: nat, ghost r: seq<Word>, ghost m: seq<Word>)
    returns (w': Word)
    requires n < 64 && |r| == 4 && |m| == 16
    requires f == Auxiliary(n, x, y, z) && data == Plus(m[Index(n)], Sine(n)) && s == Shift(n)
    requires InRoles(n, r, m, w, x, y, z)
    ensures InRoles(n + 1, r, m, z, w', x, y)
  {
    hide Rotate, Plus, Auxiliary, Sine, InRoles, Operation, Index;
    StepIsOperation(n, w, x, y, z, m[Index(n)]);
    InRolesStep(n, r, m, w, x, y, z);
    w' := Plus(w, Plus(f, data));
    w' := Rotate(w', s);
    w' := Plus(w', x);
  }

  // The message words that the last three rounds read.
  lemma Indices2()
    ensures Index(16) == 1 && Index(17) == 6 && Index(18) == 11 && Index(19) == 0
    ensures Index(20) == 5 && Index(21) == 10 && Index(22) == 15 && Index(23) == 4
    ensures Index(24) == 9 && Index(25) == 14 && Index(26) == 3 && Index(27) == 8
    ensures Index(28) == 13 && Index(29) == 2 && Index(30) == 7 && Index(31) == 12
  {
  }

  lemma Indices3()
    ensures Index(32) == 5 && Index(33) == 8 && Index(34) == 11 && Index(35) == 14
    ensures Index(36) == 1 && Index(37) == 4 && Index(38) == 7 && Index(39) == 10
    ensures Index(40) == 13 && Index(41) == 0 && Index(42) == 3 && Index(43) == 6
    ensures Index(44) == 9 && Index(45) == 12 && Index(46) == 15 && Index(47) == 2
  {
  }

  lemma Indices4()
    ensures Index(48) == 0 && Index(49) == 7 && Index(50) == 14 && Index(51) == 5
    ensures Index(52) == 12 && Index(53) == 3 && Index(54) == 10 && Index(55) == 1
    ensures Index(56) == 8 && Index(57) == 15 && Index(58) == 6 && Index(59) == 13
    ensures Index(60) == 4 && Index(61) == 11 && Index(62) == 2 && Index(63) == 9
  {
  }

  // The body of MD5Transform, one method for each of its four blocks of sixteen steps.
  method Round1(a: Word, b: Word, c: Word, d: Word, m: seq<Word>, ghost r: seq<Word>)
    returns (a': Word, b': Word, c': Word, d': Word)
    requires |r| == 4 && |m| == 16 && InRoles(0, r, m, a, b, c, d)
    ensures InRoles(16, r, m, a', b', c', d')
  {
    hide F, G, H, I, F1, F2, F3, F4, InRoles, Rounds, Plus, Sine2, Sine3, Sine4;
    a', b', c', d' := a, b, c, d;
    a' := Md5Step(0, F1(b', c', d'), a', b', c', d', Plus(m[0], 0xd76aa478), 7, r, m);
    d' := Md5Step(1, F1(a', b', c'), d', a', b', c', Plus(m[1], 0xe8c7b756), 12, r, m);
    c' := Md5Step(2, F1(d', a', b'), c', d', a', b', Plus(m[2], 0x242070db), 17, r, m);
    b' := Md5Step(3, F1(c', d', a'), b', c', d', a', Plus(m[3], 0xc1bdceee), 22, r, m);
    a' := Md5Step(4, F1(b', c', d'), a', b', c', d', Plus(m[4], 0xf57c0faf), 7, r, m);
    d' := Md5Step(5, F1(a', b', c'), d', a', b', c', Plus(m[5], 0x4787c62a), 12, r, m);
    c' := Md5Step(6, F1(d', a', b'), c', d', a', b', Plus(m[6], 0xa8304613), 17, r, m);
    b' := Md5Step(7, F1(c', d', a'), b', c', d', a', Plus(m[7], 0xfd469501), 22, r, m);
    a' := Md5Step(8, F1(b', c', d'), a', b', c', d', Plus(m[8], 0x698098d8), 7, r, m);
    d' := Md5Step(9, F1(a', b', c'), d', a', b', c', Plus(m[9], 0x8b44f7af), 12, r, m);
    c' := Md5Step(10, F1(d', a', b'), c', d', a', b', Plus(m[10], 0xffff5bb1), 17, r, m);
    b' := Md5Step(11, F1(c', d', a'), b', c', d', a', Plus(m[11], 0x895cd7be), 22, r, m);
    a' := Md5Step(12, F1(b', c', d'), a', b', c', d', Plus(m[12], 0x6b901122), 7, r, m);
    d' := Md5Step(13, F1(a', b', c'), d', a', b', c', Plus(m[13], 0xfd987193), 12, r, m);
    c' := Md5Step(14, F1(d', a', b'), c', d', a', b', Plus(m[14], 0xa679438e), 17, r, m);
    b' := Md5Step(15, F1(c', d', a'), b', c', d', a', Plus(m[15], 0x49b40821), 22, r, m);
  }

  method Round2(a: Word, b: Word, c: Word, d: Word, m: seq<Word>, ghost r: seq<Word>)
    returns (a': Word, b': Word, c': Word, d': Word)
    requires |r| == 4 && |m| == 16 && InRoles(16, r, m, a, b, c, d)
    ensures InRoles(32, r, m, a', b', c', d')
  {
    hide Index, F, G, H, I, F1, F2, F3, F4, InRoles, Rounds, Plus, Sine1, Sine3, Sine4;
    Indices2();
    a', b', c', d' := a, b, c, d;
    a' := Md5Step(16, F2(b', c', d'), a', b', c', d', Plus(m[1], 0xf61e2562), 5, r, m);
    d' := Md5Step(17, F2(a', b', c'), d', a', b', c', Plus(m[6], 0xc040b340), 9, r, m);
    c' := Md5Step(18, F2(d', a', b'), c', d', a', b', Plus(m[11], 0x265e5a51), 14, r, m);
    b' := Md5Step(19, F2(c', d', a'), b', c', d', a', Plus(m[0], 0xe9b6c7aa), 20, r, m);
    a' := Md5Step(20, F2(b', c', d'), a', b', c', d', Plus(m[5], 0xd62f105d), 5, r, m);
    d' := Md5Step(21, F2(a', b', c'), d', a', b', c', Plus(m[10], 0x02441453), 9, r, m);
    c' := Md5Step(22, F2(d', a', b'), c', d', a', b', Plus(m[15], 0xd8a1e681), 14, r, m);
    b' := Md5Step(23, F2(c', d', a'), b', c', d', a', Plus(m[4], 0xe7d3fbc8), 20, r, m);
    a' := Md5Step(24, F2(b', c', d'), a', b', c', d', Plus(m[9], 0x21e1cde6), 5, r, m);
    d' := Md5Step(25, F2(a', b', c'), d', a', b', c', Plus(m[14], 0xc33707d6), 9, r, m);
    c' := Md5Step(26, F2(d', a', b'), c', d', a', b', Plus(m[3], 0xf4d50d87), 14, r, m);
    b' := Md5Step(27, F2(c', d', a'), b', c', d', a', Plus(m[8], 0x455a14ed), 20, r, m);
    a' := Md5Step(28, F2(b', c', d'), a', b', c', d', Plus(m[13], 0xa9e3e905), 5, r, m);
    d' := Md5Step(29, F2(a', b', c'), d', a', b', c', Plus(m[2], 0xfcefa3f8), 9, r, m);
    c' := Md5Step(30, F2(d', a', b'), c', d', a', b', Plus(m[7], 0x676f02d9), 14, r, m);
    b' := Md5Step(31, F2(c', d', a'), b', c', d', a', Plus(m[12], 0x8d2a4c8a), 20, r, m);
  }

  method Round3(a: Word, b: Word, c: Word, d: Word, m: seq<Word>, ghost r: seq<Word>)
    returns (a': Word, b': Word, c': Word, d': Word)
    requires |r| == 4 && |m| == 16 && InRoles(32, r, m, a, b, c, d)
    ensures InRoles(48, r, m, a', b', c', d')
  {
    hide Index, F, G, H, I, F1, F2, F3, F4, InRoles, Rounds, Plus, Sine1, Sine2, Sine4;
    Indices3();
    a', b', c', d' := a, b, c, d;
    a' := Md5Step(32, F3(b', c', d'), a', b', c', d', Plus(m[5], 0xfffa3942), 4, r, m);
    d' := Md5Step(33, F3(a', b', c'), d', a', b', c', Plus(m[8], 0x8771f681), 11, r, m);
    c' := Md5Step(34, F3(d', a', b'), c', d', a', b', Plus(m[11], 0x6d9d6122), 16, r, m);
    b' := Md5Step(35, F3(c', d', a'), b', c', d', a', Plus(m[14], 0xfde5380c), 23, r, m);
    a' := Md5Step(36, F3(b', c', d'), a', b', c', d', Plus(m[1], 0xa4beea44), 4, r, m);
    d' := Md5Step(37, F3(a', b', c'), d', a', b', c', Plus(m[4], 0x4bdecfa9), 11, r, m);
    c' := Md5Step(38, F3(d', a', b'), c', d', a', b', Plus(m[7], 0xf6bb4b60), 16, r, m);
    b' := Md5Step(39, F3(c', d', a'), b', c', d', a', Plus(m[10], 0xbebfbc70), 23, r, m);
    a' := Md5Step(40, F3(b', c', d'), a', b', c', d', Plus(m[13], 0x289b7ec6), 4, r, m);
    d' := Md5Step(41, F3(a', b', c'), d', a', b', c', Plus(m[0], 0xeaa127fa), 11, r, m);
    c' := Md5Step(42, F3(d', a', b'), c', d', a', b', Plus(m[3], 0xd4ef3085), 16, r, m);
    b' := Md5Step(43, F3(c', d', a'), b', c', d', a', Plus(m[6], 0x04881d05), 23, r, m);
    a' := Md5Step(44, F3(b', c', d'), a', b', c', d', Plus(m[9], 0xd9d4d039), 4, r, m);
    d' := Md5Step(45, F3(a', b', c'), d', a', b', c', Plus(m[12], 0xe6db99e5), 11, r, m);
    c' := Md5Step(46, F3(d', a', b'), c', d', a', b', Plus(m[15], 0x1fa27cf8), 16, r, m);
    b' := Md5Step(47, F3(c', d', a'), b', c', d', a', Plus(m[2], 0xc4ac5665), 23, r, m);
  }

  method Round4(a: Word, b: Word, c: Word, d: Word, m: seq<Word>, ghost r: seq<Word>)
    returns (a': Word, b': Word, c': Word, d': Word)
    requires |r| == 4 && |m| == 16 && InRoles(48, r, m, a, b, c, d)
    ensures InRoles(64, r, m, a', b', c', d')
  {
    hide Index, F, G, H, I, F1, F2, F3, F4, InRoles, Rounds, Plus, Sine1, Sine2, Sine3;
    Indices4();
    a', b', c', d' := a, b, c, d;
    a' := Md5Step(48, F4(b', c', d'), a', b', c', d', Plus(m[0], 0xf4292244), 6, r, m);
    d' := Md5Step(49, F4(a', b', c'), d', a', b', c', Plus(m[7], 0x432aff97), 10, r, m);
    c' := Md5Step(50, F4(d', a', b'), c', d', a', b', Plus(m[14], 0xab9423a7), 15, r, m);
    b' := Md5Step(51, F4(c', d', a'), b', c', d', a', Plus(m[5], 0xfc93a039), 21, r, m);
    a' := Md5Step(52, F4(b', c', d'), a', b', c', d', Plus(m[12], 0x655b59c3), 6, r, m);
    d' := Md5Step(53, F4(a', b', c'), d', a', b', c', Plus(m[3], 0x8f0ccc92), 10, r, m);
    c' := Md5Step(54, F4(d', a', b'), c', d', a', b', Plus(m[10], 0xffeff47d), 15, r, m);
    b' := Md5Step(55, F4(c', d', a'), b', c', d', a', Plus(m[1], 0x85845dd1), 21, r, m);
    a' := Md5Step(56, F4(b', c', d'), a', b', c', d', Plus(m[8], 0x6fa87e4f), 6, r, m);
    d' := Md5Step(57, F4(a', b', c'), d', a', b', c', Plus(m[15], 0xfe2ce6e0), 10, r, m);
    c' := Md5Step(58, F4(d', a', b'), c', d', a', b', Plus(m[6], 0xa3014314), 15, r, m);
    b' := Md5Step(59, F4(c', d', a'), b', c', d', a', Plus(m[13], 0x4e0811a1), 21, r, m);
    a' := Md5Step(60, F4(b', c', d'), a', b', c', d', Plus(m[4], 0xf7537e82), 6, r, m);
    d' := Md5Step(61, F4(a', b', c'), d', a', b', c', Plus(m[11], 0xbd3af235), 10, r, m);
    c' := Md5Step(62, F4(d', a', b'), c', d', a', b', Plus(m[2], 0x2ad7d2bb), 15, r, m);
    b' := Md5Step(63, F4(c', d', a'), b', c', d', a', Plus(m[9], 0xeb86d391), 21, r, m);
  }

  method MD5Transform(buf: array<Word>, m: seq<Word>)
    requires buf.Length == 4 && |m| == 16
    modifies buf
    ensures buf[..] == Compress(old(buf[..]), m)
  {
    hide InRoles, Rounds, Plus;
    ghost var r := buf[..];
    var a, b, c, d := buf[0], buf[1], buf[2], buf[3];
    InRolesStart(r, m);
    a, b, c, d := Round1(a, b, c, d, m, r);
    a, b, c, d := Round2(a, b, c, d, m, r);
    a, b, c, d := Round3(a, b, c, d, m, r);
    a, b, c, d := Round4(a, b, c, d, m, r);
    InRolesEnd(r, m, a, b, c, d);
    buf[0] := Plus(buf[0], a);
    buf[1] := Plus(buf[1], b);
    buf[2] := Plus(buf[2], c);
    buf[3] := Plus(buf[3], d);
  }

  // ---- lemmas about the chaining value and the bit counter ----

  lemma {:induction false} ChainAppend(r: seq<Word>, a: seq<Byte>, b: seq<Byte>)
    requires |r| == 4 && |a| % 64 == 0
    ensures Chain(r, a + b) == Chain(Chain(r, a), b)
    decreases |a|
  {
    hide Compress, WordsOf;
    if |a| == 0 {
      assert a + b == b;
    } else {
      assert (a + b)[..64] == a[..64];
      assert (a + b)[64..] == a[64..] + b;
      ChainAppend(Compress(r, WordsOf(a[..64])), a[64..], b);
    }
  }

  // One more whole block: the step that both Update and Final take.
  lemma ChainBlock(r: seq<Word>, a: seq<Byte>, block: seq<Byte>)
    requires |r| == 4 && |a| % 64 == 0 && |block| == 64
    ensures Chain(r, a + block) == Compress(Chain(r, a), WordsOf(block))
  {
    hide Chain, Compress, WordsOf;
    ChainAppend(r, a, block);
    ChainOne(Chain(r, a), block);
  }

  lemma ChainOne(r: seq<Word>, block: seq<Byte>)
    requires |r| == 4 && |block| == 64
    ensures Chain(r, block) == Compress(r, WordsOf(block))
  {
    hide Compress, WordsOf;
    assert block[..64] == block && block[64..] == [];
    assert Chain(Compress(r, WordsOf(block)), []) == Compress(r, WordsOf(block));
  }

  // The two counter words hold the bit length of n bytes, modulo 2^64.
  predicate Counts(low: Word, high: Word, n: nat) {
    low + TWO32 * high == 8 * n % TWO64
  }

  function LowWord(bits0: Word, len: nat): Word {
    (bits0 + 8 * len % TWO32) % TWO32
  }

  function HighWord(bits0: Word, bits1: Word, len: nat): Word {
    var carried := if LowWord(bits0, len) < bits0 then (bits1 + 1) % TWO32 else bits1;
    (carried + len / 0x2000_0000) % TWO32
  }

  // The manual carry keeps the two words equal to the 64-bit count of bits.
  lemma CounterCarry(bits0: Word, bits1: Word, n: nat, len: nat)
    requires len < TWO32
    requires Counts(bits0, bits1, n)
    ensures Counts(LowWord(bits0, len), HighWord(bits0, bits1, len), n + len)
  {
    hide Counts, LowWord, HighWord;
    var l, h := 8 * len % TWO32, len / 0x2000_0000;
    var carry, spill := AddWords(bits0, bits1, len, l, h);
    var low, high := LowWord(bits0, len), HighWord(bits0, bits1, len);
    var q := CountsQuotient(bits0, bits1, n);
    assert 8 * (n + len) == (q + spill) * TWO64 + (low + TWO32 * high);
    CountsIntro(low, high, n + len, q + spill);
  }

  lemma AddWords(bits0: Word, bits1: Word, len: nat, l: Word, h: nat) returns (carry: nat, spill: nat)
    requires len < TWO32 && l == 8 * len % TWO32 && h == len / 0x2000_0000
    ensures 8 * len == TWO32 * h + l
    ensures LowWord(bits0, len) == bits0 + l - carry * TWO32
    ensures HighWord(bits0, bits1, len) == bits1 + carry + h - spill * TWO32
  {
    carry := if bits0 + l < TWO32 then 0 else 1;
    spill := if bits1 + carry + h < TWO32 then 0 else 1;
  }

  lemma CountsQuotient(low: Word, high: Word, n: nat) returns (q: nat)
    requires Counts(low, high, n)
    ensures 8 * n == q * TWO64 + (low + TWO32 * high)
  {
    q := 8 * n / TWO64;
  }

  lemma CountsIntro(low: Word, high: Word, n: nat, q: nat)
    requires 8 * n == q * TWO64 + (low + TWO32 * high)
    ensures Counts(low, high, n)
  {
    Remainder(8 * n, q, low + TWO32 * high);
  }

  lemma Remainder(x: nat, q: nat, r: nat)
    requires x == q * TWO64 + r && r < TWO64
    ensures x % TWO64 == r
  {
  }

  lemma CountMod64(bits0: Word, bits1: Word, n: nat)
    requires Counts(bits0, bits1, n)
    ensures bits0 / 8 % 64 == n % 64
  {
  }

  // The low counter word says how many of n bytes wait in 'input'.
  lemma Waiting(bits0: Word, bits1: Word, n: nat, done: nat)
    requires Counts(bits0, bits1, n) && done % 64 == 0 && done <= n < done + 64
    ensures bits0 / 8 % 64 == n - done
  {
    hide Counts;
    CountMod64(bits0, bits1, n);
  }

  lemma SplitAppended(m: seq<Byte>, data: seq<Byte>, at: nat)
    requires at <= |data|
    ensures (m + data)[..|m| + at] == m + data[..at]
    ensures (m + data)[|m| + at..] == data[at..]
  {
  }

  lemma KeepAppended(m: seq<Byte>, data: seq<Byte>, n: nat)
    requires n <= |m|
    ensures (m + data)[..n] == m[..n]
    ensures (m + data)[n..] == m[n..] + data
  {
  }

  // ---- lemmas about MD5Final ----

  // A 64-bit number is written as its low-order word and then its high-order word.
  lemma {:induction false} LittleEndianSplit(v: nat, low: Word, high: nat)
    requires v == low + TWO32 * high
    ensures LittleEndian(v, 8) == LittleEndian(low, 4) + LittleEndian(high, 4)
  {
    hide LittleEndian;
    LowByte(v, low, 0x100_0000 * high);
    LowByte(v / 256, low / 256, 0x1_0000 * high);
    LowByte(v / 256 / 256, low / 256 / 256, 0x100 * high);
    LowByte(v / 256 / 256 / 256, low / 256 / 256 / 256, high);
    FourBytes(v, 4);
    FourBytes(low, 0);
    LittleEndianNone(low / 256 / 256 / 256 / 256);
  }

  lemma LittleEndianNone(v: nat)
    ensures LittleEndian(v, 0) == []
  {
  }

  lemma OneByte(v: nat, count: nat)
    ensures LittleEndian(v, 1 + count) == [v % 256] + LittleEndian(v / 256, count)
  {
  }

  lemma FourBytes(v: nat, count: nat)
    ensures LittleEndian(v, 4 + count) == [v % 256, v / 256 % 256, v / 256 / 256 % 256, v / 256 / 256 / 256 % 256]
         + LittleEndian(v / 256 / 256 / 256 / 256, count)
  {
    hide LittleEndian;
    OneByte(v, 3 + count);
    OneByte(v / 256, 2 + count);
    OneByte(v / 256 / 256, 1 + count);
    OneByte(v / 256 / 256 / 256, count);
  }

  lemma LowByte(v: nat, low: nat, rest: nat)
    requires v == low + 256 * rest
    ensures v % 256 == low % 256 && v / 256 == low / 256 + rest
  {
  }

  lemma ZerosSplit(j: nat, k: nat)
    ensures Zeros(j + k) == Zeros(j) + Zeros(k)
  {
  }

  lemma Regroup(a: seq<Byte>, b: seq<Byte>, c: seq<Byte>, d: seq<Byte>, e: seq<Byte>)
    ensures (a + b) + (c + d + e) == a + (b + c + d + e)
  {
  }

  lemma RegroupRight(a: seq<Byte>, b: seq<Byte>, c: seq<Byte>, d: seq<Byte>, e: seq<Byte>)
    ensures a + (b + (c + d) + e) == (a + (b + c)) + (d + e)
  {
  }

  // The zero bytes that the rest r of a last block asks for.
  lemma PaddingShape(n: nat, r: nat, length: seq<Byte>)
    requires r == n % 64 && length == LittleEndian(8 * n % TWO64, 8)
    ensures r <= 55 ==> Padding(n) == [0x80] + Zeros(55 - r) + length
    ensures 55 < r ==> Padding(n) == [0x80] + Zeros(119 - r) + length
  {
    hide LittleEndian, Zeros;
  }

  // The last block when the length still fits behind the rest of the message.
  function LastBlock(rest: seq<Byte>, length: seq<Byte>): (block: seq<Byte>)
    requires |rest| <= 55 && |length| == 8
    ensures |block| == 64
  {
    rest + [0x80] + Zeros(55 - |rest|) + length
  }

  // The block that the rest ends in when it does not.
  function FilledBlock(rest: seq<Byte>): (block: seq<Byte>)
    requires 55 < |rest| < 64
    ensures |block| == 64
  {
    rest + [0x80] + Zeros(63 - |rest|)
  }

  lemma ShortText(whole: seq<Byte>, rest: seq<Byte>, length: seq<Byte>)
    requires |whole| % 64 == 0 && |rest| <= 55 && |length| == 8
    requires length == LittleEndian(8 * |whole + rest| % TWO64, 8)
    ensures whole + rest + Padding(|whole + rest|) == whole + LastBlock(rest, length)
  {
    hide LittleEndian, Zeros, Padding;
    PaddingShape(|whole + rest|, |rest|, length);
    Regroup(whole, rest, [0x80], Zeros(55 - |rest|), length);
  }

  lemma LongText(whole: seq<Byte>, rest: seq<Byte>, length: seq<Byte>)
    requires |whole| % 64 == 0 && 55 < |rest| < 64 && |length| == 8
    requires length == LittleEndian(8 * |whole + rest| % TWO64, 8)
    ensures whole + rest + Padding(|whole + rest|) == whole + FilledBlock(rest) + (Zeros(56) + length)
  {
    hide LittleEndian, Zeros, Padding;
    PaddingShape(|whole + rest|, |rest|, length);
    ZerosSplit(63 - |rest|, 56);
    Regroup(whole, rest, [0x80], Zeros(63 - |rest|) + Zeros(56), length);
    RegroupRight(whole, rest + [0x80], Zeros(63 - |rest|), Zeros(56), length);
  }

  // Sections 3.1 and 3.2 when the length still fits: one block.
  lemma PaddedShort(whole: seq<Byte>, rest: seq<Byte>, length: seq<Byte>)
    requires |whole| % 64 == 0 && |rest| <= 55 && |length| == 8
    requires length == LittleEndian(8 * |whole + rest| % TWO64, 8)
    ensures Chain(INITIAL, whole + rest + Padding(|whole + rest|))
         == Compress(Chain(INITIAL, whole), WordsOf(LastBlock(rest, length)))
  {
    hide Chain, Compress, WordsOf, LittleEndian, Padding, LastBlock;
    ShortText(whole, rest, length);
    ChainBlock(INITIAL, whole, LastBlock(rest, length));
  }

  // ... and when it does not: two.
  lemma PaddedLong(whole: seq<Byte>, rest: seq<Byte>, length: seq<Byte>)
    requires |whole| % 64 == 0 && 55 < |rest| < 64 && |length| == 8
    requires length == LittleEndian(8 * |whole + rest| % TWO64, 8)
    ensures Chain(INITIAL, whole + rest + Padding(|whole + rest|))
         == Compress(Compress(Chain(INITIAL, whole), WordsOf(FilledBlock(rest))), WordsOf(Zeros(56) + length))
  {
    hide Chain, Compress, WordsOf, LittleEndian, Zeros, Padding, FilledBlock;
    LongText(whole, rest, length);
    ChainBlock(INITIAL, whole, FilledBlock(rest));
    ChainBlock(INITIAL, whole + FilledBlock(rest), Zeros(56) + length);
  }

  // ---- struct MD5Context ----

  class MD5Context {
    var buf: array<Word>
    var bits0: Word
    var bits1: Word
    var input: array<Byte>     // the field 'in'
    ghost var message: seq<Byte>  // everything given to MD5Update since MD5Init
    ghost var done: nat           // how much of it has gone into 'buf'; the rest waits in 'input'

    ghost predicate Valid()
      reads this, buf, input
    {
      && buf.Length == 4 && input.Length == 64 && buf as object != input as object
      && Counts(bits0, bits1, |message|)
      && done % 64 == 0 && done <= |message| < done + 64
      && Absorbed(message, done)
    }

    // The first n bytes of m have gone into 'buf' and the rest, less than a block, is in 'input'.
    ghost predicate Absorbed(m: seq<Byte>, n: nat)
      requires buf.Length == 4 && input.Length == 64
      requires n <= |m| < n + 64
      reads this`buf, this`input, buf, input
    {
      && buf[..] == Chain(INITIAL, m[..n])
      && input[..|m| - n] == m[n..]
    }

    // MD5Init
    constructor ()
      ensures Valid() && message == [] && fresh(buf) && fresh(input)
    {
      buf := new Word[4];
      input := new Byte[64](_ => 0);
      bits0, bits1, message, done := 0, 0, [], 0;
      new;
      buf[0], buf[1], buf[2], buf[3] := 0x67452301, 0xefcdab89, 0x98badcfe, 0x10325476;
      assert buf[..] == INITIAL;
    }

    // The bit counter of MD5Update: two 32-bit words with a manual carry.
    method AddBits(len: nat, ghost n: nat)
      requires len < TWO32 && Counts(bits0, bits1, n)
      modifies this`bits0, this`bits1
      ensures Counts(bits0, bits1, n + len)
    {
      CounterCarry(bits0, bits1, n, len);
      var t := bits0;
      bits0 := (t + 8 * len % TWO32) % TWO32;
      if bits0 < t {
        bits1 := (bits1 + 1) % TWO32;
      }
      bits1 := (bits1 + len / 0x2000_0000) % TWO32;
    }

    // Fill 'input' from position t on with the bytes of data at 'from', and transform.
    method FillAndTransform(t: nat, data: seq<Byte>, from: nat)
      requires buf.Length == 4 && input.Length == 64 && buf as object != input as object
      requires t < 64 && from + 64 - t <= |data|
      modifies buf, input
      ensures buf[..] == Compress(old(buf[..]), WordsOf(old(input[..t]) + data[from..from + 64 - t]))
    {
      hide Compress, WordsOf;
      forall i | 0 <= i < 64 - t { input[t + i] := data[from + i]; }
      var block := input[..];
      assert block == old(input[..t]) + data[from..from + 64 - t];
      assert buf[..] == old(buf[..]);
      MD5Transform(buf, WordsOf(block));
    }

    // The 64-byte chunks and the remaining bytes of MD5Update, from position 'from' of data on.
    method Chunks(data: seq<Byte>, from: nat, ghost m: seq<Byte>) returns (ghost at: nat)
      requires buf.Length == 4 && input.Length == 64 && buf as object != input as object
      requires from <= |data| && (|m| + from) % 64 == 0
      requires buf[..] == Chain(INITIAL, m + data[..from])
      modifies buf, input
      ensures at <= |data| < at + 64 && (|m| + at) % 64 == 0
      ensures buf[..] == Chain(INITIAL, m + data[..at])
      ensures input[..|data| - at] == data[at..]
    {
      hide Chain, Compress, WordsOf;
      var p := from;
      while |data| - p >= 64
        invariant p <= |data| && (|m| + p) % 64 == 0
        invariant buf[..] == Chain(INITIAL, m + data[..p])
      {
        ChainBlock(INITIAL, m + data[..p], data[p..p + 64]);
        assert m + data[..p + 64] == (m + data[..p]) + data[p..p + 64];
        assert input[..0] + data[p..p + 64] == data[p..p + 64];
        FillAndTransform(0, data, p);
        p := p + 64;
      }
      forall i | 0 <= i < |data| - p { input[i] := data[p + i]; }
      at := p;
    }

    // The leading odd-sized chunk of MD5Update: t bytes of m wait in 'input' and data completes them.
    method Leading(data: seq<Byte>, t: nat, ghost m: seq<Byte>)
      requires buf.Length == 4 && input.Length == 64 && buf as object != input as object
      requires t <= |m| && (|m| - t) % 64 == 0 && t < 64 && 64 - t <= |data|
      requires buf[..] == Chain(INITIAL, m[..|m| - t]) && input[..t] == m[|m| - t..]
      modifies buf, input
      ensures buf[..] == Chain(INITIAL, m + data[..64 - t])
    {
      hide Chain, Compress, WordsOf;
      ghost var whole, rest := m[..|m| - t], m[|m| - t..];
      ChainBlock(INITIAL, whole, rest + data[..64 - t]);
      assert m + data[..64 - t] == whole + (rest + data[..64 - t]);
      FillAndTransform(t, data, 0);
    }

    // MD5Update after the counter: t bytes wait in 'input'.
    method Absorb(data: seq<Byte>, t: nat, ghost m: seq<Byte>, ghost n: nat) returns (ghost n': nat)
      requires buf.Length == 4 && input.Length == 64 && buf as object != input as object
      requires n % 64 == 0 && t == |m| - n < 64 && n <= |m| && Absorbed(m, n)
      modifies buf, input
      ensures n' % 64 == 0 && n' <= |m + data| < n' + 64
      ensures Absorbed(m + data, n')
    {
      hide Chain, Compress, WordsOf;
      if t != 0 && |data| < 64 - t {
        forall i | 0 <= i < |data| { input[t + i] := data[i]; }
        KeepAppended(m, data, n);
        return n;
      }
      var from := 0;
      if t != 0 {
        from := 64 - t;
        Leading(data, t, m);
      } else {
        assert m[..n] == m + data[..0];
      }
      ghost var at := Chunks(data, from, m);
      n' := |m| + at;
      SplitAppended(m, data, at);
    }

    // MD5Update
    method Update(data: seq<Byte>)
      requires Valid() && |data| < TWO32
      modifies this`bits0, this`bits1, this`message, this`done, buf, input
      ensures Valid() && message == old(message) + data
    {
      hide Absorbed, Counts;
      ghost var m := message;
      Waiting(bits0, bits1, |m|, done);
      var t := bits0 / 8 % 64;
      AddBits(|data|, |m|);
      done := Absorb(data, t, m, done);
      message := m + data;
    }

    // MD5Final when the length no longer fits: zeros to the end of the block, a transform, and
    // zeros up to position 56.
    method FinishBlock(count: nat, ghost rest: seq<Byte>)
      requires buf.Length == 4 && input.Length == 64 && buf as object != input as object
      requires 55 < count == |rest| < 64 && input[..count + 1] == rest + [0x80]
      modifies buf, input
      ensures buf[..] == Compress(old(buf[..]), WordsOf(FilledBlock(rest)))
      ensures input[..56] == Zeros(56)
    {
      hide Chain, Compress, WordsOf;
      forall i | count < i < 64 { input[i] := 0; }
      assert input[..] == FilledBlock(rest);
      assert buf[..] == old(buf[..]);
      MD5Transform(buf, WordsOf(input[..]));
      ghost var chain := buf[..];
      forall i | 0 <= i < 56 { input[i] := 0; }
      assert buf[..] == chain;
    }

    // ... and when it fits: zeros up to position 56.
    method ZeroTo56(count: nat, ghost rest: seq<Byte>)
      requires input.Length == 64 && count == |rest| <= 55 && input[..count + 1] == rest + [0x80]
      modifies input
      ensures forall length: seq<Byte> :: |length| == 8 ==> input[..56] + length == LastBlock(rest, length)
    {
      forall i | count < i < 56 { input[i] := 0; }
      assert input[..56] == rest + [0x80] + Zeros(55 - count);
    }

    // The first part of MD5Final: 0x80 and zeros up to position 56, transforming when the
    // length no longer fits. One more block, ending in the length, completes the chain.
    method PadTo56(ghost length: seq<Byte>)
      requires Valid() && length == LittleEndian(8 * |message| % TWO64, 8)
      modifies buf, input
      ensures Compress(buf[..], WordsOf(input[..56] + length)) == Chain(INITIAL, message + Padding(|message|))
    {
      hide Chain, Compress, WordsOf, LittleEndian, Padding, Counts, LastBlock, FilledBlock;
      Waiting(bits0, bits1, |message|, done);
      var count := bits0 / 8 % 64;
      ghost var whole, rest, chain := message[..done], message[done..], buf[..];
      assert message == whole + rest;
      input[count] := 0x80;
      assert input[..count + 1] == rest + [0x80];
      assert buf[..] == chain;
      if 63 - count < 8 {
        PaddedLong(whole, rest, length);
        FinishBlock(count, rest);
      } else {
        PaddedShort(whole, rest, length);
        ZeroTo56(count, rest);
        assert buf[..] == chain;
      }
    }

    // MD5Final
    method Final() returns (digest: seq<Byte>)
      requires Valid()
      modifies this, buf, input
      ensures digest == Digest(old(message))
      ensures buf == old(buf) && input == old(input) && bits0 == 0 && bits1 == 0
      ensures (forall i | 0 <= i < 4 :: buf[i] == 0) && (forall i | 0 <= i < 64 :: input[i] == 0)
    {
      hide Chain, Compress, WordsOf, LittleEndian, Padding;
      LittleEndianSplit(8 * |message| % TWO64, bits0, bits1);
      var low, high := LittleEndian(bits0, 4), LittleEndian(bits1, 4);
      PadTo56(low + high);
      ghost var start, chain := input[..56], buf[..];
      forall i | 0 <= i < 4 { input[56 + i] := low[i]; }
      forall i | 0 <= i < 4 { input[60 + i] := high[i]; }
      assert input[..] == start + (low + high);
      assert buf[..] == chain;
      MD5Transform(buf, WordsOf(input[..]));
      digest := LittleEndian(buf[0], 4) + LittleEndian(buf[1], 4) + LittleEndian(buf[2], 4) + LittleEndian(buf[3], 4);
      assert digest == DigestOf(buf[..]);
      forall i | 0 <= i < 4 { buf[i] := 0; }
      forall i | 0 <= i < 64 { input[i] := 0; }
      bits0, bits1, message, done := 0, 0, [], 0;
    }
  }

  // ---- the whole use of a context ----

  function Joined(pieces: seq<seq<Byte>>): seq<Byte> {
    if pieces == [] then [] else Joined(pieces[..|pieces| - 1]) + pieces[|pieces| - 1]
  }

  // MD5Init, MD5Update as needed on buffers full of bytes, MD5Final: the digest of the joined
  // buffers, so every split of a message gives the same.
  method DigestInPieces(pieces: seq<seq<Byte>>) returns (digest: seq<Byte>)
    requires forall i :: 0 <= i < |pieces| ==> |pieces[i]| < TWO32
    ensures digest == Digest(Joined(pieces))
  {
    hide MD5Context.Valid, Digest;
    var ctx := new MD5Context();
    var n := 0;
    while n < |pieces|
      invariant n <= |pieces| && ctx.Valid() && ctx.message == Joined(pieces[..n])
      invariant fresh(ctx) && fresh(ctx.buf) && fresh(ctx.input)
    {
      assert pieces[..n + 1][..n] == pieces[..n];
      ctx.Update(pieces[n]);
      n := n + 1;
    }
    assert pieces[..n] == pieces;
    digest := ctx.Final();
  }
}
