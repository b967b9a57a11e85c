/** What section 3.4 of RFC 1321 says of the operations on words, bit by bit, and one message of its test suite (section
    A.5), operation by operation. */
module Md5Standard {
  import opened Md5Block
  import opened Md5

  // ----- operations on words -----

  /** Rotation to the left: the highest n bits become the lowest, and the others move up by n places. */
  lemma RotatesLeft(x: Word, n: Amount)
    requires 0 < n < 32
    ensures MD5_OPS.rotate(x, n) & ((1 << n) - 1) == x >> (32 - n)
    ensures MD5_OPS.rotate(x, n) >> n == x & ((1 << (32 - n)) - 1)
  {
  }

  /** The sum is the sum of two numbers of 64 bits, cut to 32. */
  lemma SumOfWords(x: Word, y: Word)
    ensures MD5_OPS.plus(x, y) as bv64 == (x as bv64 + y as bv64) & 0xffff_ffff
  {
  }

  /** v has the bits of yes where c has ones, and those of no where it has zeros. */
  predicate Chosen(c: Word, yes: Word, no: Word, v: Word) {
    v & c == yes & c && v & !c == no & !c
  }

  /** The function of round 1: bit by bit, if x then y else z. */
  lemma BitsOfF(x: Word, y: Word, z: Word)
    ensures Chosen(x, y, z, F(x, y, z))
  {
    FWhereOne(x, y, z);
    FWhereZero(x, y, z);
  }

  lemma FWhereOne(x: Word, y: Word, z: Word)
    ensures F(x, y, z) & x == y & x
  {
  }

  lemma FWhereZero(x: Word, y: Word, z: Word)
    ensures F(x, y, z) & !x == z & !x
  {
  }

  /** Round 2: if z then x else y. */
  lemma BitsOfG(x: Word, y: Word, z: Word)
    ensures Chosen(z, x, y, G(x, y, z))
  {
    GWhereOne(x, y, z);
    GWhereZero(x, y, z);
  }

  lemma GWhereOne(x: Word, y: Word, z: Word)
    ensures G(x, y, z) & z == x & z
  {
  }

  lemma GWhereZero(x: Word, y: Word, z: Word)
    ensures G(x, y, z) & !z == y & !z
  {
  }

  /** Round 3: the parity of the three, so that each is the parity of the others and the result. */
  lemma BitsOfH(x: Word, y: Word, z: Word)
    ensures H(x, y, z) ^ x ^ y == z
  {
  }

  /** Round 4: where x or not z, the opposite of y, and else y. */
  lemma BitsOfI(x: Word, y: Word, z: Word)
    ensures Chosen(x | !z, !y, y, I(x, y, z))
  {
    IWhereOne(x, y, z);
    IWhereZero(x, y, z);
  }

  lemma IWhereOne(x: Word, y: Word, z: Word)
    ensures I(x, y, z) & (x | !z) == !y & (x | !z)
  {
  }

  lemma IWhereZero(x: Word, y: Word, z: Word)
    ensures I(x, y, z) & !(x | !z) == y & !(x | !z)
  {
  }

  /** Which of them each operation uses. */
  lemma AuxiliaryOf(n: nat, x: Word, y: Word, z: Word)
    requires n < 64
    ensures Aux(MD5_OPS, n)(x, y, z)
         == if n < 16 then F(x, y, z) else if n < 32 then G(x, y, z) else if n < 48 then H(x, y, z) else I(x, y, z)
  {
  }

  /** Which word each operation takes, as the standard lists them. */
  lemma WordsTaken(n: nat)
    requires n < 16
    ensures WordIndex(n) == n
    ensures WordIndex(16 + n) == [1, 6, 11, 0, 5, 10, 15, 4, 9, 14, 3, 8, 13, 2, 7, 12][n]
    ensures WordIndex(32 + n) == [5, 8, 11, 14, 1, 4, 7, 10, 13, 0, 3, 6, 9, 12, 15, 2][n]
    ensures WordIndex(48 + n) == [0, 7, 14, 5, 12, 3, 10, 1, 8, 15, 6, 13, 4, 11, 2, 9][n]
  {
  }

  /** How far each operation rotates. */
  lemma AmountsRotated(n: nat)
    requires n < 4
    ensures forall k :: 0 <= k < 4 ==> Shift(4 * k + n) == [7, 12, 17, 22][n]
    ensures forall k :: 4 <= k < 8 ==> Shift(4 * k + n) == [5, 9, 14, 20][n]
    ensures forall k :: 8 <= k < 12 ==> Shift(4 * k + n) == [4, 11, 16, 23][n]
    ensures forall k :: 12 <= k < 16 ==> Shift(4 * k + n) == [6, 10, 15, 21][n]
  {
  }

  // ----- bytes -----

  /** The number that bytes make, low-order byte first. */
  function NumberOf(s: seq<Byte>): nat {
    if s == [] then 0 else s[0] + 256 * NumberOf(s[1..])
  }

  /** The bytes of a number make it. */
  lemma {:induction false} BytesMakeNumber(x: nat, s: seq<Byte>)
    requires x < Power(|s|) && forall i :: 0 <= i < |s| ==> s[i] == ByteOf(x, i)
    ensures NumberOf(s) == x
    decreases |s|
  {
    if s != [] {
      forall i | 0 <= i < |s| - 1 ensures s[1..][i] == ByteOf(x / 256, i) {
        assert s[i + 1] == ByteOf(x, i + 1);
      }
      BytesMakeNumber(x / 256, s[1..]);
    }
  }

  /** The last eight bytes of the padding are the length in bits, modulo 2^64. */
  lemma LengthInBits(n: nat)
    ensures NumberOf(LengthBytes(n)) == (8 * n) % 0x1_0000_0000_0000_0000
  {
    PowerEight();
    BytesMakeNumber((8 * n) % 0x1_0000_0000_0000_0000, LengthBytes(n));
  }

  // ----- the message abc -----

  /** The words of its only block: the three characters and the one bit, zeros, and 24 bits. */
  function AbcWord(i: nat): Word {
    if i == 0 then 0x80636261 else if i == 14 then 24 else 0
  }

  function AbcWords(): (x: seq<Word>)
    ensures |x| == 16
  {
    seq(16, i requires 0 <= i < 16 => AbcWord(i))
  }

  datatype Message = Abc

  ghost predicate Reaches(m: Message, n: nat, r: Registers<Word>) {
    n <= 64 && Operations(MD5_OPS, SINES, n, INITIAL, AbcWords()) == r
  }

  /** The registers after n operations; the quantifier keeps the operations out of the steps below. */
  ghost predicate After(n: nat, r: Registers<Word>) {
    forall m :: Reaches(m, n, r)
  }

  lemma Begin()
    ensures After(0, Registers(0x67452301, 0xefcdab89, 0x98badcfe, 0x10325476))
  {
    forall m ensures Reaches(m, 0, INITIAL) {
    }
  }

  predicate Moves1(a: Word, b: Word, c: Word, d: Word, x: Word, s: Amount, t: Word, v: Word) {
    Plus(RotateLeft(Plus(Plus(Plus(a, F(b, c, d)), x), t), s), b) == v
  }

  /** Operation n, the j-th of round 1. */
  lemma Next1(n: nat, j: nat, a: Word, b: Word, c: Word, d: Word, x: Word, s: Amount, t: Word, v: Word)
    requires j < 16 && n == 0 + j && After(n, Registers(a, b, c, d))
    requires AbcWord(WordIndex(n)) == x && Shift(n) == s && SINES1[j] == t
    requires Moves1(a, b, c, d, x, s, t, v)
    ensures After(n + 1, Registers(d, v, b, c))
  {
    assert SINES[n] == t;
    var next := n + 1;
    forall m ensures Reaches(m, next, Registers(d, v, b, c)) {
      assert Reaches(m, n, Registers(a, b, c, d));
    }
  }

  predicate Moves2(a: Word, b: Word, c: Word, d: Word, x: Word, s: Amount, t: Word, v: Word) {
    Plus(RotateLeft(Plus(Plus(Plus(a, G(b, c, d)), x), t), s), b) == v
  }

  /** Operation n, the j-th of round 2. */
  lemma Next2(n: nat, j: nat, a: Word, b: Word, c: Word, d: Word, x: Word, s: Amount, t: Word, v: Word)
    requires j < 16 && n == 16 + j && After(n, Registers(a, b, c, d))
    requires AbcWord(WordIndex(n)) == x && Shift(n) == s && SINES2[j] == t
    requires Moves2(a, b, c, d, x, s, t, v)
    ensures After(n + 1, Registers(d, v, b, c))
  {
    assert SINES[n] == t;
    var next := n + 1;
    forall m ensures Reaches(m, next, Registers(d, v, b, c)) {
      assert Reaches(m, n, Registers(a, b, c, d));
    }
  }

  predicate Moves3(a: Word, b: Word, c: Word, d: Word, x: Word, s: Amount, t: Word, v: Word) {
    Plus(RotateLeft(Plus(Plus(Plus(a, H(b, c, d)), x), t), s), b) == v
  }

  /** Operation n, the j-th of round 3. */
  lemma Next3(n: nat, j: nat, a: Word, b: Word, c: Word, d: Word, x: Word, s: Amount, t: Word, v: Word)
    requires j < 16 && n == 32 + j && After(n, Registers(a, b, c, d))
    requires AbcWord(WordIndex(n)) == x && Shift(n) == s && SINES3[j] == t
    requires Moves3(a, b, c, d, x, s, t, v)
    ensures After(n + 1, Registers(d, v, b, c))
  {
    assert SINES[n] == t;
    var next := n + 1;
    forall m ensures Reaches(m, next, Registers(d, v, b, c)) {
      assert Reaches(m, n, Registers(a, b, c, d));
    }
  }

  predicate Moves4(a: Word, b: Word, c: Word, d: Word, x: Word, s: Amount, t: Word, v: Word) {
    Plus(RotateLeft(Plus(Plus(Plus(a, I(b, c, d)), x), t), s), b) == v
  }

  /** Operation n, the j-th of round 4. */
  lemma Next4(n: nat, j: nat, a: Word, b: Word, c: Word, d: Word, x: Word, s: Amount, t: Word, v: Word)
    requires j < 16 && n == 48 + j && After(n, Registers(a, b, c, d))
    requires AbcWord(WordIndex(n)) == x && Shift(n) == s && SINES4[j] == t
    requires Moves4(a, b, c, d, x, s, t, v)
    ensures After(n + 1, Registers(d, v, b, c))
  {
    assert SINES[n] == t;
    var next := n + 1;
    forall m ensures Reaches(m, next, Registers(d, v, b, c)) {
      assert Reaches(m, n, Registers(a, b, c, d));
    }
  }

  lemma Trace2()
    ensures After(2, Registers(0x98badcfe, 0x344a8432, 0xd6d117b4, 0xefcdab89))
  {
    Begin();
    Next1(0, 0, 0x67452301, 0xefcdab89, 0x98badcfe, 0x10325476, 0x80636261, 7, 0xd76aa478, 0xd6d117b4);
    Next1(1, 1, 0x10325476, 0xd6d117b4, 0xefcdab89, 0x98badcfe, 0x0, 12, 0xe8c7b756, 0x344a8432);
  }

  lemma Trace4()
    ensures After(4, Registers(0xd6d117b4, 0x7ad956f2, 0x2f6fbd72, 0x344a8432))
  {
    Trace2();
    Next1(2, 2, 0x98badcfe, 0x344a8432, 0xd6d117b4, 0xefcdab89, 0x0, 17, 0x242070db, 0x2f6fbd72);
    Next1(3, 3, 0xefcdab89, 0x2f6fbd72, 0x344a8432, 0xd6d117b4, 0x0, 22, 0xc1bdceee, 0x7ad956f2);
  }

  lemma Trace6()
    ensures After(6, Registers(0x2f6fbd72, 0x8bac3051, 0xc73741ef, 0x7ad956f2))
  {
    Trace4();
    Next1(4, 4, 0xd6d117b4, 0x7ad956f2, 0x2f6fbd72, 0x344a8432, 0x0, 7, 0xf57c0faf, 0xc73741ef);
    Next1(5, 5, 0x344a8432, 0xc73741ef, 0x7ad956f2, 0x2f6fbd72, 0x0, 12, 0x4787c62a, 0x8bac3051);
  }

  lemma Trace8()
    ensures After(8, Registers(0xc73741ef, 0x928d99f6, 0x207dc67b, 0x8bac3051))
  {
    Trace6();
    Next1(6, 6, 0x2f6fbd72, 0x8bac3051, 0xc73741ef, 0x7ad956f2, 0x0, 17, 0xa8304613, 0x207dc67b);
    Next1(7, 7, 0x7ad956f2, 0x207dc67b, 0x8bac3051, 0xc73741ef, 0x0, 22, 0xfd469501, 0x928d99f6);
  }

  lemma Trace10()
    ensures After(10, Registers(0x207dc67b, 0x74e2f284, 0x854b3712, 0x928d99f6))
  {
    Trace8();
    Next1(8, 8, 0xc73741ef, 0x928d99f6, 0x207dc67b, 0x8bac3051, 0x0, 7, 0x698098d8, 0x854b3712);
    Next1(9, 9, 0x8bac3051, 0x854b3712, 0x928d99f6, 0x207dc67b, 0x0, 12, 0x8b44f7af, 0x74e2f284);
  }

  lemma Trace12()
    ensures After(12, Registers(0x854b3712, 0x5ed49596, 0x3020401c, 0x74e2f284))
  {
    Trace10();
    Next1(10, 10, 0x207dc67b, 0x74e2f284, 0x854b3712, 0x928d99f6, 0x0, 17, 0xffff5bb1, 0x3020401c);
    Next1(11, 11, 0x928d99f6, 0x3020401c, 0x74e2f284, 0x854b3712, 0x0, 22, 0x895cd7be, 0x5ed49596);
  }

  lemma Trace14()
    ensures After(14, Registers(0x3020401c, 0xa1051895, 0xdda9b9a6, 0x5ed49596))
  {
    Trace12();
    Next1(12, 12, 0x854b3712, 0x5ed49596, 0x3020401c, 0x74e2f284, 0x0, 7, 0x6b901122, 0xdda9b9a6);
    Next1(13, 13, 0x74e2f284, 0xdda9b9a6, 0x5ed49596, 0x3020401c, 0x0, 12, 0xfd987193, 0xa1051895);
  }

  lemma Trace16()
    ensures After(16, Registers(0xdda9b9a6, 0x72aff2e0, 0xe396856b, 0xa1051895))
  {
    Trace14();
    Next1(14, 14, 0x3020401c, 0xa1051895, 0xdda9b9a6, 0x5ed49596, 0x18, 17, 0xa679438e, 0xe396856b);
    Next1(15, 15, 0x5ed49596, 0xe396856b, 0xa1051895, 0xdda9b9a6, 0x0, 22, 0x49b40821, 0x72aff2e0);
  }

  lemma Trace18()
    ensures After(18, Registers(0xe396856b, 0x4a1d804e, 0x3e9e9126, 0x72aff2e0))
  {
    Trace16();
    Next2(16, 0, 0xdda9b9a6, 0x72aff2e0, 0xe396856b, 0xa1051895, 0x0, 5, 0xf61e2562, 0x3e9e9126);
    Next2(17, 1, 0xa1051895, 0x3e9e9126, 0x72aff2e0, 0xe396856b, 0x0, 9, 0xc040b340, 0x4a1d804e);
  }

  lemma Trace20()
    ensures After(20, Registers(0x3e9e9126, 0xb5b204e4, 0xe25e1652, 0x4a1d804e))
  {
    Trace18();
    Next2(18, 2, 0xe396856b, 0x4a1d804e, 0x3e9e9126, 0x72aff2e0, 0x0, 14, 0x265e5a51, 0xe25e1652);
    Next2(19, 3, 0x72aff2e0, 0xe25e1652, 0x4a1d804e, 0x3e9e9126, 0x80636261, 20, 0xe9b6c7aa, 0xb5b204e4);
  }

  lemma Trace22()
    ensures After(22, Registers(0xe25e1652, 0x6d002f1e, 0x59a8ffda, 0xb5b204e4))
  {
    Trace20();
    Next2(20, 4, 0x3e9e9126, 0xb5b204e4, 0xe25e1652, 0x4a1d804e, 0x0, 5, 0xd62f105d, 0x59a8ffda);
    Next2(21, 5, 0x4a1d804e, 0x59a8ffda, 0xb5b204e4, 0xe25e1652, 0x0, 9, 0x02441453, 0x6d002f1e);
  }

  lemma Trace24()
    ensures After(24, Registers(0x59a8ffda, 0x47092c07, 0xabfc7920, 0x6d002f1e))
  {
    Trace22();
    Next2(22, 6, 0xe25e1652, 0x6d002f1e, 0x59a8ffda, 0xb5b204e4, 0x0, 14, 0xd8a1e681, 0xabfc7920);
    Next2(23, 7, 0xb5b204e4, 0xabfc7920, 0x6d002f1e, 0x59a8ffda, 0x0, 20, 0xe7d3fbc8, 0x47092c07);
  }

  lemma Trace26()
    ensures After(26, Registers(0xabfc7920, 0x09388eff, 0xb7f268cf, 0x47092c07))
  {
    Trace24();
    Next2(24, 8, 0x59a8ffda, 0x47092c07, 0xabfc7920, 0x6d002f1e, 0x0, 5, 0x21e1cde6, 0xb7f268cf);
    Next2(25, 9, 0x6d002f1e, 0xb7f268cf, 0x47092c07, 0xabfc7920, 0x18, 9, 0xc33707d6, 0x09388eff);
  }

  lemma Trace28()
    ensures After(28, Registers(0xb7f268cf, 0x786acb8f, 0xfe1623b1, 0x09388eff))
  {
    Trace26();
    Next2(26, 10, 0xabfc7920, 0x09388eff, 0xb7f268cf, 0x47092c07, 0x0, 14, 0xf4d50d87, 0xfe1623b1);
    Next2(27, 11, 0x47092c07, 0xfe1623b1, 0x09388eff, 0xb7f268cf, 0x0, 20, 0x455a14ed, 0x786acb8f);
  }

  lemma Trace30()
    ensures After(30, Registers(0xfe1623b1, 0x9f47e4f8, 0x790a77fb, 0x786acb8f))
  {
    Trace28();
    Next2(28, 12, 0xb7f268cf, 0x786acb8f, 0xfe1623b1, 0x09388eff, 0x0, 5, 0xa9e3e905, 0x790a77fb);
    Next2(29, 13, 0x09388eff, 0x790a77fb, 0x786acb8f, 0xfe1623b1, 0x0, 9, 0xfcefa3f8, 0x9f47e4f8);
  }

  lemma Trace32()
    ensures After(32, Registers(0x790a77fb, 0x726342d3, 0xa62884aa, 0x9f47e4f8))
  {
    Trace30();
    Next2(30, 14, 0xfe1623b1, 0x9f47e4f8, 0x790a77fb, 0x786acb8f, 0x0, 14, 0x676f02d9, 0xa62884aa);
    Next2(31, 15, 0x786acb8f, 0xa62884aa, 0x9f47e4f8, 0x790a77fb, 0x0, 20, 0x8d2a4c8a, 0x726342d3);
  }

  lemma Trace34()
    ensures After(34, Registers(0xa62884aa, 0x60127b2e, 0xb3707ebf, 0x726342d3))
  {
    Trace32();
    Next3(32, 0, 0x790a77fb, 0x726342d3, 0xa62884aa, 0x9f47e4f8, 0x0, 4, 0xfffa3942, 0xb3707ebf);
    Next3(33, 1, 0x9f47e4f8, 0xb3707ebf, 0x726342d3, 0xa62884aa, 0x0, 11, 0x8771f681, 0x60127b2e);
  }

  lemma Trace36()
    ensures After(36, Registers(0xb3707ebf, 0x3b0875c7, 0x8d212ff5, 0x60127b2e))
  {
    Trace34();
    Next3(34, 2, 0xa62884aa, 0x60127b2e, 0xb3707ebf, 0x726342d3, 0x0, 16, 0x6d9d6122, 0x8d212ff5);
    Next3(35, 3, 0x726342d3, 0x8d212ff5, 0x60127b2e, 0xb3707ebf, 0x18, 23, 0xfde5380c, 0x3b0875c7);
  }

  lemma Trace38()
    ensures After(38, Registers(0x8d212ff5, 0x6e7429d5, 0x21b117b9, 0x3b0875c7))
  {
    Trace36();
    Next3(36, 4, 0xb3707ebf, 0x3b0875c7, 0x8d212ff5, 0x60127b2e, 0x0, 4, 0xa4beea44, 0x21b117b9);
    Next3(37, 5, 0x60127b2e, 0x21b117b9, 0x3b0875c7, 0x8d212ff5, 0x0, 11, 0x4bdecfa9, 0x6e7429d5);
  }

  lemma Trace40()
    ensures After(40, Registers(0x21b117b9, 0x5a2f5ea5, 0x3575227e, 0x6e7429d5))
  {
    Trace38();
    Next3(38, 6, 0x8d212ff5, 0x6e7429d5, 0x21b117b9, 0x3b0875c7, 0x0, 16, 0xf6bb4b60, 0x3575227e);
    Next3(39, 7, 0x3b0875c7, 0x3575227e, 0x6e7429d5, 0x21b117b9, 0x0, 23, 0xbebfbc70, 0x5a2f5ea5);
  }

  lemma Trace42()
    ensures After(42, Registers(0x3575227e, 0xfadcaa38, 0x11de1779, 0x5a2f5ea5))
  {
    Trace40();
    Next3(40, 8, 0x21b117b9, 0x5a2f5ea5, 0x3575227e, 0x6e7429d5, 0x0, 4, 0x289b7ec6, 0x11de1779);
    Next3(41, 9, 0x6e7429d5, 0x11de1779, 0x5a2f5ea5, 0x3575227e, 0x80636261, 11, 0xeaa127fa, 0xfadcaa38);
  }

  lemma Trace44()
    ensures After(44, Registers(0x11de1779, 0x4c6124f4, 0x31c465ca, 0xfadcaa38))
  {
    Trace42();
    Next3(42, 10, 0x3575227e, 0xfadcaa38, 0x11de1779, 0x5a2f5ea5, 0x0, 16, 0xd4ef3085, 0x31c465ca);
    Next3(43, 11, 0x5a2f5ea5, 0x31c465ca, 0xfadcaa38, 0x11de1779, 0x0, 23, 0x04881d05, 0x4c6124f4);
  }

  lemma Trace46()
    ensures After(46, Registers(0x31c465ca, 0x99d9679d, 0x7f2e507b, 0x4c6124f4))
  {
    Trace44();
    Next3(44, 12, 0x11de1779, 0x4c6124f4, 0x31c465ca, 0xfadcaa38, 0x0, 4, 0xd9d4d039, 0x7f2e507b);
    Next3(45, 13, 0xfadcaa38, 0x7f2e507b, 0x4c6124f4, 0x31c465ca, 0x0, 11, 0xe6db99e5, 0x99d9679d);
  }

  lemma Trace48()
    ensures After(48, Registers(0x7f2e507b, 0x7beb9700, 0x8fae6399, 0x99d9679d))
  {
    Trace46();
    Next3(46, 14, 0x31c465ca, 0x99d9679d, 0x7f2e507b, 0x4c6124f4, 0x0, 16, 0x1fa27cf8, 0x8fae6399);
    Next3(47, 15, 0x4c6124f4, 0x8fae6399, 0x99d9679d, 0x7f2e507b, 0x0, 23, 0xc4ac5665, 0x7beb9700);
  }

  lemma Trace50()
    ensures After(50, Registers(0x8fae6399, 0xf4e8e96e, 0x7b201df8, 0x7beb9700))
  {
    Trace48();
    Next4(48, 0, 0x7f2e507b, 0x7beb9700, 0x8fae6399, 0x99d9679d, 0x80636261, 6, 0xf4292244, 0x7b201df8);
    Next4(49, 1, 0x99d9679d, 0x7b201df8, 0x7beb9700, 0x8fae6399, 0x0, 10, 0x432aff97, 0xf4e8e96e);
  }

  lemma Trace52()
    ensures After(52, Registers(0x7b201df8, 0x8bf025c4, 0xb298cefd, 0xf4e8e96e))
  {
    Trace50();
    Next4(50, 2, 0x8fae6399, 0xf4e8e96e, 0x7b201df8, 0x7beb9700, 0x18, 15, 0xab9423a7, 0xb298cefd);
    Next4(51, 3, 0x7beb9700, 0xb298cefd, 0xf4e8e96e, 0x7b201df8, 0x0, 21, 0xfc93a039, 0x8bf025c4);
  }

  lemma Trace54()
    ensures After(54, Registers(0xb298cefd, 0x5b0d97aa, 0x06cc5e8a, 0x8bf025c4))
  {
    Trace52();
    Next4(52, 4, 0x7b201df8, 0x8bf025c4, 0xb298cefd, 0xf4e8e96e, 0x0, 6, 0x655b59c3, 0x06cc5e8a);
    Next4(53, 5, 0xf4e8e96e, 0x06cc5e8a, 0x8bf025c4, 0xb298cefd, 0x0, 10, 0x8f0ccc92, 0x5b0d97aa);
  }

  lemma Trace56()
    ensures After(56, Registers(0x06cc5e8a, 0x3bfa2c27, 0x7d632dd0, 0x5b0d97aa))
  {
    Trace54();
    Next4(54, 6, 0xb298cefd, 0x5b0d97aa, 0x06cc5e8a, 0x8bf025c4, 0x0, 15, 0xffeff47d, 0x7d632dd0);
    Next4(55, 7, 0x8bf025c4, 0x7d632dd0, 0x5b0d97aa, 0x06cc5e8a, 0x0, 21, 0x85845dd1, 0x3bfa2c27);
  }

  lemma Trace58()
    ensures After(58, Registers(0x7d632dd0, 0x094454ab, 0x7f81cc35, 0x3bfa2c27))
  {
    Trace56();
    Next4(56, 8, 0x06cc5e8a, 0x3bfa2c27, 0x7d632dd0, 0x5b0d97aa, 0x0, 6, 0x6fa87e4f, 0x7f81cc35);
    Next4(57, 9, 0x5b0d97aa, 0x7f81cc35, 0x3bfa2c27, 0x7d632dd0, 0x0, 10, 0xfe2ce6e0, 0x094454ab);
  }

  lemma Trace60()
    ensures After(60, Registers(0x7f81cc35, 0x7327d604, 0x4f9dbe3f, 0x094454ab))
  {
    Trace58();
    Next4(58, 10, 0x7d632dd0, 0x094454ab, 0x7f81cc35, 0x3bfa2c27, 0x0, 15, 0xa3014314, 0x4f9dbe3f);
    Next4(59, 11, 0x3bfa2c27, 0x4f9dbe3f, 0x094454ab, 0x7f81cc35, 0x0, 21, 0x4e0811a1, 0x7327d604);
  }

  lemma Trace62()
    ensures After(62, Registers(0x4f9dbe3f, 0x624d8cb2, 0x310ade8f, 0x7327d604))
  {
    Trace60();
    Next4(60, 12, 0x7f81cc35, 0x7327d604, 0x4f9dbe3f, 0x094454ab, 0x0, 6, 0xf7537e82, 0x310ade8f);
    Next4(61, 13, 0x094454ab, 0x310ade8f, 0x7327d604, 0x4f9dbe3f, 0x0, 10, 0xbd3af235, 0x624d8cb2);
  }

  lemma Trace64()
    ensures After(64, Registers(0x310ade8f, 0xc08226b3, 0xe484b9d8, 0x624d8cb2))
  {
    Trace62();
    Next4(62, 14, 0x4f9dbe3f, 0x624d8cb2, 0x310ade8f, 0x7327d604, 0x0, 15, 0x2ad7d2bb, 0xe484b9d8);
    Next4(63, 15, 0x7327d604, 0xe484b9d8, 0x624d8cb2, 0x310ade8f, 0x0, 21, 0xeb86d391, 0xc08226b3);
  }

  const ABC: seq<Byte> := [0x61, 0x62, 0x63]

  lemma PaddedAbc()
    ensures var p := Padded(ABC);
            && |p| == 64 && p[0] == 0x61 && p[1] == 0x62 && p[2] == 0x63 && p[3] == 0x80 && p[56] == 24
            && (forall i :: 4 <= i < 56 ==> p[i] == 0) && (forall i :: 57 <= i < 64 ==> p[i] == 0)
  {
    var l := LengthBytes(3);
    assert Padded(ABC) == ABC + [0x80] + Zeros(52) + l;
    ByteOfFour(24);
    forall i | 1 <= i < 8 ensures l[i] == 0 {
      SmallBytes(24, i);
    }
  }

  lemma WordOf(p: seq<Byte>, k: nat, n: nat)
    requires |p| == 64 && k < 16 && n < 0x1_0000_0000
    requires p[4 * k] + 0x100 * p[4 * k + 1] as int + 0x1_0000 * p[4 * k + 2] as int
             + 0x100_0000 * p[4 * k + 3] as int == n
    ensures WordAt(p, k) == n as Word
  {
  }

  lemma WordsOfAbc(p: seq<Byte>, k: nat)
    requires |p| == 64 && p[0] == 0x61 && p[1] == 0x62 && p[2] == 0x63 && p[3] == 0x80 && p[56] == 24
    requires (forall i :: 4 <= i < 56 ==> p[i] == 0) && (forall i :: 57 <= i < 64 ==> p[i] == 0) && k < 16
    ensures WordAt(p, k) == AbcWord(k)
  {
    WordOf(p, k, if k == 0 then 0x80636261 else if k == 14 then 24 else 0);
  }

  lemma {:induction false} SmallBytes(n: nat, i: nat)
    requires n < 256 && i > 0
    ensures ByteOf(n, i) == 0
    decreases i
  {
    if i > 1 {
      SmallBytes(0, i - 1);
    }
  }

  lemma BlockAbc()
    ensures Block(MD5_OPS, SINES, INITIAL, AbcWords()) == Registers(0x98500190, 0xb04fd23c, 0x7d3f96d6, 0x727fe128)
  {
    Trace64();
    assert Reaches(Abc, 64, Registers(0x310ade8f, 0xc08226b3, 0xe484b9d8, 0x624d8cb2));
    SourceConstants();
  }

  /** MD5 ("abc") = 900150983cd24fb0d6963f7d28e17f72. */
  lemma DigestOfAbc()
    ensures Digest(ABC) == [0x90, 0x01, 0x50, 0x98] + [0x3c, 0xd2, 0x4f, 0xb0]
                            + [0xd6, 0x96, 0x3f, 0x7d] + [0x28, 0xe1, 0x7f, 0x72]
  {
    PaddedAbc();
    var p := Padded(ABC);
    forall k: nat | k < 16 ensures WordAt(p, k) == AbcWord(k) {
      WordsOfAbc(p, k);
    }
    assert Words(p) == AbcWords();
    BlockAbc();
    assert p[..64] == p && p[64..] == [];
    assert Absorb(BLOCK, INITIAL, p) == BLOCK(INITIAL, p);
    OutputOfAbc(BLOCK(INITIAL, p));
  }

  lemma OutputOfAbc(r: Registers<Word>)
    requires r == Registers(0x98500190, 0xb04fd23c, 0x7d3f96d6, 0x727fe128)
    ensures Output(r) == [0x90, 0x01, 0x50, 0x98] + [0x3c, 0xd2, 0x4f, 0xb0]
                         + [0xd6, 0x96, 0x3f, 0x7d] + [0x28, 0xe1, 0x7f, 0x72]
  {
    Number0();
    Bytes0();
    Number1();
    Bytes1();
    Number2();
    Bytes2();
    Number3();
    Bytes3();
    OutputFrom(r);
    BytesOfFourAre(0x98500190, 0xb04fd23c, 0x7d3f96d6, 0x727fe128);
  }

  function FourBytes(n: nat): (s: seq<Byte>)
    ensures |s| == 4
  {
    [n % 256, n / 256 % 256, n / 256 / 256 % 256, n / 256 / 256 / 256 % 256]
  }

  function BytesOfFour(a: nat, b: nat, c: nat, d: nat): (s: seq<Byte>)
    ensures |s| == 16
  {
    seq(16, i requires 0 <= i < 16 => ByteOf(if i < 4 then a else if i < 8 then b else if i < 12 then c else d, i % 4))
  }

  lemma OutputFrom(r: Registers<Word>)
    ensures Output(r) == BytesOfFour(r.a as int, r.b as int, r.c as int, r.d as int)
  {
  }

  lemma BytesOfFourAre(a: nat, b: nat, c: nat, d: nat)
    ensures BytesOfFour(a, b, c, d) == FourBytes(a) + FourBytes(b) + FourBytes(c) + FourBytes(d)
  {
    ByteOfFour(a);
    ByteOfFour(b);
    ByteOfFour(c);
    ByteOfFour(d);
  }

  lemma Number0()
    ensures (0x98500190 as Word) as int == 0x98500190
  {
  }

  lemma Bytes0()
    ensures FourBytes(0x98500190) == [0x90, 0x01, 0x50, 0x98]
  {
  }

  lemma Number1()
    ensures (0xb04fd23c as Word) as int == 0xb04fd23c
  {
  }

  lemma Bytes1()
    ensures FourBytes(0xb04fd23c) == [0x3c, 0xd2, 0x4f, 0xb0]
  {
  }

  lemma Number2()
    ensures (0x7d3f96d6 as Word) as int == 0x7d3f96d6
  {
  }

  lemma Bytes2()
    ensures FourBytes(0x7d3f96d6) == [0xd6, 0x96, 0x3f, 0x7d]
  {
  }

  lemma Number3()
    ensures (0x727fe128 as Word) as int == 0x727fe128
  {
  }

  lemma Bytes3()
    ensures FourBytes(0x727fe128) == [0x28, 0xe1, 0x7f, 0x72]
  {
  }
}
