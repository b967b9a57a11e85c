/** The block function of MD5: section 3.4 of RFC 1321 as an indexed loop, and the source's 64 unrolled
    steps, in which the four registers change places instead of their values. That the two agree
    does not depend on what the word operations are, so both are stated for any operations. */
module Md5Block {

  type Byte = x: int | 0 <= x < 256
  type Word = bv32

  /** How far a word is rotated. */
  type Amount = bv32

  datatype Registers<W> = Registers(a: W, b: W, c: W, d: W)

  /** The operations on words: sum, rotation to the left, and the auxiliary function of each round. */
  datatype WordOps<!W> = WordOps(
    plus: (W, W) -> W, rotate: (W, Amount) -> W,
    f: (W, W, W) -> W, g: (W, W, W) -> W, h: (W, W, W) -> W, i: (W, W, W) -> W)

  // ----- section 3.4 of RFC 1321 -----

  /** The auxiliary function of the round that operation n belongs to. */
  function Aux<W>(ops: WordOps<W>, n: nat): (W, W, W) -> W {
    if n < 16 then ops.f else if n < 32 then ops.g else if n < 48 then ops.h else ops.i
  }

  /** The word that operation n uses. */
  function WordIndex(n: nat): (k: nat)
    ensures k < 16
  {
    if n < 16 then n
    else if n < 32 then (5 * n + 1) % 16
    else if n < 48 then (3 * n + 5) % 16
    else (7 * n) % 16
  }

  function Shift(n: nat): (s: Amount)
    ensures 0 < s < 32
  {
    if n < 16 then [7, 12, 17, 22][n % 4]
    else if n < 32 then [5, 9, 14, 20][n % 4]
    else if n < 48 then [4, 11, 16, 23][n % 4]
    else [6, 10, 15, 21][n % 4]
  }

  /** A register's new value: b + ((a + q(b,c,d) + x + t) <<< s). The source has a macro for it, SET. */
  function Set<W>(ops: WordOps<W>, q: (W, W, W) -> W, a: W, b: W, c: W, d: W, x: W, s: Amount, t: W): W {
    ops.plus(ops.rotate(ops.plus(ops.plus(ops.plus(a, q(b, c, d)), x), t), s), b)
  }

  /** Operation n: the new value enters at b, and the other registers move on by one place. */
  function Operation<W>(ops: WordOps<W>, t: seq<W>, n: nat, r: Registers<W>, x: seq<W>): Registers<W>
    requires n < 64 && |x| == 16 && |t| == 64
  {
    Registers(r.d, Set(ops, Aux(ops, n), r.a, r.b, r.c, r.d, x[WordIndex(n)], Shift(n), t[n]), r.b, r.c)
  }

  /** The first n operations. */
  function Operations<W>(ops: WordOps<W>, t: seq<W>, n: nat, r: Registers<W>, x: seq<W>): Registers<W>
    requires n <= 64 && |x| == 16 && |t| == 64
  {
    if n == 0 then r else Operation(ops, t, n - 1, Operations(ops, t, n - 1, r, x), x)
  }

  /** All 64, added to the registers as they were before the block. */
  function Block<W>(ops: WordOps<W>, t: seq<W>, r: Registers<W>, x: seq<W>): Registers<W>
    requires |x| == 16 && |t| == 64
  {
    var q := Operations(ops, t, |t|, r, x);
    Registers(ops.plus(r.a, q.a), ops.plus(r.b, q.b), ops.plus(r.c, q.c), ops.plus(r.d, q.d))
  }

  // ----- md5_process -----

  /** After four operations the registers are back in their places. */
  lemma Four<W>(ops: WordOps<W>, t: seq<W>, n: nat, start: Registers<W>, x: seq<W>)
    requires n <= 60 && |x| == 16 && |t| == 64
    ensures var r := Operations(ops, t, n, start, x);
            Operations(ops, t, n + 4, start, x)
            == Operation(ops, t, n + 3, Operation(ops, t, n + 2, Operation(ops, t, n + 1, Operation(ops, t, n, r, x), x), x), x)
  {
    assert Operations(ops, t, n + 2, start, x) == Operation(ops, t, n + 1, Operations(ops, t, n + 1, start, x), x);
    assert Operations(ops, t, n + 3, start, x) == Operation(ops, t, n + 2, Operations(ops, t, n + 2, start, x), x);
  }

  /** Round 1: the source's steps 1 to 16. */
  method Round1<W>(ops: WordOps<W>, t: seq<W>, r: Registers<W>, x: seq<W>, ghost start: Registers<W>, ghost n: nat)
    returns (a: W, b: W, c: W, d: W)
    requires |x| == 16 && |t| == 64 && n == 0 && r == Operations(ops, t, n, start, x)
    ensures Registers(a, b, c, d) == Operations(ops, t, n + 16, start, x)
  {
    a, b, c, d := r.a, r.b, r.c, r.d;
    a := Set(ops, ops.f, a, b, c, d, x[0], 7, t[0]);
    d := Set(ops, ops.f, d, a, b, c, x[1], 12, t[1]);
    c := Set(ops, ops.f, c, d, a, b, x[2], 17, t[2]);
    b := Set(ops, ops.f, b, c, d, a, x[3], 22, t[3]);
    Four(ops, t, n, start, x);
    assert Registers(a, b, c, d) == Operations(ops, t, n + 4, start, x);
    a := Set(ops, ops.f, a, b, c, d, x[4], 7, t[4]);
    d := Set(ops, ops.f, d, a, b, c, x[5], 12, t[5]);
    c := Set(ops, ops.f, c, d, a, b, x[6], 17, t[6]);
    b := Set(ops, ops.f, b, c, d, a, x[7], 22, t[7]);
    Four(ops, t, n + 4, start, x);
    assert Registers(a, b, c, d) == Operations(ops, t, n + 8, start, x);
    a := Set(ops, ops.f, a, b, c, d, x[8], 7, t[8]);
    d := Set(ops, ops.f, d, a, b, c, x[9], 12, t[9]);
    c := Set(ops, ops.f, c, d, a, b, x[10], 17, t[10]);
    b := Set(ops, ops.f, b, c, d, a, x[11], 22, t[11]);
    Four(ops, t, n + 8, start, x);
    assert Registers(a, b, c, d) == Operations(ops, t, n + 12, start, x);
    a := Set(ops, ops.f, a, b, c, d, x[12], 7, t[12]);
    d := Set(ops, ops.f, d, a, b, c, x[13], 12, t[13]);
    c := Set(ops, ops.f, c, d, a, b, x[14], 17, t[14]);
    b := Set(ops, ops.f, b, c, d, a, x[15], 22, t[15]);
    Four(ops, t, n + 12, start, x);
    assert Registers(a, b, c, d) == Operations(ops, t, n + 16, start, x);
  }

  /** Round 2: the source's steps 17 to 32. */
  method Round2<W>(ops: WordOps<W>, t: seq<W>, r: Registers<W>, x: seq<W>, ghost start: Registers<W>, ghost n: nat)
    returns (a: W, b: W, c: W, d: W)
    requires |x| == 16 && |t| == 64 && n == 16 && r == Operations(ops, t, n, start, x)
    ensures Registers(a, b, c, d) == Operations(ops, t, n + 16, start, x)
  {
    a, b, c, d := r.a, r.b, r.c, r.d;
    a := Set(ops, ops.g, a, b, c, d, x[1], 5, t[16]);
    d := Set(ops, ops.g, d, a, b, c, x[6], 9, t[17]);
    c := Set(ops, ops.g, c, d, a, b, x[11], 14, t[18]);
    b := Set(ops, ops.g, b, c, d, a, x[0], 20, t[19]);
    Four(ops, t, n, start, x);
    assert Registers(a, b, c, d) == Operations(ops, t, n + 4, start, x);
    a := Set(ops, ops.g, a, b, c, d, x[5], 5, t[20]);
    d := Set(ops, ops.g, d, a, b, c, x[10], 9, t[21]);
    c := Set(ops, ops.g, c, d, a, b, x[15], 14, t[22]);
    b := Set(ops, ops.g, b, c, d, a, x[4], 20, t[23]);
    Four(ops, t, n + 4, start, x);
    assert Registers(a, b, c, d) == Operations(ops, t, n + 8, start, x);
    a := Set(ops, ops.g, a, b, c, d, x[9], 5, t[24]);
    d := Set(ops, ops.g, d, a, b, c, x[14], 9, t[25]);
    c := Set(ops, ops.g, c, d, a, b, x[3], 14, t[26]);
    b := Set(ops, ops.g, b, c, d, a, x[8], 20, t[27]);
    Four(ops, t, n + 8, start, x);
    assert Registers(a, b, c, d) == Operations(ops, t, n + 12, start, x);
    a := Set(ops, ops.g, a, b, c, d, x[13], 5, t[28]);
    d := Set(ops, ops.g, d, a, b, c, x[2], 9, t[29]);
    c := Set(ops, ops.g, c, d, a, b, x[7], 14, t[30]);
    b := Set(ops, ops.g, b, c, d, a, x[12], 20, t[31]);
    Four(ops, t, n + 12, start, x);
    assert Registers(a, b, c, d) == Operations(ops, t, n + 16, start, x);
  }

  /** Round 3: the source's steps 33 to 48. */
  method Round3<W>(ops: WordOps<W>, t: seq<W>, r: Registers<W>, x: seq<W>, ghost start: Registers<W>, ghost n: nat)
    returns (a: W, b: W, c: W, d: W)
    requires |x| == 16 && |t| == 64 && n == 32 && r == Operations(ops, t, n, start, x)
    ensures Registers(a, b, c, d) == Operations(ops, t, n + 16, start, x)
  {
    a, b, c, d := r.a, r.b, r.c, r.d;
    a := Set(ops, ops.h, a, b, c, d, x[5], 4, t[32]);
    d := Set(ops, ops.h, d, a, b, c, x[8], 11, t[33]);
    c := Set(ops, ops.h, c, d, a, b, x[11], 16, t[34]);
    b := Set(ops, ops.h, b, c, d, a, x[14], 23, t[35]);
    Four(ops, t, n, start, x);
    assert Registers(a, b, c, d) == Operations(ops, t, n + 4, start, x);
    a := Set(ops, ops.h, a, b, c, d, x[1], 4, t[36]);
    d := Set(ops, ops.h, d, a, b, c, x[4], 11, t[37]);
    c := Set(ops, ops.h, c, d, a, b, x[7], 16, t[38]);
    b := Set(ops, ops.h, b, c, d, a, x[10], 23, t[39]);
    Four(ops, t, n + 4, start, x);
    assert Registers(a, b, c, d) == Operations(ops, t, n + 8, start, x);
    a := Set(ops, ops.h, a, b, c, d, x[13], 4, t[40]);
    d := Set(ops, ops.h, d, a, b, c, x[0], 11, t[41]);
    c := Set(ops, ops.h, c, d, a, b, x[3], 16, t[42]);
    b := Set(ops, ops.h, b, c, d, a, x[6], 23, t[43]);
    Four(ops, t, n + 8, start, x);
    assert Registers(a, b, c, d) == Operations(ops, t, n + 12, start, x);
    a := Set(ops, ops.h, a, b, c, d, x[9], 4, t[44]);
    d := Set(ops, ops.h, d, a, b, c, x[12], 11, t[45]);
    c := Set(ops, ops.h, c, d, a, b, x[15], 16, t[46]);
    b := Set(ops, ops.h, b, c, d, a, x[2], 23, t[47]);
    Four(ops, t, n + 12, start, x);
    assert Registers(a, b, c, d) == Operations(ops, t, n + 16, start, x);
  }

  /** Round 4: the source's steps 49 to 64. */
  method Round4<W>(ops: WordOps<W>, t: seq<W>, r: Registers<W>, x: seq<W>, ghost start: Registers<W>, ghost n: nat)
    returns (a: W, b: W, c: W, d: W)
    requires |x| == 16 && |t| == 64 && n == 48 && r == Operations(ops, t, n, start, x)
    ensures Registers(a, b, c, d) == Operations(ops, t, n + 16, start, x)
  {
    a, b, c, d := r.a, r.b, r.c, r.d;
    a := Set(ops, ops.i, a, b, c, d, x[0], 6, t[48]);
    d := Set(ops, ops.i, d, a, b, c, x[7], 10, t[49]);
    c := Set(ops, ops.i, c, d, a, b, x[14], 15, t[50]);
    b := Set(ops, ops.i, b, c, d, a, x[5], 21, t[51]);
    Four(ops, t, n, start, x);
    assert Registers(a, b, c, d) == Operations(ops, t, n + 4, start, x);
    a := Set(ops, ops.i, a, b, c, d, x[12], 6, t[52]);
    d := Set(ops, ops.i, d, a, b, c, x[3], 10, t[53]);
    c := Set(ops, ops.i, c, d, a, b, x[10], 15, t[54]);
    b := Set(ops, ops.i, b, c, d, a, x[1], 21, t[55]);
    Four(ops, t, n + 4, start, x);
    assert Registers(a, b, c, d) == Operations(ops, t, n + 8, start, x);
    a := Set(ops, ops.i, a, b, c, d, x[8], 6, t[56]);
    d := Set(ops, ops.i, d, a, b, c, x[15], 10, t[57]);
    c := Set(ops, ops.i, c, d, a, b, x[6], 15, t[58]);
    b := Set(ops, ops.i, b, c, d, a, x[13], 21, t[59]);
    Four(ops, t, n + 8, start, x);
    assert Registers(a, b, c, d) == Operations(ops, t, n + 12, start, x);
    a := Set(ops, ops.i, a, b, c, d, x[4], 6, t[60]);
    d := Set(ops, ops.i, d, a, b, c, x[11], 10, t[61]);
    c := Set(ops, ops.i, c, d, a, b, x[2], 15, t[62]);
    b := Set(ops, ops.i, b, c, d, a, x[9], 21, t[63]);
    Four(ops, t, n + 12, start, x);
    assert Registers(a, b, c, d) == Operations(ops, t, n + 16, start, x);
  }

  /** md5_process on the sixteen words of a block, with t[k] for the source's constant T(k + 1). */
  method ProcessWords<W>(ops: WordOps<W>, t: seq<W>, r: Registers<W>, x: seq<W>) returns (r': Registers<W>)
    requires |x| == 16 && |t| == 64
    ensures r' == Block(ops, t, r, x)
  {
    ghost var n := 0;
    var a, b, c, d := Round1(ops, t, r, x, r, n);
    a, b, c, d := Round2(ops, t, Registers(a, b, c, d), x, r, n + 16);
    a, b, c, d := Round3(ops, t, Registers(a, b, c, d), x, r, n + 32);
    a, b, c, d := Round4(ops, t, Registers(a, b, c, d), x, r, n + 48);
    assert Registers(a, b, c, d) == Operations(ops, t, n + 64, r, x);
    r' := Registers(ops.plus(r.a, a), ops.plus(r.b, b), ops.plus(r.c, c), ops.plus(r.d, d));
  }

  // ----- 32-bit words -----

  function F(x: Word, y: Word, z: Word): Word { (x & y) | (!x & z) }
  function G(x: Word, y: Word, z: Word): Word { (x & z) | (y & !z) }
  function H(x: Word, y: Word, z: Word): Word { x ^ y ^ z }
  function I(x: Word, y: Word, z: Word): Word { y ^ (x | !z) }

  function RotateLeft(x: Word, n: Amount): Word {
    if 0 < n < 32 then (x << n) | (x >> (32 - n)) else x
  }

  function Plus(x: Word, y: Word): Word { x + y }

  const MD5_OPS: WordOps<Word> := WordOps(Plus, RotateLeft, F, G, H, I)

  const MASK: Word := 0xffff_ffff

  /** The source's constants of round 1. */
  const T1: seq<Word> := [
    MASK ^ 0x28955b87, MASK ^ 0x173848a9, 0x242070db, MASK ^ 0x3e423111,
    MASK ^ 0x0a83f050, 0x4787c62a, MASK ^ 0x57cfb9ec, MASK ^ 0x02b96afe,
    0x698098d8, MASK ^ 0x74bb0850, MASK ^ 0x0000a44e, MASK ^ 0x76a32841,
    0x6b901122, MASK ^ 0x02678e6c, MASK ^ 0x5986bc71, 0x49b40821]

  /** The source's constants of round 2. */
  const T2: seq<Word> := [
    MASK ^ 0x09e1da9d, MASK ^ 0x3fbf4cbf, 0x265e5a51, MASK ^ 0x16493855,
    MASK ^ 0x29d0efa2, 0x02441453, MASK ^ 0x275e197e, MASK ^ 0x182c0437,
    0x21e1cde6, MASK ^ 0x3cc8f829, MASK ^ 0x0b2af278, 0x455a14ed,
    MASK ^ 0x561c16fa, MASK ^ 0x03105c07, 0x676f02d9, MASK ^ 0x72d5b375]

  /** The source's constants of round 3. */
  const T3: seq<Word> := [
    MASK ^ 0x0005c6bd, MASK ^ 0x788e097e, 0x6d9d6122, MASK ^ 0x021ac7f3,
    MASK ^ 0x5b4115bb, 0x4bdecfa9, MASK ^ 0x0944b49f, MASK ^ 0x4140438f,
    0x289b7ec6, MASK ^ 0x155ed805, MASK ^ 0x2b10cf7a, 0x04881d05,
    MASK ^ 0x262b2fc6, MASK ^ 0x1924661a, 0x1fa27cf8, MASK ^ 0x3b53a99a]

  /** The source's constants of round 4. */
  const T4: seq<Word> := [
    MASK ^ 0x0bd6ddbb, 0x432aff97, MASK ^ 0x546bdc58, MASK ^ 0x036c5fc6,
    0x655b59c3, MASK ^ 0x70f3336d, MASK ^ 0x00100b82, MASK ^ 0x7a7ba22e,
    0x6fa87e4f, MASK ^ 0x01d3191f, MASK ^ 0x5cfebceb, 0x4e0811a1,
    MASK ^ 0x08ac817d, MASK ^ 0x42c50dca, 0x2ad7d2bb, MASK ^ 0x14792c6e]

  /** The table of RFC 1321 for round 1: the integer part of 4294967296 * abs(sin(k)). */
  const SINES1: seq<Word> := [
    0xd76aa478, 0xe8c7b756, 0x242070db, 0xc1bdceee, 0xf57c0faf, 0x4787c62a, 0xa8304613, 0xfd469501,
    0x698098d8, 0x8b44f7af, 0xffff5bb1, 0x895cd7be, 0x6b901122, 0xfd987193, 0xa679438e, 0x49b40821]

  /** The table of RFC 1321 for round 2: the integer part of 4294967296 * abs(sin(k)). */
  const SINES2: seq<Word> := [
    0xf61e2562, 0xc040b340, 0x265e5a51, 0xe9b6c7aa, 0xd62f105d, 0x02441453, 0xd8a1e681, 0xe7d3fbc8,
    0x21e1cde6, 0xc33707d6, 0xf4d50d87, 0x455a14ed, 0xa9e3e905, 0xfcefa3f8, 0x676f02d9, 0x8d2a4c8a]

  /** The table of RFC 1321 for round 3: the integer part of 4294967296 * abs(sin(k)). */
  const SINES3: seq<Word> := [
    0xfffa3942, 0x8771f681, 0x6d9d6122, 0xfde5380c, 0xa4beea44, 0x4bdecfa9, 0xf6bb4b60, 0xbebfbc70,
    0x289b7ec6, 0xeaa127fa, 0xd4ef3085, 0x04881d05, 0xd9d4d039, 0xe6db99e5, 0x1fa27cf8, 0xc4ac5665]

  /** The table of RFC 1321 for round 4: the integer part of 4294967296 * abs(sin(k)). */
  const SINES4: seq<Word> := [
    0xf4292244, 0x432aff97, 0xab9423a7, 0xfc93a039, 0x655b59c3, 0x8f0ccc92, 0xffeff47d, 0x85845dd1,
    0x6fa87e4f, 0xfe2ce6e0, 0xa3014314, 0x4e0811a1, 0xf7537e82, 0xbd3af235, 0x2ad7d2bb, 0xeb86d391]

  lemma Row1()
    ensures T1 == SINES1
  {
    assert T1[0] == SINES1[0];
    assert T1[1] == SINES1[1];
    assert T1[2] == SINES1[2];
    assert T1[3] == SINES1[3];
    assert T1[4] == SINES1[4];
    assert T1[5] == SINES1[5];
    assert T1[6] == SINES1[6];
    assert T1[7] == SINES1[7];
    assert T1[8] == SINES1[8];
    assert T1[9] == SINES1[9];
    assert T1[10] == SINES1[10];
    assert T1[11] == SINES1[11];
    assert T1[12] == SINES1[12];
    assert T1[13] == SINES1[13];
    assert T1[14] == SINES1[14];
    assert T1[15] == SINES1[15];
  }

  lemma Row2()
    ensures T2 == SINES2
  {
    assert T2[0] == SINES2[0];
    assert T2[1] == SINES2[1];
    assert T2[2] == SINES2[2];
    assert T2[3] == SINES2[3];
    assert T2[4] == SINES2[4];
    assert T2[5] == SINES2[5];
    assert T2[6] == SINES2[6];
    assert T2[7] == SINES2[7];
    assert T2[8] == SINES2[8];
    assert T2[9] == SINES2[9];
    assert T2[10] == SINES2[10];
    assert T2[11] == SINES2[11];
    assert T2[12] == SINES2[12];
    assert T2[13] == SINES2[13];
    assert T2[14] == SINES2[14];
    assert T2[15] == SINES2[15];
  }

  lemma Row3()
    ensures T3 == SINES3
  {
    assert T3[0] == SINES3[0];
    assert T3[1] == SINES3[1];
    assert T3[2] == SINES3[2];
    assert T3[3] == SINES3[3];
    assert T3[4] == SINES3[4];
    assert T3[5] == SINES3[5];
    assert T3[6] == SINES3[6];
    assert T3[7] == SINES3[7];
    assert T3[8] == SINES3[8];
    assert T3[9] == SINES3[9];
    assert T3[10] == SINES3[10];
    assert T3[11] == SINES3[11];
    assert T3[12] == SINES3[12];
    assert T3[13] == SINES3[13];
    assert T3[14] == SINES3[14];
    assert T3[15] == SINES3[15];
  }

  lemma Row4()
    ensures T4 == SINES4
  {
    assert T4[0] == SINES4[0];
    assert T4[1] == SINES4[1];
    assert T4[2] == SINES4[2];
    assert T4[3] == SINES4[3];
    assert T4[4] == SINES4[4];
    assert T4[5] == SINES4[5];
    assert T4[6] == SINES4[6];
    assert T4[7] == SINES4[7];
    assert T4[8] == SINES4[8];
    assert T4[9] == SINES4[9];
    assert T4[10] == SINES4[10];
    assert T4[11] == SINES4[11];
    assert T4[12] == SINES4[12];
    assert T4[13] == SINES4[13];
    assert T4[14] == SINES4[14];
    assert T4[15] == SINES4[15];
  }

  const SOURCE_T: seq<Word> := T1 + T2 + T3 + T4
  const SINES: seq<Word> := SINES1 + SINES2 + SINES3 + SINES4

  lemma SourceConstants()
    ensures SOURCE_T == SINES && |SINES| == 64
  {
    Row1();
    Row2();
    Row3();
    Row4();
  }

  /** Bytes to a word, low-order byte first. */
  function WordAt(block: seq<Byte>, k: nat): Word
    requires |block| == 64 && k < 16
  {
    var n: int := block[4 * k];
    (n + 0x100 * (block[4 * k + 1] as int) + 0x1_0000 * (block[4 * k + 2] as int) + 0x100_0000 * (block[4 * k + 3] as int)) as Word
  }

  function Words(block: seq<Byte>): (x: seq<Word>)
    requires |block| == 64
    ensures |x| == 16
  {
    seq(16, k requires 0 <= k < 16 => WordAt(block, k))
  }

  /** MD5's block function, as section 3.4 of RFC 1321 has it. */
  function Compress(r: Registers<Word>, block: seq<Byte>): Registers<Word>
    requires |block| == 64
  {
    SourceConstants();
    Block(MD5_OPS, SINES, r, Words(block))
  }

  /** The same as a total function, to be used without looking into it. */
  const BLOCK: (Registers<Word>, seq<Byte>) -> Registers<Word> :=
    (r, block) => if |block| == 64 then Compress(r, block) else r

  method Process(r: Registers<Word>, block: seq<Byte>) returns (r': Registers<Word>)
    requires |block| == 64
    ensures r' == BLOCK(r, block)
  {
    SourceConstants();
    r' := ProcessWords(MD5_OPS, SOURCE_T, r, Words(block));
  }
}
