/** MD5 over a stream: an accumulate buffer of one block, a two-word bit counter with carry, and
    padding that goes through the same entry point as the message. */
module Md5 {
  import opened Md5Block

  // ----- sections 3.1 to 3.5 of RFC 1321 -----

  const INITIAL: Registers<Word> := Registers(0x67452301, 0xefcdab89, 0x98badcfe, 0x10325476)

  /** The blocks of a whole number of blocks, one after the other. */
  function Absorb<S>(f: (S, seq<Byte>) -> S, r: S, m: seq<Byte>): S
    decreases |m|
  {
    if |m| < 64 then r else Absorb(f, f(r, m[..64]), m[64..])
  }

  function Zeros(n: nat): (z: seq<Byte>)
    ensures |z| == n
  {
    seq(n, _ => 0)
  }

  /** Byte i of a number, low-order byte first. */
  function ByteOf(n: nat, i: nat): Byte
    decreases i
  {
    if i == 0 then n % 256 else ByteOf(n / 256, i - 1)
  }

  /** The message length in bits, modulo 2^64, in eight bytes. */
  function LengthBytes(n: nat): (s: seq<Byte>)
    ensures |s| == 8
  {
    seq(8, i requires 0 <= i < 8 => ByteOf((8 * n) % 0x1_0000_0000_0000_0000, i))
  }

  /** A one bit, zeros up to 448 bits modulo 512, and the length: at least one byte of padding. */
  function Padded(m: seq<Byte>): seq<Byte> {
    m + [0x80] + Zeros((55 - |m|) % 64) + LengthBytes(|m|)
  }

  /** The four registers, low-order byte of a first. */
  function Output(r: Registers<Word>): (s: seq<Byte>)
    ensures |s| == 16
  {
    seq(16, i requires 0 <= i < 16 => ByteOf(Register(r, i / 4) as int, i % 4))
  }

  function Register(r: Registers<Word>, i: nat): Word {
    if i == 0 then r.a else if i == 1 then r.b else if i == 2 then r.c else r.d
  }

  /** MD5 of a message. */
  function Digest(m: seq<Byte>): seq<Byte> {
    Output(Absorb(BLOCK, INITIAL, Padded(m)))
  }

  // ----- about the padding -----

  /** Padding fills the message up to whole blocks with no block to spare, and keeps it as a prefix. */
  lemma PaddedLength(m: seq<Byte>)
    ensures |Padded(m)| % 64 == 0
    ensures |m| + 9 <= |Padded(m)| < |m| + 9 + 64
    ensures m <= Padded(m)
  {
  }

  lemma {:induction false} BytesInjective(x: nat, y: nat, n: nat, bound: nat)
    requires x < bound && y < bound && bound <= Power(n)
    requires forall i :: 0 <= i < n ==> ByteOf(x, i) == ByteOf(y, i)
    ensures x == y
  {
    if n > 0 {
      forall i | 0 <= i < n - 1
        ensures ByteOf(x / 256, i) == ByteOf(y / 256, i)
      {
        assert ByteOf(x, i + 1) == ByteOf(y, i + 1);
      }
      BytesInjective(x / 256, y / 256, n - 1, Power(n - 1));
      assert ByteOf(x, 0) == ByteOf(y, 0);
    }
  }

  function Power(n: nat): nat {
    if n == 0 then 1 else 256 * Power(n - 1)
  }

  /** The last eight bytes of a padded message are its length. */
  lemma PaddedTail(m: seq<Byte>, i: nat)
    requires |m| < 0x2000_0000_0000_0000 && i < 8
    ensures |Padded(m)| >= 8 && Padded(m)[|Padded(m)| - 8 + i] == ByteOf(8 * |m|, i)
  {
    var front := m + [0x80] + Zeros((55 - |m|) % 64);
    assert Padded(m) == front + LengthBytes(|m|);
    assert LengthBytes(|m|)[i] == ByteOf(8 * |m|, i);
  }

  /** Different messages of less than 2^61 bytes are padded differently. */
  lemma PaddedInjective(m: seq<Byte>, m': seq<Byte>)
    requires |m| < 0x2000_0000_0000_0000 && |m'| < 0x2000_0000_0000_0000
    requires Padded(m) == Padded(m')
    ensures m == m'
  {
    forall i | 0 <= i < 8
      ensures ByteOf(8 * |m|, i) == ByteOf(8 * |m'|, i)
    {
      PaddedTail(m, i);
      PaddedTail(m', i);
    }
    PowerEight();
    BytesInjective(8 * |m|, 8 * |m'|, 8, 0x1_0000_0000_0000_0000);
    PaddedLength(m);
    PaddedLength(m');
    assert m == Padded(m)[..|m|] && m' == Padded(m')[..|m'|];
  }

  lemma PowerEight()
    ensures Power(8) == 0x1_0000_0000_0000_0000
  {
  }

  // ----- about absorbing -----

  lemma {:induction false} AbsorbConcat<S>(f: (S, seq<Byte>) -> S, r: S, k: nat, m: seq<Byte>, n: seq<Byte>)
    requires |m| == 64 * k
    ensures Absorb(f, r, m + n) == Absorb(f, Absorb(f, r, m), n)
    decreases k
  {
    if k == 0 {
      assert m + n == n;
    } else {
      assert (m + n)[..64] == m[..64];
      assert (m + n)[64..] == m[64..] + n;
      AbsorbConcat(f, f(r, m[..64]), k - 1, m[64..], n);
    }
  }

  datatype Part = Size | Result

  ghost predicate Holds(p: Part, r: Registers<Word>, k: nat, m: seq<Byte>) {
    match p
    case Size => |m| == 64 * k
    case Result => r == Absorb(BLOCK, INITIAL, m)
  }

  /** k blocks have been absorbed, m is what they held, and r is what they gave. */
  ghost predicate Absorbed(r: Registers<Word>, k: nat, m: seq<Byte>) {
    forall p :: Holds(p, r, k, m)
  }

  lemma AbsorbBlock(r: Registers<Word>, k: nat, m: seq<Byte>, block: seq<Byte>)
    requires Absorbed(r, k, m) && |block| == 64
    ensures Absorbed(BLOCK(r, block), k + 1, m + block)
  {
    assert Holds(Size, r, k, m) && Holds(Result, r, k, m);
    AbsorbConcat(BLOCK, INITIAL, k, m, block);
    assert block[..64] == block && block[64..] == [];
    assert Absorb(BLOCK, INITIAL, m + block) == BLOCK(r, block);
  }

  // ----- about the counter -----

  const W32 := 0x1_0000_0000
  const W64 := 0x1_0000_0000_0000_0000

  /** Adding with carry in two words is adding modulo 2^64. */
  lemma AddWithCarry(bits: nat, c0: nat, c1: nat, nbytes: nat, c0': nat, c1': nat)
    requires c0 < W32 && c1 < W32 && c1 * W32 + c0 == bits % W64
    requires var nbits := (8 * nbytes) % W32;
             && c0' == (c0 + nbits) % W32
             && c1' == (c1 + nbytes / 0x2000_0000 + if c0' < nbits then 1 else 0) % W32
    ensures c0' < W32 && c1' < W32 && c1' * W32 + c0' == (bits + 8 * nbytes) % W64
  {
    var nbits := (8 * nbytes) % W32;
    var high := nbytes / 0x2000_0000;
    assert 8 * nbytes == high * W32 + nbits;
    var carry := if c0' < nbits then 1 else 0;
    assert c0 + nbits == carry * W32 + c0';
    var q := (c1 + high + carry) / W32;
    assert c1 + high + carry == q * W32 + c1';
    var p := bits / W64;
    assert bits + 8 * nbytes == (p + q) * W64 + (c1' * W32 + c0');
  }

  /** The low-order word of the counter gives the length up to a multiple of 64. */
  lemma LowWord(n: nat, c0: nat, c1: nat) returns (j: nat)
    requires c0 < W32 && c1 < W32 && c1 * W32 + c0 == (8 * n) % W64
    ensures n == 64 * j + c0 / 8
  {
    var q := (8 * n) / W64;
    assert 8 * n == q * W64 + c1 * W32 + c0;
    j := q * 0x80_0000_0000_0000 + c1 * 0x80_0000;
    assert c0 == 8 * (n - 64 * j);
  }

  lemma AddMultiple(x: int, j: int)
    ensures (x + 64 * j) % 64 == x % 64
  {
    assert x + 64 * j == 64 * (x / 64 + j) + x % 64;
  }

  /** The position in the block, read off the low-order word of the counter. */
  lemma OffsetOf(n: nat, k: nat, c0: nat, c1: nat)
    requires c0 < W32 && c1 < W32 && c1 * W32 + c0 == (8 * n) % W64
    requires 64 * k <= n < 64 * k + 64
    ensures (c0 / 8) % 64 == n - 64 * k
  {
    var j := LowWord(n, c0, c1);
    AddMultiple(c0 / 8, j - k);
    assert c0 / 8 + 64 * (j - k) == n - 64 * k;
  }

  /** How much to pad, from the low-order word. The source's subtraction is modulo 2^32, which 64 divides. */
  lemma PadSize(n: nat, c0: nat, c1: nat)
    requires c0 < W32 && c1 < W32 && c1 * W32 + c0 == (8 * n) % W64
    ensures ((55 - c0 / 8) % W32) % 64 == (55 - n) % 64
  {
    var j := LowWord(n, c0, c1);
    var x := 55 - c0 / 8;
    var jj: int := j;
    AddMultiple(x, -jj);
    assert x % W32 == x + 64 * (-(x / W32) * 0x400_0000);
    AddMultiple(x, -(x / W32) * 0x400_0000);
  }

  /** The static pad: a one bit and zeros. */
  const PAD: seq<Byte> := [0x80] + Zeros(63)

  lemma PadParts(m: seq<Byte>, pad: seq<Byte>, data: seq<Byte>)
    requires pad == PAD[..(55 - |m|) % 64 + 1] && data == LengthBytes(|m|)
    ensures m + pad + data == Padded(m)
  {
    assert pad == [0x80] + Zeros((55 - |m|) % 64);
  }

  /** A byte of a two-word number is a byte of one of the words. */
  lemma TwoWords(c0: nat, c1: nat, i: nat)
    requires c0 < W32 && i < 8
    ensures ByteOf(c1 * W32 + c0, i) == ByteOf(if i / 4 == 0 then c0 else c1, i % 4)
  {
    var n := c1 * W32 + c0;
    assert n / 256 == c1 * 0x100_0000 + c0 / 256;
    assert n / 256 / 256 == c1 * 0x1_0000 + c0 / 256 / 256;
    assert n / 256 / 256 / 256 == c1 * 0x100 + c0 / 256 / 256 / 256;
    assert n / 256 / 256 / 256 / 256 == c1;
    ByteOfFour(n);
    ByteOfFour(c0);
    if i >= 4 {
      assert ByteOf(n, i) == ByteOf(n / 256, i - 1) == ByteOf(n / 256 / 256, i - 2);
      assert ByteOf(n / 256 / 256, i - 2) == ByteOf(n / 256 / 256 / 256, i - 3) == ByteOf(c1, i - 4);
    }
  }

  lemma ByteOfFour(n: nat)
    ensures ByteOf(n, 0) == n % 256 && ByteOf(n, 1) == n / 256 % 256
    ensures ByteOf(n, 2) == n / 256 / 256 % 256 && ByteOf(n, 3) == n / 256 / 256 / 256 % 256
  {
  }

  lemma AbsorbedSize(r: Registers<Word>, k: nat, m: seq<Byte>)
    requires Absorbed(r, k, m)
    ensures |m| == 64 * k
  {
    assert Holds(Size, r, k, m);
  }

  lemma AbsorbedResult(r: Registers<Word>, k: nat, m: seq<Byte>)
    requires Absorbed(r, k, m)
    ensures r == Absorb(BLOCK, INITIAL, m)
  {
    assert Holds(Result, r, k, m);
  }

  lemma WholeBlocks(r: Registers<Word>, k: nat, m: seq<Byte>)
    requires |m| % 64 == 0 && 64 * k <= |m| < 64 * k + 64 && Absorbed(r, k, m[..64 * k])
    ensures r == Absorb(BLOCK, INITIAL, m)
  {
    assert |m| == 64 * k;
    assert m[..64 * k] == m;
    AbsorbedResult(r, k, m);
  }

  class Md5State {
    // the bit count, low-order word first; the digest registers; the accumulate block
    var count0: nat
    var count1: nat
    var abcd: Registers<Word>
    const buf: array<Byte>

    /** Everything appended so far, and how many blocks of it are done. */
    ghost var msg: seq<Byte>
    ghost var done: nat

    ghost predicate Counted(n: nat)
      reads this
    {
      count0 < W32 && count1 < W32 && count1 * W32 + count0 == (8 * n) % W64
    }

    /** The registers hold the whole blocks of the message, the buffer its tail, the counter its length. */
    ghost predicate Valid()
      reads this, buf
    {
      && buf.Length == 64
      && Counted(|msg|)
      && 64 * done <= |msg| < 64 * done + 64
      && Absorbed(abcd, done, msg[..64 * done])
      && buf[..|msg| - 64 * done] == msg[64 * done..]
    }

    constructor Init()
      ensures Valid() && msg == [] && fresh(buf)
    {
      count0, count1 := 0, 0;
      abcd := Registers(0x67452301, MASK ^ 0x10325476, MASK ^ 0x67452301, 0x10325476);
      buf := new Byte[64];
      msg, done := [], 0;
      new;
      forall p ensures Holds(p, abcd, 0, []) { }
    }

    /** Adds the length of some data to the two-word counter. */
    method Count(ghost n: nat, nbytes: nat)
      requires Counted(n)
      modifies this`count0, this`count1
      ensures Counted(n + nbytes)
    {
      var nbits := (8 * nbytes) % W32;
      count1 := (count1 + nbytes / 0x2000_0000) % W32;
      count0 := (count0 + nbits) % W32;
      if count0 < nbits {
        count1 := (count1 + 1) % W32;
      }
      AddWithCarry(8 * n, old(count0), old(count1), nbytes, count0, count1);
    }

    /** memcpy into the accumulate block. */
    method CopyIn(offset: nat, src: seq<Byte>)
      requires buf.Length == 64 && offset + |src| <= 64
      modifies buf
      ensures buf[..offset + |src|] == old(buf[..offset]) + src
    {
      forall i | 0 <= i < |src| {
        buf[offset + i] := src[i];
      }
    }

    /** md5_process, seen from the stream. */
    method ProcessBlock(block: seq<Byte>, ghost k: nat, ghost m: seq<Byte>)
      requires Absorbed(abcd, k, m) && |block| == 64
      modifies this`abcd
      ensures Absorbed(abcd, k + 1, m + block)
    {
      AbsorbBlock(abcd, k, m, block);
      abcd := Process(abcd, block);
    }

    /** The full blocks of the data from position p on, straight from the data. */
    method Blocks(data: seq<Byte>, start: nat, ghost k0: nat, ghost before: seq<Byte>, ghost m: seq<Byte>)
      returns (p: nat, ghost k: nat)
      requires start <= |data| && m == before + data[..start] && Absorbed(abcd, k0, m)
      modifies this`abcd
      ensures start <= p <= |data| < p + 64 && Absorbed(abcd, k, before + data[..p])
    {
      p, k := start, k0;
      while |data| - p >= 64
        invariant start <= p <= |data| && Absorbed(abcd, k, before + data[..p])
      {
        ProcessBlock(data[p..p + 64], k, before + data[..p]);
        assert before + data[..p] + data[p..p + 64] == before + data[..p + 64];
        p, k := p + 64, k + 1;
      }
    }

    /** Data that stays within the accumulate block, already copied there. */
    ghost method Stay(data: seq<Byte>)
      requires buf.Length == 64 && Counted(|msg| + |data|) && 64 * done <= |msg| && |msg| + |data| < 64 * done + 64
      requires Absorbed(abcd, done, msg[..64 * done]) && buf[..|msg| + |data| - 64 * done] == msg[64 * done..] + data
      modifies this`msg
      ensures Valid() && msg == old(msg) + data
    {
      assert (msg + data)[..64 * done] == msg[..64 * done] && (msg + data)[64 * done..] == msg[64 * done..] + data;
      msg := msg + data;
    }

    /** The accumulate block is full: the tail of the message, and the start of the data. */
    method ProcessBuffer(ghost start: seq<Byte>)
      requires buf.Length == 64 && 64 * done <= |msg| && |msg| + |start| == 64 * done + 64
      requires Absorbed(abcd, done, msg[..64 * done]) && buf[..64] == msg[64 * done..] + start
      modifies this`abcd
      ensures Absorbed(abcd, done + 1, msg + start)
    {
      var block := buf[..];
      assert msg[..64 * done] + block == msg + start;
      ProcessBlock(block, done, msg[..64 * done]);
    }

    /** Keeps what is left of the data in the accumulate block. */
    method Keep(data: seq<Byte>, p: nat, ghost k: nat)
      requires buf.Length == 64 && Counted(|msg| + |data|) && p <= |data| < p + 64
      requires |msg| + p == 64 * k && Absorbed(abcd, k, msg + data[..p])
      modifies this`msg, this`done, buf
      ensures Valid() && msg == old(msg) + data
    {
      if p < |data| {
        CopyIn(0, data[p..]);
      }
      assert (msg + data)[..64 * k] == msg + data[..p] && (msg + data)[64 * k..] == data[p..];
      msg, done := msg + data, k;
      assert buf[..|msg| - 64 * done] == data[p..];
    }

    /** From a block boundary on: full blocks, then a partial one. */
    method BlocksAndRest(data: seq<Byte>, start: nat, ghost k0: nat, ghost m: seq<Byte>)
      requires buf.Length == 64 && Counted(|msg| + |data|) && start <= |data|
      requires m == msg + data[..start] && Absorbed(abcd, k0, m)
      modifies this`abcd, this`msg, this`done, buf
      ensures Valid() && msg == old(msg) + data
    {
      var p;
      ghost var k;
      p, k := Blocks(data, start, k0, msg, m);
      AbsorbedSize(abcd, k, msg + data[..p]);
      Keep(data, p, k);
    }

    /** Data that does not fill the accumulate block. */
    method AppendWithin(data: seq<Byte>, offset: nat)
      requires buf.Length == 64 && Counted(|msg| + |data|) && |msg| == 64 * done + offset && offset + |data| < 64
      requires Absorbed(abcd, done, msg[..64 * done]) && buf[..offset] == msg[64 * done..]
      modifies this`msg, buf
      ensures Valid() && msg == old(msg) + data
    {
      CopyIn(offset, data);
      Stay(data);
    }

    /** Data that does: its first bytes complete the block, and the rest starts at a block boundary. */
    method AppendAcross(data: seq<Byte>, offset: nat, copy: nat)
      requires buf.Length == 64 && Counted(|msg| + |data|) && |msg| == 64 * done + offset
      requires copy <= |data| && offset + copy == 64
      requires Absorbed(abcd, done, msg[..64 * done]) && buf[..offset] == msg[64 * done..]
      modifies this`abcd, this`msg, this`done, buf
      ensures Valid() && msg == old(msg) + data
    {
      CopyIn(offset, data[..copy]);
      ProcessBuffer(data[..copy]);
      BlocksAndRest(data, copy, done + 1, msg + data[..copy]);
    }

    method Append(data: seq<Byte>)
      requires Valid()
      modifies this, buf
      ensures Valid() && msg == old(msg) + data
    {
      var offset := (count0 / 8) % 64;
      OffsetOf(|msg|, done, count0, count1);
      if |data| == 0 {
        assert msg + data == msg;
        return;
      }
      Count(|msg|, |data|);
      if offset != 0 {
        var copy := if offset + |data| > 64 then 64 - offset else |data|;
        if offset + copy < 64 {
          AppendWithin(data, offset);
        } else {
          AppendAcross(data, offset, copy);
        }
      } else {
        assert msg[..64 * done] == msg + data[..0];
        BlocksAndRest(data, 0, done, msg + data[..0]);
      }
    }

    /** The padding goes through the same entry point as the message. */
    method Pad()
      requires Valid()
      modifies this, buf
      ensures Valid() && msg == Padded(old(msg))
    {
      ghost var m := msg;
      var data := LengthData();
      PadSize(|m|, count0, count1);
      var n := ((55 - count0 / 8) % W32) % 64 + 1;
      PadParts(m, PAD[..n], data);
      Append(PAD[..n]);
      Append(data);
    }

    /** Pads, and gives the digest of everything appended before. */
    method Finish() returns (digest: seq<Byte>)
      requires Valid()
      modifies this, buf
      ensures digest == Digest(old(msg))
    {
      ghost var m := msg;
      Pad();
      PaddedLength(m);
      WholeBlocks(abcd, done, Padded(m));
      digest := DigestBytes();
    }

    /** The saved length, byte by byte from the two words. */
    method LengthData() returns (data: seq<Byte>)
      requires Counted(|msg|)
      ensures data == LengthBytes(|msg|)
    {
      data := [];
      var i := 0;
      while i < 8
        invariant 0 <= i <= 8 && |data| == i
        invariant forall j :: 0 <= j < i ==> data[j] == ByteOf((8 * |msg|) % W64, j)
      {
        TwoWords(count0, count1, i);
        data := data + [ByteOf(if i / 4 == 0 then count0 else count1, i % 4)];
        i := i + 1;
      }
    }

    method DigestBytes() returns (digest: seq<Byte>)
      ensures digest == Output(abcd)
    {
      digest := [];
      var i := 0;
      while i < 16
        invariant 0 <= i <= 16 && |digest| == i
        invariant forall j :: 0 <= j < i ==> digest[j] == ByteOf(Register(abcd, j / 4) as int, j % 4)
      {
        digest := digest + [ByteOf(Register(abcd, i / 4) as int, i % 4)];
        i := i + 1;
      }
    }
  }

  /** md5_hash_string. */
  method HashString(s: seq<Byte>) returns (digest: seq<Byte>)
    ensures digest == Digest(s)
  {
    var state := new Md5State.Init();
    state.Append(s);
    assert [] + s == s;
    digest := state.Finish();
  }

  function Flatten(pieces: seq<seq<Byte>>): seq<Byte> {
    if pieces == [] then [] else Flatten(pieces[..|pieces| - 1]) + pieces[|pieces| - 1]
  }

  /** The stream as a client uses it: any number of appends, in any pieces, empty ones too. */
  method HashPieces(pieces: seq<seq<Byte>>) returns (digest: seq<Byte>)
    ensures digest == Digest(Flatten(pieces))
  {
    var state := new Md5State.Init();
    var i := 0;
    while i < |pieces|
      invariant 0 <= i <= |pieces|
      invariant state.Valid() && fresh(state) && fresh(state.buf) && state.msg == Flatten(pieces[..i])
    {
      state.Append(pieces[i]);
      assert pieces[..i + 1][..i] == pieces[..i];
      i := i + 1;
    }
    assert pieces[..i] == pieces;
    digest := state.Finish();
  }
}
