/** WebSocket payload masking (section 5.3 of RFC 6455): byte by byte, and word by word with a prepared
    key that is rotated from one chunk of a message to the next. */
module Masking {

  type Byte = bv8

  /** The host: 8-byte or 4-byte words, little-endian or big-endian. */
  datatype Host = Host(wide: bool, little: bool)

  function WordSize(h: Host): (n: nat)
    ensures n % 4 == 0 && 4 <= n <= 8
  {
    if h.wide then 8 else 4
  }

  // ----- words -----

  /** A machine word, as its bytes from the lowest weight to the highest. The source shifts words by
      whole bytes only. */
  type Word = seq<Byte>

  function Zeros(n: nat): (z: Word)
    ensures |z| == n && forall i :: 0 <= i < n ==> z[i] == 0
  {
    if n == 0 then [] else [0] + Zeros(n - 1)
  }

  /** w << 8 * n: what leaves at the top is lost. */
  function ShiftLeft(w: Word, n: nat): (r: Word)
    requires n <= |w|
    ensures |r| == |w|
  {
    Zeros(n) + w[..|w| - n]
  }

  /** w >> 8 * n. */
  function ShiftRight(w: Word, n: nat): (r: Word)
    requires n <= |w|
    ensures |r| == |w|
  {
    w[n..] + Zeros(n)
  }

  /** One byte of the bitwise operations. */
  function OrByte(x: Byte, y: Byte): Byte {
    x | y
  }

  function XorByte(x: Byte, y: Byte): Byte {
    x ^ y
  }

  function Or(x: Word, y: Word): (r: Word)
    requires |x| == |y|
    ensures |r| == |x|
  {
    seq(|x|, i requires 0 <= i < |x| => OrByte(x[i], y[i]))
  }

  function Xor(x: Word, y: Word): (r: Word)
    requires |x| == |y|
    ensures |r| == |x|
  {
    seq(|x|, i requires 0 <= i < |x| => XorByte(x[i], y[i]))
  }

  /** A word in memory, in the order of addresses; and a word read from memory. */
  function Memory(h: Host, w: Word): (r: seq<Byte>)
    ensures |r| == |w|
  {
    if h.little then w else Backwards(w)
  }

  function Backwards(w: Word): (r: Word)
    ensures |r| == |w| && forall i :: 0 <= i < |w| ==> r[i] == w[|w| - 1 - i]
  {
    seq(|w|, i requires 0 <= i < |w| => w[|w| - 1 - i])
  }

  // ----- the prepared key -----

  /** A masking key: four bytes, in the order in which they are applied. */
  type Key = c: seq<Byte> | |c| == 4 witness [0, 0, 0, 0]

  /** The key read as an integer of four bytes, made a machine word, and doubled into both halves of it
      when the word has eight. */
  function PrepareMaskingKey(h: Host, c: Key): (key: Word)
    ensures |key| == WordSize(h)
  {
    var i := Memory(h, c);
    if h.wide then
      var low := i + Zeros(4);
      Or(ShiftLeft(low, 4), low)
    else i
  }

  function CircshiftPreparedKey(h: Host, key: Word, offset: nat): (r: Word)
    requires |key| == WordSize(h) && offset < WordSize(h)
    ensures |r| == WordSize(h)
  {
    if offset == 0 then key
    else if h.little then Or(ShiftRight(key, offset), ShiftLeft(key, WordSize(h) - offset))
    else Or(ShiftLeft(key, offset), ShiftRight(key, WordSize(h) - offset))
  }

  /** Byte i of the endless repetition of m. */
  function CycleAt(m: seq<Byte>, i: nat): Byte
    requires |m| > 0
    decreases i
  {
    if i < |m| then m[i] else CycleAt(m, i - |m|)
  }

  /** The source's way to say it, for a key of four bytes. */
  lemma {:induction false} CycleModulo(c: Key, i: nat)
    ensures CycleAt(c, i) == c[i % 4]
    decreases i
  {
    if i >= 4 {
      CycleModulo(c, i - 4);
    }
  }

  lemma OrZero(x: Byte)
    ensures OrByte(x, 0) == x && OrByte(0, x) == x
  {
  }

  /** Two shifts in opposite directions, which fill each other's gap. */
  lemma OrShifts(w: Word, n: nat)
    requires n <= |w|
    ensures Or(ShiftRight(w, n), ShiftLeft(w, |w| - n)) == w[n..] + w[..n]
  {
    var low, high := ShiftRight(w, n), ShiftLeft(w, |w| - n);
    forall i | 0 <= i < |w|
      ensures Or(low, high)[i] == (w[n..] + w[..n])[i]
    {
      OrZero((w[n..] + w[..n])[i]);
    }
  }

  lemma OrCommutes(x: Word, y: Word)
    requires |x| == |y|
    ensures Or(x, y) == Or(y, x)
  {
    forall i | 0 <= i < |x| ensures Or(x, y)[i] == Or(y, x)[i] {
      OrSwap(x[i], y[i]);
    }
  }

  lemma OrSwap(x: Byte, y: Byte)
    ensures OrByte(x, y) == OrByte(y, x)
  {
  }

  lemma BackwardsParts(w: Word, n: nat)
    requires n <= |w|
    ensures Backwards(w[n..] + w[..n]) == Backwards(w[..n]) + Backwards(w[n..])
    ensures Backwards(w)[..|w| - n] == Backwards(w[n..]) && Backwards(w)[|w| - n..] == Backwards(w[..n])
  {
  }

  /** On either kind of host the shift rotates the bytes in memory towards lower addresses. */
  lemma CircshiftRotates(h: Host, key: Word, offset: nat)
    requires |key| == WordSize(h) && offset < WordSize(h)
    ensures var m := Memory(h, key);
            Memory(h, CircshiftPreparedKey(h, key, offset)) == m[offset..] + m[..offset]
  {
    if offset > 0 {
      if h.little {
        OrShifts(key, offset);
      } else {
        ShiftsRotateBack(key, offset);
      }
    }
  }

  /** Rotating a word the other way rotates its bytes backwards. */
  lemma ShiftsRotateBack(w: Word, n: nat)
    requires n <= |w|
    ensures var m := Backwards(w);
            Backwards(Or(ShiftLeft(w, n), ShiftRight(w, |w| - n))) == m[n..] + m[..n]
  {
    OrShifts(w, |w| - n);
    OrCommutes(ShiftLeft(w, n), ShiftRight(w, |w| - n));
    BackwardsParts(w, |w| - n);
  }

  /** On either kind of host the prepared key's bytes in memory are the key, once or twice. */
  lemma PreparedRepeats(h: Host, c: Key)
    ensures Memory(h, PrepareMaskingKey(h, c)) == if h.wide then c + c else c
  {
    if h.wide {
      var i := Memory(h, c);
      var low := i + Zeros(4);
      assert ShiftLeft(low, 4) == Zeros(4) + i;
      forall j | 0 <= j < 8
        ensures Or(ShiftLeft(low, 4), low)[j] == (i + i)[j]
      {
        OrZero((i + i)[j]);
      }
      assert PrepareMaskingKey(h, c) == i + i;
    }
  }

  // ----- masking, byte by byte -----

  /** The mask of section 5.3: byte i of the payload with byte i modulo 4 of the key; and the same for a
      key of any length. */
  function Masked(s: seq<Byte>, c: seq<Byte>, offset: nat): (r: seq<Byte>)
    requires |c| > 0
    ensures |r| == |s|
  {
    seq(|s|, i requires 0 <= i < |s| => XorByte(s[i], CycleAt(c, offset + i)))
  }

  lemma XorTwice(x: Byte, y: Byte)
    ensures XorByte(XorByte(x, y), y) == x
  {
  }

  /** Unmasking is masking again. */
  lemma MaskedTwice(s: seq<Byte>, c: Key, offset: nat)
    ensures Masked(Masked(s, c, offset), c, offset) == s
  {
    forall i | 0 <= i < |s|
      ensures Masked(Masked(s, c, offset), c, offset)[i] == s[i]
    {
      XorTwice(s[i], CycleAt(c, offset + i));
    }
  }

  lemma MaskedConcat(s: seq<Byte>, t: seq<Byte>, c: Key, offset: nat)
    ensures Masked(s + t, c, offset) == Masked(s, c, offset) + Masked(t, c, offset + |s|)
  {
  }

  /** The key index of byte_mask, and how it goes on. */
  lemma KeyByte(c: Key, i: nat, keyIndex: nat)
    requires keyIndex == i % 4
    ensures c[keyIndex] == CycleAt(c, i) && (keyIndex + 1) % 4 == (i + 1) % 4
  {
    CycleModulo(c, i);
    NextIndex(i);
  }

  lemma NextIndex(i: nat)
    ensures (i % 4 + 1) % 4 == (i + 1) % 4
  {
    var q, r := i / 4, i % 4;
    assert i == 4 * q + r;
    if r == 3 {
      assert i + 1 == 4 * (q + 1);
    }
  }

  /** byte_mask, from one range into another, which may be the same. */
  method ByteMask(input: array<Byte>, output: array<Byte>, c: Key, keyOffset: nat)
    requires input.Length <= output.Length
    modifies output
    ensures output[..input.Length] == Masked(old(input[..]), c, keyOffset)
    ensures output[input.Length..] == old(output[input.Length..])
  {
    var keyIndex := keyOffset % 4;
    var i := 0;
    while i != input.Length
      invariant 0 <= i <= input.Length && keyIndex == (keyOffset + i) % 4
      invariant forall j :: 0 <= j < i ==> output[j] == XorByte(old(input[j]), CycleAt(c, keyOffset + j))
      invariant forall j :: i <= j < input.Length ==> input[j] == old(input[j])
      invariant forall j :: input.Length <= j < output.Length ==> output[j] == old(output[j])
    {
      KeyByte(c, keyOffset + i, keyIndex);
      output[i] := XorByte(input[i], c[keyIndex]);
      keyIndex := (keyIndex + 1) % 4;
      i := i + 1;
    }
  }

  // ----- about repetition -----

  /** p is n, taken a number of times. */
  predicate Multiple(p: nat, n: nat)
    requires n > 0
    decreases p
  {
    p == 0 || (p >= n && Multiple(p - n, n))
  }

  /** From a multiple of its length on, a repetition starts over. */
  lemma {:induction false} CycleFrom(m: seq<Byte>, p: nat, k: nat)
    requires |m| > 0 && Multiple(p, |m|)
    ensures CycleAt(m, p + k) == CycleAt(m, k)
    decreases p
  {
    if p > 0 {
      CycleFrom(m, p - |m|, k);
    }
  }

  lemma Period(n: nat)
    ensures n >= 4 ==> (n - 4) % 4 == n % 4
    ensures n >= 8 ==> (n - 8) % 8 == n % 8
  {
  }

  lemma {:induction false} MultipleRemainder(p: nat, k: nat, h: Host)
    requires Multiple(p, WordSize(h)) && k < WordSize(h)
    ensures (p + k) % WordSize(h) == k
    decreases p
  {
    if p > 0 {
      MultipleRemainder(p - WordSize(h), k, h);
      Period(p + k);
    }
  }

  lemma {:induction false} DoubleCycle(c: Key, i: nat)
    ensures CycleAt(c + c, i) == CycleAt(c, i)
    decreases i
  {
    if i >= 8 {
      DoubleCycle(c, i - 8);
    } else if i >= 4 {
      assert (c + c)[i] == c[i - 4];
    }
  }

  /** The prepared key in memory repeats like the key. */
  lemma PreparedCycle(h: Host, c: Key, i: nat)
    ensures CycleAt(Memory(h, PrepareMaskingKey(h, c)), i) == CycleAt(c, i)
  {
    PreparedRepeats(h, c);
    DoubleCycle(c, i);
  }

  // ----- masking, word by word -----

  /** A word masked with the prepared key, and written back, is its bytes in memory masked. */
  lemma WordMasked(h: Host, s: seq<Byte>, key: Word, k: nat)
    requires |s| == |key| && k < |key|
    ensures Memory(h, Xor(Memory(h, s), key))[k] == XorByte(s[k], Memory(h, key)[k])
  {
    var j := if h.little then k else |key| - 1 - k;
    InMemory(h, s, j);
    InMemory(h, key, k);
    InMemory(h, Xor(Memory(h, s), key), k);
  }

  lemma InMemory(h: Host, w: Word, k: nat)
    requires k < |w|
    ensures Memory(h, w)[k] == w[if h.little then k else |w| - 1 - k]
  {
  }

  /** output_word[i] = input_word[i] ^ prepared_key, for the word at position p. */
  method MaskWord(h: Host, input: array<Byte>, output: array<Byte>, p: nat, key: Word)
    requires |key| == WordSize(h) && p + |key| <= input.Length && p + |key| <= output.Length && Multiple(p, |key|)
    modifies output
    ensures forall j :: p <= j < p + |key| ==> output[j] == XorByte(old(input[j]), CycleAt(Memory(h, key), j))
    ensures forall j :: 0 <= j < output.Length && !(p <= j < p + |key|) ==> output[j] == old(output[j])
  {
    var word := input[p..p + |key|];
    var masked := Memory(h, Xor(Memory(h, word), key));
    forall j | p <= j < p + |key|
      ensures masked[j - p] == XorByte(input[j], CycleAt(Memory(h, key), j))
    {
      WordMasked(h, word, key, j - p);
      CycleFrom(Memory(h, key), p, j - p);
    }
    forall k | 0 <= k < |key| {
      output[p + k] := masked[k];
    }
    assert forall j :: p <= j < p + |key| ==> output[j] == masked[j - p];
  }

  /** The loops over words of word_mask_exact and word_mask_circ: as many whole words as fit. */
  method MaskWords(h: Host, input: array<Byte>, output: array<Byte>, length: nat, key: Word) returns (p: nat)
    requires |key| == WordSize(h) && length <= input.Length && length <= output.Length
    modifies output
    ensures Multiple(p, WordSize(h)) && p <= length < p + WordSize(h)
    ensures forall j :: 0 <= j < p ==> output[j] == XorByte(old(input[j]), CycleAt(Memory(h, key), j))
    ensures forall j :: p <= j < output.Length ==> output[j] == old(output[j])
    ensures forall j :: p <= j < input.Length ==> input[j] == old(input[j])
  {
    var w := WordSize(h);
    p := 0;
    while length - p >= w
      invariant Multiple(p, w) && p <= length
      invariant forall j :: 0 <= j < p ==> output[j] == XorByte(old(input[j]), CycleAt(Memory(h, key), j))
      invariant forall j :: p <= j < output.Length ==> output[j] == old(output[j])
      invariant forall j :: p <= j < input.Length ==> input[j] == old(input[j])
    {
      MaskWord(h, input, output, p, key);
      p := p + w;
    }
  }

  /** word_mask_circ: exactly length bytes are masked, and the returned key is shifted to go on there. */
  method WordMaskCirc(h: Host, input: array<Byte>, output: array<Byte>, length: nat, preparedKey: Word)
    returns (key: Word)
    requires |preparedKey| == WordSize(h) && length <= input.Length && length <= output.Length
    modifies output
    ensures output[..length] == Masked(old(input[..length]), Memory(h, preparedKey), 0)
    ensures output[length..] == old(output[length..])
    ensures key == CircshiftPreparedKey(h, preparedKey, length % WordSize(h))
  {
    var byteKey := Memory(h, preparedKey);
    var start := MaskWords(h, input, output, length, preparedKey);
    var l := length - start;
    MultipleRemainder(start, l, h);
    MaskRest(input, output, start, length, byteKey);
    key := CircshiftPreparedKey(h, preparedKey, l);
  }

  /** The partial word at the end. */
  method MaskRest(input: array<Byte>, output: array<Byte>, start: nat, length: nat, byteKey: seq<Byte>)
    requires start <= length <= input.Length && length <= output.Length
    requires |byteKey| > 0 && Multiple(start, |byteKey|) && length < start + |byteKey|
    modifies output
    ensures forall j :: start <= j < length ==> output[j] == XorByte(old(input[j]), CycleAt(byteKey, j))
    ensures forall j :: 0 <= j < output.Length && !(start <= j < length) ==> output[j] == old(output[j])
  {
    var i := 0;
    while i < length - start
      invariant 0 <= i <= length - start
      invariant forall j :: start <= j < start + i ==> output[j] == XorByte(old(input[j]), CycleAt(byteKey, j))
      invariant forall j :: 0 <= j < output.Length && !(start <= j < start + i) ==> output[j] == old(output[j])
      invariant forall j :: start + i <= j < input.Length ==> input[j] == old(input[j])
    {
      CycleFrom(byteKey, start, i);
      output[start + i] := XorByte(input[start + i], byteKey[i]);
      i := i + 1;
    }
  }

  /** word_mask_exact: the same words, and the rest with the key itself. */
  method WordMaskExact(h: Host, input: array<Byte>, output: array<Byte>, length: nat, c: Key)
    requires length <= input.Length && length <= output.Length
    modifies output
    ensures output[..length] == Masked(old(input[..length]), c, 0)
    ensures output[length..] == old(output[length..])
  {
    var preparedKey := PrepareMaskingKey(h, c);
    var i := MaskWords(h, input, output, length, preparedKey);
    forall j | 0 <= j < i
      ensures output[j] == XorByte(old(input[j]), CycleAt(c, j))
    {
      PreparedCycle(h, c, j);
    }
    MaskTail(input, output, i, length, c);
  }

  /** The loop over the bytes after the last whole word. */
  method MaskTail(input: array<Byte>, output: array<Byte>, start: nat, length: nat, c: Key)
    requires start <= length <= input.Length && length <= output.Length
    modifies output
    ensures forall j :: 0 <= j < start ==> output[j] == old(output[j])
    ensures forall j :: start <= j < length ==> output[j] == XorByte(old(input[j]), CycleAt(c, j))
    ensures forall j :: length <= j < output.Length ==> output[j] == old(output[j])
  {
    var i := start;
    while i < length
      invariant start <= i <= length
      invariant forall j :: 0 <= j < start ==> output[j] == old(output[j])
      invariant forall j :: start <= j < i ==> output[j] == XorByte(old(input[j]), CycleAt(c, j))
      invariant forall j :: i <= j < output.Length ==> output[j] == old(output[j])
      invariant forall j :: i <= j < input.Length ==> input[j] == old(input[j])
    {
      CycleModulo(c, i);
      output[i] := XorByte(input[i], c[i % 4]);
      i := i + 1;
    }
  }

  /** The low 32 bits of a prepared key, as the bytes of the union. */
  function LowKey(h: Host, key: Word): Key
    requires |key| == WordSize(h)
  {
    Memory(h, key[..4])
  }

  /** byte_mask_circ: byte by byte with the low 32 bits of the prepared key. */
  method ByteMaskCirc(h: Host, input: array<Byte>, output: array<Byte>, length: nat, preparedKey: Word)
    returns (key: Word)
    requires |preparedKey| == WordSize(h) && length <= input.Length && length <= output.Length
    modifies output
    ensures output[..length] == Masked(old(input[..length]), LowKey(h, preparedKey), 0)
    ensures output[length..] == old(output[length..])
    ensures key == CircshiftPreparedKey(h, preparedKey, length % 4)
  {
    var c := LowKey(h, preparedKey);
    var i := 0;
    while i < length
      invariant i <= length
      invariant forall j :: 0 <= j < i ==> output[j] == XorByte(old(input[j]), CycleAt(c, j))
      invariant forall j :: i <= j < output.Length ==> output[j] == old(output[j])
      invariant forall j :: i <= j < input.Length ==> input[j] == old(input[j])
    {
      CycleModulo(c, i);
      output[i] := XorByte(input[i], c[i % 4]);
      i := i + 1;
    }
    key := CircshiftPreparedKey(h, preparedKey, length % 4);
  }

  // ----- streaming -----

  /** The prepared key stands where byte t of the message is next. */
  ghost predicate Tracks(h: Host, key: Word, c: Key, t: nat) {
    |key| == WordSize(h) && forall i :: 0 <= i < |key| ==> Memory(h, key)[i] == CycleAt(c, t + i)
  }

  lemma PreparedTracks(h: Host, c: Key)
    ensures Tracks(h, PrepareMaskingKey(h, c), c, 0)
  {
    forall i | 0 <= i < WordSize(h)
      ensures Memory(h, PrepareMaskingKey(h, c))[i] == CycleAt(c, 0 + i)
    {
      PreparedCycle(h, c, i);
    }
  }

  lemma WordPeriod(h: Host, c: Key, i: nat)
    ensures CycleAt(c, i + WordSize(h)) == CycleAt(c, i)
  {
    assert h.wide ==> CycleAt(c, i + 8) == CycleAt(c, i + 4);
  }

  lemma CircshiftTracks(h: Host, key: Word, c: Key, t: nat, offset: nat)
    requires Tracks(h, key, c, t) && offset < WordSize(h)
    ensures Tracks(h, CircshiftPreparedKey(h, key, offset), c, t + offset)
  {
    CircshiftRotates(h, key, offset);
    var m := Memory(h, key);
    forall i | 0 <= i < |m|
      ensures (m[offset..] + m[..offset])[i] == CycleAt(c, t + offset + i)
    {
      RotatedAt(h, m, c, t, offset, i);
    }
  }

  lemma RotatedAt(h: Host, m: seq<Byte>, c: Key, t: nat, offset: nat, i: nat)
    requires |m| == WordSize(h) && offset < |m| && i < |m|
    requires forall j :: 0 <= j < |m| ==> m[j] == CycleAt(c, t + j)
    ensures (m[offset..] + m[..offset])[i] == CycleAt(c, t + offset + i)
  {
    if i < |m| - offset {
      assert (m[offset..] + m[..offset])[i] == m[offset + i];
    } else {
      assert (m[offset..] + m[..offset])[i] == m[offset + i - |m|];
      WordPeriod(h, c, t + offset + i - |m|);
    }
  }

  /** The low half of a tracking key tracks too: on a big-endian host it comes last in memory. */
  lemma LowKeyAt(h: Host, key: Word, c: Key, t: nat, r: nat)
    requires Tracks(h, key, c, t) && r < 4
    ensures LowKey(h, key)[r] == CycleAt(c, t + r)
  {
    if h.little || !h.wide {
      assert LowKey(h, key)[r] == Memory(h, key)[r];
    } else {
      assert LowKey(h, key)[r] == Memory(h, key)[r + 4];
      assert CycleAt(c, t + (r + 4)) == CycleAt(c, t + r);
    }
  }

  /** A word's key repeats like the four-byte key it tracks. */
  lemma {:induction false} TracksCycle(h: Host, key: Word, c: Key, t: nat, i: nat)
    requires Tracks(h, key, c, t)
    ensures CycleAt(Memory(h, key), i) == CycleAt(c, t + i)
    decreases i
  {
    if i >= WordSize(h) {
      TracksCycle(h, key, c, t, i - WordSize(h));
      WordPeriod(h, c, t + i - WordSize(h));
    }
  }

  lemma {:induction false} TracksLowCycle(h: Host, key: Word, c: Key, t: nat, i: nat)
    requires Tracks(h, key, c, t)
    ensures CycleAt(LowKey(h, key), i) == CycleAt(c, t + i)
    decreases i
  {
    if i >= 4 {
      TracksLowCycle(h, key, c, t, i - 4);
    } else {
      LowKeyAt(h, key, c, t, i);
    }
  }

  /** A chunk of a message, and which of the two routines masks it. */
  datatype Chunk = ByWord(s: seq<Byte>) | ByByte(s: seq<Byte>)

  function MaskChunk(h: Host, ch: Chunk, key: Word): (seq<Byte>, Word)
    requires |key| == WordSize(h)
  {
    match ch
    case ByWord(s) => (Masked(s, Memory(h, key), 0), CircshiftPreparedKey(h, key, |s| % WordSize(h)))
    case ByByte(s) => (Masked(s, LowKey(h, key), 0), CircshiftPreparedKey(h, key, |s| % 4))
  }

  /** Masks the chunks one after the other, feeding each returned key into the next call. */
  function MaskChunks(h: Host, chs: seq<Chunk>, key: Word): seq<Byte>
    requires |key| == WordSize(h)
  {
    if chs == [] then []
    else
      var (s, key') := MaskChunk(h, chs[0], key);
      s + MaskChunks(h, chs[1..], key')
  }

  function Message(chs: seq<Chunk>): seq<Byte> {
    if chs == [] then [] else chs[0].s + Message(chs[1..])
  }

  lemma MaskedSame(s: seq<Byte>, m: seq<Byte>, c: Key, t: nat)
    requires |m| > 0
    requires forall i: nat :: CycleAt(m, i) == CycleAt(c, t + i)
    ensures Masked(s, m, 0) == Masked(s, c, t)
  {
    forall i | 0 <= i < |s|
      ensures Masked(s, m, 0)[i] == Masked(s, c, t)[i]
    {
      assert CycleAt(m, 0 + i) == CycleAt(c, t + i);
    }
  }

  /** What tracks byte t tracks byte t + 4 and t + 8. */
  lemma TracksNext(h: Host, key: Word, c: Key, t: nat, w: nat)
    requires Tracks(h, key, c, t) && (w == 4 || w == 8)
    ensures Tracks(h, key, c, t + w)
  {
    forall i | 0 <= i < |key|
      ensures Memory(h, key)[i] == CycleAt(c, t + w + i)
    {
      assert CycleAt(c, t + i + 4) == CycleAt(c, t + i);
      assert CycleAt(c, t + i + 8) == CycleAt(c, t + i + 4);
    }
  }

  /** What is left of n after taking w away as often as possible. */
  function Rest(n: nat, w: nat): (r: nat)
    requires w > 0
    ensures r < w
    decreases n
  {
    if n < w then n else Rest(n - w, w)
  }

  lemma {:induction false} RestIsRemainder(n: nat, w: nat)
    requires w == 4 || w == 8
    ensures Rest(n, w) == n % w
    decreases n
  {
    if n >= w {
      RestIsRemainder(n - w, w);
      Period(n);
    }
  }

  /** A shift by the remainder of a length tracks like a shift by the length. */
  lemma {:induction false} NextKeyTracks(h: Host, key: Word, c: Key, t: nat, n: nat, w: nat)
    requires Tracks(h, key, c, t) && (w == 4 || w == 8) && w <= WordSize(h)
    ensures Tracks(h, CircshiftPreparedKey(h, key, Rest(n, w)), c, t + n)
    decreases n
  {
    if n < w {
      CircshiftTracks(h, key, c, t, n);
    } else {
      NextKeyTracks(h, key, c, t, n - w, w);
      TracksNext(h, CircshiftPreparedKey(h, key, Rest(n - w, w)), c, t + (n - w), w);
    }
  }

  /** One chunk: the simple mask from byte t on, and a key that tracks the byte after the chunk. */
  lemma ChunkMasked(h: Host, ch: Chunk, key: Word, c: Key, t: nat)
    requires Tracks(h, key, c, t)
    ensures MaskChunk(h, ch, key).0 == Masked(ch.s, c, t)
    ensures Tracks(h, MaskChunk(h, ch, key).1, c, t + |ch.s|)
  {
    forall i: nat
      ensures CycleAt(Memory(h, key), i) == CycleAt(c, t + i)
      ensures CycleAt(LowKey(h, key), i) == CycleAt(c, t + i)
    {
      TracksCycle(h, key, c, t, i);
      TracksLowCycle(h, key, c, t, i);
    }
    match ch
    case ByWord(s) =>
      MaskedSame(s, Memory(h, key), c, t);
      NextKeyTracks(h, key, c, t, |s|, WordSize(h));
      RestIsRemainder(|s|, WordSize(h));
    case ByByte(s) =>
      MaskedSame(s, LowKey(h, key), c, t);
      NextKeyTracks(h, key, c, t, |s|, 4);
      RestIsRemainder(|s|, 4);
  }

  lemma {:induction false} ChunksMasked(h: Host, chs: seq<Chunk>, key: Word, c: Key, t: nat)
    requires Tracks(h, key, c, t)
    ensures MaskChunks(h, chs, key) == Masked(Message(chs), c, t)
  {
    if chs != [] {
      var s, rest := chs[0].s, Message(chs[1..]);
      var (m, key') := MaskChunk(h, chs[0], key);
      ChunkMasked(h, chs[0], key, c, t);
      ChunksMasked(h, chs[1..], key', c, t + |s|);
      var ms := MaskChunks(h, chs[1..], key');
      MaskedConcat(s, rest, c, t);
      assert m == Masked(s, c, t) && ms == Masked(rest, c, t + |s|);
      assert Message(chs) == s + rest && MaskChunks(h, chs, key) == m + ms;
    }
  }

  /** However a message is cut, and whichever routine masks each chunk, on every host: the result is the
      simple mask of the whole message. */
  lemma StreamingMask(h: Host, chs: seq<Chunk>, c: Key)
    ensures MaskChunks(h, chs, PrepareMaskingKey(h, c)) == Masked(Message(chs), c, 0)
  {
    PreparedTracks(h, c);
    ChunksMasked(h, chs, PrepareMaskingKey(h, c), c, 0);
  }

  /** A chunk, masked in place. */
  method MaskOne(h: Host, ch: Chunk, key: Word) returns (s: seq<Byte>, key': Word)
    requires |key| == WordSize(h)
    ensures (s, key') == MaskChunk(h, ch, key)
  {
    var a := new Byte[|ch.s|](k requires 0 <= k < |ch.s| => ch.s[k]);
    assert a[..|ch.s|] == ch.s;
    match ch {
      case ByWord(_) => key' := WordMaskCirc(h, a, a, |ch.s|, key);
      case ByByte(_) => key' := ByteMaskCirc(h, a, a, |ch.s|, key);
    }
    s := a[..|ch.s|];
  }

  lemma ChunksStep(h: Host, chs: seq<Chunk>, i: nat, key: Word, out: seq<Byte>)
    requires i < |chs| && |key| == WordSize(h)
    ensures |MaskChunk(h, chs[i], key).1| == WordSize(h)
    ensures var (s, key') := MaskChunk(h, chs[i], key);
            out + MaskChunks(h, chs[i..], key) == out + s + MaskChunks(h, chs[i + 1..], key')
  {
    assert chs[i..][0] == chs[i] && chs[i..][1..] == chs[i + 1..];
  }

  /** The chunks of a message masked one after the other, with the key that each call returns for the next. */
  method MaskMessage(h: Host, chs: seq<Chunk>, c: Key) returns (out: seq<Byte>)
    ensures out == Masked(Message(chs), c, 0)
  {
    var key := PrepareMaskingKey(h, c);
    out := [];
    var i := 0;
    while i < |chs|
      invariant 0 <= i <= |chs| && |key| == WordSize(h)
      invariant out + MaskChunks(h, chs[i..], key) == MaskChunks(h, chs, PrepareMaskingKey(h, c))
    {
      ChunksStep(h, chs, i, key, out);
      var s;
      s, key := MaskOne(h, chs[i], key);
      out := out + s;
      i := i + 1;
    }
    StreamingMask(h, chs, c);
  }

  // ----- section 5.3 in its own terms -----

  /** Octet i of the masked data is octet i of the data, exclusive or octet i modulo 4 of the key. */
  lemma MaskedOctet(s: seq<Byte>, c: Key, i: nat)
    requires i < |s|
    ensures Masked(s, c, 0)[i] == s[i] ^ c[i % 4]
  {
    CycleModulo(c, i);
  }

  /** A message is its chunks, end to end. */
  lemma {:induction false} MessageEndToEnd(chs: seq<Chunk>, s: seq<Byte>)
    ensures Message([ByWord(s)] + chs) == s + Message(chs) && Message([ByByte(s)] + chs) == s + Message(chs)
    ensures Message([]) == []
  {
    assert ([ByWord(s)] + chs)[1..] == chs && ([ByByte(s)] + chs)[1..] == chs;
  }

  /** The masked text message of section 5.7: Hello, with the key 37 fa 21 3d. */
  lemma MaskedHello()
    ensures Masked([0x48, 0x65, 0x6c, 0x6c, 0x6f], [0x37, 0xfa, 0x21, 0x3d], 0) == [0x7f, 0x9f, 0x4d, 0x51, 0x58]
  {
    var s: seq<Byte> := [0x48, 0x65, 0x6c, 0x6c, 0x6f];
    var c: Key := [0x37, 0xfa, 0x21, 0x3d];
    forall i: nat | i < 5 ensures Masked(s, c, 0)[i] == s[i] ^ c[i % 4] {
      MaskedOctet(s, c, i);
    }
    var m := Masked(s, c, 0);
    assert m[0] == 0x7f && m[1] == 0x9f && m[2] == 0x4d && m[3] == 0x51 && m[4] == 0x58;
  }
}
