/** WebSocket frame headers (section 5.2 of RFC 6455): two fixed bytes, then a payload length of 0, 2 or 8
    bytes in network byte order, then a masking key of 4 bytes if the frame is masked. */
module FrameHeader {

  type Byte = bv8
  type Size = bv64

  /** A masking key, as the bytes of the union. */
  type Key = c: seq<Byte> | |c| == 4 witness [0, 0, 0, 0]

  const PAYLOAD_SIZE_BASIC: Size := 125
  const PAYLOAD_SIZE_EXTENDED: Size := 0xffff
  const PAYLOAD_SIZE_CODE_16BIT: Byte := 0x7e
  const PAYLOAD_SIZE_CODE_64BIT: Byte := 0x7f
  const MAX_HEADER_LENGTH := 14
  const MAX_EXTENDED_HEADER_LENGTH := 12

  // ----- byte order -----

  datatype Bytes8 = Bytes8(c0: Byte, c1: Byte, c2: Byte, c3: Byte, c4: Byte, c5: Byte, c6: Byte, c7: Byte)
  {
    function Reversed(): Bytes8 {
      Bytes8(c7, c6, c5, c4, c3, c2, c1, c0)
    }

    function Seq(): (s: seq<Byte>)
      ensures |s| == 8
    {
      [c0, c1, c2, c3, c4, c5, c6, c7]
    }
  }

  function FromSeq(s: seq<Byte>): Bytes8
    requires |s| == 8
  {
    Bytes8(s[0], s[1], s[2], s[3], s[4], s[5], s[6], s[7])
  }

  lemma FromSeqInverse(b: Bytes8)
    ensures FromSeq(b.Seq()) == b
  {
  }

  /** The bytes of an integer, lowest weight first. */
  function Weights(x: Size): Bytes8 {
    Bytes8((x & 0xff) as Byte, ((x >> 8) & 0xff) as Byte, ((x >> 16) & 0xff) as Byte, ((x >> 24) & 0xff) as Byte,
           ((x >> 32) & 0xff) as Byte, ((x >> 40) & 0xff) as Byte, ((x >> 48) & 0xff) as Byte, ((x >> 56) & 0xff) as Byte)
  }

  /** The integer that eight bytes make, highest weight first. */
  function Eight(b7: Byte, b6: Byte, b5: Byte, b4: Byte, b3: Byte, b2: Byte, b1: Byte, b0: Byte): Size {
    (b0 as Size) | ((b1 as Size) << 8) | ((b2 as Size) << 16) | ((b3 as Size) << 24)
    | ((b4 as Size) << 32) | ((b5 as Size) << 40) | ((b6 as Size) << 48) | ((b7 as Size) << 56)
  }

  function FromWeights(b: Bytes8): Size {
    Eight(b.c7, b.c6, b.c5, b.c4, b.c3, b.c2, b.c1, b.c0)
  }

  lemma WeightsInverse(x: Size)
    ensures FromWeights(Weights(x)) == x
  {
  }

  lemma FromWeightsInverse(b: Bytes8)
    ensures Weights(FromWeights(b)) == b
  {
  }

  /** The bytes of an integer in memory, in the order of addresses. */
  function Memory(little: bool, x: Size): Bytes8 {
    if little then Weights(x) else Weights(x).Reversed()
  }

  function FromMemory(little: bool, b: Bytes8): Size {
    FromWeights(if little then b else b.Reversed())
  }

  /** _htonll: on a little-endian host the union's bytes are swapped in place. */
  function Htonll(little: bool, x: Size): Size {
    if !little then x else FromMemory(little, Memory(little, x).Reversed())
  }

  function Ntohll(little: bool, x: Size): Size {
    Htonll(little, x)
  }

  /** On every host: network order is highest weight first, and the two conversions are inverse. */
  lemma NetworkOrder(little: bool, x: Size)
    ensures Memory(little, Htonll(little, x)) == Weights(x).Reversed()
    ensures Ntohll(little, Htonll(little, x)) == x
  {
    FromWeightsInverse(Weights(x).Reversed());
    WeightsInverse(x);
    FromWeightsInverse(Weights(x));
  }

  lemma FromNetwork(little: bool, b: Bytes8)
    ensures Ntohll(little, FromMemory(little, b)) == FromWeights(b.Reversed())
  {
    FromWeightsInverse(b);
    FromWeightsInverse(b.Reversed());
  }

  // ----- the basic header -----

  datatype BasicHeader = BasicHeader(b0: Byte, b1: Byte)

  /** What a basic header says, apart from the length. */
  datatype Flags = Flags(fin: bool, rsv1: bool, rsv2: bool, rsv3: bool, masked: bool)

  function GetFin(h: BasicHeader): bool { h.b0 & 0x80 == 0x80 }
  function GetRsv1(h: BasicHeader): bool { h.b0 & 0x40 == 0x40 }
  function GetRsv2(h: BasicHeader): bool { h.b0 & 0x20 == 0x20 }
  function GetRsv3(h: BasicHeader): bool { h.b0 & 0x10 == 0x10 }
  function GetOpcode(h: BasicHeader): Byte { h.b0 & 0x0f }
  function GetMasked(h: BasicHeader): bool { h.b1 & 0x80 == 0x80 }
  function GetBasicSize(h: BasicHeader): Byte { h.b1 & 0x7f }

  function GetFlags(h: BasicHeader): Flags {
    Flags(GetFin(h), GetRsv1(h), GetRsv2(h), GetRsv3(h), GetMasked(h))
  }

  function SetFin(h: BasicHeader, v: bool): BasicHeader { h.(b0 := if v then h.b0 | 0x80 else h.b0 & !0x80) }
  function SetRsv1(h: BasicHeader, v: bool): BasicHeader { h.(b0 := if v then h.b0 | 0x40 else h.b0 & !0x40) }
  function SetRsv2(h: BasicHeader, v: bool): BasicHeader { h.(b0 := if v then h.b0 | 0x20 else h.b0 & !0x20) }
  function SetRsv3(h: BasicHeader, v: bool): BasicHeader { h.(b0 := if v then h.b0 | 0x10 else h.b0 & !0x10) }
  function SetMasked(h: BasicHeader, v: bool): BasicHeader { h.(b1 := if v then h.b1 | 0x80 else h.b1 & !0x80) }

  /** What a header says besides its flags. */
  function Rest(h: BasicHeader): (Byte, Byte) {
    (GetOpcode(h), GetBasicSize(h))
  }

  // Each setter changes its own flag, and nothing else of what a header says.

  lemma SetFinExact(h: BasicHeader, v: bool)
    ensures GetFlags(SetFin(h, v)) == GetFlags(h).(fin := v) && Rest(SetFin(h, v)) == Rest(h)
  {
  }

  lemma SetRsv1Exact(h: BasicHeader, v: bool)
    ensures GetFlags(SetRsv1(h, v)) == GetFlags(h).(rsv1 := v) && Rest(SetRsv1(h, v)) == Rest(h)
  {
  }

  lemma SetRsv2Exact(h: BasicHeader, v: bool)
    ensures GetFlags(SetRsv2(h, v)) == GetFlags(h).(rsv2 := v) && Rest(SetRsv2(h, v)) == Rest(h)
  {
  }

  lemma SetRsv3Exact(h: BasicHeader, v: bool)
    ensures GetFlags(SetRsv3(h, v)) == GetFlags(h).(rsv3 := v) && Rest(SetRsv3(h, v)) == Rest(h)
  {
  }

  lemma SetMaskedExact(h: BasicHeader, v: bool)
    ensures GetFlags(SetMasked(h, v)) == GetFlags(h).(masked := v) && Rest(SetMasked(h, v)) == Rest(h)
  {
  }

  /** The seven-bit length, or the code that says how many bytes it takes. */
  function SizeCode(size: Size): Byte {
    if size <= PAYLOAD_SIZE_BASIC then size as Byte
    else if size <= PAYLOAD_SIZE_EXTENDED then PAYLOAD_SIZE_CODE_16BIT
    else PAYLOAD_SIZE_CODE_64BIT
  }

  /** The first byte, flag by flag. */
  method FirstByte(op: Byte, f: Flags) returns (b0: Byte)
    ensures forall b1 :: var h := BasicHeader(b0, b1);
                         GetFin(h) == f.fin && GetRsv1(h) == f.rsv1 && GetRsv2(h) == f.rsv2 && GetRsv3(h) == f.rsv3
                         && GetOpcode(h) == op & 0x0f
  {
    b0 := 0;
    if f.fin {
      b0 := b0 | 0x80;
    }
    if f.rsv1 {
      b0 := b0 | 0x40;
    }
    if f.rsv2 {
      b0 := b0 | 0x20;
    }
    if f.rsv3 {
      b0 := b0 | 0x10;
    }
    b0 := b0 | (op & 0x0f);
  }

  method SecondByte(size: Size, masked: bool) returns (b1: Byte)
    ensures forall b0 :: var h := BasicHeader(b0, b1); GetMasked(h) == masked && GetBasicSize(h) == SizeCode(size)
  {
    b1 := 0;
    if masked {
      b1 := b1 | 0x80;
    }
    var basicValue;
    if size <= PAYLOAD_SIZE_BASIC {
      basicValue := size as Byte;
    } else if size <= PAYLOAD_SIZE_EXTENDED {
      basicValue := PAYLOAD_SIZE_CODE_16BIT;
    } else {
      basicValue := PAYLOAD_SIZE_CODE_64BIT;
    }
    b1 := b1 | basicValue;
  }

  /** The constructor of basic_header: what is put in can be read out, opcodes of four bits included. */
  method MakeBasicHeader(op: Byte, size: Size, f: Flags) returns (h: BasicHeader)
    ensures GetFlags(h) == f && GetOpcode(h) == op & 0x0f && GetBasicSize(h) == SizeCode(size)
    ensures op <= 0x0f ==> GetOpcode(h) == op
    ensures SevenBitsSay(h, size)
  {
    var b0 := FirstByte(op, f);
    var b1 := SecondByte(size, f.masked);
    h := BasicHeader(b0, b1);
    SizeCodeNumbers(h, size);
  }

  /** The getters leave nothing of a header unsaid. */
  lemma GettersDetermine(h: BasicHeader, h': BasicHeader)
    requires GetFlags(h) == GetFlags(h') && GetOpcode(h) == GetOpcode(h') && GetBasicSize(h) == GetBasicSize(h')
    ensures h == h'
  {
  }

  // ----- the extended header -----

  function Zeros(n: nat): (z: seq<Byte>)
    ensures |z| == n
  {
    seq(n, _ => 0)
  }

  /** The length bytes of a size: none, two or eight, in network order. */
  function LengthBytes(size: Size): (s: seq<Byte>)
    ensures |s| <= 8
  {
    var w := Weights(size);
    if size <= PAYLOAD_SIZE_BASIC then []
    else if size <= PAYLOAD_SIZE_EXTENDED then [w.c1, w.c0]
    else w.Reversed().Seq()
  }

  /** The variable part: length, key if there is one, zeros. */
  function ExtendedBytes(size: Size, key: seq<Byte>): (s: seq<Byte>)
    requires |key| <= 4
    ensures |s| == MAX_EXTENDED_HEADER_LENGTH
  {
    LengthBytes(size) + key + Zeros(MAX_EXTENDED_HEADER_LENGTH - |LengthBytes(size)| - |key|)
  }

  /** Where in the eight bytes of a size in network order its class begins. */
  method PayloadOffset(size: Size) returns (n: nat)
    ensures n <= 8 && n == 8 - |LengthBytes(size)|
  {
    n := 0;
    if size <= PAYLOAD_SIZE_BASIC {
      n := 8;
    } else if size <= PAYLOAD_SIZE_EXTENDED {
      n := 6;
    }
  }

  lemma TailIsLength(little: bool, size: Size)
    ensures Memory(little, Htonll(little, size)).Seq()[8 - |LengthBytes(size)|..] == LengthBytes(size)
  {
    NetworkOrder(little, size);
    SeqTail(Weights(size).Reversed(), size);
  }

  lemma SeqTail(b: Bytes8, size: Size)
    requires b == Weights(size).Reversed()
    ensures b.Seq()[8 - |LengthBytes(size)|..] == LengthBytes(size)
  {
    assert b.Seq()[8..] == [] && b.Seq()[6..] == [b.c6, b.c7] && b.Seq()[0..] == b.Seq();
  }

  class ExtendedHeader {
    const bytes: array<Byte>

    /** Both constructors: without a key, and with one. */
    constructor (little: bool, size: Size, key: seq<Byte>)
      requires |key| == 0 || |key| == 4
      ensures fresh(bytes) && bytes[..] == ExtendedBytes(size, key)
    {
      bytes := new Byte[MAX_EXTENDED_HEADER_LENGTH](_ => 0);
      new;
      var offset := CopyPayload(little, size);
      forall i | 0 <= i < |key| {
        bytes[offset + i] := key[i];
      }
      assert bytes[..offset] == LengthBytes(size);
      assert bytes[offset..offset + |key|] == key;
      assert bytes[..] == bytes[..offset] + bytes[offset..offset + |key|] + bytes[offset + |key|..];
    }

    /** Writes c at the front. */
    method CopyTail(c: seq<Byte>)
      requires |c| <= bytes.Length
      modifies bytes
      ensures bytes[..|c|] == c
      ensures forall i :: |c| <= i < bytes.Length ==> bytes[i] == old(bytes[i])
    {
      forall i | 0 <= i < |c| {
        bytes[i] := c[i];
      }
    }

    /** copy_payload: the tail of the size in network order, from where its class begins. */
    method CopyPayload(little: bool, size: Size) returns (n: nat)
      requires bytes.Length == MAX_EXTENDED_HEADER_LENGTH && forall i :: 0 <= i < bytes.Length ==> bytes[i] == 0
      modifies bytes
      ensures n == |LengthBytes(size)| && bytes[..n] == LengthBytes(size)
      ensures forall i :: n <= i < bytes.Length ==> bytes[i] == 0
    {
      var payloadOffset := PayloadOffset(size);
      var c := Memory(little, Htonll(little, size)).Seq();
      n := 8 - payloadOffset;
      TailIsLength(little, size);
      CopyTail(c[payloadOffset..]);
    }
  }

  // ----- reading -----

  function GetMaskingKeyOffset(h: BasicHeader): nat {
    if GetBasicSize(h) == PAYLOAD_SIZE_CODE_16BIT then 2
    else if GetBasicSize(h) == PAYLOAD_SIZE_CODE_64BIT then 8
    else 0
  }

  function GetHeaderLen(h: BasicHeader): (n: nat)
    ensures 2 <= n <= MAX_HEADER_LENGTH
  {
    2 + GetMaskingKeyOffset(h) + if GetMasked(h) then 4 else 0
  }

  /** ntohs of a two-byte union. */
  function GetExtendedSize(e: seq<Byte>): Size
    requires |e| == MAX_EXTENDED_HEADER_LENGTH
  {
    ((e[0] as Size) << 8) | (e[1] as Size)
  }

  function GetJumboSize(little: bool, e: seq<Byte>): Size
    requires |e| == MAX_EXTENDED_HEADER_LENGTH
  {
    Ntohll(little, FromMemory(little, FromSeq(e[..8])))
  }

  function GetPayloadSize(little: bool, h: BasicHeader, e: seq<Byte>): Size
    requires |e| == MAX_EXTENDED_HEADER_LENGTH
  {
    var v := GetBasicSize(h);
    if v <= 125 then v as Size
    else if v == PAYLOAD_SIZE_CODE_16BIT then GetExtendedSize(e)
    else GetJumboSize(little, e)
  }

  function GetMaskingKey(h: BasicHeader, e: seq<Byte>): Key
    requires |e| == MAX_EXTENDED_HEADER_LENGTH
  {
    if !GetMasked(h) then [0, 0, 0, 0]
    else var o := GetMaskingKeyOffset(h); e[o..o + 4]
  }

  /** prepare_header: the fixed bytes, and as much of the variable part as they call for. */
  function PrepareHeader(h: BasicHeader, e: seq<Byte>): (s: seq<Byte>)
    requires |e| == MAX_EXTENDED_HEADER_LENGTH
    ensures |s| == GetHeaderLen(h)
  {
    [h.b0, h.b1] + e[..GetHeaderLen(h) - 2]
  }

  // ----- what is written is read -----

  /** h and e were made for this size and key. */
  ghost predicate Made(h: BasicHeader, e: seq<Byte>, size: Size, key: Key) {
    && GetBasicSize(h) == SizeCode(size)
    && e == ExtendedBytes(size, if GetMasked(h) then key else [])
  }

  lemma TwoByteSize(size: Size)
    requires size <= PAYLOAD_SIZE_EXTENDED
    ensures ((Weights(size).c1 as Size) << 8) | (Weights(size).c0 as Size) == size
  {
  }

  lemma OneByteSize(size: Size)
    requires size <= PAYLOAD_SIZE_BASIC
    ensures (size as Byte) <= 125 && (size as Byte) as Size == size
  {
  }

  /** The key's place in writing is its place in reading. */
  lemma KeyOffset(h: BasicHeader, size: Size)
    requires GetBasicSize(h) == SizeCode(size)
    ensures GetMaskingKeyOffset(h) == |LengthBytes(size)|
  {
    if size <= PAYLOAD_SIZE_BASIC {
      OneByteSize(size);
    }
  }

  lemma ReadBasic(little: bool, h: BasicHeader, e: seq<Byte>, size: Size)
    requires |e| == MAX_EXTENDED_HEADER_LENGTH
    requires size <= PAYLOAD_SIZE_BASIC && GetBasicSize(h) == SizeCode(size)
    ensures GetPayloadSize(little, h, e) == size
  {
    OneByteSize(size);
  }

  lemma ReadTwoBytes(little: bool, h: BasicHeader, e: seq<Byte>, size: Size)
    requires |e| == MAX_EXTENDED_HEADER_LENGTH
    requires size <= PAYLOAD_SIZE_EXTENDED && GetBasicSize(h) == PAYLOAD_SIZE_CODE_16BIT
    requires e[0] == Weights(size).c1 && e[1] == Weights(size).c0
    ensures GetPayloadSize(little, h, e) == size
  {
    TwoByteSize(size);
  }

  lemma ReadEightBytes(little: bool, h: BasicHeader, e: seq<Byte>, size: Size)
    requires |e| == MAX_EXTENDED_HEADER_LENGTH
    requires GetBasicSize(h) == PAYLOAD_SIZE_CODE_64BIT
    requires e[..8] == Weights(size).Reversed().Seq()
    ensures GetPayloadSize(little, h, e) == size
  {
    FromSeqInverse(Weights(size).Reversed());
    FromNetwork(little, Weights(size).Reversed());
    WeightsInverse(size);
  }

  /** Every 64-bit size can be read back, whatever the byte orders of the hosts. */
  lemma ReadSize(little: bool, h: BasicHeader, e: seq<Byte>, size: Size)
    requires |e| == MAX_EXTENDED_HEADER_LENGTH && GetBasicSize(h) == SizeCode(size)
    requires LengthBytes(size) <= e
    ensures GetPayloadSize(little, h, e) == size
  {
    if size <= PAYLOAD_SIZE_BASIC {
      ReadBasic(little, h, e, size);
    } else if size <= PAYLOAD_SIZE_EXTENDED {
      ReadTwoBytes(little, h, e, size);
    } else {
      ReadEightBytes(little, h, e, size);
    }
  }

  /** Every size and every key can be read back. */
  lemma ReadBack(little: bool, h: BasicHeader, e: seq<Byte>, size: Size, key: Key)
    requires Made(h, e, size, key)
    ensures GetPayloadSize(little, h, e) == size
    ensures GetMaskingKey(h, e) == if GetMasked(h) then key else [0, 0, 0, 0]
  {
    var l := LengthBytes(size);
    assert l <= e;
    ReadSize(little, h, e, size);
    KeyOffset(h, size);
    if GetMasked(h) {
      assert e[|l|..|l| + 4] == key;
    }
  }

  /** The receiver's extended header: what came over the wire after the fixed bytes, and zeros. */
  function Received(wire: seq<Byte>): (e: seq<Byte>)
    requires 2 <= |wire| <= MAX_HEADER_LENGTH
    ensures |e| == MAX_EXTENDED_HEADER_LENGTH
  {
    wire[2..] + Zeros(MAX_HEADER_LENGTH - |wire|)
  }

  /** Over the wire: the first two bytes say how long the header is, and the header is all it takes. */
  lemma WireRoundTrip(little: bool, h: BasicHeader, e: seq<Byte>, size: Size, key: Key)
    requires Made(h, e, size, key)
    ensures var wire := PrepareHeader(h, e);
            && BasicHeader(wire[0], wire[1]) == h && |wire| == GetHeaderLen(BasicHeader(wire[0], wire[1]))
            && GetPayloadSize(little, h, Received(wire)) == size
            && GetMaskingKey(h, Received(wire)) == if GetMasked(h) then key else [0, 0, 0, 0]
  {
    KeyOffset(h, size);
    var wire := PrepareHeader(h, e);
    var k := if GetMasked(h) then key else [];
    assert e[..GetHeaderLen(h) - 2] == LengthBytes(size) + k;
    assert Received(wire) == ExtendedBytes(size, k);
    ReadBack(little, h, Received(wire), size, key);
  }

  /** The encoding is minimal: any header that is read as this size has at least as many length bytes. */
  lemma MinimalEncoding(little: bool, h: BasicHeader, size: Size, h': BasicHeader, e': seq<Byte>)
    requires GetBasicSize(h) == SizeCode(size)
    requires |e'| == MAX_EXTENDED_HEADER_LENGTH && GetPayloadSize(little, h', e') == size
    ensures GetMaskingKeyOffset(h) <= GetMaskingKeyOffset(h')
  {
    KeyOffset(h, size);
    var v := GetBasicSize(h');
    SevenBits(v);
    if v == PAYLOAD_SIZE_CODE_16BIT {
      SixteenBits(e'[0], e'[1]);
    }
  }

  lemma SevenBits(v: Byte)
    ensures v <= 125 ==> v as Size <= 125
    ensures v & 0x7f == v && v > 125 ==> v == 0x7e || v == 0x7f
  {
  }

  lemma SixteenBits(x: Byte, y: Byte)
    ensures ((x as Size) << 8) | (y as Size) <= 0xffff
  {
  }

  // ----- section 5.2 in numbers -----

  /** The lower seven bits of the second byte: a size up to 125 itself, 126 for sizes that take 16 bits, 127 for larger. */
  predicate SevenBitsSay(h: BasicHeader, size: Size) {
    && (size <= 125 ==> (h.b1 & 0x7f) as Size == size)
    && (126 <= size <= 65535 ==> h.b1 & 0x7f == 126)
    && (size > 65535 ==> h.b1 & 0x7f == 127)
  }

  lemma SizeCodeNumbers(h: BasicHeader, size: Size)
    requires GetBasicSize(h) == SizeCode(size)
    ensures SevenBitsSay(h, size)
  {
    if size <= PAYLOAD_SIZE_BASIC {
      OneByteSize(size);
    }
  }

  /** Where each flag has its bit: a header is the sum of what its getters say. */
  lemma BitLayout(h: BasicHeader)
    ensures h.b0 == (if GetFin(h) then 128 else 0) + (if GetRsv1(h) then 64 else 0) + (if GetRsv2(h) then 32 else 0)
                    + (if GetRsv3(h) then 16 else 0) + GetOpcode(h)
    ensures h.b1 == (if GetMasked(h) then 128 else 0) + GetBasicSize(h)
    ensures GetOpcode(h) < 16 && GetBasicSize(h) < 128
  {
  }

  /** How many length bytes the seven bits call for, and four more for a key. */
  lemma HeaderLengths(h: BasicHeader, e: seq<Byte>)
    requires |e| == MAX_EXTENDED_HEADER_LENGTH
    ensures |PrepareHeader(h, e)|
         == 2 + (if h.b1 & 0x7f == 126 then 2 else if h.b1 & 0x7f == 127 then 8 else 0)
            + if h.b1 & 0x80 != 0 then 4 else 0
  {
    MaskBit(h.b1);
  }

  lemma MaskBit(b: Byte)
    ensures b & 0x80 == 0x80 <==> b & 0x80 != 0
  {
  }

  /** The number that two bytes make, and eight, highest weight first. */
  function TwoBytes(s: seq<Byte>): Size
    requires |s| >= 2
  {
    (s[0] as Size) * 256 + s[1] as Size
  }

  /** Eight bytes weigh as positions do: what all but the last make, times 256, and the last. */
  lemma EightByPosition(b7: Byte, b6: Byte, b5: Byte, b4: Byte, b3: Byte, b2: Byte, b1: Byte, b0: Byte)
    ensures Eight(b7, b6, b5, b4, b3, b2, b1, b0) == Eight(0, b7, b6, b5, b4, b3, b2, b1) * 256 + b0 as Size
    ensures Eight(0, 0, 0, 0, 0, 0, 0, b0) == b0 as Size
  {
  }

  function EightBytes(s: seq<Byte>): Size
    requires |s| >= 8
  {
    Eight(s[0], s[1], s[2], s[3], s[4], s[5], s[6], s[7])
  }

  /** What is sent for a size and a key: the two fixed bytes, the size in no byte, two or eight, and the key. */
  lemma WireBytes(h: BasicHeader, e: seq<Byte>, size: Size, key: Key) returns (l: seq<Byte>)
    requires Made(h, e, size, key)
    ensures PrepareHeader(h, e) == [h.b0, h.b1] + l + if h.b1 & 0x80 != 0 then key else []
    ensures |l| == if size <= 125 then 0 else if size <= 65535 then 2 else 8
    ensures |l| == 2 ==> TwoBytes(l) == size
    ensures |l| == 8 ==> EightBytes(l) == size
  {
    l := LengthBytes(size);
    LengthNumbers(size);
    KeyOffset(h, size);
    MaskBit(h.b1);
    WireParts(h, e, l, if GetMasked(h) then key else []);
  }

  lemma WireParts(h: BasicHeader, e: seq<Byte>, l: seq<Byte>, k: seq<Byte>)
    requires |e| == MAX_EXTENDED_HEADER_LENGTH && l + k <= e && GetHeaderLen(h) == 2 + |l| + |k|
    ensures PrepareHeader(h, e) == [h.b0, h.b1] + l + k
  {
    assert e[..GetHeaderLen(h) - 2] == l + k;
    assert [h.b0, h.b1] + (l + k) == [h.b0, h.b1] + l + k;
  }

  lemma LengthNumbers(size: Size)
    ensures var l := LengthBytes(size);
            && |l| == (if size <= 125 then 0 else if size <= 65535 then 2 else 8)
            && (|l| == 2 ==> TwoBytes(l) == size) && (|l| == 8 ==> EightBytes(l) == size)
  {
    if size <= 125 {
    } else if size <= 65535 {
      TwoWeights(size);
    } else {
      EightWeights(size);
    }
  }

  lemma TwoWeights(size: Size)
    requires size <= 65535
    ensures (Weights(size).c1 as Size) * 256 + Weights(size).c0 as Size == size
  {
    TwoByteSize(size);
    ShiftIsTimes(Weights(size).c1, Weights(size).c0);
  }

  lemma ShiftIsTimes(x: Byte, y: Byte)
    ensures ((x as Size) << 8) | (y as Size) == (x as Size) * 256 + y as Size
  {
  }

  lemma EightWeights(size: Size)
    ensures EightBytes(Weights(size).Reversed().Seq()) == size
  {
    WeightsInverse(size);
  }

  /** What is read: up to 125 the seven bits themselves, for 126 the next two bytes, for 127 the next eight. */
  lemma SizeRead(little: bool, h: BasicHeader, e: seq<Byte>)
    requires |e| == MAX_EXTENDED_HEADER_LENGTH
    ensures var seven := h.b1 & 0x7f;
            GetPayloadSize(little, h, e)
            == if seven == 126 then TwoBytes(e) else if seven == 127 then EightBytes(e) else seven as Size
  {
    var seven := h.b1 & 0x7f;
    SevenBits(seven);
    SevenBitsAgain(h.b1);
    if seven == 126 {
      ShiftIsTimes(e[0], e[1]);
    } else if seven == 127 {
      FromNetwork(little, FromSeq(e[..8]));
      EightRead(e);
    }
  }

  lemma SevenBitsAgain(b: Byte)
    ensures (b & 0x7f) & 0x7f == b & 0x7f
  {
  }

  lemma EightRead(e: seq<Byte>)
    requires |e| >= 8
    ensures FromWeights(FromSeq(e[..8]).Reversed()) == EightBytes(e)
  {
    var b := Bytes8(e[0], e[1], e[2], e[3], e[4], e[5], e[6], e[7]);
    assert FromSeq(e[..8]) == b;
    EightOf(b);
  }

  lemma EightOf(b: Bytes8)
    ensures FromWeights(b.Reversed()) == Eight(b.c0, b.c1, b.c2, b.c3, b.c4, b.c5, b.c6, b.c7)
  {
  }
}
