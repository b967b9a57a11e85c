/** Base64 (section 4 of RFC 4648) as the library encodes and decodes it: bytes gathered three at a time, characters
    four at a time, and what is left over at the end. */
module Base64 {

  type Byte = b: int | 0 <= b < 256

  type Digit = d: int | 0 <= d < 64

  const PAD: Byte := 61

  // ----- the alphabet -----

  /** The character of a digit: A-Z, a-z, 0-9, + and /. */
  function CharOf(d: Digit): Byte {
    if d < 26 then 65 + d
    else if d < 52 then 97 + (d - 26)
    else if d < 62 then 48 + (d - 52)
    else if d == 62 then 43
    else 47
  }

  predicate IsBase64(c: Byte) {
    c == 43 || 47 <= c <= 57 || 65 <= c <= 90 || 97 <= c <= 122
  }

  /** Where find finds a character of the alphabet. */
  function DigitOf(c: Byte): Digit
    requires IsBase64(c)
  {
    if 65 <= c <= 90 then c - 65
    else if 97 <= c then c - 97 + 26
    else if 48 <= c then c - 48 + 52
    else if c == 43 then 62
    else 63
  }

  /** find, truncated to a byte: the position of a character, and the last byte of npos for any other. */
  function Find(c: Byte): Byte {
    if IsBase64(c) then DigitOf(c) else 255
  }

  /** is_base64 tells exactly the characters of the alphabet, and each of them is one digit's. */
  lemma Alphabet(c: Byte)
    ensures IsBase64(c) <==> exists d: Digit :: CharOf(d) == c
    ensures forall d: Digit :: CharOf(d) == c ==> DigitOf(c) == d
    ensures !IsBase64(PAD) && !IsBase64(0)
  {
    if IsBase64(c) {
      assert CharOf(DigitOf(c)) == c;
    }
  }

  // ----- groups: 24 bits are three bytes or four digits -----

  function Number3(x: Byte, y: Byte, z: Byte): nat {
    (x as int * 256 + y) * 256 + z
  }

  function Number4(d: seq<Digit>): nat
    requires |d| == 4
  {
    ((d[0] as int * 64 + d[1]) * 64 + d[2]) * 64 + d[3]
  }

  function Digits(x: Byte, y: Byte, z: Byte): (d: seq<Digit>)
    ensures |d| == 4
  {
    [x / 4, x % 4 * 16 + y / 16, y % 16 * 4 + z / 64, z % 64]
  }

  function Bytes(d: seq<Digit>): (b: seq<Byte>)
    requires |d| == 4
    ensures |b| == 3
  {
    [d[0] as int * 4 + d[1] / 16, d[1] as int % 16 * 16 + d[2] / 4, d[2] as int % 4 * 64 + d[3]]
  }

  /** The digits have the same 24 bits as the bytes. */
  lemma SameNumber(x: Byte, y: Byte, z: Byte)
    ensures Number4(Digits(x, y, z)) == Number3(x, y, z)
  {
  }

  lemma SameBytes(x: Byte, y: Byte, z: Byte)
    ensures Bytes(Digits(x, y, z)) == [x, y, z]
  {
  }

  lemma SameDigits(d: seq<Digit>)
    requires |d| == 4
    ensures var b := Bytes(d);
            Number3(b[0], b[1], b[2]) == Number4(d) && Digits(b[0], b[1], b[2]) == d
  {
    var b := Bytes(d);
    FirstCut(d[0], d[1]);
    MiddleCut(d[1], d[2]);
    LastCut(d[2], d[3]);
    SplitSixteen(d[1]);
    SplitFour(d[2]);
  }

  lemma FirstCut(d0: Digit, d1: Digit)
    ensures (d0 as int * 4 + d1 / 16) / 4 == d0 && (d0 as int * 4 + d1 / 16) % 4 == d1 / 16
  {
  }

  lemma MiddleCut(d1: Digit, d2: Digit)
    ensures (d1 as int % 16 * 16 + d2 / 4) / 16 == d1 % 16 && (d1 as int % 16 * 16 + d2 / 4) % 16 == d2 / 4
  {
  }

  lemma LastCut(d2: Digit, d3: Digit)
    ensures (d2 as int % 4 * 64 + d3) / 64 == d2 % 4 && (d2 as int % 4 * 64 + d3) % 64 == d3
  {
  }

  lemma SplitSixteen(d: Digit)
    ensures d / 16 * 16 + d % 16 == d
  {
  }

  lemma SplitFour(d: Digit)
    ensures d / 4 * 4 + d % 4 == d
  {
  }

  // ----- what the encoding is -----

  function Chars(ds: seq<Digit>): (s: seq<Byte>)
    ensures |s| == |ds|
    ensures forall i :: 0 <= i < |ds| ==> s[i] == CharOf(ds[i])
  {
    seq(|ds|, i requires 0 <= i < |ds| => CharOf(ds[i]))
  }

  /** Section 4 of RFC 4648: whole groups, then a last group filled with zero bits and padded. */
  function Encoded(s: seq<Byte>): seq<Byte> {
    if |s| == 0 then []
    else if |s| == 1 then Chars(Digits(s[0], 0, 0)[..2]) + [PAD, PAD]
    else if |s| == 2 then Chars(Digits(s[0], s[1], 0)[..3]) + [PAD]
    else Chars(Digits(s[0], s[1], s[2])) + Encoded(s[3..])
  }

  /** The characters of the alphabet a string begins with. */
  function Span(s: seq<Byte>): (p: seq<Byte>)
    ensures p <= s && forall i :: 0 <= i < |p| ==> IsBase64(p[i])
    ensures |p| == |s| || !IsBase64(s[|p|])
  {
    if s == [] || !IsBase64(s[0]) then [] else [s[0]] + Span(s[1..])
  }

  type Text = p: seq<Byte> | forall i :: 0 <= i < |p| ==> IsBase64(p[i])

  function DigitsOf(p: Text): (d: seq<Digit>)
    ensures |d| == |p|
    ensures forall i :: 0 <= i < |p| ==> d[i] == DigitOf(p[i])
  {
    seq(|p|, i requires 0 <= i < |p| => DigitOf(p[i]))
  }

  /** The whole bytes in the bits of a text: three for every four characters, and one or two at the end. */
  function Unpacked(p: Text): seq<Byte> {
    if |p| < 2 then []
    else if |p| == 2 then Bytes(DigitsOf(p) + [0, 0])[..1]
    else if |p| == 3 then Bytes(DigitsOf(p) + [0])[..2]
    else Bytes(DigitsOf(p[..4])) + Unpacked(p[4..])
  }

  /** What a string decodes to: padding, or anything else outside the alphabet, ends it. */
  function Decoded(s: seq<Byte>): seq<Byte> {
    Unpacked(Span(s))
  }

  // ----- groups, as the code computes them -----

  /** char_array_4 from char_array_3. */
  method Split(a3: array<Byte>, a4: array<Byte>)
    requires a3.Length == 3 && a4.Length == 4
    modifies a4
    ensures a4[..] == Digits(a3[0], a3[1], a3[2])
  {
    a4[0] := a3[0] / 4;
    a4[1] := a3[0] % 4 * 16 + a3[1] / 16;
    a4[2] := a3[1] % 16 * 4 + a3[2] / 64;
    a4[3] := a3[2] % 64;
  }

  /** char_array_3 from char_array_4: as many of its bytes are right as the digits before the first non-digit make. */
  method Merge(a4: array<Byte>, a3: array<Byte>)
    requires a3.Length == 3 && a4.Length == 4
    modifies a3
    ensures a4[0] < 64 && a4[1] < 64 ==> a3[..1] == Bytes([a4[0], a4[1], 0, 0])[..1]
    ensures a4[0] < 64 && a4[1] < 64 && a4[2] < 64 ==> a3[..2] == Bytes([a4[0], a4[1], a4[2], 0])[..2]
    ensures a4[0] < 64 && a4[1] < 64 && a4[2] < 64 && a4[3] < 64 ==>
              a3[..] == Bytes([a4[0], a4[1], a4[2], a4[3]])
  {
    a3[0] := (a4[0] as int * 4 + a4[1] / 16 % 4) % 256;
    a3[1] := a4[1] % 16 * 16 + a4[2] / 4 % 16;
    a3[2] := (a4[2] as int % 4 * 64 + a4[3]) % 256;
  }

  // ----- the code -----

  datatype Work = Encoding | Decoding

  /** What there is so far, and what is to come, make what is wanted. */
  ghost predicate ToCome(w: Work, ret: seq<Byte>, rest: seq<Byte>, whole: seq<Byte>) {
    match w
    case Encoding => ret + Encoded(rest) == Encoded(whole)
    case Decoding => ret + Decoded(rest) == Decoded(whole)
  }

  lemma Append(w: Work, ret: seq<Byte>, more: seq<Byte>, before: seq<Byte>, rest: seq<Byte>, whole: seq<Byte>)
    requires ToCome(w, ret, before, whole) && ToCome(w, more, rest, before)
    ensures ToCome(w, ret + more, rest, whole)
  {
    match w
    case Encoding => assert ret + more + Encoded(rest) == ret + (more + Encoded(rest));
    case Decoding => assert ret + more + Decoded(rest) == ret + (more + Decoded(rest));
  }

  lemma Begin(w: Work, whole: seq<Byte>)
    ensures ToCome(w, [], whole, whole)
  {
  }

  lemma End(w: Work, ret: seq<Byte>, whole: seq<Byte>)
    requires ToCome(w, ret, [], whole)
    ensures ret == if w.Encoding? then Encoded(whole) else Decoded(whole)
  {
  }

  /** The loop that appends the characters of char_array_4 up to n. */
  method Emit(a4: array<Byte>, n: nat) returns (s: seq<Byte>)
    requires n <= a4.Length && forall j :: 0 <= j < a4.Length ==> a4[j] < 64
    ensures s == Chars(a4[..n])
  {
    s := [];
    var j := 0;
    while j < n
      invariant 0 <= j <= n && |s| == j
      invariant forall k :: 0 <= k < j ==> s[k] == CharOf(a4[k])
    {
      s := s + [CharOf(a4[j])];
      j := j + 1;
    }
  }

  /** Three bytes gathered. */
  method EncodeGroup(a3: array<Byte>, a4: array<Byte>, ghost rest: seq<Byte>) returns (s: seq<Byte>)
    requires a3.Length == 3 && a4.Length == 4
    modifies a4
    ensures ToCome(Encoding, s, rest, old(a3[..]) + rest)
  {
    Split(a3, a4);
    s := Emit(a4, 4);
    assert a4[..4] == a4[..];
    assert (a3[..] + rest)[3..] == rest;
  }

  lemma Regroup(s: seq<Byte>, k: nat, group: seq<Byte>)
    requires |group| <= k <= |s| && forall j :: 0 <= j < |group| ==> group[j] == s[k - |group| + j]
    ensures s[k - |group|..] == group + s[k..]
  {
  }

  method Encode(input: seq<Byte>) returns (ret: seq<Byte>)
    ensures ret == Encoded(input)
  {
    var a3, a4 := new Byte[3], new Byte[4];
    var i, k := 0, 0;
    ret := [];
    Begin(Encoding, input);
    assert input[0..] == input;
    while k < |input|
      invariant 0 <= i < 3 && i <= k <= |input|
      invariant forall j :: 0 <= j < i ==> a3[j] == input[k - i + j]
      invariant forall w: Work :: w.Encoding? ==> ToCome(w, ret, input[k - i..], input)
    {
      a3[i] := input[k];
      i, k := i + 1, k + 1;
      if i == 3 {
        Regroup(input, k, a3[..]);
        var chars := EncodeGroup(a3, a4, input[k..]);
        Append(Encoding, ret, chars, input[k - 3..], input[k..], input);
        ret := ret + chars;
        i := 0;
      }
    }
    var last := [];
    if i != 0 {
      last := EncodeLast(a3, a4, i, input[k - i..]);
    } else {
      Begin(Encoding, []);
    }
    Append(Encoding, ret, last, input[k - i..], [], input);
    ret := ret + last;
    End(Encoding, ret, input);
  }

  /** The last one or two bytes. */
  method EncodeLast(a3: array<Byte>, a4: array<Byte>, n: nat, ghost tail: seq<Byte>) returns (s: seq<Byte>)
    requires a3.Length == 3 && a4.Length == 4 && 1 <= n <= 2
    requires |tail| == n && forall k :: 0 <= k < n ==> a3[k] == tail[k]
    modifies a3, a4
    ensures ToCome(Encoding, s, [], tail)
  {
    var j := n;
    while j < 3
      invariant n <= j <= 3
      invariant forall k :: 0 <= k < n ==> a3[k] == tail[k]
      invariant forall k :: n <= k < j ==> a3[k] == 0
    {
      a3[j] := 0;
      j := j + 1;
    }
    Split(a3, a4);
    s := Emit(a4, n + 1);
    assert a4[..n + 1] == a4[..][..n + 1];
    var i := n;
    ghost var text := s;
    while i < 3
      invariant n <= i <= 3
      invariant s == text + seq(i - n, _ => PAD)
    {
      s := s + [PAD];
      i := i + 1;
    }
  }

  method DecodeGroup(a4: array<Byte>, a3: array<Byte>, ghost rest: seq<Byte>) returns (s: seq<Byte>)
    requires a3.Length == 3 && a4.Length == 4 && forall j :: 0 <= j < 4 ==> IsBase64(a4[j])
    modifies a4, a3
    ensures ToCome(Decoding, s, rest, old(a4[..]) + rest)
  {
    ghost var p: Text := a4[..];
    assert (p + rest)[..4] == p && (p + rest)[4..] == rest;
    DecodedFour(p + rest);
    FindAll(a4);
    Merge(a4, a3);
    assert [a4[0], a4[1], a4[2], a4[3]] == DigitsOf(p);
    s := Take(a3, 3);
  }

  /** The characters gathered and those to come are still to be decoded. */
  ghost predicate Reading(w: Work, group: seq<Byte>, ret: seq<Byte>, input: seq<Byte>, k: nat) {
    && k <= |input| && (forall j :: 0 <= j < |group| ==> IsBase64(group[j]))
    && ToCome(w, ret, group + input[k..], input)
  }

  lemma ReadOne(group: seq<Byte>, ret: seq<Byte>, input: seq<Byte>, k: nat)
    requires Reading(Decoding, group, ret, input, k) && k < |input| && IsBase64(input[k])
    ensures Reading(Decoding, group + [input[k]], ret, input, k + 1)
  {
    assert group + input[k..] == group + [input[k]] + input[k + 1..];
  }

  lemma ReadNone(ret: seq<Byte>, input: seq<Byte>, k: nat)
    requires k <= |input| && ToCome(Decoding, ret, input[k..], input)
    ensures Reading(Decoding, [], ret, input, k)
  {
    assert [] + input[k..] == input[k..];
  }

  lemma ReadAll(input: seq<Byte>)
    ensures Reading(Decoding, [], [], input, 0)
  {
    Begin(Decoding, input);
    assert [] + input[0..] == input;
  }

  /** Four characters gathered: the bytes they make are appended. */
  method AppendGroup(a4: array<Byte>, a3: array<Byte>, ret: seq<Byte>, ghost input: seq<Byte>, ghost k: nat)
    returns (ret': seq<Byte>)
    requires a3.Length == 3 && a4.Length == 4
    requires forall w: Work :: w.Decoding? ==> Reading(w, a4[..], ret, input, k)
    modifies a4, a3
    ensures forall w: Work :: w.Decoding? ==> Reading(w, [], ret', input, k)
  {
    ghost var group := a4[..];
    assert Reading(Decoding, group, ret, input, k);
    assert forall j :: 0 <= j < 4 ==> a4[j] == group[j];
    var bytes := DecodeGroup(a4, a3, input[k..]);
    Append(Decoding, ret, bytes, group + input[k..], input[k..], input);
    ret' := ret + bytes;
    ReadNone(ret', input, k);
  }

  /** The bytes of the characters left over are appended. */
  method AppendLast(a4: array<Byte>, a3: array<Byte>, n: nat, ret: seq<Byte>, ghost input: seq<Byte>, ghost k: nat)
    returns (ret': seq<Byte>)
    requires a3.Length == 3 && a4.Length == 4 && n <= 3
    requires forall w: Work :: w.Decoding? ==> Reading(w, a4[..n], ret, input, k)
    requires k >= |input| || !IsBase64(input[k])
    modifies a4, a3
    ensures forall w: Work :: w.Decoding? ==> ToCome(w, ret', [], input)
  {
    ghost var group := a4[..n];
    assert Reading(Decoding, group, ret, input, k);
    assert forall j :: 0 <= j < n ==> a4[j] == group[j];
    var last := DecodeLast(a4, a3, n, input[k..]);
    Append(Decoding, ret, last, group + input[k..], [], input);
    ret' := ret + last;
  }

  /** char_array_4[i] = input[k]. */
  method TakeChar(a4: array<Byte>, i: nat, ghost ret: seq<Byte>, input: seq<Byte>, k: nat)
    requires a4.Length == 4 && i < 4 && k < |input| && IsBase64(input[k])
    requires forall w: Work :: w.Decoding? ==> Reading(w, a4[..i], ret, input, k)
    modifies a4
    ensures forall w: Work :: w.Decoding? ==> Reading(w, a4[..i + 1], ret, input, k + 1)
  {
    assert Reading(Decoding, a4[..i], ret, input, k);
    ReadOne(a4[..i], ret, input, k);
    ghost var group := a4[..i] + [input[k]];
    a4[i] := input[k];
    assert a4[..i + 1] == group;
  }

  /** The loop over four characters at a time, and what is left over. */
  method DecodeGroups(input: seq<Byte>) returns (ret: seq<Byte>)
    ensures forall w: Work :: w.Decoding? ==> ToCome(w, ret, [], input)
  {
    var a3, a4 := new Byte[3], new Byte[4];
    var i, k := 0, 0;
    ret := [];
    ReadAll(input);
    assert a4[..0] == [];
    while k < |input| && input[k] != PAD && IsBase64(input[k])
      invariant 0 <= i < 4 && k <= |input|
      invariant forall w: Work :: w.Decoding? ==> Reading(w, a4[..i], ret, input, k)
    {
      TakeChar(a4, i, ret, input, k);
      i, k := i + 1, k + 1;
      if i == 4 {
        assert a4[..4] == a4[..];
        ret := AppendGroup(a4, a3, ret, input, k);
        i := 0;
        assert a4[..0] == [];
      }
    }
    ret := AppendLast(a4, a3, i, ret, input, k);
  }

  method Decode(input: seq<Byte>) returns (ret: seq<Byte>)
    ensures ret == Decoded(input)
  {
    ret := DecodeGroups(input);
    End(Decoding, ret, input);
  }

  /** Every entry of char_array_4 becomes its position in the alphabet. */
  method FindAll(a4: array<Byte>)
    modifies a4
    ensures forall j :: 0 <= j < a4.Length ==> a4[j] == Find(old(a4[j]))
  {
    var j := 0;
    while j < a4.Length
      invariant 0 <= j <= a4.Length
      invariant forall k :: 0 <= k < j ==> a4[k] == Find(old(a4[k]))
      invariant forall k :: j <= k < a4.Length ==> a4[k] == old(a4[k])
    {
      a4[j] := Find(a4[j]);
      j := j + 1;
    }
  }

  /** The loop that appends the first n bytes of char_array_3. */
  method Take(a3: array<Byte>, n: nat) returns (s: seq<Byte>)
    requires n <= a3.Length
    ensures s == a3[..n]
  {
    s := [];
    var j := 0;
    while j < n
      invariant 0 <= j <= n && s == a3[..j]
    {
      s := s + [a3[j]];
      j := j + 1;
    }
  }

  /** The characters left over, if any: the places after them are looked up as NUL, and make no difference. */
  method DecodeLast(a4: array<Byte>, a3: array<Byte>, n: nat, ghost rest: seq<Byte>) returns (s: seq<Byte>)
    requires a3.Length == 3 && a4.Length == 4 && n <= 3
    requires forall j :: 0 <= j < n ==> IsBase64(a4[j])
    requires rest == [] || !IsBase64(rest[0])
    modifies a4, a3
    ensures ToCome(Decoding, s, [], old(a4[..n]) + rest)
  {
    ghost var p: Text := a4[..n];
    DecodedLast(p, rest);
    s := [];
    if n != 0 {
      var j := n;
      while j < 4
        invariant n <= j <= 4
        invariant forall k :: 0 <= k < n ==> a4[k] == p[k]
        invariant forall k :: n <= k < j ==> a4[k] == 0
      {
        a4[j] := 0;
        j := j + 1;
      }
      FindAll(a4);
      Merge(a4, a3);
      s := Take(a3, n - 1);
      if n == 2 {
        assert [a4[0], a4[1], 0, 0] == DigitsOf(p) + [0, 0];
      } else if n == 3 {
        assert [a4[0], a4[1], a4[2], 0] == DigitsOf(p) + [0];
      }
    }
  }

  lemma SpanStep(c: Byte, t: seq<Byte>)
    requires IsBase64(c)
    ensures Span([c] + t) == [c] + Span(t)
  {
    assert ([c] + t)[1..] == t;
  }

  lemma {:induction false} SpanText(p: Text, t: seq<Byte>)
    ensures Span(p + t) == p + Span(t)
  {
    if p == [] {
      assert p + t == t && p + Span(t) == Span(t);
    } else {
      var c, rest := p[0], p[1..];
      SpanText(rest, t);
      SpanStep(c, rest + t);
      Regrouped(p, c, rest, t);
      Regrouped(p, c, rest, Span(t));
    }
  }

  lemma Regrouped(p: seq<Byte>, c: Byte, rest: seq<Byte>, t: seq<Byte>)
    requires p != [] && c == p[0] && rest == p[1..]
    ensures p + t == [c] + (rest + t)
  {
  }

  lemma DecodedFour(s: seq<Byte>)
    requires |s| >= 4 && forall i :: 0 <= i < 4 ==> IsBase64(s[i])
    ensures Decoded(s) == Bytes(DigitsOf(s[..4])) + Decoded(s[4..])
  {
    SpanText(s[..4], s[4..]);
    assert s == s[..4] + s[4..];
    UnpackedFour(s[..4], Span(s[4..]));
  }

  lemma UnpackedFour(p: Text, q: Text)
    requires |p| == 4
    ensures Unpacked(p + q) == Bytes(DigitsOf(p)) + Unpacked(q)
  {
    assert (p + q)[..4] == p && (p + q)[4..] == q;
  }

  lemma DecodedLast(p: Text, t: seq<Byte>)
    requires t == [] || !IsBase64(t[0])
    ensures Decoded(p + t) == Unpacked(p)
  {
    SpanText(p, t);
    assert p + Span(t) == p;
  }

  // ----- round trips -----

  lemma CharsAreText(ds: seq<Digit>)
    ensures forall i :: 0 <= i < |ds| ==> IsBase64(Chars(ds)[i])
    ensures DigitsOf(Chars(ds)) == ds
  {
    forall i | 0 <= i < |ds| ensures IsBase64(CharOf(ds[i])) && DigitOf(CharOf(ds[i])) == ds[i] {
      Alphabet(CharOf(ds[i]));
    }
  }

  lemma DigitsAreChars(p: Text)
    ensures Chars(DigitsOf(p)) == p
  {
    forall i | 0 <= i < |p| ensures CharOf(DigitOf(p[i])) == p[i] {
    }
  }

  /** A group of characters decodes to the bytes it encodes. */
  lemma GroupBack(x: Byte, y: Byte, z: Byte, t: seq<Byte>)
    ensures Decoded(Chars(Digits(x, y, z)) + t) == [x, y, z] + Decoded(t)
  {
    var c := Chars(Digits(x, y, z));
    CharsAreText(Digits(x, y, z));
    SameBytes(x, y, z);
    DecodedFour(c + t);
    assert (c + t)[..4] == c && (c + t)[4..] == t;
  }

  lemma OneBack(x: Byte)
    ensures Decoded(Encoded([x])) == [x]
  {
    var d := Digits(x, 0, 0);
    SameBytes(x, 0, 0);
    CharsAreText(d[..2]);
    DecodedLast(Chars(d[..2]), [PAD, PAD]);
    assert d[..2] + [0, 0] == d;
  }

  lemma TwoBack(x: Byte, y: Byte)
    ensures Decoded(Encoded([x, y])) == [x, y]
  {
    var d := Digits(x, y, 0);
    SameBytes(x, y, 0);
    CharsAreText(d[..3]);
    DecodedLast(Chars(d[..3]), [PAD]);
    assert d[..3] + [0] == d;
  }

  /** Every byte string is decoded from its encoding. */
  lemma {:induction false} RoundTrip(s: seq<Byte>)
    ensures Decoded(Encoded(s)) == s
  {
    if |s| == 1 {
      OneBack(s[0]);
      assert s == [s[0]];
    } else if |s| == 2 {
      TwoBack(s[0], s[1]);
      assert s == [s[0], s[1]];
    } else if |s| >= 3 {
      GroupBack(s[0], s[1], s[2], Encoded(s[3..]));
      RoundTrip(s[3..]);
      assert s == [s[0], s[1], s[2]] + s[3..];
    }
  }

  predicate WholeGroup(s: seq<Byte>) {
    |s| >= 4 && IsBase64(s[0]) && IsBase64(s[1]) && IsBase64(s[2]) && IsBase64(s[3])
  }

  predicate OnePad(s: seq<Byte>) {
    |s| == 4 && IsBase64(s[0]) && IsBase64(s[1]) && IsBase64(s[2]) && s[3] == PAD && DigitOf(s[2]) % 4 == 0
  }

  predicate TwoPads(s: seq<Byte>) {
    |s| == 4 && IsBase64(s[0]) && IsBase64(s[1]) && s[2] == PAD && s[3] == PAD && DigitOf(s[1]) % 16 == 0
  }

  /** Whole groups; in a last group with padding the bits that no byte takes are zero. */
  predicate Canonical(s: seq<Byte>) {
    s == [] || OnePad(s) || TwoPads(s) || (WholeGroup(s) && Canonical(s[4..]))
  }

  lemma ShapeOne(x: Byte)
    ensures TwoPads(Encoded([x]))
  {
    CharsAreText(Digits(x, 0, 0)[..2]);
    var c := Chars(Digits(x, 0, 0)[..2]);
    assert DigitsOf(c)[1] == x % 4 * 16;
  }

  lemma ShapeTwo(x: Byte, y: Byte)
    ensures OnePad(Encoded([x, y]))
  {
    CharsAreText(Digits(x, y, 0)[..3]);
    var c := Chars(Digits(x, y, 0)[..3]);
    assert DigitsOf(c)[2] == y % 16 * 4;
  }

  /** An encoding is canonical. */
  lemma {:induction false} EncodedShape(s: seq<Byte>)
    ensures Canonical(Encoded(s))
  {
    if |s| == 1 {
      ShapeOne(s[0]);
      assert s == [s[0]];
    } else if |s| == 2 {
      ShapeTwo(s[0], s[1]);
      assert s == [s[0], s[1]];
    } else if |s| >= 3 {
      EncodedShape(s[3..]);
      ShapeGroup(s[0], s[1], s[2], Encoded(s[3..]));
    }
  }

  /** It has four characters for every three bytes or part of three. */
  lemma {:induction false} EncodedLength(s: seq<Byte>)
    ensures |Encoded(s)| == 4 * ((|s| + 2) / 3)
  {
    if |s| >= 3 {
      EncodedLength(s[3..]);
      assert (|s| + 2) / 3 == (|s[3..]| + 2) / 3 + 1;
    }
  }

  lemma ShapeGroup(x: Byte, y: Byte, z: Byte, t: seq<Byte>)
    ensures WholeGroup(Chars(Digits(x, y, z)) + t) && (Chars(Digits(x, y, z)) + t)[4..] == t
  {
    CharsAreText(Digits(x, y, z));
  }

  lemma GroupAgain(s: seq<Byte>)
    requires WholeGroup(s) && Encoded(Decoded(s[4..])) == s[4..]
    ensures Encoded(Decoded(s)) == s
  {
    var p: Text, t := s[..4], s[4..];
    assert s == p + t;
    var b := Bytes(DigitsOf(p));
    DecodedFour(s);
    SameDigits(DigitsOf(p));
    DigitsAreChars(p);
    assert (b + Decoded(t))[3..] == Decoded(t);
  }

  lemma TwoAgain(s: seq<Byte>)
    requires TwoPads(s)
    ensures Encoded(Decoded(s)) == s
  {
    var p: Text := s[..2];
    assert s == p + [PAD, PAD];
    DecodedLast(p, [PAD, PAD]);
    var d := DigitsOf(p) + [0, 0];
    SameDigits(d);
    assert Bytes(d)[1] == 0 && Bytes(d)[2] == 0;
    assert d[..2] == DigitsOf(p);
    DigitsAreChars(p);
  }

  lemma ThreeAgain(s: seq<Byte>)
    requires OnePad(s)
    ensures Encoded(Decoded(s)) == s
  {
    var p: Text := s[..3];
    assert s == p + [PAD];
    DecodedLast(p, [PAD]);
    var d := DigitsOf(p) + [0];
    SameDigits(d);
    assert Bytes(d)[2] == 0;
    assert d[..3] == DigitsOf(p);
    DigitsAreChars(p);
  }

  lemma {:induction false} CanonicalBack(s: seq<Byte>)
    requires Canonical(s)
    ensures Encoded(Decoded(s)) == s
  {
    if OnePad(s) {
      ThreeAgain(s);
    } else if TwoPads(s) {
      TwoAgain(s);
    } else if s != [] {
      CanonicalBack(s[4..]);
      GroupAgain(s);
    }
  }

  /** Encoding restores exactly the canonical strings. */
  lemma EncodeDecode(s: seq<Byte>)
    ensures Encoded(Decoded(s)) == s <==> Canonical(s)
  {
    EncodedShape(Decoded(s));
    if Canonical(s) {
      CanonicalBack(s);
    }
  }

  // ----- RFC 4648 in its own terms -----

  /** Table 1: the capital letters, the small letters, the numerals, the plus sign and the slash. */
  lemma Table(d: Digit)
    ensures CharOf(d) == if d < 26 then 'A' as int + d else if d < 52 then 'a' as int + d - 26
                         else if d < 62 then '0' as int + d - 52 else if d == 62 then '+' as int else '/' as int
    ensures PAD == '=' as int
  {
  }

  /** Characters as bytes. */
  function Ascii(s: string): (b: seq<Byte>)
    requires forall i :: 0 <= i < |s| ==> s[i] < '\U{0080}'
    ensures |b| == |s|
  {
    seq(|s|, i requires 0 <= i < |s| => s[i] as int)
  }

  // The test vectors of section 10.

  lemma VectorF()
    ensures Encoded([]) == [] && Encoded(Ascii("f")) == Ascii("Zg==")
  {
  }

  lemma VectorFo()
    ensures Encoded(Ascii("fo")) == Ascii("Zm8=")
  {
  }

  lemma VectorFoo()
    ensures Encoded(Ascii("foo")) == Ascii("Zm9v")
  {
    assert Ascii("foo")[3..] == [];
  }

  lemma VectorBar()
    ensures Encoded(Ascii("bar")) == Ascii("YmFy")
  {
    assert Ascii("bar")[3..] == [];
  }

  lemma VectorFoobar()
    ensures Encoded(Ascii("foobar")) == Ascii("Zm9vYmFy")
  {
    VectorBar();
    var s := Ascii("foobar");
    assert s[3..] == Ascii("bar");
  }

  /** What two or three characters at the end decode to: the byte in the first 8 of their 12 bits, the two in the first 16
      of their 18; one alone, to nothing. */
  lemma LastBits(p: Text)
    ensures |p| == 1 ==> Unpacked(p) == []
    ensures |p| == 2 ==> |Unpacked(p)| == 1 && TopBits(Unpacked(p)[0], 16, DigitOf(p[0]) as int * 64 + DigitOf(p[1]))
    ensures |p| == 3 ==>
              && |Unpacked(p)| == 2
              && TopBits(Unpacked(p)[0] as int * 256 + Unpacked(p)[1], 4, (DigitOf(p[0]) as int * 64 + DigitOf(p[1])) * 64 + DigitOf(p[2]))
  {
    var d := DigitsOf(p);
    if |p| == 2 {
      TwelveBits(d[0], d[1]);
      assert Bytes(d + [0, 0])[..1] == [d[0] as int * 4 + d[1] / 16];
    } else if |p| == 3 {
      EighteenBits(d[0], d[1], d[2]);
      assert Bytes(d + [0])[..2] == [d[0] as int * 4 + d[1] / 16, d[1] as int % 16 * 16 + d[2] / 4];
    }
  }

  /** x is n without its lowest bits, of which there are so many values. */
  predicate TopBits(x: int, values: nat, n: int) {
    x * values <= n < x * values + values
  }

  lemma TwelveBits(x: Digit, y: Digit)
    ensures TopBits(x as int * 4 + y / 16, 16, x as int * 64 + y)
  {
  }

  lemma EighteenBits(x: Digit, y: Digit, z: Digit)
    ensures TopBits((x as int * 4 + y / 16) * 256 + (y as int % 16 * 16 + z / 4), 4, (x as int * 64 + y) * 64 + z)
  {
    SplitSixteen(y);
    SplitFour(z);
  }
}
