/** The table-driven UTF-8 decoder, the language of section 4 of RFC 3629 and the encoding of section 3. */
module Utf8 {

  type Byte = b: int | 0 <= b < 256

  type Word = w: int | 0 <= w < 0x1_0000_0000

  // ----- the grammar: section 4 of RFC 3629 -----

  predicate Tail(b: Byte) { 0x80 <= b <= 0xBF }

  /** UTF8-1, UTF8-2, UTF8-3 or UTF8-4. */
  predicate IsChar(s: seq<Byte>) {
    match |s|
    case 1 => s[0] <= 0x7F
    case 2 => 0xC2 <= s[0] <= 0xDF && Tail(s[1])
    case 3 =>
      || (s[0] == 0xE0 && 0xA0 <= s[1] <= 0xBF && Tail(s[2]))
      || (0xE1 <= s[0] <= 0xEC && Tail(s[1]) && Tail(s[2]))
      || (s[0] == 0xED && 0x80 <= s[1] <= 0x9F && Tail(s[2]))
      || (0xEE <= s[0] <= 0xEF && Tail(s[1]) && Tail(s[2]))
    case 4 =>
      || (s[0] == 0xF0 && 0x90 <= s[1] <= 0xBF && Tail(s[2]) && Tail(s[3]))
      || (0xF1 <= s[0] <= 0xF3 && Tail(s[1]) && Tail(s[2]) && Tail(s[3]))
      || (s[0] == 0xF4 && 0x80 <= s[1] <= 0x8F && Tail(s[2]) && Tail(s[3]))
    case _ => false
  }

  /** UTF8-octets: characters one after the other. */
  ghost predicate WellFormed(s: seq<Byte>)
    decreases |s|
  {
    s == [] || exists n :: 1 <= n <= |s| && IsChar(s[..n]) && WellFormed(s[n..])
  }

  // ----- the encoding: section 3 of RFC 3629 -----

  predicate Scalar(x: nat) { x < 0xD800 || 0xDFFF < x < 0x110000 }

  type Scalars = xs: seq<nat> | forall i :: 0 <= i < |xs| ==> Scalar(xs[i])

  function Encode(x: nat): (s: seq<Byte>)
    requires Scalar(x)
    ensures 1 <= |s| <= 4
  {
    if x < 0x80 then [x]
    else if x < 0x800 then [0xC0 + x / 64, 0x80 + x % 64]
    else if x < 0x10000 then [0xE0 + x / 64 / 64, 0x80 + x / 64 % 64, 0x80 + x % 64]
    else [0xF0 + x / 64 / 64 / 64, 0x80 + x / 64 / 64 % 64, 0x80 + x / 64 % 64, 0x80 + x % 64]
  }

  function EncodeAll(xs: Scalars): seq<Byte> {
    if xs == [] then [] else Encode(xs[0]) + EncodeAll(xs[1..])
  }

  /** The bits of a first byte that belong to the scalar value. */
  function FirstBits(b: Byte): nat {
    if b <= 0x7F then b
    else if b < 0xC0 then 0
    else if b <= 0xDF then b - 0xC0
    else if b <= 0xEF then b - 0xE0
    else b - 0xF0
  }

  /** Six more bits. */
  function Join(high: nat, b: Byte): nat {
    high * 64 + b % 64
  }

  /** The scalar value of a character, from its bits. */
  function Value(s: seq<Byte>): nat
    requires IsChar(s)
  {
    match |s|
    case 1 => FirstBits(s[0])
    case 2 => Join(FirstBits(s[0]), s[1])
    case 3 => Join(Join(FirstBits(s[0]), s[1]), s[2])
    case _ => Join(Join(Join(FirstBits(s[0]), s[1]), s[2]), s[3])
  }

  lemma JoinParts(high: nat, b: Byte)
    requires Tail(b)
    ensures Join(high, b) == high * 64 + b - 0x80
    ensures Join(high, b) / 64 == high && 0x80 + Join(high, b) % 64 == b
  {
  }

  lemma ThreeBytes(s: seq<Byte>)
    requires |s| == 3 && IsChar(s)
    ensures 0x800 <= Value(s) < 0x10000 && Scalar(Value(s)) && Encode(Value(s)) == s
  {
    JoinParts(FirstBits(s[0]), s[1]);
    JoinParts(Join(FirstBits(s[0]), s[1]), s[2]);
  }

  lemma FourBytes(s: seq<Byte>)
    requires |s| == 4 && IsChar(s)
    ensures 0x10000 <= Value(s) < 0x110000 && Encode(Value(s)) == s
  {
    JoinParts(FirstBits(s[0]), s[1]);
    JoinParts(Join(FirstBits(s[0]), s[1]), s[2]);
    JoinParts(Join(Join(FirstBits(s[0]), s[1]), s[2]), s[3]);
  }

  /** The grammar's characters are encodings of scalar values. */
  lemma CharIsEncoding(s: seq<Byte>)
    requires IsChar(s)
    ensures Scalar(Value(s)) && Encode(Value(s)) == s
  {
    if |s| == 2 {
      JoinParts(FirstBits(s[0]), s[1]);
    } else if |s| == 3 {
      ThreeBytes(s);
    } else if |s| == 4 {
      FourBytes(s);
    }
  }

  lemma PartsJoin(x: nat)
    ensures Tail(0x80 + x % 64) && Join(x / 64, 0x80 + x % 64) == x
  {
  }

  lemma TwoIsChar(x: nat)
    requires 0x80 <= x < 0x800
    ensures IsChar(Encode(x)) && Value(Encode(x)) == x
  {
    PartsJoin(x);
  }

  lemma ThreeIsChar(x: nat)
    requires 0x800 <= x < 0x10000 && Scalar(x)
    ensures IsChar(Encode(x)) && Value(Encode(x)) == x
  {
    PartsJoin(x);
    PartsJoin(x / 64);
  }

  lemma FourIsChar(x: nat)
    requires 0x10000 <= x < 0x110000
    ensures IsChar(Encode(x)) && Value(Encode(x)) == x
  {
    PartsJoin(x);
    PartsJoin(x / 64);
    PartsJoin(x / 64 / 64);
  }

  /** Every encoding of a scalar value is one of the grammar's characters. */
  lemma EncodingIsChar(x: nat)
    requires Scalar(x)
    ensures IsChar(Encode(x)) && Value(Encode(x)) == x
  {
    if x < 0x80 {
    } else if x < 0x800 {
      TwoIsChar(x);
    } else if x < 0x10000 {
      ThreeIsChar(x);
    } else {
      FourIsChar(x);
    }
  }

  // ----- the automaton, read off the grammar -----

  type State = s: nat | s < 9 witness 0

  const ACCEPT: State := 0
  const REJECT: State := 1
  const ONE_TAIL: State := 2
  const TWO_TAILS: State := 3
  const AFTER_E0: State := 4
  const AFTER_ED: State := 5
  const AFTER_F0: State := 6
  const THREE_TAILS: State := 7
  const AFTER_F4: State := 8

  /** Where the first byte of a character leads. */
  function NextFirst(b: Byte): State {
    if b <= 0x7F then ACCEPT
    else if b < 0xC2 then REJECT
    else if b <= 0xDF then ONE_TAIL
    else if b == 0xE0 then AFTER_E0
    else if b == 0xED then AFTER_ED
    else if b <= 0xEF then TWO_TAILS
    else if b == 0xF0 then AFTER_F0
    else if b <= 0xF3 then THREE_TAILS
    else if b == 0xF4 then AFTER_F4
    else REJECT
  }

  /** The bytes that may come in the middle of a character, and where they lead. */
  function Middle(s: State): (int, int, State) {
    if s == ONE_TAIL then (0x80, 0xBF, ACCEPT)
    else if s == TWO_TAILS then (0x80, 0xBF, ONE_TAIL)
    else if s == THREE_TAILS then (0x80, 0xBF, TWO_TAILS)
    else if s == AFTER_E0 then (0xA0, 0xBF, ONE_TAIL)
    else if s == AFTER_ED then (0x80, 0x9F, ONE_TAIL)
    else if s == AFTER_F0 then (0x90, 0xBF, TWO_TAILS)
    else if s == AFTER_F4 then (0x80, 0x8F, TWO_TAILS)
    else (1, 0, REJECT)
  }

  function Next(s: State, b: Byte): State {
    if s == ACCEPT then NextFirst(b)
    else var m := Middle(s); if m.0 <= b <= m.1 then m.2 else REJECT
  }

  /** State and codepoint; after a rejection there is no codepoint to speak of. */
  datatype Decoder = Decoder(state: State, codepoint: Word)

  const START := Decoder(ACCEPT, 0)
  const REJECTED := Decoder(REJECT, 0)

  function Step(d: Decoder, b: Byte): Decoder {
    var next := Next(d.state, b);
    if next == REJECT then REJECTED
    else if d.state == ACCEPT then Decoder(next, FirstBits(b))
    else Decoder(next, Join(d.codepoint, b) % 0x1_0000_0000)
  }

  function Final(d: Decoder, s: seq<Byte>): Decoder
    decreases |s|
  {
    if s == [] then d else Final(Step(d, s[0]), s[1..])
  }

  /** The codepoint at each return to accept. */
  function Points(d: Decoder, s: seq<Byte>): seq<nat>
    decreases |s|
  {
    if s == [] then []
    else
      var d' := Step(d, s[0]);
      (if d'.state == ACCEPT then [d'.codepoint] else []) + Points(d', s[1..])
  }

  // ----- the table -----

  /** The first 256 entries of the table, sixteen at a time: the classes of the bytes. */
  function ByteRow(r: nat): (row: seq<nat>)
    ensures |row| == 16
  {
    if r < 8 then Same(0)
    else if r == 8 then Same(1)
    else if r == 9 then Same(9)
    else if r < 12 then Same(7)
    else if r == 12 then [8, 8, 2, 2, 2, 2, 2, 2, 2, 2, 2, 2, 2, 2, 2, 2]
    else if r == 13 then Same(2)
    else if r == 14 then [10, 3, 3, 3, 3, 3, 3, 3, 3, 3, 3, 3, 3, 4, 3, 3]
    else [11, 6, 6, 6, 5, 8, 8, 8, 8, 8, 8, 8, 8, 8, 8, 8]
  }

  /** The rest of the table, one row for each state. */
  function StateRow(s: State): (row: seq<nat>)
    ensures |row| == 16
  {
    if s == 0 then [0, 1, 2, 3, 5, 8, 7, 1, 1, 1, 4, 6, 1, 1, 1, 1]
    else if s == 1 then Same(1)
    else if s == 2 then [1, 0, 1, 1, 1, 1, 1, 0, 1, 0, 1, 1, 1, 1, 1, 1]
    else if s == 3 then [1, 2, 1, 1, 1, 1, 1, 2, 1, 2, 1, 1, 1, 1, 1, 1]
    else if s == 4 then [1, 1, 1, 1, 1, 1, 1, 2, 1, 1, 1, 1, 1, 1, 1, 1]
    else if s == 5 then [1, 2, 1, 1, 1, 1, 1, 1, 1, 2, 1, 1, 1, 1, 1, 1]
    else if s == 6 then [1, 1, 1, 1, 1, 1, 1, 3, 1, 3, 1, 1, 1, 1, 1, 1]
    else if s == 7 then [1, 3, 1, 1, 1, 1, 1, 3, 1, 3, 1, 1, 1, 1, 1, 1]
    else [1, 3, 1, 1, 1, 1, 1, 1, 1, 1, 1, 1, 1, 1, 1, 1]
  }

  function Same(v: nat): (row: seq<nat>)
    ensures |row| == 16
  {
    seq(16, _ => v)
  }

  function Table(i: nat): nat
    requires i < 400
  {
    if i < 256 then ByteRow(i / 16)[i % 16] else StateRow((i - 256) / 16)[i % 16]
  }

  /** The class of a byte, in terms of ranges. */
  function Class(b: Byte): (c: nat)
    ensures c < 12
  {
    if b <= 0x7F then 0
    else if b <= 0x8F then 1
    else if b <= 0x9F then 9
    else if b <= 0xBF then 7
    else if b < 0xC2 then 8
    else if b <= 0xDF then 2
    else if b == 0xE0 then 10
    else if b == 0xED then 4
    else if b <= 0xEF then 3
    else if b == 0xF0 then 11
    else if b <= 0xF3 then 6
    else if b == 0xF4 then 5
    else 8
  }

  lemma ClassInRow(r: nat, c: nat)
    requires r < 16 && c < 16
    ensures ByteRow(r)[c] == Class(16 * r + c)
  {
  }

  lemma ClassOf(b: Byte)
    ensures Table(b) == Class(b)
  {
    ClassInRow(b / 16, b % 16);
  }

  /** The table is the grammar's automaton. */
  lemma TableIsGrammar(s: State, b: Byte)
    ensures Table(256 + s * 16 + Class(b)) == Next(s, b)
  {
    assert (s * 16 + Class(b)) / 16 == s && (256 + s * 16 + Class(b)) % 16 == Class(b);
    RowIsGrammar(s, b);
  }

  lemma RowIsGrammar(s: State, b: Byte)
    ensures StateRow(s)[Class(b)] == Next(s, b)
  {
  }

  /** (0xff >> type) & byte. */
  function Masked(t: nat, b: Byte): nat {
    match t
    case 0 => b
    case 1 => b % 128
    case 2 => b % 64
    case 3 => b % 32
    case 4 => b % 16
    case 5 => b % 8
    case 6 => b % 4
    case 7 => b % 2
    case _ => 0
  }

  /** Wherever the byte is not rejected, the mask chosen by its class leaves the bits of the scalar value. */
  lemma MaskIsFirstBits(b: Byte)
    requires NextFirst(b) != REJECT
    ensures Masked(Class(b), b) == FirstBits(b)
  {
  }

  // ----- the code -----

  method TypeOf(byte: Byte) returns (t: nat)
    ensures t == Class(byte)
  {
    ClassOf(byte);
    t := Table(byte);
  }

  method Advance(state: State, t: nat, ghost byte: Byte) returns (state': State)
    requires t == Class(byte)
    ensures state' == Next(state, byte)
  {
    TableIsGrammar(state, byte);
    state' := Table(256 + state * 16 + t);
  }

  /** decode, for the state and codepoint it is given pointers to. */
  method Decode(state: State, codepoint: Word, byte: Byte) returns (state': State, codepoint': Word)
    ensures state' == Next(state, byte)
    ensures state' != REJECT ==> Decoder(state', codepoint') == Step(Decoder(state, codepoint), byte)
  {
    var t := TypeOf(byte);
    if state != ACCEPT {
      codepoint' := (codepoint * 64) % 0x1_0000_0000 + byte % 64;
      ShiftIn(codepoint, byte);
    } else {
      codepoint' := Masked(t, byte);
    }
    state' := Advance(state, t, byte);
    if state == ACCEPT && state' != REJECT {
      MaskIsFirstBits(byte);
    }
  }

  lemma ShiftIn(x: Word, b: Byte)
    ensures (x * 64) % 0x1_0000_0000 + b % 64 == Join(x, b) % 0x1_0000_0000
  {
    var y := x * 64;
    assert y % 64 == 0;
    assert (y % 0x1_0000_0000) % 64 == 0;
  }

  class Validator {
    var state: State
    var codepoint: Word

    ghost function Value(): Decoder
      reads this
    {
      if state == REJECT then REJECTED else Decoder(state, codepoint)
    }

    constructor ()
      ensures Value() == START
    {
      state, codepoint := ACCEPT, 0;
    }

    method Consume(byte: Byte) returns (ok: bool)
      modifies this
      ensures Value() == Step(old(Value()), byte)
      ensures ok <==> Value() != REJECTED
    {
      state, codepoint := Decode(state, codepoint, byte);
      ok := state != REJECT;
    }

    /** Stops at the first byte that is rejected. */
    method DecodeRange(s: seq<Byte>) returns (ok: bool)
      modifies this
      ensures Value() == Final(old(Value()), s)
      ensures ok <==> s == [] || Value() != REJECTED
    {
      var i := 0;
      while i < |s|
        invariant 0 <= i <= |s|
        invariant Final(Value(), s[i..]) == Final(old(Value()), s)
        invariant i > 0 ==> Value() != REJECTED
      {
        state, codepoint := Decode(state, codepoint, s[i]);
        assert s[i..][0] == s[i] && s[i..][1..] == s[i + 1..];
        if state == REJECT {
          RejectAbsorbs(s[i + 1..]);
          return false;
        }
        i := i + 1;
      }
      return true;
    }

    method Complete() returns (ok: bool)
      ensures ok <==> Value().state == ACCEPT
    {
      ok := state == ACCEPT;
    }

    method Reset()
      modifies this
      ensures Value() == START
    {
      state, codepoint := ACCEPT, 0;
    }
  }

  /** validate: the verdict is the grammar's. */
  method Validate(s: seq<Byte>) returns (ok: bool)
    ensures ok <==> WellFormed(s)
  {
    AcceptsExactly(s);
    var v := new Validator();
    var decoded := v.DecodeRange(s);
    if !decoded {
      return false;
    }
    ok := v.Complete();
  }

  // ----- reject is absorbing -----

  lemma {:induction false} RejectAbsorbs(s: seq<Byte>)
    ensures Final(REJECTED, s) == REJECTED && Points(REJECTED, s) == []
  {
    if s != [] {
      RejectAbsorbs(s[1..]);
    }
  }

  // ----- what is encoded is accepted -----

  lemma Walk(d: Decoder, b: Byte, rest: seq<Byte>)
    ensures Final(d, [b] + rest) == Final(Step(d, b), rest)
    ensures Points(d, [b] + rest)
         == (if Step(d, b).state == ACCEPT then [Step(d, b).codepoint] else []) + Points(Step(d, b), rest)
  {
    assert ([b] + rest)[1..] == rest;
  }

  /** The steps over one character: accepting at its end, with its scalar value. */
  function Over(d: Decoder, c: seq<Byte>): Decoder
    requires 1 <= |c| <= 4
  {
    var d1 := Step(d, c[0]);
    if |c| == 1 then d1
    else
      var d2 := Step(d1, c[1]);
      if |c| == 2 then d2
      else if |c| == 3 then Step(d2, c[2])
      else Step(Step(d2, c[2]), c[3])
  }

  lemma StepFirst(d: Decoder, c: seq<Byte>)
    requires d.state == ACCEPT && IsChar(c)
    ensures Step(d, c[0]) == Decoder(NextFirst(c[0]), FirstBits(c[0]))
    ensures NextFirst(c[0]) == ACCEPT <==> |c| == 1
    ensures |c| > 1 ==> var m := Middle(NextFirst(c[0]));
                        m.0 <= c[1] <= m.1 && m.2 == [ACCEPT, ONE_TAIL, TWO_TAILS][|c| - 2]
  {
  }

  lemma StepMiddle(d: Decoder, b: Byte)
    requires d.state != ACCEPT && d.codepoint < 0x10000
    requires var m := Middle(d.state); m.0 <= b <= m.1
    ensures Step(d, b) == Decoder(Middle(d.state).2, Join(d.codepoint, b))
  {
  }

  lemma OverIsValue(d: Decoder, c: seq<Byte>)
    requires d.state == ACCEPT && IsChar(c)
    ensures Value(c) < 0x110000 && Over(d, c) == Decoder(ACCEPT, Value(c))
    ensures |c| > 1 ==> Step(d, c[0]).state != ACCEPT
    ensures |c| > 2 ==> Step(Step(d, c[0]), c[1]).state != ACCEPT
    ensures |c| > 3 ==> Step(Step(Step(d, c[0]), c[1]), c[2]).state != ACCEPT
  {
    CharIsEncoding(c);
    StepFirst(d, c);
    if |c| > 1 {
      var d1 := Step(d, c[0]);
      StepMiddle(d1, c[1]);
      if |c| > 2 {
        var d2 := Step(d1, c[1]);
        StepMiddle(d2, c[2]);
        if |c| > 3 {
          StepMiddle(Step(d2, c[2]), c[3]);
        }
      }
    }
  }

  /** No step before the last one over a string of bytes returns to accept. */
  predicate AcceptsLate(d: Decoder, c: seq<Byte>) {
    && (|c| > 1 ==> Step(d, c[0]).state != ACCEPT)
    && (|c| > 2 ==> Step(Step(d, c[0]), c[1]).state != ACCEPT)
    && (|c| > 3 ==> Step(Step(Step(d, c[0]), c[1]), c[2]).state != ACCEPT)
  }

  lemma OverRest(d: Decoder, c: seq<Byte>)
    requires 2 <= |c| <= 4 && AcceptsLate(d, c)
    ensures var d1 := Step(d, c[0]);
            d1.state != ACCEPT && AcceptsLate(d1, c[1..]) && Over(d1, c[1..]) == Over(d, c)
  {
  }

  /** The steps over a string of bytes return to accept once, at its end, with e. */
  predicate Leads(d: Decoder, c: seq<Byte>, e: Decoder)
    decreases |c|
  {
    && c != []
    && var d1 := Step(d, c[0]);
       if |c| == 1 then d1 == e && e.state == ACCEPT else d1.state != ACCEPT && Leads(d1, c[1..], e)
  }

  lemma {:induction false} OverLeads(d: Decoder, c: seq<Byte>)
    requires 1 <= |c| <= 4 && AcceptsLate(d, c) && Over(d, c).state == ACCEPT
    ensures Leads(d, c, Over(d, c))
    decreases |c|
  {
    if |c| > 1 {
      OverRest(d, c);
      OverLeads(Step(d, c[0]), c[1..]);
    }
  }

  lemma {:induction false} WalkAlong(d: Decoder, c: seq<Byte>, e: Decoder, rest: seq<Byte>)
    requires Leads(d, c, e)
    ensures Final(d, c + rest) == Final(e, rest) && Points(d, c + rest) == [e.codepoint] + Points(e, rest)
    decreases |c|
  {
    Walk(d, c[0], c[1..] + rest);
    assert c + rest == [c[0]] + (c[1..] + rest);
    if |c| == 1 {
      assert c[1..] + rest == rest;
    } else {
      WalkAlong(Step(d, c[0]), c[1..], e, rest);
    }
  }

  /** The steps over one character return to accept once, at its end, with its scalar value. */
  lemma CharWalk(d: Decoder, c: seq<Byte>, rest: seq<Byte>)
    requires d.state == ACCEPT && IsChar(c)
    ensures Value(c) < 0x110000
    ensures Final(d, c + rest) == Final(Decoder(ACCEPT, Value(c)), rest)
    ensures Points(d, c + rest) == [Value(c)] + Points(Decoder(ACCEPT, Value(c)), rest)
  {
    OverIsValue(d, c);
    OverLeads(d, c);
    WalkAlong(d, c, Over(d, c), rest);
  }

  lemma ScalarWalk(d: Decoder, x: nat, rest: seq<Byte>)
    requires d.state == ACCEPT && Scalar(x)
    ensures Final(d, Encode(x) + rest) == Final(Decoder(ACCEPT, x), rest)
    ensures Points(d, Encode(x) + rest) == [x] + Points(Decoder(ACCEPT, x), rest)
  {
    EncodingIsChar(x);
    CharWalk(d, Encode(x), rest);
  }

  /** Every sequence of scalar values is read back from its encoding. */
  lemma {:induction false} EncodedIsAccepted(d: Decoder, xs: Scalars)
    requires d.state == ACCEPT
    ensures Final(d, EncodeAll(xs)).state == ACCEPT && Points(d, EncodeAll(xs)) == xs
    decreases |xs|
  {
    if xs != [] {
      ScalarWalk(d, xs[0], EncodeAll(xs[1..]));
      EncodedIsAccepted(Decoder(ACCEPT, xs[0]), xs[1..]);
      assert [xs[0]] + xs[1..] == xs;
    }
  }

  // ----- what is accepted is encoded -----

  /** From the middle of a character there is a byte to come, and it is not rejected. */
  lemma NotYet(d: Decoder, s: seq<Byte>)
    requires d.state != ACCEPT && Final(d, s).state == ACCEPT
    ensures s != [] && Step(d, s[0]).state != REJECT && Final(Step(d, s[0]), s[1..]).state == ACCEPT
  {
    RejectAbsorbs(s[1..]);
  }

  /** An accepted string begins with a character. */
  lemma FirstChar(d: Decoder, s: seq<Byte>) returns (n: nat)
    requires d.state == ACCEPT && s != [] && Final(d, s).state == ACCEPT
    ensures 1 <= n <= |s| && IsChar(s[..n])
  {
    RejectAbsorbs(s[1..]);
    var d1 := Step(d, s[0]);
    n := 1;
    if d1.state != ACCEPT {
      NotYet(d1, s[1..]);
      assert s[1..][0] == s[1] && s[1..][1..] == s[2..];
      var d2 := Step(d1, s[1]);
      n := 2;
      if d2.state != ACCEPT {
        NotYet(d2, s[2..]);
        assert s[2..][0] == s[2] && s[2..][1..] == s[3..];
        var d3 := Step(d2, s[2]);
        n := 3;
        if d3.state != ACCEPT {
          NotYet(d3, s[3..]);
          assert s[3..][0] == s[3];
          n := 4;
        }
      }
    }
  }

  /** An accepted string is the encoding of the codepoints at the returns to accept, which are scalar values. */
  lemma {:induction false} AcceptedIsEncoded(d: Decoder, s: seq<Byte>)
    requires d.state == ACCEPT && Final(d, s).state == ACCEPT
    ensures forall i :: 0 <= i < |Points(d, s)| ==> Scalar(Points(d, s)[i])
    ensures EncodeAll(Points(d, s)) == s
    ensures WellFormed(s)
    decreases |s|
  {
    if s != [] {
      var n := FirstChar(d, s);
      var c, rest := s[..n], s[n..];
      assert s == c + rest;
      CharIsEncoding(c);
      CharWalk(d, c, rest);
      AcceptedIsEncoded(Decoder(ACCEPT, Value(c)), rest);
      assert Points(d, s)[1..] == Points(Decoder(ACCEPT, Value(c)), rest);
    }
  }

  lemma {:induction false} WellFormedIsAccepted(d: Decoder, s: seq<Byte>)
    requires d.state == ACCEPT && WellFormed(s)
    ensures Final(d, s).state == ACCEPT
    decreases |s|
  {
    if s != [] {
      var n :| 1 <= n <= |s| && IsChar(s[..n]) && WellFormed(s[n..]);
      assert s == s[..n] + s[n..];
      CharWalk(d, s[..n], s[n..]);
      WellFormedIsAccepted(Decoder(ACCEPT, Value(s[..n])), s[n..]);
    }
  }

  /** The automaton accepts the language of the grammar and no other string. */
  lemma AcceptsExactly(s: seq<Byte>)
    ensures Final(START, s).state == ACCEPT <==> WellFormed(s)
  {
    if Final(START, s).state == ACCEPT {
      AcceptedIsEncoded(START, s);
    }
    if WellFormed(s) {
      WellFormedIsAccepted(START, s);
    }
  }

  lemma {:induction false} LastPoint(d: Decoder, s: seq<Byte>)
    requires s != [] && Final(d, s).state == ACCEPT
    ensures Points(d, s) != [] && Points(d, s)[|Points(d, s)| - 1] == Final(d, s).codepoint
    decreases |s|
  {
    var d' := Step(d, s[0]);
    if s[1..] != [] {
      LastPoint(d', s[1..]);
    }
  }

  /** At every return to accept the codepoint is the scalar value of the character just read. */
  lemma CodepointAtAccept(s: seq<Byte>) returns (before: Scalars)
    requires s != [] && Final(START, s).state == ACCEPT
    ensures Scalar(Final(START, s).codepoint)
    ensures s == EncodeAll(before) + Encode(Final(START, s).codepoint)
  {
    AcceptedIsEncoded(START, s);
    LastPoint(START, s);
    var p: Scalars := Points(START, s);
    before := p[..|p| - 1];
    EncodeLast(p);
  }

  lemma {:induction false} EncodeLast(xs: Scalars)
    requires xs != []
    ensures EncodeAll(xs) == EncodeAll(xs[..|xs| - 1]) + Encode(xs[|xs| - 1])
  {
    if |xs| > 1 {
      EncodeLast(xs[1..]);
      assert xs[..|xs| - 1][1..] == xs[1..][..|xs| - 2];
    }
  }

  // ----- chunks -----

  function Flatten(chunks: seq<seq<Byte>>): seq<Byte> {
    if chunks == [] then [] else chunks[0] + Flatten(chunks[1..])
  }

  function Feed(d: Decoder, chunks: seq<seq<Byte>>): Decoder
    decreases |chunks|
  {
    if chunks == [] then d else Feed(Final(d, chunks[0]), chunks[1..])
  }

  /** Every call for a chunk says that its bytes decode. */
  predicate AllDecode(d: Decoder, chunks: seq<seq<Byte>>)
    decreases |chunks|
  {
    chunks == []
    || ((chunks[0] == [] || Final(d, chunks[0]) != REJECTED) && AllDecode(Final(d, chunks[0]), chunks[1..]))
  }

  lemma {:induction false} FinalAppend(d: Decoder, s: seq<Byte>, t: seq<Byte>)
    ensures Final(d, s + t) == Final(Final(d, s), t)
    decreases |s|
  {
    if s == [] {
      assert s + t == t;
    } else {
      assert (s + t)[1..] == s[1..] + t;
      FinalAppend(Step(d, s[0]), s[1..], t);
    }
  }

  lemma {:induction false} FeedIsFinal(d: Decoder, chunks: seq<seq<Byte>>)
    ensures Feed(d, chunks) == Final(d, Flatten(chunks))
    ensures d != REJECTED ==> (AllDecode(d, chunks) <==> Final(d, Flatten(chunks)) != REJECTED)
    decreases |chunks|
  {
    if chunks != [] {
      FinalAppend(d, chunks[0], Flatten(chunks[1..]));
      FeedIsFinal(Final(d, chunks[0]), chunks[1..]);
      RejectAbsorbs(Flatten(chunks[1..]));
    }
  }

  /** However a message is cut, every call succeeds and the last state is complete exactly if it is well-formed. */
  lemma ChunksDoNotMatter(chunks: seq<seq<Byte>>)
    ensures AllDecode(START, chunks) && Feed(START, chunks).state == ACCEPT <==> WellFormed(Flatten(chunks))
  {
    FeedIsFinal(START, chunks);
    AcceptsExactly(Flatten(chunks));
  }

  // ----- the examples of RFC 3629 -----

  /** The sequences of section 7, the last without its byte order mark; and the ends of the ranges in section 3. */
  lemma Examples()
    ensures EncodeAll([0x41, 0x2262]) == [0x41, 0xE2, 0x89, 0xA2] && EncodeAll([0x391, 0x2E]) == [0xCE, 0x91, 0x2E]
    ensures Encode(0xD55C) == [0xED, 0x95, 0x9C] && Encode(0x65E5) == [0xE6, 0x97, 0xA5]
    ensures Encode(0x233B4) == [0xF0, 0xA3, 0x8E, 0xB4]
    ensures Encode(0x7F) == [0x7F] && Encode(0x80) == [0xC2, 0x80] && Encode(0x7FF) == [0xDF, 0xBF]
    ensures Encode(0x800) == [0xE0, 0xA0, 0x80] && Encode(0xFFFF) == [0xEF, 0xBF, 0xBF]
    ensures Encode(0x10000) == [0xF0, 0x90, 0x80, 0x80] && Encode(0x10FFFF) == [0xF4, 0x8F, 0xBF, 0xBF]
  {
    assert [0x41, 0x2262][1..] == [0x2262] && [0x391, 0x2E][1..] == [0x2E];
    assert EncodeAll([0x2262]) == Encode(0x2262) + EncodeAll([0x2262][1..]);
    assert EncodeAll([0x2E]) == Encode(0x2E) + EncodeAll([0x2E][1..]);
  }

  /** Overlong forms, surrogates and what is above the range are no characters, as section 10 demands. */
  lemma NotCharacters(b: Byte, c: Byte)
    ensures !IsChar([0xC0, b]) && !IsChar([0xC1, b]) && (b < 0xA0 ==> !IsChar([0xE0, b, c]))
    ensures b >= 0xA0 ==> !IsChar([0xED, b, c])
    ensures b > 0x8F ==> forall d: Byte :: !IsChar([0xF4, b, c, d])
    ensures b < 0x90 ==> forall d: Byte :: !IsChar([0xF0, b, c, d])
  {
  }
}
