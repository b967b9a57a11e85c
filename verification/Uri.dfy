/** The URI class: parsing, printing, and when printing can be parsed back. */
module Uri {

  datatype Option<T> = None | Some(value: T)

  /** What a valid URI holds. */
  datatype Parts = Parts(scheme: string, secure: bool, host: string, port: nat, resource: string)

  function DefaultPort(secure: bool): nat {
    if secure then 443 else 80
  }

  // ----- strings -----

  /** Where the first of some characters is, or the length. */
  function Until(s: string, stops: set<char>): (n: nat)
    ensures n <= |s| && (forall i :: 0 <= i < n ==> s[i] !in stops)
    ensures n < |s| ==> s[n] in stops
  {
    if s == "" || s[0] in stops then 0 else 1 + Until(s[1..], stops)
  }

  lemma {:induction false} UntilIs(s: string, stops: set<char>, n: nat)
    requires n <= |s| && (forall i :: 0 <= i < n ==> s[i] !in stops) && (n < |s| ==> s[n] in stops)
    ensures Until(s, stops) == n
  {
    if n > 0 {
      UntilIs(s[1..], stops, n - 1);
    }
  }

  // ----- numbers: atoi, as the C library for 64-bit Linux does it -----

  predicate IsDigit(c: char) {
    '0' <= c <= '9'
  }

  predicate AllDigits(s: string) {
    forall i :: 0 <= i < |s| ==> IsDigit(s[i])
  }

  /** The number the leading digits make, after those that made acc. */
  function Leading(acc: nat, s: string): nat
    decreases |s|
  {
    if s == "" || !IsDigit(s[0]) then acc else Leading(acc * 10 + (s[0] as int - '0' as int), s[1..])
  }

  function SkipSpaces(s: string): string {
    if s != "" && s[0] in {' ', '\t', '\n', '\U{0B}', '\U{0C}', '\r'} then SkipSpaces(s[1..]) else s
  }

  const LONG_MAX: int := 0x7fff_ffff_ffff_ffff

  /** strtol, which stays within a long. */
  function Strtol(s: string): int {
    var t := SkipSpaces(s);
    if t != "" && t[0] == '-' then
      var n := 0 - Leading(0, t[1..]) as int;
      if n < -LONG_MAX - 1 then -LONG_MAX - 1 else n
    else
      var n := Leading(0, if t != "" && t[0] == '+' then t[1..] else t);
      if n > LONG_MAX then LONG_MAX else n
  }

  /** static_cast<unsigned int>(atoi(s.c_str())). */
  function AtoiUnsigned(s: string): (n: nat)
    ensures n < 0x1_0000_0000
  {
    Strtol(s[..Until(s, {'\0'})]) % 0x1_0000_0000
  }

  /** get_port_from_string: no port is the default; 0, and what does not fit, is an error. */
  function PortOf(secure: bool, text: string): Option<nat> {
    if text == "" then Some(DefaultPort(secure))
    else
      var n := AtoiUnsigned(text);
      if n > 65535 || n == 0 then None else Some(n)
  }

  /** A number in decimal. */
  function Decimal(n: nat): (s: string)
    ensures s != "" && AllDigits(s)
  {
    (if n < 10 then "" else Decimal(n / 10)) + [('0' as int + n % 10) as char]
  }

  // ----- parsing, as a whole -----

  /** What a string starts with; there has to be more. */
  predicate Starts(s: string, prefix: string) {
    |s| > |prefix| && s[..|prefix|] == prefix
  }

  datatype Scheme = Scheme(name: string, secure: bool, length: nat)

  function SchemeOf(s: string): (r: Option<Scheme>)
    ensures r.Some? ==> r.value.length < |s|
  {
    if Starts(s, "wss://") then Some(Scheme("wss", true, 6))
    else if Starts(s, "ws://") then Some(Scheme("ws", false, 5))
    else if Starts(s, "http://") then Some(Scheme("http", false, 7))
    else if Starts(s, "https://") then Some(Scheme("https", true, 8))
    else None
  }

  /** The text of a port, and what there is of the resource after its slash. */
  datatype Tail = Tail(port: string, rest: string)

  function UpToSlash(s: string): Tail {
    var n := Until(s, {'/'});
    Tail(s[..n], if n < |s| then s[n + 1..] else "")
  }

  /** What may follow a host: nothing, a resource, or a port and perhaps a resource. */
  function AfterHost(s: string): Option<Tail> {
    if s == "" then Some(Tail("", ""))
    else if s[0] == '/' then Some(Tail("", s[1..]))
    else if s[0] == ':' then Some(UpToSlash(s[1..]))
    else None
  }

  datatype Authority = Authority(host: string, after: string)

  /** A host in brackets, or up to a colon or slash. */
  function HostOf(s: string): Option<Authority> {
    if s != "" && s[0] == '[' then
      var n := Until(s[1..], {']'});
      if n == |s[1..]| then None else Some(Authority(s[1..][..n], s[1..][n + 1..]))
    else
      var n := Until(s, {':', '/'});
      Some(Authority(s[..n], s[n..]))
  }

  function Parse(s: string): Option<Parts> {
    var scheme := SchemeOf(s);
    if scheme.None? then None
    else
      var a := HostOf(s[scheme.value.length..]);
      if a.None? then None
      else
        var tail := AfterHost(a.value.after);
        if tail.None? then None
        else
          var port := PortOf(scheme.value.secure, tail.value.port);
          if port.None? then None
          else Some(Parts(scheme.value.name, scheme.value.secure, a.value.host, port.value, "/" + tail.value.rest))
  }

  // ----- printing -----

  function PortSuffix(u: Parts): string {
    if u.port != DefaultPort(u.secure) then ":" + Decimal(u.port) else ""
  }

  function Str(u: Parts): string {
    u.scheme + "://" + u.host + PortSuffix(u) + u.resource
  }

  function GetQuery(resource: string): string {
    var n := Until(resource, {'?'});
    if n < |resource| then resource[n + 1..] else ""
  }

  // ----- the class -----

  class UriObject {
    var scheme: string
    var host: string
    var resource: string
    var port: nat
    var secure: bool
    var valid: bool

    ghost function View(): Parts
      reads this
    {
      Parts(scheme, secure, host, port, resource)
    }

    constructor (s: string)
      ensures valid <==> Parse(s).Some?
      ensures valid ==> View() == Parse(s).value
    {
      scheme, host, resource, port, secure, valid := "", "", "", 0, false, false;
      new;
      Load(s);
    }

    method Load(s: string)
      requires !valid && host == ""
      modifies this
      ensures valid <==> Parse(s).Some?
      ensures valid ==> View() == Parse(s).value
    {
      var it, ok := ReadScheme(s);
      if !ok {
        return;
      }
      var text;
      it, text, ok := ReadAuthority(s, it);
      if !ok {
        return;
      }
      var p := PortOf(secure, text);
      if p.None? {
        return;
      }
      port := p.value;
      resource := "/" + s[it..];
      valid := true;
    }

    /** Host and port, up to what comes after the first slash. */
    method ReadAuthority(s: string, start: nat) returns (it: nat, text: string, ok: bool)
      requires start < |s| && host == ""
      modifies this`host
      ensures var a := HostOf(s[start..]);
              && (ok <==> a.Some? && AfterHost(a.value.after).Some?)
              && (ok ==> host == a.value.host && it <= |s| && AfterHost(a.value.after) == Some(Tail(text, s[it..])))
    {
      var state;
      it, text, ok := start, "", true;
      if s[it] == '[' {
        it, state, ok := ReadBracketed(s, it + 1);
        if !ok {
          return;
        }
      } else {
        it, state := ReadName(s, it);
      }
      it, text := ReadPort(s, it, state);
    }

    method ReadScheme(s: string) returns (it: nat, ok: bool)
      modifies this`scheme, this`secure
      ensures ok <==> SchemeOf(s).Some?
      ensures ok ==> it < |s| && SchemeOf(s) == Some(Scheme(scheme, secure, it))
    {
      it, ok := 0, true;
      if |s| >= 7 && s[..6] == "wss://" {
        scheme, secure, it := "wss", true, 6;
      } else if |s| >= 6 && s[..5] == "ws://" {
        scheme, secure, it := "ws", false, 5;
      } else if |s| >= 8 && s[..7] == "http://" {
        scheme, secure, it := "http", false, 7;
      } else if |s| >= 9 && s[..8] == "https://" {
        scheme, secure, it := "https", true, 8;
      } else {
        ok := false;
      }
    }

    /** std::find for the closing bracket. */
    method FindBracket(s: string, start: nat) returns (temp: nat)
      requires start <= |s|
      ensures temp == start + Until(s[start..], {']'}) && temp <= |s|
    {
      temp := start;
      while temp != |s|
        invariant start <= temp <= |s| && forall i :: start <= i < temp ==> s[i] != ']'
      {
        if s[temp] == ']' {
          break;
        }
        temp := temp + 1;
      }
      UntilIs(s[start..], {']'}, temp - start);
    }

    /** After an opening bracket. State 2 is the resource, state 1 a port. */
    method ReadBracketed(s: string, start: nat) returns (it: nat, state: nat, ok: bool)
      requires 1 <= start <= |s| && s[start - 1] == '[' && host == ""
      modifies this`host
      ensures var a := HostOf(s[start - 1..]);
              && (ok <==> a.Some? && AfterHost(a.value.after).Some?)
              && (ok ==> host == a.value.host && Left(a.value.after, s, it, state))
    {
      var temp := FindBracket(s, start);
      it, state, ok := start, 0, false;
      BracketedHost(s, start, temp);
      if temp == |s| {
        return;
      }
      host := host + s[start..temp];
      it := temp + 1;
      if it == |s| {
        state, ok := 2, true;
      } else if s[it] == '/' {
        state, ok, it := 2, true, it + 1;
      } else if s[it] == ':' {
        state, ok, it := 1, true, it + 1;
      }
    }

    method ReadName(s: string, start: nat) returns (it: nat, state: nat)
      requires start < |s| && s[start] != '[' && host == ""
      modifies this`host
      ensures var a := HostOf(s[start..]);
              a.Some? && host == a.value.host && Left(a.value.after, s, it, state)
    {
      it, state := start, 0;
      ghost var end := start;
      while state == 0
        invariant start <= end <= |s| && host == s[start..end]
        invariant forall i :: start <= i < end ==> s[i] !in {':', '/'}
        invariant state == 0 ==> it == end
        invariant state != 0 ==> Left(s[end..], s, it, state) && (end < |s| ==> s[end] in {':', '/'})
        decreases if state == 0 then 1 + |s| - it else 0
      {
        if it == |s| {
          state := 2;
          break;
        } else if s[it] == '/' {
          state := 2;
        } else if s[it] == ':' {
          state := 1;
        } else {
          host := host + [s[it]];
          end := end + 1;
        }
        it := it + 1;
      }
      NameEnd(s, start, end);
    }

    method ReadPort(s: string, start: nat, entry: nat) returns (it: nat, text: string)
      requires start <= |s| && (entry == 1 || entry == 2)
      ensures it <= |s|
      ensures entry == 2 ==> it == start && text == ""
      ensures entry == 1 ==> Tail(text, s[it..]) == UpToSlash(s[start..])
    {
      var state := entry;
      it, text := start, "";
      while state == 1
        invariant start <= it <= |s|
        invariant state == 1 ==> text == s[start..it] && forall i :: start <= i < it ==> s[i] != '/'
        invariant state == 2 ==> it == start && text == ""
        invariant entry == 1 ==> state == 1 || (state == 3 && Tail(text, s[it..]) == UpToSlash(s[start..]))
        invariant entry == 2 ==> state == 2
        decreases if state == 1 then 1 + |s| - it else 0
      {
        if it == |s| {
          SlashAt(s, start, it);
          break;
        } else if s[it] == '/' {
          SlashAt(s, start, it);
          state := 3;
        } else {
          text := text + [s[it]];
        }
        it := it + 1;
      }
    }
  }

  lemma BracketedHost(s: string, start: nat, temp: nat)
    requires 1 <= start <= |s| && s[start - 1] == '[' && temp == start + Until(s[start..], {']'})
    ensures HostOf(s[start - 1..]) == if temp == |s| then None else Some(Authority(s[start..temp], s[temp + 1..]))
  {
    var t := s[start - 1..];
    assert t[1..] == s[start..];
    if temp < |s| {
      assert s[start..][..temp - start] == s[start..temp] && s[start..][temp - start + 1..] == s[temp + 1..];
    }
  }

  lemma SlashAt(s: string, start: nat, it: nat)
    requires start <= it <= |s| && (forall i :: start <= i < it ==> s[i] != '/') && (it < |s| ==> s[it] == '/')
    ensures UpToSlash(s[start..]) == Tail(s[start..it], if it < |s| then s[it + 1..] else "")
  {
    var t, n := s[start..], it - start;
    UntilIs(t, {'/'}, n);
    assert t[..n] == s[start..it];
    if it < |s| {
      assert t[n + 1..] == s[it + 1..];
    }
  }

  lemma NameEnd(s: string, start: nat, end: nat)
    requires start <= end <= |s| && start < |s| && s[start] != '['
    requires forall i :: start <= i < end ==> s[i] !in {':', '/'}
    requires end < |s| ==> s[end] in {':', '/'}
    ensures HostOf(s[start..]) == Some(Authority(s[start..end], s[end..]))
  {
    UntilIs(s[start..], {':', '/'}, end - start);
    assert s[start..][end - start..] == s[end..];
    assert s[start..][..end - start] == s[start..end];
  }

  /** Where the reader is, with this after the host. */
  ghost predicate Left(after: string, s: string, it: nat, state: nat) {
    && it <= |s| && (state == 1 || state == 2)
    && (state == 2 ==> AfterHost(after) == Some(Tail("", s[it..])))
    && (state == 1 ==> after != "" && after[0] == ':' && s[it..] == after[1..])
  }

  // ----- ports -----

  lemma {:induction false} LeadingAppend(acc: nat, s: string, c: char)
    requires AllDigits(s) && IsDigit(c)
    ensures Leading(acc, s + [c]) == Leading(acc, s) * 10 + (c as int - '0' as int)
    decreases |s|
  {
    if s == "" {
      assert Leading(acc, [c]) == Leading(acc * 10 + (c as int - '0' as int), [c][1..]);
    } else {
      assert (s + [c])[1..] == s[1..] + [c];
      LeadingAppend(acc * 10 + (s[0] as int - '0' as int), s[1..], c);
    }
  }

  lemma {:induction false} DecimalBack(n: nat)
    ensures Leading(0, Decimal(n)) == n
  {
    var c := ('0' as int + n % 10) as char;
    if n < 10 {
      LeadingAppend(0, "", c);
      assert "" + [c] == [c];
    } else {
      DecimalBack(n / 10);
      LeadingAppend(0, Decimal(n / 10), c);
    }
  }

  /** Digits alone are read as the number they make, if that is less than 2^32. */
  lemma AtoiDigits(text: string)
    requires text != "" && AllDigits(text)
    ensures var v := Leading(0, text);
            AtoiUnsigned(text) == (if v > LONG_MAX then LONG_MAX else v) % 0x1_0000_0000
  {
    UntilIs(text, {'\0'}, |text|);
    assert text[..|text|] == text;
  }

  /** A port in digits is taken as the number it makes exactly if that is a port. */
  lemma DigitsPort(secure: bool, text: string)
    requires text != "" && AllDigits(text)
    ensures PortOf(secure, text) == Some(Leading(0, text)) <==> 1 <= Leading(0, text) <= 65535
  {
    AtoiDigits(text);
  }

  /** Of the numbers that are no port, those from 2^32 to the largest long whose last 32 bits make one are taken for it. */
  lemma DigitsOtherPort(secure: bool, text: string)
    requires text != "" && AllDigits(text) && !(1 <= Leading(0, text) <= 65535)
    ensures var v := Leading(0, text);
            PortOf(secure, text).Some? <==> v <= LONG_MAX && 1 <= v % 0x1_0000_0000 <= 65535
  {
    AtoiDigits(text);
  }

  lemma PortBack(secure: bool, n: nat)
    requires 1 <= n <= 65535
    ensures PortOf(secure, Decimal(n)) == Some(n)
  {
    DecimalBack(n);
    DigitsPort(secure, Decimal(n));
  }

  // ----- printing and parsing again -----

  /** A host that needs no brackets. */
  predicate Plain(host: string) {
    (forall i :: 0 <= i < |host| ==> host[i] !in {':', '/'}) && (host != "" ==> host[0] != '[')
  }

  predicate Known(scheme: string, secure: bool) {
    || (scheme == "wss" && secure) || (scheme == "ws" && !secure)
    || (scheme == "http" && !secure) || (scheme == "https" && secure)
  }

  /** What every parse keeps to, whatever the host. */
  predicate Sound(u: Parts) {
    && Known(u.scheme, u.secure) && 1 <= u.port <= 65535 && u.resource != "" && u.resource[0] == '/'
  }

  lemma SchemeSound(s: string)
    ensures SchemeOf(s).Some? ==> Known(SchemeOf(s).value.name, SchemeOf(s).value.secure)
  {
  }

  lemma PortSound(secure: bool, text: string)
    ensures PortOf(secure, text).Some? ==> 1 <= PortOf(secure, text).value <= 65535
  {
  }

  lemma ParseIsSound(s: string)
    requires Parse(s).Some?
    ensures Sound(Parse(s).value)
  {
    SchemeSound(s);
    var scheme := SchemeOf(s).value;
    var tail := AfterHost(HostOf(s[scheme.length..]).value.after).value;
    PortSound(scheme.secure, tail.port);
  }

  lemma SchemeBack(u: Parts, rest: string)
    requires Known(u.scheme, u.secure) && rest != ""
    ensures var s := u.scheme + "://" + rest;
            SchemeOf(s) == Some(Scheme(u.scheme, u.secure, |u.scheme| + 3)) && s[|u.scheme| + 3..] == rest
  {
    var prefix := u.scheme + "://";
    var s := prefix + rest;
    assert s[..|prefix|] == prefix;
    if u.scheme == "ws" {
      assert prefix == "ws://" && s[0] == 'w' && s[1] == 's' && s[2] == ':';
      assert s[..5] == "ws://" && (|s| > 6 ==> s[..6][1] == 's' && s[..6][2] == ':');
    } else if u.scheme == "wss" {
      assert prefix == "wss://";
    } else if u.scheme == "http" {
      assert prefix == "http://" && s[..7] == "http://";
      assert s[..6][0] == 'h' && s[..5][0] == 'h';
    } else {
      assert prefix == "https://" && s[..8] == "https://";
      assert s[..6][0] == 'h' && s[..5][0] == 'h' && s[..7][4] == 's';
    }
  }

  lemma HostBack(host: string, after: string)
    requires Plain(host) && after != "" && after[0] in {':', '/'}
    ensures HostOf(host + after) == Some(Authority(host, after))
  {
    UntilIs(host + after, {':', '/'}, |host|);
  }

  /** A host is read back only if it is plain: the character after it would have to be a bracket. */
  lemma HostBackOnlyPlain(host: string, after: string)
    requires after != "" && after[0] in {':', '/'}
    requires HostOf(host + after).Some? && HostOf(host + after).value.host == host
    ensures Plain(host)
  {
    var s := host + after;
    if host != "" && host[0] == '[' {
      assert forall i :: 0 <= i < |host| ==> host[i] == s[1..][..|host|][i] == s[i + 1];
      Shifted(host, s, |host|);
    }
  }

  lemma {:induction false} Shifted(host: string, s: string, n: nat)
    requires n <= |host| < |s| && host <= s && host != "" && host[0] == '['
    requires forall i :: 0 <= i < |host| ==> host[i] == s[i + 1]
    ensures s[n] == '['
  {
    if n > 0 {
      Shifted(host, s, n - 1);
      assert host[n - 1] == s[n];
    }
  }

  lemma TailBack(u: Parts)
    requires Sound(u)
    ensures var after := PortSuffix(u) + u.resource;
            && after[0] in {':', '/'} && AfterHost(after).Some?
            && PortOf(u.secure, AfterHost(after).value.port) == Some(u.port)
            && "/" + AfterHost(after).value.rest == u.resource
  {
    if u.port == DefaultPort(u.secure) {
      assert PortSuffix(u) + u.resource == u.resource;
    } else {
      PortTailBack(Decimal(u.port), u.resource);
      PortBack(u.secure, u.port);
    }
  }

  lemma PortTailBack(text: string, resource: string)
    requires AllDigits(text) && resource != "" && resource[0] == '/'
    ensures AfterHost(":" + text + resource) == Some(Tail(text, resource[1..]))
  {
    var t := text + resource;
    assert (":" + text + resource)[1..] == t;
    UntilIs(t, {'/'}, |text|);
    assert t[..|text|] == text && t[|text| + 1..] == resource[1..];
  }

  lemma StrScheme(u: Parts)
    requires Sound(u)
    ensures var after := PortSuffix(u) + u.resource;
            SchemeOf(Str(u)) == Some(Scheme(u.scheme, u.secure, |u.scheme| + 3))
            && Str(u)[|u.scheme| + 3..] == u.host + after
  {
    SchemeBack(u, u.host + (PortSuffix(u) + u.resource));
    FiveParts(u.scheme, "://", u.host, PortSuffix(u), u.resource);
  }

  lemma FiveParts(a: string, b: string, c: string, d: string, e: string)
    ensures a + b + c + d + e == a + b + (c + (d + e))
  {
  }

  lemma PlainBack(u: Parts)
    requires Sound(u) && Plain(u.host)
    ensures Parse(Str(u)) == Some(u)
  {
    StrScheme(u);
    TailBack(u);
    HostBack(u.host, PortSuffix(u) + u.resource);
  }

  lemma BackOnlyPlain(u: Parts)
    requires Sound(u)
    ensures Parse(Str(u)) == Some(u) ==> Plain(u.host)
  {
    StrScheme(u);
    TailBack(u);
    if Parse(Str(u)) == Some(u) {
      HostBackOnlyPlain(u.host, PortSuffix(u) + u.resource);
    }
  }

  /** Printing and parsing again gives a URI back exactly if parsing could have made it and its host is plain. */
  lemma PrintParse(u: Parts)
    ensures Parse(Str(u)) == Some(u) <==> Sound(u) && Plain(u.host)
  {
    if Parse(Str(u)) == Some(u) {
      ParseIsSound(Str(u));
      BackOnlyPlain(u);
    } else if Sound(u) && Plain(u.host) {
      PlainBack(u);
    }
  }

  /** The authority is not in brackets. */
  predicate NoBracket(s: string) {
    SchemeOf(s).Some? && s[SchemeOf(s).value.length] != '['
  }

  lemma NoBracketIsPlain(s: string)
    requires NoBracket(s) && Parse(s).Some?
    ensures Plain(Parse(s).value.host)
  {
  }

  /** Whatever parses is stable under printing exactly if its host is plain, and always if it had no brackets. */
  lemma ReparseExact(s: string)
    requires Parse(s).Some?
    ensures var u := Parse(s).value;
            (Parse(Str(u)) == Some(u) <==> Plain(u.host)) && (NoBracket(s) ==> Parse(Str(u)) == Some(u))
  {
    ParseIsSound(s);
    PrintParse(Parse(s).value);
    if NoBracket(s) {
      NoBracketIsPlain(s);
    }
  }

  lemma HostInBrackets(address: string, after: string)
    requires ']' !in address
    ensures HostOf("[" + (address + ("]" + after))) == Some(Authority(address, after))
  {
    var t := address + ("]" + after);
    assert ("[" + t)[1..] == t;
    UntilIs(t, {']'}, |address|);
    assert t[..|address|] == address && t[|address| + 1..] == after;
  }

  lemma BracketedParses(address: string)
    requires ']' !in address
    ensures Parse("ws" + "://" + ("[" + (address + ("]" + "/")))) == Some(Parts("ws", false, address, 80, "/"))
  {
    HostInBrackets(address, "/");
    assert "/"[1..] == "" && "/" + "" == "/";
    ParseFrom("ws", "[" + (address + ("]" + "/")), address, "/", "", "");
    DefaultPorts();
  }

  /** An IPv6 address in brackets parses, but what is printed for it does not give it back. */
  lemma BracketsAreLost()
    ensures var p := Parse("ws" + "://" + ("[" + ("::1" + ("]" + "/"))));
            p.Some? && p.value.host == "::1" && Parse(Str(p.value)) != p
  {
    BracketedParses("::1");
    assert "::1"[0] == ':';
    PrintParse(Parts("ws", false, "::1", 80, "/"));
  }

  /** The query is what follows the first question mark. */
  lemma QueryExact(path: string, query: string)
    requires '?' !in path
    ensures GetQuery(path + "?" + query) == query && GetQuery(path) == ""
  {
    UntilIs(path + "?" + query, {'?'}, |path|);
    UntilIs(path, {'?'}, |path|);
  }

  // ----- addresses in their own terms -----

  predicate Secure(scheme: string) {
    scheme == "wss" || scheme == "https"
  }

  predicate SchemeName(scheme: string) {
    scheme == "ws" || scheme == "http" || Secure(scheme)
  }

  /** Without a port the secure schemes have 443, and the others 80. */
  lemma DefaultPorts()
    ensures PortOf(true, "") == Some(443) && PortOf(false, "") == Some(80)
  {
  }

  /** Of any string only these four schemes are known, each with something after it. */
  lemma SchemesKnown(s: string)
    ensures SchemeOf(s).Some? <==> Starts(s, "ws://") || Starts(s, "wss://") || Starts(s, "http://") || Starts(s, "https://")
    ensures SchemeOf(s).Some? ==>
              var name := SchemeOf(s).value.name;
              && SchemeName(name) && SchemeOf(s).value.secure == Secure(name)
              && Starts(s, name + "://") && SchemeOf(s).value.length == |name| + 3
  {
    assert "ws" + "://" == "ws://" && "wss" + "://" == "wss://";
    assert "http" + "://" == "http://" && "https" + "://" == "https://";
  }

  lemma SchemeThen(scheme: string, rest: string)
    requires SchemeName(scheme) && rest != ""
    ensures var s := scheme + "://" + rest;
            SchemeOf(s) == Some(Scheme(scheme, Secure(scheme), |scheme| + 3)) && s[|scheme| + 3..] == rest
  {
    SchemeBack(Parts(scheme, Secure(scheme), "", 0, ""), rest);
  }

  lemma ParseOf(scheme: string, host: string, after: string, port: string, path: string)
    requires SchemeName(scheme) && Plain(host) && after != "" && after[0] in {':', '/'}
    requires AfterHost(after) == Some(Tail(port, path))
    ensures Parse(scheme + "://" + (host + after))
         == match PortOf(Secure(scheme), port)
            case None => None
            case Some(n) => Some(Parts(scheme, Secure(scheme), host, n, "/" + path))
  {
    HostBack(host, after);
    ParseFrom(scheme, host + after, host, after, port, path);
  }

  lemma ParseFrom(scheme: string, rest: string, host: string, after: string, port: string, path: string)
    requires SchemeName(scheme) && rest != "" && HostOf(rest) == Some(Authority(host, after))
    requires AfterHost(after) == Some(Tail(port, path))
    ensures Parse(scheme + "://" + rest)
         == match PortOf(Secure(scheme), port)
            case None => None
            case Some(n) => Some(Parts(scheme, Secure(scheme), host, n, "/" + path))
  {
    SchemeThen(scheme, rest);
  }

  /** A host up to the slash has the scheme's port, and the rest is the resource. */
  lemma PlainAddress(scheme: string, host: string, path: string)
    requires SchemeName(scheme) && Plain(host)
    ensures Parse(scheme + "://" + (host + ("/" + path)))
         == Some(Parts(scheme, Secure(scheme), host, if Secure(scheme) then 443 else 80, "/" + path))
  {
    assert ("/" + path)[1..] == path;
    ParseOf(scheme, host, "/" + path, "", path);
    DefaultPorts();
  }

  /** With a port in digits, that is the port if it is one; else there is no URI, unless its last 32 bits make one. */
  lemma AddressWithPort(scheme: string, host: string, text: string, path: string)
    requires SchemeName(scheme) && Plain(host) && text != "" && AllDigits(text)
    ensures var p := Parse(scheme + "://" + (host + (":" + text + ("/" + path))));
            var v := Leading(0, text);
            && (1 <= v <= 65535 ==> p == Some(Parts(scheme, Secure(scheme), host, v, "/" + path)))
            && (!(1 <= v <= 65535) ==> (p.Some? <==> v <= LONG_MAX && 1 <= v % 0x1_0000_0000 <= 65535))
  {
    PortTailBack(text, "/" + path);
    assert ("/" + path)[1..] == path;
    ParseOf(scheme, host, ":" + text + ("/" + path), text, path);
    DigitsPort(Secure(scheme), text);
    if !(1 <= Leading(0, text) <= 65535) {
      DigitsOtherPort(Secure(scheme), text);
    }
  }

  /** With nothing after the host the resource is the root. */
  lemma AddressAlone(scheme: string, host: string)
    requires SchemeName(scheme) && Plain(host) && host != ""
    ensures Parse(scheme + "://" + host)
         == Some(Parts(scheme, Secure(scheme), host, if Secure(scheme) then 443 else 80, "/"))
  {
    UntilIs(host, {':', '/'}, |host|);
    assert host[..|host|] == host && host[|host|..] == "" && "/" + "" == "/";
    ParseFrom(scheme, host, host, "", "", "");
    DefaultPorts();
  }

  /** After a host in brackets comes nothing, a slash or a colon; and a bracket has to be closed. */
  lemma AfterBrackets(scheme: string, address: string, after: string)
    requires SchemeName(scheme) && ']' !in address
    ensures after != "" && after[0] != '/' && after[0] != ':' ==>
              Parse(scheme + "://" + ("[" + (address + ("]" + after)))).None?
    ensures Parse(scheme + "://" + ("[" + address)).None?
  {
    SchemeThen(scheme, "[" + (address + ("]" + after)));
    HostInBrackets(address, after);
    SchemeThen(scheme, "[" + address);
    assert ("[" + address)[1..] == address;
    UntilIs(address, {']'}, |address|);
  }

  // What is read as a number: spaces first, then a sign, then digits, up to anything else.

  function AtMost(v: nat, most: nat): nat {
    if v > most then most else v
  }

  lemma DigitsRead(digits: string, rest: string)
    requires digits != "" && AllDigits(digits) && (rest == "" || !IsDigit(rest[0]))
    ensures Strtol(digits + rest) == AtMost(Leading(0, digits), 0x7fff_ffff_ffff_ffff)
  {
    LeadingStops(0, digits, rest);
    assert (digits + rest)[0] == digits[0];
  }

  lemma PlusRead(digits: string, rest: string)
    requires AllDigits(digits) && (rest == "" || !IsDigit(rest[0]))
    ensures Strtol("+" + (digits + rest)) == AtMost(Leading(0, digits), 0x7fff_ffff_ffff_ffff)
  {
    LeadingStops(0, digits, rest);
    assert ("+" + (digits + rest))[1..] == digits + rest;
  }

  lemma MinusRead(digits: string, rest: string)
    requires AllDigits(digits) && (rest == "" || !IsDigit(rest[0]))
    ensures Strtol("-" + (digits + rest)) == 0 - AtMost(Leading(0, digits), 0x8000_0000_0000_0000)
  {
    LeadingStops(0, digits, rest);
    assert ("-" + (digits + rest))[1..] == digits + rest;
  }

  lemma NothingRead(s: string)
    requires s == "" || !(IsDigit(s[0]) || s[0] in {'+', '-', ' ', '\t', '\n', '\U{0B}', '\U{0C}', '\r'})
    ensures Strtol(s) == 0
  {
  }

  lemma SpacesSkipped(c: char, s: string)
    requires c in {' ', '\t', '\n', '\U{0B}', '\U{0C}', '\r'}
    ensures Strtol([c] + s) == Strtol(s)
  {
    assert ([c] + s)[1..] == s;
  }

  lemma {:induction false} LeadingStops(acc: nat, digits: string, rest: string)
    requires AllDigits(digits) && (rest == "" || !IsDigit(rest[0]))
    ensures Leading(acc, digits + rest) == Leading(acc, digits)
    decreases |digits|
  {
    if digits != "" {
      assert (digits + rest)[1..] == digits[1..] + rest;
      LeadingStops(acc * 10 + (digits[0] as int - '0' as int), digits[1..], rest);
    } else {
      assert digits + rest == rest;
    }
  }

  /** Ten is the base, and nothing the beginning. */
  lemma DigitByDigit(s: string, c: char)
    requires AllDigits(s) && IsDigit(c)
    ensures Leading(0, "") == 0 && Leading(0, s + [c]) == Leading(0, s) * 10 + (c as int - '0' as int)
  {
    LeadingAppend(0, s, c);
  }

  /** What is printed: the port only where it is not the scheme's own, in digits, without a zero at the front. */
  lemma Printed(u: Parts)
    ensures var own := if u.secure then 443 else 80;
            Str(u) == u.scheme + "://" + u.host + (if u.port == own then "" else ":" + Decimal(u.port)) + u.resource
    ensures Leading(0, Decimal(u.port)) == u.port && AllDigits(Decimal(u.port))
    ensures u.port > 0 ==> Decimal(u.port)[0] != '0'
  {
    DecimalBack(u.port);
    NoZeroAtFront(u.port);
  }

  lemma {:induction false} NoZeroAtFront(n: nat)
    ensures n > 0 ==> Decimal(n)[0] != '0'
  {
    if n >= 10 {
      NoZeroAtFront(n / 10);
    }
  }
}
