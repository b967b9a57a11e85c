/** Splitting strings: at a delimiter with find and erase, line by line with getline, and the query of a URI. */
module StringProc {

  datatype Option<T> = None | Some(value: T)

  // ----- splitting at a delimiter -----

  predicate At(s: string, d: string, i: nat) {
    i + |d| <= |s| && s[i..i + |d|] == d
  }

  predicate Contains(s: string, d: string) {
    exists i: nat :: i <= |s| && At(s, d, i)
  }

  /** The first place of d in s. */
  function Find(s: string, d: string): (r: Option<nat>)
    ensures r.Some? ==> r.value + |d| <= |s|
  {
    if At(s, d, 0) then Some(0)
    else if s == "" then None
    else
      var r := Find(s[1..], d);
      if r.None? then None else Some(r.value + 1)
  }

  lemma {:induction false} FindIsFirst(s: string, d: string)
    ensures Find(s, d).Some? ==> At(s, d, Find(s, d).value) && forall i: nat :: i < Find(s, d).value ==> !At(s, d, i)
    ensures Find(s, d).None? ==> forall i: nat :: !At(s, d, i)
  {
    if s != "" {
      FindIsFirst(s[1..], d);
      FindShift(s, d);
    }
  }

  lemma Regroup<T>(a: seq<T>, b: seq<T>, c: seq<T>, bc: seq<T>, abc: seq<T>)
    requires bc == b + c && abc == a + bc
    ensures abc == a + b + c
  {
  }

  lemma FindShift(s: string, d: string)
    requires s != ""
    ensures forall i: nat :: i > 0 ==> (At(s, d, i) <==> At(s[1..], d, i - 1))
  {
    forall i: nat | i > 0 ensures At(s, d, i) <==> At(s[1..], d, i - 1) {
      if i + |d| <= |s| {
        SliceShift(s, i, i + |d|);
      }
    }
  }

  lemma SliceShift(s: string, i: nat, j: nat)
    requires 1 <= i <= j <= |s|
    ensures s[i..j] == s[1..][i - 1..j - 1]
  {
    var t := s[1..][i - 1..j - 1];
    assert |t| == |s[i..j]|;
    assert forall k :: 0 <= k < |t| ==> t[k] == s[1..][i - 1 + k] == s[i + k] == s[i..j][k];
  }

  /** The parts between the places of d, from the left. */
  function Parts(s: string, d: string): (parts: seq<string>)
    requires d != ""
    ensures parts != []
    decreases |s|
  {
    var pos := Find(s, d);
    if pos.None? then [s] else [s[..pos.value]] + Parts(s[pos.value + |d|..], d)
  }

  function Join(parts: seq<string>, d: string): string
    requires parts != []
  {
    if |parts| == 1 then parts[0] else parts[0] + d + Join(parts[1..], d)
  }

  /** These parts, and those of what is left, are the parts of the whole. */
  ghost predicate Scanned(seen: seq<string>, left: string, whole: string, d: string)
    requires d != ""
  {
    seen + Parts(left, d) == Parts(whole, d)
  }

  lemma ScanStart(whole: string, d: string)
    requires d != ""
    ensures Scanned([], whole, whole, d)
  {
    assert [] + Parts(whole, d) == Parts(whole, d);
  }

  lemma PartsUnfold(s: string, d: string)
    requires d != "" && Find(s, d).Some?
    ensures var pos := Find(s, d).value; Parts(s, d) == [s[..pos]] + Parts(s[pos + |d|..], d)
  {
  }

  lemma ScanMore(seen: seq<string>, left: string, token: string, left': string, whole: string, d: string)
    requires d != "" && Scanned(seen, left, whole, d) && Parts(left, d) == [token] + Parts(left', d)
    ensures Scanned(seen + [token], left', whole, d)
  {
    Regroup(seen, [token], Parts(left', d), Parts(left, d), Parts(whole, d));
  }

  lemma ScanEnd(seen: seq<string>, left: string, whole: string, d: string)
    requires d != "" && Scanned(seen, left, whole, d) && Find(left, d).None?
    ensures Parts(whole, d) == seen + [left]
  {
  }

  /** The loop of parseInputString: the first part, the ones after it, and what comes after the last delimiter. */
  method ScanParts(inp: string, delimiter: string)
    returns (nameAttr: string, parsed: seq<string>, s: string, firstIter: bool)
    requires delimiter != ""
    ensures Parts(inp, delimiter) == (if firstIter then [] else [nameAttr] + parsed) + [s]
    ensures firstIter ==> parsed == []
  {
    s, nameAttr, parsed, firstIter := inp, "", [], true;
    ghost var seen: seq<string> := [];
    ScanStart(inp, delimiter);
    var pos := Find(s, delimiter);
    while pos.Some?
      invariant pos == Find(s, delimiter)
      invariant if firstIter then seen == [] && parsed == [] else seen == [nameAttr] + parsed
      invariant Scanned(seen, s, inp, delimiter)
      decreases |s|
    {
      PartsUnfold(s, delimiter);
      ScanMore(seen, s, s[..pos.value], s[pos.value + |delimiter|..], inp, delimiter);
      var token := s[..pos.value];
      if firstIter {
        firstIter := false;
        nameAttr := token;
      } else {
        parsed := parsed + [token];
      }
      seen := seen + [token];
      s := s[pos.value + |delimiter|..];
      pos := Find(s, delimiter);
    }
    ScanEnd(seen, s, inp, delimiter);
  }

  /** parseInputString, with what it leaves in its first argument. An empty delimiter would be found for ever. */
  method ParseInputString(inp: string, delimiter: string, isAllParts: bool) returns (inp': string, parsed: seq<string>)
    requires delimiter != ""
    ensures inp' == Parts(inp, delimiter)[0]
    ensures parsed == if isAllParts then Parts(inp, delimiter) else Parts(inp, delimiter)[1..]
  {
    var nameAttr, s, firstIter;
    nameAttr, parsed, s, firstIter := ScanParts(inp, delimiter);
    if !firstIter {
      parsed := parsed + [s];
    }
    if |parsed| == 0 {
      if isAllParts {
        parsed := [inp] + parsed;
      }
      inp' := s;
      WholePart(inp, delimiter, s);
      return;
    }
    inp' := nameAttr;
    if isAllParts {
      parsed := [inp'] + parsed;
    }
  }

  lemma WholePart(inp: string, d: string, s: string)
    requires d != "" && Parts(inp, d) == [s]
    ensures s == inp
  {
    JoinParts(inp, d);
  }

  /** Joining the parts restores the input, and no part contains the delimiter. */
  lemma {:induction false} JoinParts(s: string, d: string)
    requires d != ""
    ensures Join(Parts(s, d), d) == s
    ensures forall k :: 0 <= k < |Parts(s, d)| ==> !Contains(Parts(s, d)[k], d)
    decreases |s|
  {
    var pos := Find(s, d);
    FindIsFirst(s, d);
    if pos.Some? {
      var p, rest := s[..pos.value], s[pos.value + |d|..];
      JoinParts(rest, d);
      assert s == p + d + rest;
      assert ([p] + Parts(rest, d))[1..] == Parts(rest, d);
      forall i: nat | i <= |p| ensures !At(p, d, i) {
        assert At(p, d, i) ==> s[i..i + |d|] == p[i..i + |d|] && At(s, d, i);
      }
    }
  }

  /** Parts that a delimiter keeps apart: none begins a place of the delimiter that the delimiter after it ends. */
  ghost predicate Separated(parts: seq<string>, d: string) {
    && parts != []
    && (forall k :: 0 <= k < |parts| - 1 ==> Find(parts[k] + d, d) == Some(|parts[k]|))
    && !Contains(parts[|parts| - 1], d)
  }

  lemma FindInJoin(p: string, d: string, t: string)
    requires d != ""
    ensures Find(p + d + t, d) == Some(|p|) <==> Find(p + d, d) == Some(|p|)
  {
    var s := p + d + t;
    FindIsFirst(s, d);
    FindIsFirst(p + d, d);
    assert s[|p|..|p| + |d|] == d && (p + d)[|p|..|p| + |d|] == d;
    forall i: nat | i < |p| ensures At(s, d, i) <==> At(p + d, d, i) {
      assert s[i..i + |d|] == (p + d)[i..i + |d|];
    }
    assert At(s, d, |p|) && At(p + d, d, |p|);
  }

  lemma FirstPart(p: string, d: string, t: string)
    requires d != ""
    ensures Find(p + d, d) == Some(|p|) ==> Parts(p + d + t, d) == [p] + Parts(t, d)
    ensures Find(p + d, d) != Some(|p|) ==> Parts(p + d + t, d)[0] != p
  {
    var s := p + d + t;
    FindInJoin(p, d, t);
    FindIsFirst(s, d);
    assert s[..|p|] == p && s[|p| + |d|..] == t;
    assert At(s, d, |p|) by {
      assert s[|p|..|p| + |d|] == d;
    }
  }

  lemma SeparatedFirst(parts: seq<string>, d: string)
    requires |parts| > 1
    ensures Separated(parts, d) <==> Find(parts[0] + d, d) == Some(|parts[0]|) && Separated(parts[1..], d)
  {
    var rest := parts[1..];
    assert rest[|rest| - 1] == parts[|parts| - 1];
    if Separated(rest, d) && Find(parts[0] + d, d) == Some(|parts[0]|) {
      forall k | 0 <= k < |parts| - 1 ensures Find(parts[k] + d, d) == Some(|parts[k]|) {
        if k > 0 {
          assert parts[k] == rest[k - 1];
        }
      }
    }
  }

  /** Splitting gives joined parts back exactly if they are separated. */
  lemma {:induction false} PartsJoin(parts: seq<string>, d: string)
    requires d != "" && parts != []
    ensures Parts(Join(parts, d), d) == parts <==> Separated(parts, d)
    decreases |parts|
  {
    if |parts| == 1 {
      assert parts == [parts[0]];
      FindIsFirst(parts[0], d);
    } else {
      var p, t := parts[0], Join(parts[1..], d);
      FirstPart(p, d, t);
      SeparatedFirst(parts, d);
      PartsJoin(parts[1..], d);
      assert parts == [p] + parts[1..];
      assert ([p] + Parts(t, d))[1..] == Parts(t, d);
    }
  }

  // ----- device names -----

  /** splitDeviceName: of three parts the name is the device; of six the last three are, and the host is the first and
      the third, whatever the second is. Host and device together are the name given exactly if the second is empty. */
  method SplitDeviceName(deviceName: string) returns (host: string, device: string)
    ensures var p := Parts(deviceName, "/");
            && (|p| == 3 ==> host == "" && device == deviceName)
            && (|p| == 6 ==> host == Join([p[0], "", p[2], ""], "/") && device == Join(p[3..], "/"))
            && (|p| == 6 ==> (host + device == deviceName <==> p[1] == ""))
            && (|p| != 3 && |p| != 6 ==> host == device == "")
  {
    host, device := "", "";
    var copy, p := ParseInputString(deviceName, "/", true);
    JoinParts(deviceName, "/");
    if |p| == 3 {
      device := p[0] + "/" + p[1] + "/" + p[2];
      JoinThree(p);
    } else if |p| == 6 {
      host := p[0] + "//" + p[2] + "/";
      device := p[3] + "/" + p[4] + "/" + p[5];
      JoinHost(p);
      JoinThree(p[3..]);
      JoinSix(p);
      assert host + device == p[0] + "//" + p[2] + "/" + Join(p[3..], "/");
    }
  }

  lemma JoinHost(p: seq<string>)
    requires |p| == 6
    ensures Join([p[0], "", p[2], ""], "/") == p[0] + "//" + p[2] + "/"
  {
    var q := [p[0], "", p[2], ""];
    assert q[1..] == ["", p[2], ""];
    JoinThree(q[1..]);
    assert Join(q, "/") == p[0] + "/" + ("" + "/" + p[2] + "/" + "");
  }

  lemma JoinThree(p: seq<string>)
    requires |p| == 3
    ensures Join(p, "/") == p[0] + "/" + p[1] + "/" + p[2]
  {
    assert Join(p[1..], "/") == p[1] + "/" + Join(p[1..][1..], "/");
    assert p[1..][1..] == [p[2]];
  }

  lemma JoinSix(p: seq<string>)
    requires |p| == 6
    ensures var host, device := p[0] + "//" + p[2] + "/", Join(p[3..], "/");
            host + device == Join(p, "/") <==> p[1] == ""
  {
    var device := Join(p[3..], "/");
    assert p[1..][1..] == p[2..] && p[2..][1..] == p[3..];
    var tail := p[2] + "/" + device;
    assert Join(p[1..], "/") == p[1] + "/" + tail;
    assert Join(p, "/") == p[0] + "/" + (p[1] + "/" + tail);
    assert p[0] + "//" + p[2] + "/" + device == p[0] + "/" + ("" + "/" + tail);
    if p[1] != "" {
      assert |Join(p, "/")| > |p[0] + "//" + p[2] + "/" + device|;
    }
  }

  // ----- getline -----

  /** Where the first c is, or the length. */
  function Index(s: string, c: char): (n: nat)
    ensures n <= |s| && (forall i :: 0 <= i < n ==> s[i] != c) && (n < |s| ==> s[n] == c)
  {
    if s == "" || s[0] == c then 0 else 1 + Index(s[1..], c)
  }

  /** The lines of a string: an end without a delimiter is a line only if it is not empty. */
  function Lines(s: string, c: char): seq<string>
    decreases |s|
  {
    var n := Index(s, c);
    if s == "" then [] else if n == |s| then [s] else [s[..n]] + Lines(s[n + 1..], c)
  }

  /** The characters up to a delimiter or the end. */
  method ReadItem(s: string, start: nat, delim: char) returns (item: string, end: nat)
    requires start <= |s|
    ensures start <= end <= |s| && item == s[start..end]
    ensures (forall i :: start <= i < end ==> s[i] != delim) && (end < |s| ==> s[end] == delim)
  {
    item, end := "", start;
    while end < |s| && s[end] != delim
      invariant start <= end <= |s| && item == s[start..end]
      invariant forall i :: start <= i < end ==> s[i] != delim
    {
      item := item + [s[end]];
      end := end + 1;
    }
  }

  /** getline fails only at the end of its input, and takes the delimiter away. */
  method GetLine(s: string, start: nat, delim: char) returns (ok: bool, item: string, next: nat)
    requires start <= |s|
    ensures ok <==> start < |s|
    ensures start <= next <= |s| && (ok ==> start < next)
    ensures ok ==> Lines(s[start..], delim) == [item] + Lines(s[next..], delim)
  {
    var end;
    item, end := ReadItem(s, start, delim);
    ok := start < |s|;
    next := if end < |s| then end + 1 else end;
    if ok {
      LineAt(s, start, end, delim);
    }
  }

  lemma LineAt(s: string, start: nat, end: nat, c: char)
    requires start < |s| && start <= end <= |s|
    requires (forall i :: start <= i < end ==> s[i] != c) && (end < |s| ==> s[end] == c)
    ensures Lines(s[start..], c) == [s[start..end]] + Lines(s[if end < |s| then end + 1 else end..], c)
  {
    var t := s[start..];
    LineEnd(t, c, end - start);
    assert t[..end - start] == s[start..end];
    if end < |s| {
      assert t[end - start + 1..] == s[end + 1..];
    } else {
      assert t == s[start..end] && Lines(s[end..], c) == [];
    }
  }

  lemma LineEnd(s: string, c: char, n: nat)
    requires s != "" && n <= |s| && (forall i :: 0 <= i < n ==> s[i] != c) && (n < |s| ==> s[n] == c)
    ensures Lines(s, c) == if n == |s| then [s] else [s[..n]] + Lines(s[n + 1..], c)
  {
    IndexIs(s, c, n);
  }

  lemma {:induction false} IndexIs(s: string, c: char, n: nat)
    requires n <= |s| && (forall i :: 0 <= i < n ==> s[i] != c) && (n < |s| ==> s[n] == c)
    ensures Index(s, c) == n
  {
    if n > 0 {
      IndexIs(s[1..], c, n - 1);
    }
  }

  method Split(s: string, delim: char) returns (elems: seq<string>)
    ensures elems == Lines(s, delim)
  {
    elems := [];
    var next := 0;
    assert s[0..] == s;
    while next < |s|
      invariant next <= |s| && elems + Lines(s[next..], delim) == Lines(s, delim)
    {
      var ok, item, next' := GetLine(s, next, delim);
      Regroup(elems, [item], Lines(s[next'..], delim), Lines(s[next..], delim), Lines(s, delim));
      elems := elems + [item];
      next := next';
    }
  }

  /** A last part that is empty, which is no line. */
  function EmptyEnd(s: string, c: char): seq<string> {
    if s == "" || s[|s| - 1] == c then [""] else []
  }

  lemma PartsLast(s: string, c: char)
    requires Index(s, c) == |s|
    ensures Parts(s, [c]) == [s]
  {
    FindIndex(s, c);
  }

  lemma PartsNext(s: string, c: char, n: nat)
    requires n == Index(s, c) < |s|
    ensures Parts(s, [c]) == [s[..n]] + Parts(s[n + 1..], [c])
  {
    FindIndex(s, c);
    PartsUnfold(s, [c]);
  }

  /** The lines are the parts at the delimiter, without a last part that is empty. */
  lemma {:induction false} LinesAreParts(s: string, c: char)
    ensures Parts(s, [c]) == Lines(s, c) + EmptyEnd(s, c)
    decreases |s|
  {
    var n := Index(s, c);
    if n == |s| {
      PartsLast(s, c);
    } else {
      var rest := s[n + 1..];
      LinesAreParts(rest, c);
      PartsNext(s, c, n);
      LineEnd(s, c, n);
      SameEnd(s, c, n);
      AddLine(s[..n], Lines(rest, c), EmptyEnd(rest, c), Parts(rest, [c]), Lines(s, c), Parts(s, [c]));
    }
  }

  lemma AddLine(line: string, lines: seq<string>, end: seq<string>, parts: seq<string>, lines': seq<string>,
                parts': seq<string>)
    requires parts == lines + end && lines' == [line] + lines && parts' == [line] + parts
    ensures parts' == lines' + end
  {
  }

  lemma SameEnd(s: string, c: char, n: nat)
    requires n < |s| && s[n] == c
    ensures EmptyEnd(s, c) == EmptyEnd(s[n + 1..], c)
  {
  }

  lemma {:induction false} FindIndex(s: string, c: char)
    ensures Find(s, [c]) == if Index(s, c) < |s| then Some(Index(s, c)) else None
  {
    if s != "" {
      assert s[0..1] == [s[0]];
      FindIndex(s[1..], c);
    }
  }

  // ----- the query -----

  /** An item of the query sets a key to a value. */
  predicate Sets(item: string, key: string, value: string) {
    Lines(item, '=') == [key, value]
  }

  predicate SetsKey(item: string, key: string) {
    |Lines(item, '=')| == 2 && Lines(item, '=')[0] == key
  }

  /** Item i is the first to set a key, and sets it to this. */
  predicate SetsFirst(items: seq<string>, i: nat, key: string, value: string) {
    i < |items| && Sets(items[i], key, value) && forall j :: 0 <= j < i ==> !SetsKey(items[j], key)
  }

  /** The map has the keys that items set, with the value each was set to first. */
  ghost predicate FirstValues(items: seq<string>, out: map<string, string>) {
    && (forall k :: k in out ==> exists i: nat :: SetsFirst(items, i, k, out[k]))
    && (forall i :: 0 <= i < |items| ==> forall k :: SetsKey(items[i], k) ==> k in out)
  }

  /** outMap.insert of an item's key and value, if it has two parts. */
  method InsertItem(items: seq<string>, item: string, out: map<string, string>) returns (out': map<string, string>)
    requires FirstValues(items, out)
    ensures FirstValues(items + [item], out')
  {
    out' := out;
    var tmp := Split(item, '=');
    if |tmp| != 2 {
      Skip(items, item, out);
    } else {
      assert tmp == [tmp[0], tmp[1]];
      Insert(items, item, out, tmp[0], tmp[1]);
      if tmp[0] !in out {
        out' := out[tmp[0] := tmp[1]];
      }
    }
  }

  method ParseOfGetQuery(query: string) returns (out: map<string, string>)
    ensures FirstValues(Lines(query, '&'), out)
  {
    out := map[];
    if |query| == 0 {
      return;
    }
    var items := Split(query, '&');
    var i := 0;
    while i < |items|
      invariant 0 <= i <= |items| && FirstValues(items[..i], out)
    {
      out := InsertItem(items[..i], items[i], out);
      assert items[..i + 1] == items[..i] + [items[i]];
      i := i + 1;
    }
    assert items[..i] == items;
  }

  lemma FirstAppend(items: seq<string>, item: string, i: nat, k: string, v: string)
    requires SetsFirst(items, i, k, v)
    ensures SetsFirst(items + [item], i, k, v)
  {
  }

  lemma Skip(items: seq<string>, item: string, out: map<string, string>)
    requires FirstValues(items, out) && |Lines(item, '=')| != 2
    ensures FirstValues(items + [item], out)
  {
    Keep(items, item, out);
  }

  lemma Keep(items: seq<string>, item: string, out: map<string, string>)
    requires FirstValues(items, out)
    ensures forall k :: k in out ==> exists i: nat :: SetsFirst(items + [item], i, k, out[k])
  {
    forall k | k in out ensures exists i: nat :: SetsFirst(items + [item], i, k, out[k]) {
      var i: nat :| SetsFirst(items, i, k, out[k]);
      FirstAppend(items, item, i, k, out[k]);
    }
  }

  lemma Insert(items: seq<string>, item: string, out: map<string, string>, k: string, v: string)
    requires FirstValues(items, out) && Sets(item, k, v)
    ensures FirstValues(items + [item], if k in out then out else out[k := v])
  {
    Keep(items, item, out);
    if k !in out {
      assert SetsFirst(items + [item], |items|, k, v);
    }
  }

  // ----- queries that were rendered -----

  predicate Free(s: string) {
    '&' !in s && '=' !in s
  }

  type Pairs = ps: seq<(string, string)> | forall i :: 0 <= i < |ps| ==> Free(ps[i].0) && Free(ps[i].1)

  function Item(p: (string, string)): string {
    p.0 + "=" + p.1
  }

  function Items(ps: seq<(string, string)>): (items: seq<string>)
    ensures |items| == |ps| && forall i :: 0 <= i < |ps| ==> items[i] == Item(ps[i])
  {
    if ps == [] then [] else [Item(ps[0])] + Items(ps[1..])
  }

  function Render(ps: seq<(string, string)>): string {
    if ps == [] then "" else Join(Items(ps), "&")
  }

  /** An item with a value sets its key to it; one without sets nothing. */
  lemma ItemLines(p: (string, string))
    requires Free(p.0) && Free(p.1)
    ensures Lines(Item(p), '=') == if p.1 == "" then [p.0] else [p.0, p.1]
  {
    var s := Item(p);
    LineEnd(s, '=', |p.0|);
    assert s[..|p.0|] == p.0 && s[|p.0| + 1..] == p.1;
    if p.1 != "" {
      LineEnd(p.1, '=', |p.1|);
    }
  }

  lemma LineThen(item: string, c: char, rest: string)
    requires c !in item
    ensures Lines(item + [c] + rest, c) == [item] + Lines(rest, c)
  {
    var s := item + [c] + rest;
    LineEnd(s, c, |item|);
    assert s[..|item|] == item && s[|item| + 1..] == rest;
  }

  lemma {:induction false} LinesOfRender(ps: Pairs)
    ensures Lines(Render(ps), '&') == Items(ps)
    decreases |ps|
  {
    if ps != [] {
      var item := Item(ps[0]);
      var s := Render(ps);
      if |ps| == 1 {
        assert s == item;
        LineEnd(s, '&', |s|);
      } else {
        var rest: Pairs := ps[1..];
        LinesOfRender(rest);
        assert s == item + "&" + Render(rest);
        LineThen(item, '&', Render(rest));
      }
    }
  }

  /** A pair is the first one with its key whose value is not empty. */
  predicate FirstPair(ps: Pairs, i: nat) {
    i < |ps| && ps[i].1 != "" && forall j :: 0 <= j < i ==> !(ps[j].0 == ps[i].0 && ps[j].1 != "")
  }

  /** A rendered query gives each key its first value that is not empty, and no other key. */
  lemma RenderedQuery(ps: Pairs, out: map<string, string>)
    requires FirstValues(Lines(Render(ps), '&'), out)
    ensures forall i: nat :: FirstPair(ps, i) ==> ps[i].0 in out && out[ps[i].0] == ps[i].1
    ensures forall k :: k in out ==> exists i: nat :: FirstPair(ps, i) && ps[i].0 == k
  {
    LinesOfRender(ps);
    forall k | k in out ensures exists i: nat :: FirstPair(ps, i) && ps[i].0 == k {
      var i := KeyIsPair(ps, out, k);
    }
    forall i: nat | FirstPair(ps, i) ensures ps[i].0 in out && out[ps[i].0] == ps[i].1 {
      PairIsKey(ps, out, i);
    }
  }

  lemma KeyIsPair(ps: Pairs, out: map<string, string>, k: string) returns (i: nat)
    requires FirstValues(Items(ps), out) && k in out
    ensures FirstPair(ps, i) && ps[i] == (k, out[k])
  {
    i :| SetsFirst(Items(ps), i, k, out[k]);
    FirstIsPair(ps, i, k, out[k]);
  }

  lemma PairIsKey(ps: Pairs, out: map<string, string>, i: nat)
    requires FirstValues(Items(ps), out) && FirstPair(ps, i)
    ensures ps[i].0 in out && out[ps[i].0] == ps[i].1
  {
    ItemLines(ps[i]);
    assert SetsKey(Items(ps)[i], ps[i].0);
    var j := KeyIsPair(ps, out, ps[i].0);
  }

  lemma FirstIsPair(ps: Pairs, i: nat, k: string, v: string)
    requires SetsFirst(Items(ps), i, k, v)
    ensures FirstPair(ps, i) && ps[i] == (k, v)
  {
    ItemLines(ps[i]);
    forall j | 0 <= j < i ensures !(ps[j].0 == k && ps[j].1 != "") {
      ItemLines(ps[j]);
      assert !SetsKey(Items(ps)[j], k);
    }
  }
}
