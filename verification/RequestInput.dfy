/** Requests as the server takes them in: the keys of a JSON tree sorted by kind, the type of the request, and the
    check that it has what its type needs. Client mode. */
module RequestInput {
  import opened StringProc

  /** A property tree: a JSON value has data, an array has children without names, an object children with names. */
  datatype Tree = Tree(data: string, kids: seq<(string, Tree)>)

  datatype ReqType =
    | AttributeWrite | AttributeWriteDev | AttributeWriteGr
    | Command | CommandDev | CommandGr
    | PipeComm | PipeCommDev | PipeCommGr
    | CommandDevClient
    | AttrDevClient | AttrDevClientWr | AttrGrClient
    | UserCheckStatus | ChangeUser
    | AttributeRead | AttributeReadDev | AttributeReadGr
    | EventReqAddDev | EventReqRemDev | EventReqOff | EventReqCheckDev
    | Unknown

  function TypeOf(text: string): ReqType {
    match text
    case "command" => Command
    case "command_device" => CommandDev
    case "command_group" => CommandGr
    case "read_pipe" => PipeComm
    case "read_pipe_dev" => PipeCommDev
    case "read_pipe_gr" => PipeCommGr
    case "command_device_cl" => CommandDevClient
    case "attr_device_cl" => AttrDevClient
    case "write_attr" => AttributeWrite
    case "write_attr_dev" => AttributeWriteDev
    case "write_attr_gr" => AttributeWriteGr
    case "write_attr_dev_cl" => AttrDevClientWr
    case "attr_group_cl" => AttrGrClient
    case "user_status" => UserCheckStatus
    case "change_user_smpl" => ChangeUser
    case "read_attr" => AttributeRead
    case "read_attr_dev" => AttributeReadDev
    case "read_attr_gr" => AttributeReadGr
    case "eventreq_add_dev" => EventReqAddDev
    case "eventreq_rem_dev" => EventReqRemDev
    case "eventreq_off" => EventReqOff
    case "eventreq_check_dev" => EventReqCheckDev
    case _ => Unknown
  }

  predicate IsEvent(t: ReqType) {
    t.EventReqAddDev? || t.EventReqRemDev? || t.EventReqOff? || t.EventReqCheckDev?
  }

  // ----- find on the text of the type says which event request it is -----

  lemma AtHas(s: string, d: string, i: nat, c: char)
    requires At(s, d, i) && c in d
    ensures c in s
  {
    var k :| 0 <= k < |d| && d[k] == c;
    assert s[i..i + |d|][k] == s[i + k];
  }

  lemma FindNone(s: string, d: string, c: char)
    requires c in d && c !in s
    ensures Find(s, d).None?
  {
    FindIsFirst(s, d);
    if Find(s, d).Some? {
      AtHas(s, d, Find(s, d).value, c);
    }
  }

  lemma PlainTypes(s: string)
    requires TypeOf(s) != Unknown && !IsEvent(TypeOf(s))
    ensures 'q' !in s
  {
  }

  lemma EventTypes(s: string)
    ensures TypeOf(s).EventReqAddDev? <==> s == "eventreq_add_dev"
    ensures TypeOf(s).EventReqRemDev? <==> s == "eventreq_rem_dev"
    ensures TypeOf(s).EventReqOff? <==> s == "eventreq_off"
    ensures TypeOf(s).EventReqCheckDev? <==> s == "eventreq_check_dev"
  {
  }

  /** Only the beginning of s begins like d. */
  lemma FindAtStart(s: string, d: string)
    requires |d| >= 2 && forall i :: 0 < i <= |s| - |d| ==> !(s[i] == d[0] && s[i + 1] == d[1])
    ensures Find(s, d).Some? <==> d <= s
  {
    FindIsFirst(s, d);
    forall i: nat | i > 0 ensures !At(s, d, i) {
      if i + |d| <= |s| {
        assert s[i..i + |d|][0] == s[i] && s[i..i + |d|][1] == s[i + 1];
      }
    }
    assert At(s, d, 0) <==> d <= s;
  }

  /** The five strings that are looked for. */
  predicate Sought(d: string) {
    d == "eventreq" || d == "eventreq_add_dev" || d == "eventreq_rem_dev" || d == "eventreq_off"
    || d == "eventreq_check_dev"
  }

  lemma FindInEvent(s: string, d: string)
    requires IsEvent(TypeOf(s)) && Sought(d)
    ensures Find(s, d).Some? <==> d == "eventreq" || d == s
  {
    EventTypes(s);
    FindAtStart(s, d);
    assert d <= s <==> d == "eventreq" || d == s by {
      if |d| >= 10 && d <= s {
        assert d[9] == s[9];
      }
    }
  }

  lemma FindInPlain(s: string, d: string)
    requires TypeOf(s) != Unknown && !IsEvent(TypeOf(s)) && Sought(d)
    ensures Find(s, d).None?
  {
    PlainTypes(s);
    assert d[7] == 'q';
    FindNone(s, d, 'q');
  }

  lemma SameEvent(s: string, d: string)
    requires IsEvent(TypeOf(s)) && Sought(d) && d != "eventreq"
    ensures s == d <==> TypeOf(s) == TypeOf(d)
  {
    EventTypes(s);
    EventTypes(d);
  }

  /** find on the text of a known type finds "eventreq" in the event types, and the name of each in no other. */
  lemma FindSays(s: string, d: string)
    requires TypeOf(s) != Unknown && Sought(d)
    ensures Find(s, d).Some? <==> IsEvent(TypeOf(s)) && (d == "eventreq" || TypeOf(s) == TypeOf(d))
  {
    if !IsEvent(TypeOf(s)) {
      FindInPlain(s, d);
    } else {
      FindInEvent(s, d);
      if d != "eventreq" {
        SameEvent(s, d);
      }
    }
  }

  // ----- keys by kind -----

  datatype Kind = Value | Array | Object | Absent

  /** The three maps a request's keys are sorted into. */
  datatype Keys = Keys(str: map<string, string>, vec: map<string, seq<string>>, obj: map<string, Tree>)

  const NO_KEYS := Keys(map[], map[], map[])

  /** check_key. */
  function KindOf(keys: Keys, k: string): Kind {
    if k in keys.str then Value else if k in keys.vec then Array else if k in keys.obj then Object else Absent
  }

  /** What the children of an element without data say it is: values without names make an array, and the first child
      with a name makes it an object, also after such values; a child without name and data makes it nothing. */
  datatype Shape = Shape(vec: seq<string>, isObject: bool)

  function ShapeOf(kids: seq<(string, Tree)>, seen: seq<string>): Shape
    decreases |kids|
  {
    if kids == [] then Shape(seen, false)
    else if kids[0].0 != "" then Shape(seen, true)
    else if kids[0].1.data == "" then Shape([], false)
    else ShapeOf(kids[1..], seen + [kids[0].1.data])
  }

  function AddElem(keys: Keys, e: (string, Tree)): Keys {
    if e.1.data != "" then keys.(str := keys.str[e.0 := e.1.data])
    else
      var shape := ShapeOf(e.1.kids, []);
      keys.(obj := if shape.isObject then keys.obj[e.0 := e.1] else keys.obj,
            vec := if shape.vec != [] then keys.vec[e.0 := shape.vec] else keys.vec)
  }

  // ----- filling -----

  datatype Filled = Filled(id: string, text: string, type_: ReqType, keys: Keys, stopped: bool)

  const EMPTY := Filled("", "", Unknown, NO_KEYS, false)

  /** One child of the request: its id, its type, or a key; an empty type stops the filling. */
  function Fill(f: Filled, e: (string, Tree)): Filled {
    if e.0 == "id" then if e.1.data != "" then f.(id := e.1.data) else f
    else if e.0 == "type_req" then
      if e.1.data == "" then f.(type_ := Unknown, stopped := true)
      else f.(text := e.1.data, type_ := TypeOf(e.1.data))
    else f.(keys := AddElem(f.keys, e))
  }

  function FillAll(f: Filled, elems: seq<(string, Tree)>): Filled
    decreases |elems|
  {
    if elems == [] || f.stopped then f else FillAll(Fill(f, elems[0]), elems[1..])
  }

  predicate HasName(elems: seq<(string, Tree)>, name: string) {
    exists i :: 0 <= i < |elems| && elems[i].0 == name
  }

  /** A child that puts a key among the values, the arrays, the objects. */
  predicate Puts(e: (string, Tree), k: string, kind: Kind) {
    && e.0 == k && k != "id" && k != "type_req"
    && match kind
       case Value => e.1.data != ""
       case Array => e.1.data == "" && ShapeOf(e.1.kids, []).vec != []
       case Object => e.1.data == "" && ShapeOf(e.1.kids, []).isObject
       case Absent => false
  }

  predicate InMap(keys: Keys, k: string, kind: Kind) {
    match kind
    case Value => k in keys.str
    case Array => k in keys.vec
    case Object => k in keys.obj
    case Absent => false
  }

  /** A key is in a map exactly if some child puts it there. */
  lemma {:induction false} FilledKeys(f: Filled, elems: seq<(string, Tree)>, k: string, kind: Kind)
    requires !f.stopped && !FillAll(f, elems).stopped
    ensures InMap(FillAll(f, elems).keys, k, kind) <==>
            InMap(f.keys, k, kind) || exists i :: 0 <= i < |elems| && Puts(elems[i], k, kind)
    decreases |elems|
  {
    if elems != [] {
      var g := Fill(f, elems[0]);
      assert !g.stopped;
      FilledKeys(g, elems[1..], k, kind);
      assert InMap(g.keys, k, kind) <==> InMap(f.keys, k, kind) || Puts(elems[0], k, kind);
      assert forall i :: 0 < i < |elems| ==> elems[i] == elems[1..][i - 1];
    }
  }

  /** Values are never empty. */
  predicate NoEmptyValue(keys: Keys) {
    forall k :: k in keys.str ==> keys.str[k] != ""
  }

  lemma {:induction false} FilledValues(f: Filled, elems: seq<(string, Tree)>)
    requires NoEmptyValue(f.keys)
    ensures NoEmptyValue(FillAll(f, elems).keys)
    decreases |elems|
  {
    if elems != [] && !f.stopped {
      FilledValues(Fill(f, elems[0]), elems[1..]);
    }
  }

  /** The type is the last child's of that name, and an empty one stops the filling. */
  lemma {:induction false} FilledType(f: Filled, elems: seq<(string, Tree)>)
    requires !f.stopped && f.type_ == (if f.text == "" then Unknown else TypeOf(f.text))
    ensures var g := FillAll(f, elems);
            && (g.stopped <==> exists i :: 0 <= i < |elems| && elems[i].0 == "type_req" && elems[i].1.data == "")
            && (g.stopped ==> g.type_ == Unknown)
            && (!g.stopped ==> g.type_ == (if g.text == "" then Unknown else TypeOf(g.text)))
    decreases |elems|
  {
    if elems != [] {
      var g := Fill(f, elems[0]);
      if !g.stopped {
        FilledType(g, elems[1..]);
        assert forall i :: 0 < i < |elems| ==> elems[i] == elems[1..][i - 1];
      }
    }
  }

  // ----- what the tree says -----

  /** The last child of a name. */
  predicate LastNamed(kids: seq<(string, Tree)>, name: string, i: int) {
    0 <= i < |kids| && kids[i].0 == name && forall j :: i < j < |kids| ==> kids[j].0 != name
  }

  /** The last child that puts a key there. */
  predicate LastPuts(kids: seq<(string, Tree)>, k: string, kind: Kind, i: int) {
    0 <= i < |kids| && Puts(kids[i], k, kind) && forall j :: i < j < |kids| ==> !Puts(kids[j], k, kind)
  }

  predicate SomePuts(kids: seq<(string, Tree)>, k: string, kind: Kind) {
    exists i :: 0 <= i < |kids| && Puts(kids[i], k, kind)
  }

  /** What a key is in a tree: whatever the order of the children, a value hides an array, and an array an object. */
  function TreeKind(kids: seq<(string, Tree)>, k: string): Kind {
    if SomePuts(kids, k, Value) then Value
    else if SomePuts(kids, k, Array) then Array
    else if SomePuts(kids, k, Object) then Object
    else Absent
  }

  function LastIndex(kids: seq<(string, Tree)>, k: string, kind: Kind): (i: nat)
    requires SomePuts(kids, k, kind)
    ensures LastPuts(kids, k, kind, i)
  {
    var n := |kids| - 1;
    if Puts(kids[n], k, kind) then n
    else
      assert SomePuts(kids[..n], k, kind) by {
        var j :| 0 <= j < |kids| && Puts(kids[j], k, kind);
        assert kids[..n][j] == kids[j];
      }
      LastIndex(kids[..n], k, kind)
  }

  /** The value, the array and the object of a key: what the last child that puts it there says. */
  function ValueOf(kids: seq<(string, Tree)>, k: string): string
    requires SomePuts(kids, k, Value)
  {
    kids[LastIndex(kids, k, Value)].1.data
  }

  function ArrayOf(kids: seq<(string, Tree)>, k: string): seq<string>
    requires SomePuts(kids, k, Array)
  {
    ShapeOf(kids[LastIndex(kids, k, Array)].1.kids, []).vec
  }

  function ObjectOf(kids: seq<(string, Tree)>, k: string): Tree
    requires SomePuts(kids, k, Object)
  {
    kids[LastIndex(kids, k, Object)].1
  }

  predicate NoEmptyType(kids: seq<(string, Tree)>) {
    forall i :: 0 <= i < |kids| && kids[i].0 == "type_req" ==> kids[i].1.data != ""
  }

  lemma FilledKind(kids: seq<(string, Tree)>, k: string)
    requires !FillAll(EMPTY, kids).stopped
    ensures KindOf(FillAll(EMPTY, kids).keys, k) == TreeKind(kids, k)
  {
    FilledKeys(EMPTY, kids, k, Value);
    FilledKeys(EMPTY, kids, k, Array);
    FilledKeys(EMPTY, kids, k, Object);
  }

  /** The text is that of the last type. */
  lemma {:induction false} FilledText(f: Filled, kids: seq<(string, Tree)>, i: nat)
    requires !f.stopped && !FillAll(f, kids).stopped
    requires LastNamed(kids, "type_req", i)
    ensures FillAll(f, kids).text == kids[i].1.data
    decreases |kids|
  {
    var g := Fill(f, kids[0]);
    if i > 0 {
      assert LastNamed(kids[1..], "type_req", i - 1);
      FilledText(g, kids[1..], i - 1);
    } else {
      TextStays(g, kids[1..]);
    }
  }

  lemma {:induction false} TextStays(f: Filled, kids: seq<(string, Tree)>)
    requires forall j :: 0 <= j < |kids| ==> kids[j].0 != "type_req"
    ensures FillAll(f, kids).text == f.text
    decreases |kids|
  {
    if kids != [] && !f.stopped {
      TextStays(Fill(f, kids[0]), kids[1..]);
    }
  }

  /** What a map of the keys holds is what child i says. */
  predicate Holds(keys: Keys, k: string, kind: Kind, t: Tree) {
    match kind
    case Value => k in keys.str && keys.str[k] == t.data
    case Array => k in keys.vec && keys.vec[k] == ShapeOf(t.kids, []).vec
    case Object => k in keys.obj && keys.obj[k] == t
    case Absent => false
  }

  /** The content of a key, in each of the maps, is that of the last child that puts it there. */
  lemma {:induction false} FilledContent(f: Filled, kids: seq<(string, Tree)>, k: string, kind: Kind, i: nat)
    requires !f.stopped && !FillAll(f, kids).stopped
    requires LastPuts(kids, k, kind, i)
    ensures Holds(FillAll(f, kids).keys, k, kind, kids[i].1)
    decreases |kids|
  {
    var g := Fill(f, kids[0]);
    if i > 0 {
      assert LastPuts(kids[1..], k, kind, i - 1) by {
        assert forall j :: 0 <= j < |kids| - 1 ==> kids[1..][j] == kids[j + 1];
      }
      FilledContent(g, kids[1..], k, kind, i - 1);
    } else {
      ContentStays(g, kids[1..], k, kind, kids[0].1);
    }
  }

  lemma {:induction false} ContentStays(f: Filled, kids: seq<(string, Tree)>, k: string, kind: Kind, t: Tree)
    requires Holds(f.keys, k, kind, t) && forall j :: 0 <= j < |kids| ==> !Puts(kids[j], k, kind)
    ensures Holds(FillAll(f, kids).keys, k, kind, t)
    decreases |kids|
  {
    if kids != [] && !f.stopped {
      assert !Puts(kids[0], k, kind);
      ContentStays(Fill(f, kids[0]), kids[1..], k, kind, t);
    }
  }

  lemma {:induction false} LastOfName(kids: seq<(string, Tree)>, name: string) returns (i: nat)
    requires HasName(kids, name)
    ensures LastNamed(kids, name, i)
    decreases |kids|
  {
    i := |kids| - 1;
    if kids[i].0 != name {
      i := LastOfName(kids[..i], name);
    }
  }

  // ----- lists of devices and attributes -----

  type EventList = map<string, seq<string>>

  /** get_child: the first child of each name on the path. */
  function Walk(t: Tree, path: seq<string>): Option<Tree>
    decreases |path|
  {
    if path == [] then Some(t)
    else
      var i := FirstNamed(t.kids, path[0]);
      if i == |t.kids| then None else Walk(t.kids[i].1, path[1..])
  }

  function FirstNamed(kids: seq<(string, Tree)>, name: string): (n: nat)
    ensures n <= |kids| && (forall i :: 0 <= i < n ==> kids[i].0 != name) && (n < |kids| ==> kids[n].0 == name)
  {
    if kids == [] || kids[0].0 == name then 0 else 1 + FirstNamed(kids[1..], name)
  }

  function Values(kids: seq<(string, Tree)>): seq<string> {
    if kids == [] then []
    else (if kids[0].1.data != "" then [kids[0].1.data] else []) + Values(kids[1..])
  }

  /** getArrayOfStr: a bar in the key makes it a path. */
  function ArrayOfStr(key: string, t: Tree): seq<string> {
    var child := Walk(t, Lines(key, '|'));
    if child.None? then []
    else if child.value.data != "" then [child.value.data]
    else Values(child.value.kids)
  }

  function AddDevice(list: EventList, e: (string, Tree), t: Tree): EventList {
    if e.0 == "" then list
    else
      var l := if |e.1.kids| > 0 then list[e.0 := ArrayOfStr(e.0, t)] else list;
      if e.1.data != "" then l[e.0 := [e.1.data]] else l
  }

  function AddDevices(list: EventList, kids: seq<(string, Tree)>, t: Tree): EventList
    decreases |kids|
  {
    if kids == [] then list else AddDevices(AddDevice(list, kids[0], t), kids[1..], t)
  }

  /** _getEventSubList. */
  function SubList(t: Tree): EventList {
    AddDevices(map[], t.kids, t)
  }

  /** A child that is a device with something to subscribe to. */
  predicate IsDevice(e: (string, Tree)) {
    e.0 != "" && (|e.1.kids| > 0 || e.1.data != "")
  }

  lemma {:induction false} DevicesListed(list: EventList, kids: seq<(string, Tree)>, t: Tree, name: string)
    ensures name in AddDevices(list, kids, t) <==>
            name in list || exists i :: 0 <= i < |kids| && kids[i].0 == name && IsDevice(kids[i])
    decreases |kids|
  {
    if kids != [] {
      DevicesListed(AddDevice(list, kids[0], t), kids[1..], t, name);
      assert forall i :: 0 < i < |kids| ==> kids[i] == kids[1..][i - 1];
    }
  }

  predicate HasDevice(t: Tree) {
    exists i :: 0 <= i < |t.kids| && IsDevice(t.kids[i])
  }

  /** A list is empty exactly if no child is a device. */
  lemma ListNotEmpty(t: Tree)
    ensures SubList(t) != map[] <==> HasDevice(t)
  {
    if i :| 0 <= i < |t.kids| && IsDevice(t.kids[i]) {
      DevicesListed(map[], t.kids, t, t.kids[i].0);
    }
    if SubList(t) != map[] {
      var name :| name in SubList(t);
      DevicesListed(map[], t.kids, t, name);
    }
  }

  /** With one child of a name, and no bar in it, the device gets its value or the values of its children. */
  lemma DeviceContent(t: Tree, i: nat)
    requires i < |t.kids| && IsDevice(t.kids[i]) && '|' !in t.kids[i].0
    requires forall j :: 0 <= j < |t.kids| && j != i ==> t.kids[j].0 != t.kids[i].0
    ensures var e := t.kids[i];
            e.0 in SubList(t) && SubList(t)[e.0] == if e.1.data != "" then [e.1.data] else Values(e.1.kids)
  {
    var name := t.kids[i].0;
    LineEnd(name, '|', |name|);
    assert FirstNamed(t.kids, name) == i;
    assert Walk(t, [name]) == Walk(t.kids[i].1, [name][1..]);
    ContentFrom(map[], t.kids, t, name, i);
  }

  lemma {:induction false} ContentFrom(list: EventList, kids: seq<(string, Tree)>, t: Tree, name: string, i: nat)
    requires i < |kids| && kids[i].0 == name && IsDevice(kids[i])
    requires forall j :: i < j < |kids| ==> kids[j].0 != name
    ensures var e := kids[i].1;
            name in AddDevices(list, kids, t)
            && AddDevices(list, kids, t)[name] == if e.data != "" then [e.data] else ArrayOfStr(name, t)
    decreases |kids|
  {
    var l := AddDevice(list, kids[0], t);
    if i == 0 {
      Unchanged(l, kids[1..], t, name);
    } else {
      assert kids[1..][i - 1] == kids[i];
      ContentFrom(l, kids[1..], t, name, i - 1);
    }
  }

  lemma {:induction false} Unchanged(list: EventList, kids: seq<(string, Tree)>, t: Tree, name: string)
    requires name in list && forall j :: 0 <= j < |kids| ==> kids[j].0 != name
    ensures name in AddDevices(list, kids, t) && AddDevices(list, kids, t)[name] == list[name]
    decreases |kids|
  {
    if kids != [] {
      Unchanged(AddDevice(list, kids[0], t), kids[1..], t, name);
    }
  }

  /** A device named more than once gets what the last child that is one says: its value, or what is found under its
      name. */
  lemma LastDeviceContent(t: Tree, i: nat)
    requires i < |t.kids| && IsDevice(t.kids[i])
    requires forall j :: i < j < |t.kids| ==> t.kids[j].0 != t.kids[i].0
    ensures var e := t.kids[i];
            e.0 in SubList(t) && SubList(t)[e.0] == if e.1.data != "" then [e.1.data] else ArrayOfStr(e.0, t)
  {
    ContentFrom(map[], t.kids, t, t.kids[i].0, i);
  }

  /** Under a name without a bar is found what its first child says: its value, or the values of its children. */
  lemma FoundUnder(t: Tree, name: string, i: nat)
    requires name != "" && '|' !in name && i < |t.kids| && t.kids[i].0 == name
    requires forall j :: 0 <= j < i ==> t.kids[j].0 != name
    ensures ArrayOfStr(name, t) == if t.kids[i].1.data != "" then [t.kids[i].1.data] else Values(t.kids[i].1.kids)
  {
    LineEnd(name, '|', |name|);
    assert FirstNamed(t.kids, name) == i;
    assert Walk(t, [name]) == Walk(t.kids[i].1, [name][1..]);
  }

  // ----- values and elements, child by child -----

  /** The values of children are the data of those that have some, in order. */
  lemma {:induction false} ValuesInOrder(kids: seq<(string, Tree)>, more: seq<(string, Tree)>, e: (string, Tree))
    ensures Values(kids + more) == Values(kids) + Values(more)
    ensures Values([e]) == if e.1.data != "" then [e.1.data] else []
    decreases |kids|
  {
    assert [e][1..] == [];
    if kids == [] {
      assert kids + more == more;
    } else {
      assert (kids + more)[1..] == kids[1..] + more;
      ValuesInOrder(kids[1..], more, e);
    }
  }

  /** A child that goes into an array: no name, and data. */
  predicate IsElement(e: (string, Tree)) {
    e.0 == "" && e.1.data != ""
  }

  function Datas(kids: seq<(string, Tree)>): (s: seq<string>)
    ensures |s| == |kids|
  {
    seq(|kids|, i requires 0 <= i < |kids| => kids[i].1.data)
  }

  /** An element without data is an array of its children's data if all are elements; the first that is not makes it an
      object, with the data before it, if it has a name, and else nothing. */
  lemma ShapeIs(kids: seq<(string, Tree)>, n: nat)
    requires n <= |kids| && (forall i :: 0 <= i < n ==> IsElement(kids[i])) && (n < |kids| ==> !IsElement(kids[n]))
    ensures ShapeOf(kids, [])
         == if n == |kids| then Shape(Datas(kids), false)
            else if kids[n].0 != "" then Shape(Datas(kids[..n]), true)
            else Shape([], false)
  {
    ShapeFrom(kids, [], n);
    assert [] + Datas(kids[..n]) == Datas(kids[..n]);
    assert n == |kids| ==> kids[..n] == kids;
  }

  lemma {:induction false} ShapeFrom(kids: seq<(string, Tree)>, seen: seq<string>, n: nat)
    requires n <= |kids| && (forall i :: 0 <= i < n ==> IsElement(kids[i])) && (n < |kids| ==> !IsElement(kids[n]))
    ensures ShapeOf(kids, seen)
         == if n < |kids| && kids[n].0 == "" then Shape([], false) else Shape(seen + Datas(kids[..n]), n < |kids|)
    decreases |kids|
  {
    if n > 0 {
      assert forall i :: 0 <= i < n - 1 ==> kids[1..][i] == kids[i + 1];
      ShapeFrom(kids[1..], seen + [kids[0].1.data], n - 1);
      assert seen + [kids[0].1.data] + Datas(kids[1..][..n - 1]) == seen + Datas(kids[..n]);
    } else {
      assert seen + Datas(kids[..0]) == seen;
    }
  }

  // ----- the id -----

  /** The last id that is not empty. */
  function LastId(kids: seq<(string, Tree)>): string {
    if kids == [] then ""
    else
      var n := |kids| - 1;
      if kids[n].0 == "id" && kids[n].1.data != "" then kids[n].1.data else LastId(kids[..n])
  }

  lemma {:induction false} FilledId(f: Filled, kids: seq<(string, Tree)>)
    requires !f.stopped && !FillAll(f, kids).stopped
    ensures FillAll(f, kids).id == if LastId(kids) != "" then LastId(kids) else f.id
    decreases |kids|
  {
    if kids != [] {
      FilledId(Fill(f, kids[0]), kids[1..]);
      LastIdFirst(kids);
    }
  }

  lemma {:induction false} LastIdFirst(kids: seq<(string, Tree)>)
    requires kids != []
    ensures LastId(kids)
         == if LastId(kids[1..]) != "" then LastId(kids[1..])
            else if kids[0].0 == "id" then kids[0].1.data else ""
    decreases |kids|
  {
    var n := |kids| - 1;
    if n > 0 {
      assert kids[1..][n - 1] == kids[n] && kids[1..][..n - 1] == kids[..n][1..];
      LastIdFirst(kids[..n]);
    }
  }

  /** The devices of a list are the names of the children that have a name, and children or a value. */
  lemma DeviceListed(t: Tree, name: string)
    ensures name in SubList(t) <==>
            exists i :: 0 <= i < |t.kids| && t.kids[i].0 == name != "" && (|t.kids[i].1.kids| > 0 || t.kids[i].1.data != "")
  {
    DevicesListed(map[], t.kids, t, name);
    if i :| 0 <= i < |t.kids| && t.kids[i].0 == name && IsDevice(t.kids[i]) {
      assert t.kids[i].0 == name != "";
    }
    if i :| 0 <= i < |t.kids| && t.kids[i].0 == name != "" && (|t.kids[i].1.kids| > 0 || t.kids[i].1.data != "") {
      assert IsDevice(t.kids[i]);
    }
  }
}
