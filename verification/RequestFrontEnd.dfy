/** The request front end in client mode: filling and checking a ParsedInputJson, and the handlers it is passed to.
    A lookup with at() is a map lookup here, which is well-formed only if the key is there. */
module RequestFrontEnd {
  import opened RequestInput
  import opened RequestSpec
  import StringProc

  // ----- what a request needs -----

  function ListOf(keys: Keys, k: string): EventList {
    if KindOf(keys, k) == Object then SubList(keys.obj[k]) else map[]
  }

  function ListsOf(keys: Keys): Lists {
    Lists(ListOf(keys, "periodic"), ListOf(keys, "change"), ListOf(keys, "user"), ListOf(keys, "archive"))
  }

  predicate IsCommand(t: ReqType) { t.Command? || t.CommandDev? || t.CommandGr? || t.CommandDevClient? }
  predicate IsPipe(t: ReqType) { t.PipeComm? || t.PipeCommDev? || t.PipeCommGr? }
  predicate IsWrite(t: ReqType) {
    t.AttributeWrite? || t.AttributeWriteDev? || t.AttributeWriteGr? || t.AttrDevClientWr?
  }
  predicate IsRead(t: ReqType) { t.AttributeRead? || t.AttributeReadGr? || t.AttributeReadDev? || t.AttrGrClient? }

  /** The type under which a request is handled. */
  function Normal(t: ReqType): ReqType {
    if IsCommand(t) then Command
    else if IsPipe(t) then PipeComm
    else if IsWrite(t) then AttributeWrite
    else if IsRead(t) then AttributeRead
    else t
  }

  predicate HasValue(keys: Keys, k: string) {
    KindOf(keys, k) == Value
  }

  /** The keys a request of a type must have. */
  predicate Needs(t: ReqType, keys: Keys) {
    match Normal(t)
    case Command => HasValue(keys, "command_name") && HasValue(keys, "device_name")
    case PipeComm => HasValue(keys, "pipe_name") && HasValue(keys, "device_name")
    case AttributeWrite => HasValue(keys, "attr_name") && HasValue(keys, "device_name")
    case AttributeRead =>
      (HasValue(keys, "attr_name") || KindOf(keys, "attr_name") == Array) && HasValue(keys, "device_name")
    case ChangeUser => HasValue(keys, "login") && HasValue(keys, "password")
    case EventReqAddDev => ListsOf(keys) != NO_LISTS
    case EventReqRemDev => HasValue(keys, "event_sub_id")
    case EventReqCheckDev => HasValue(keys, "event_type") && HasValue(keys, "device") && HasValue(keys, "attribute")
    case EventReqOff => true
    case UserCheckStatus => true
    case _ => false
  }

  /** A request that was taken in. */
  datatype Input = Input(isValid: bool, hasError: bool, id: string, text: string, type_: ReqType, keys: Keys,
                         lists: Lists)

  /** What the check makes of a request of a known type. */
  function Checked(i: Input): Input {
    var lists := if i.type_.EventReqAddDev? then ListsOf(i.keys) else i.lists;
    if Needs(i.type_, i.keys) then i.(isValid := true, type_ := Normal(i.type_), lists := lists)
    else i.(hasError := true, type_ := if i.type_.AttrDevClient? then Unknown else i.type_, lists := lists)
  }

  /** The request as it is when its keys are filled in: refused without a known type, and else checked. */
  function Finished(f: Filled): Input {
    var id := if f.id == "" then "null" else f.id;
    if f.type_ == Unknown then
      Input(false, true, id, if f.text == "" then "unknown_req" else f.text, Unknown, NO_KEYS, NO_LISTS)
    else Checked(Input(false, false, id, f.text, f.type_, f.keys, NO_LISTS))
  }

  function FilledFrom(tree: Option<Tree>): Filled {
    if tree.Some? && HasName(tree.value.kids, "type_req") then FillAll(EMPTY, tree.value.kids) else EMPTY
  }

  /** What is made of a JSON text; none if it does not parse. */
  function Parsed(tree: Option<Tree>): Input {
    Finished(FilledFrom(tree))
  }

  type Option<T> = StringProc.Option<T>

  // ----- the class -----

  class ParsedInputJson {
    var isValid: bool
    var hasError: bool
    var id: string
    var typeReqStr: string
    var typeReq: ReqType
    var otherInpVec: map<string, seq<string>>
    var otherInpStr: map<string, string>
    var otherInpObj: map<string, Tree>
    var periodicEvSubList: EventList
    var changeEvSubList: EventList
    var userEvSubList: EventList
    var archiveEvSubList: EventList

    function GetKeys(): Keys
      reads this
    {
      Keys(otherInpStr, otherInpVec, otherInpObj)
    }

    ghost function View(): Input
      reads this
    {
      Input(isValid, hasError, id, typeReqStr, typeReq, GetKeys(),
            Lists(periodicEvSubList, changeEvSubList, userEvSubList, archiveEvSubList))
    }

    constructor ()
      ensures View() == Input(false, false, "", "", Unknown, NO_KEYS, NO_LISTS)
    {
      isValid, hasError, id, typeReqStr, typeReq := false, false, "", "", Unknown;
      otherInpVec, otherInpStr, otherInpObj := map[], map[], map[];
      periodicEvSubList, changeEvSubList, userEvSubList, archiveEvSubList := map[], map[], map[], map[];
    }

    /** check_key. */
    function CheckKey(k: string): (r: Kind)
      reads this
      ensures r == KindOf(GetKeys(), k)
    {
      if k in otherInpStr then Value
      else if k in otherInpVec then Array
      else if k in otherInpObj then Object
      else Absent
    }

    predicate AllOf(keys: seq<string>, kind: Kind)
      reads this
    {
      forall i :: 0 <= i < |keys| ==> KindOf(GetKeys(), keys[i]) == kind
    }

    /** check_keys: the kind that all of the keys have, if there is one. */
    method CheckKeys(keys: seq<string>) returns (r: Kind)
      requires keys != []
      ensures forall kind: Kind :: kind != Absent ==> (r == kind <==> AllOf(keys, kind))
    {
      var fst := true;
      r := Absent;
      var i := 0;
      while i < |keys|
        invariant 0 <= i <= |keys| && (fst <==> i == 0)
        invariant i > 0 ==> r != Absent && forall j :: 0 <= j < i ==> CheckKey(keys[j]) == r
      {
        if fst {
          r := CheckKey(keys[i]);
          if r == Absent {
            return;
          }
          fst := false;
        }
        if CheckKey(keys[i]) != r {
          assert KindOf(GetKeys(), keys[0]) == r;
          r := Absent;
          return;
        }
        i := i + 1;
      }
      assert KindOf(GetKeys(), keys[0]) == r;
    }

    method Accept(t: ReqType)
      modifies this
      ensures View() == old(View()).(isValid := true, type_ := t)
    {
      isValid, typeReq := true, t;
    }

    method Reject()
      modifies this
      ensures View() == old(View()).(hasError := true)
    {
      hasError := true;
    }

    /** _getEventSubList. */
    static method GetEventSubList(t: Tree) returns (list: EventList)
      ensures list == SubList(t)
    {
      list := map[];
      var i := 0;
      while i < |t.kids|
        invariant 0 <= i <= |t.kids| && AddDevices(list, t.kids[i..], t) == SubList(t)
      {
        var (name, child) := t.kids[i];
        if name != "" {
          if |child.kids| > 0 {
            list := list[name := ArrayOfStr(name, t)];
          }
          if child.data != "" {
            list := list[name := [child.data]];
          }
        }
        i := i + 1;
      }
    }

    method EventSubList(k: string) returns (list: EventList)
      ensures list == ListOf(GetKeys(), k)
    {
      list := map[];
      if CheckKey(k) == Object {
        list := GetEventSubList(otherInpObj[k]);
      }
    }

    /** The four lists, and whether there is anything in them. */
    method EventSubLists() returns (l: Lists, any: bool)
      ensures l == ListsOf(GetKeys()) && (any <==> l != NO_LISTS)
    {
      var periodic := EventSubList("periodic");
      any := |periodic| > 0;
      var change := EventSubList("change");
      if !any {
        any := |change| > 0;
      }
      var user := EventSubList("user");
      if !any {
        any := |user| > 0;
      }
      var archive := EventSubList("archive");
      if !any {
        any := |archive| > 0;
      }
      l := Lists(periodic, change, user, archive);
    }

    method TakeLists(l: Lists, any: bool)
      modifies this
      ensures View() == WithLists(old(View()), l, any)
    {
      periodicEvSubList, changeEvSubList := l.periodic, l.change;
      userEvSubList, archiveEvSubList := l.user, l.archive;
      isValid := any;
      if !isValid {
        hasError := true;
      }
    }

    method CheckAddDev()
      requires !isValid && typeReq.EventReqAddDev?
      modifies this
      ensures View() == Checked(old(View()))
    {
      ghost var i := View();
      var l, any := EventSubLists();
      TakeLists(l, any);
      CheckedLists(i, l, any);
    }

    /** A request that has a device and one more key, here a value. */
    method CheckDeviceReq(key: string, t: ReqType)
      requires !isValid
      modifies this
      ensures View() == if HasValue(old(GetKeys()), key) && HasValue(old(GetKeys()), "device_name")
                        then old(View()).(isValid := true, type_ := t)
                        else old(View()).(hasError := true)
    {
      if CheckKey(key) != Value {
        Reject();
        return;
      }
      if CheckKey("device_name") != Value {
        Reject();
        return;
      }
      Accept(t);
    }

    method CheckRead()
      requires !isValid
      modifies this
      ensures var keys := old(GetKeys());
              View() == if (HasValue(keys, "attr_name") || KindOf(keys, "attr_name") == Array)
                           && HasValue(keys, "device_name")
                        then old(View()).(isValid := true, type_ := AttributeRead)
                        else old(View()).(hasError := true)
    {
      if CheckKey("attr_name") != Value && CheckKey("attr_name") != Array {
        Reject();
        return;
      }
      if CheckKey("device_name") != Value {
        Reject();
        return;
      }
      Accept(AttributeRead);
    }

    /** A request that needs some values and is handled under its own type. */
    method CheckValues(keys: seq<string>)
      requires !isValid && keys != []
      modifies this
      ensures View() == if old(AllOf(keys, Value)) then old(View()).(isValid := true)
                        else old(View()).(hasError := true)
    {
      var kind := CheckKeys(keys);
      assert kind == Value <==> AllOf(keys, Value);
      if kind != Value {
        Reject();
        return;
      }
      Accept(typeReq);
    }

    method CheckRemDev()
      requires !isValid && typeReq.EventReqRemDev?
      modifies this
      ensures View() == Checked(old(View()))
    {
      assert AllOf(["event_sub_id"], Value) <==> HasValue(GetKeys(), ["event_sub_id"][0]);
      CheckValues(["event_sub_id"]);
    }

    method CheckCheckDev()
      requires !isValid && typeReq.EventReqCheckDev?
      modifies this
      ensures View() == Checked(old(View()))
    {
      var keys := ["event_type", "device", "attribute"];
      assert AllOf(keys, Value) <==> HasValue(GetKeys(), keys[0]) && HasValue(GetKeys(), keys[1])
                                     && HasValue(GetKeys(), keys[2]);
      CheckValues(keys);
    }

    method CheckChangeUser()
      requires !isValid && typeReq.ChangeUser?
      modifies this
      ensures View() == Checked(old(View()))
    {
      var keys := ["login", "password"];
      assert AllOf(keys, Value) <==> HasValue(GetKeys(), keys[0]) && HasValue(GetKeys(), keys[1]);
      CheckValues(keys);
    }

    /** _checkValidity, for the event requests, which it tells apart by their text. */
    method CheckEvent() returns (done: bool)
      requires !isValid && TellsEvents(typeReqStr, typeReq)
      modifies this
      ensures done == IsEvent(old(typeReq))
      ensures View() == if done then Checked(old(View())) else old(View())
    {
      done := true;
      if StringProc.Find(typeReqStr, "eventreq_add_dev").Some? {
        CheckAddDev();
      } else if StringProc.Find(typeReqStr, "eventreq_rem_dev").Some? {
        CheckRemDev();
      } else if StringProc.Find(typeReqStr, "eventreq_check_dev").Some? {
        CheckCheckDev();
      } else if StringProc.Find(typeReqStr, "eventreq_off").Some? {
        Accept(typeReq);
      } else {
        done := false;
      }
    }

    method CheckDeviceReqs()
      requires !isValid && (IsCommand(typeReq) || IsPipe(typeReq) || IsWrite(typeReq) || IsRead(typeReq))
      modifies this
      ensures View() == Checked(old(View()))
    {
      if IsCommand(typeReq) {
        CheckDeviceReq("command_name", Command);
      } else if IsPipe(typeReq) {
        CheckDeviceReq("pipe_name", PipeComm);
      } else if IsWrite(typeReq) {
        CheckDeviceReq("attr_name", AttributeWrite);
      } else {
        CheckRead();
      }
    }

    /** _checkValidity, for the other requests. */
    method CheckOther()
      requires !isValid && !IsEvent(typeReq) && typeReq != Unknown
      modifies this
      ensures View() == Checked(old(View()))
    {
      if IsCommand(typeReq) || IsPipe(typeReq) || IsWrite(typeReq) || IsRead(typeReq) {
        CheckDeviceReqs();
      } else if typeReq == ChangeUser {
        CheckChangeUser();
      } else if typeReq == UserCheckStatus {
        Accept(typeReq);
      } else {
        isValid, hasError, typeReq := false, true, Unknown;
      }
    }

    method CheckValidity()
      requires !isValid && typeReq == TypeOf(typeReqStr) != Unknown
      modifies this
      ensures View() == Checked(old(View()))
    {
      TextTellsEvents(typeReqStr);
      var done := CheckEvent();
      if !done {
        CheckOther();
      }
    }
  }

  /** find on the text tells the event types apart. */
  predicate TellsEvents(text: string, t: ReqType) {
    && (StringProc.Find(text, "eventreq_add_dev").Some? <==> t.EventReqAddDev?)
    && (StringProc.Find(text, "eventreq_rem_dev").Some? <==> t.EventReqRemDev?)
    && (StringProc.Find(text, "eventreq_check_dev").Some? <==> t.EventReqCheckDev?)
    && (StringProc.Find(text, "eventreq_off").Some? <==> t.EventReqOff?)
  }

  lemma TellsAdd(text: string)
    requires TypeOf(text) != Unknown
    ensures StringProc.Find(text, "eventreq_add_dev").Some? <==> TypeOf(text).EventReqAddDev?
  {
    FindSays(text, "eventreq_add_dev");
  }

  lemma TellsRem(text: string)
    requires TypeOf(text) != Unknown
    ensures StringProc.Find(text, "eventreq_rem_dev").Some? <==> TypeOf(text).EventReqRemDev?
  {
    FindSays(text, "eventreq_rem_dev");
  }

  lemma TellsCheck(text: string)
    requires TypeOf(text) != Unknown
    ensures StringProc.Find(text, "eventreq_check_dev").Some? <==> TypeOf(text).EventReqCheckDev?
  {
    FindSays(text, "eventreq_check_dev");
  }

  lemma TellsOff(text: string)
    requires TypeOf(text) != Unknown
    ensures StringProc.Find(text, "eventreq_off").Some? <==> TypeOf(text).EventReqOff?
  {
    FindSays(text, "eventreq_off");
  }

  lemma TextTellsEvents(text: string)
    requires TypeOf(text) != Unknown
    ensures TellsEvents(text, TypeOf(text))
  {
    TellsAdd(text);
    TellsRem(text);
    TellsCheck(text);
    TellsOff(text);
  }

  function WithLists(i: Input, l: Lists, any: bool): Input {
    i.(isValid := any, hasError := i.hasError || !any, lists := l)
  }

  lemma CheckedLists(i: Input, l: Lists, any: bool)
    requires !i.isValid && i.type_.EventReqAddDev? && l == ListsOf(i.keys) && (any <==> l != NO_LISTS)
    ensures Checked(i) == WithLists(i, l, any)
  {
  }

  // ----- parsing -----

  /** The loop of parseInputJson. */
  method FillInput(p: ParsedInputJson, elems: seq<(string, Tree)>) returns (keys: Keys)
    requires p.View() == Input(false, false, "", "", Unknown, NO_KEYS, NO_LISTS)
    modifies p
    ensures var f := FillAll(EMPTY, elems);
            p.View() == Input(false, false, f.id, f.text, f.type_, NO_KEYS, NO_LISTS) && keys == f.keys
  {
    keys := NO_KEYS;
    var i := 0;
    while i < |elems|
      invariant 0 <= i <= |elems|
      invariant p.View() == Input(false, false, p.id, p.typeReqStr, p.typeReq, NO_KEYS, NO_LISTS)
      invariant FillAll(Filled(p.id, p.typeReqStr, p.typeReq, keys, false), elems[i..]) == FillAll(EMPTY, elems)
    {
      var (name, child) := elems[i];
      if name == "id" {
        if child.data != "" {
          p.id := child.data;
        }
      } else if name == "type_req" {
        if child.data == "" {
          p.typeReq := Unknown;
          return;
        }
        p.typeReqStr := child.data;
        p.typeReq := TypeOf(child.data);
      } else if child.data != "" {
        keys := keys.(str := keys.str[name := child.data]);
      } else {
        var shape := ReadShape(child.kids);
        if shape.isObject {
          keys := keys.(obj := keys.obj[name := child]);
        }
        if shape.vec != [] {
          keys := keys.(vec := keys.vec[name := shape.vec]);
        }
      }
      i := i + 1;
    }
  }

  /** The loop over the children of an element without data. */
  method ReadShape(kids: seq<(string, Tree)>) returns (shape: Shape)
    ensures shape == ShapeOf(kids, [])
  {
    var vec: seq<string> := [];
    var i := 0;
    while i < |kids|
      invariant 0 <= i <= |kids| && ShapeOf(kids[i..], vec) == ShapeOf(kids, [])
    {
      if kids[i].0 != "" {
        return Shape(vec, true);
      }
      if kids[i].1.data == "" {
        return Shape([], false);
      }
      vec := vec + [kids[i].1.data];
      i := i + 1;
    }
    return Shape(vec, false);
  }

  /** What follows the loop. */
  method FinishInput(p: ParsedInputJson, keys: Keys, ghost f: Filled)
    requires p.View() == Input(false, false, f.id, f.text, f.type_, NO_KEYS, NO_LISTS) && keys == f.keys
    requires f.type_ != Unknown ==> f.type_ == TypeOf(f.text)
    modifies p
    ensures p.View() == Finished(f)
  {
    if p.id == "" {
      p.id := "null";
    }
    if p.typeReq == Unknown {
      if p.typeReqStr == "" {
        p.typeReqStr := "unknown_req";
      }
      p.hasError := true;
      return;
    }
    p.otherInpStr, p.otherInpVec, p.otherInpObj := keys.str, keys.vec, keys.obj;
    p.CheckValidity();
  }

  method ParseInputJson(tree: Option<Tree>) returns (p: ParsedInputJson)
    ensures fresh(p) && p.View() == Parsed(tree)
  {
    p := new ParsedInputJson();
    var keys := NO_KEYS;
    if tree.Some? {
      FirstIsNamed(tree.value.kids, "type_req");
      if FirstNamed(tree.value.kids, "type_req") < |tree.value.kids| {
        keys := FillInput(p, tree.value.kids);
      }
    }
    TypeFilled(tree);
    FinishInput(p, keys, FilledFrom(tree));
  }

  lemma TypeFilled(tree: Option<Tree>)
    ensures var f := FilledFrom(tree); f.type_ != Unknown ==> !f.stopped && f.type_ == TypeOf(f.text)
  {
    if tree.Some? {
      FilledType(EMPTY, tree.value.kids);
    }
  }

  lemma FirstIsNamed(kids: seq<(string, Tree)>, name: string)
    ensures FirstNamed(kids, name) < |kids| <==> HasName(kids, name)
  {
  }

  // ----- accepting -----

  /** Which type each text stands for. */
  lemma TextTypes(s: string)
    ensures IsCommand(TypeOf(s)) <==> CommandText(s)
    ensures IsPipe(TypeOf(s)) <==> PipeText(s)
    ensures IsWrite(TypeOf(s)) <==> WriteText(s)
    ensures IsRead(TypeOf(s)) <==> ReadText(s)
    ensures TypeOf(s).ChangeUser? <==> s == "change_user_smpl"
    ensures TypeOf(s).UserCheckStatus? <==> s == "user_status"
  {
  }

  lemma FilledValueOf(kids: seq<(string, Tree)>, k: string)
    requires !FillAll(EMPTY, kids).stopped
    ensures var keys := FillAll(EMPTY, kids).keys;
            && (HasValue(keys, k) <==> TreeValue(kids, k))
            && (TreeValue(kids, k) ==> k in keys.str && keys.str[k] == ValueOf(kids, k))
  {
    FilledKind(kids, k);
    if TreeValue(kids, k) {
      FilledContent(EMPTY, kids, k, Value, LastIndex(kids, k, Value));
    }
  }

  lemma FilledArrayOf(kids: seq<(string, Tree)>, k: string)
    requires !FillAll(EMPTY, kids).stopped
    ensures var keys := FillAll(EMPTY, kids).keys;
            && (KindOf(keys, k) == Array <==> !TreeValue(kids, k) && SomePuts(kids, k, Array))
            && (SomePuts(kids, k, Array) ==> k in keys.vec && keys.vec[k] == ArrayOf(kids, k))
  {
    FilledKind(kids, k);
    if SomePuts(kids, k, Array) {
      FilledContent(EMPTY, kids, k, Array, LastIndex(kids, k, Array));
    }
  }

  lemma FilledList(kids: seq<(string, Tree)>, k: string)
    requires !FillAll(EMPTY, kids).stopped
    ensures ListOf(FillAll(EMPTY, kids).keys, k) == ListFrom(kids, k)
    ensures ListFrom(kids, k) != map[] <==> TreeList(kids, k)
  {
    FilledKind(kids, k);
    if TreeKind(kids, k) == Object {
      FilledContent(EMPTY, kids, k, Object, LastIndex(kids, k, Object));
      ListNotEmpty(ObjectOf(kids, k));
    }
  }

  function ListsFrom(kids: seq<(string, Tree)>): Lists {
    Lists(ListFrom(kids, "periodic"), ListFrom(kids, "change"), ListFrom(kids, "user"), ListFrom(kids, "archive"))
  }

  lemma FilledLists(kids: seq<(string, Tree)>)
    requires !FillAll(EMPTY, kids).stopped
    ensures ListsOf(FillAll(EMPTY, kids).keys) == ListsFrom(kids)
    ensures ListsFrom(kids) != NO_LISTS <==>
            TreeList(kids, "periodic") || TreeList(kids, "change") || TreeList(kids, "user") || TreeList(kids, "archive")
  {
    FilledList(kids, "periodic");
    FilledList(kids, "change");
    FilledList(kids, "user");
    FilledList(kids, "archive");
  }

  lemma FilledTwo(kids: seq<(string, Tree)>, k1: string, k2: string)
    requires !FillAll(EMPTY, kids).stopped
    ensures var keys := FillAll(EMPTY, kids).keys;
            HasValue(keys, k1) && HasValue(keys, k2) <==> TreeValue(kids, k1) && TreeValue(kids, k2)
  {
    FilledValueOf(kids, k1);
    FilledValueOf(kids, k2);
  }

  lemma FilledCheck(kids: seq<(string, Tree)>)
    requires !FillAll(EMPTY, kids).stopped
    ensures Needs(EventReqCheckDev, FillAll(EMPTY, kids).keys) <==>
              TreeValue(kids, "event_type") && TreeValue(kids, "device") && TreeValue(kids, "attribute")
  {
    FilledTwo(kids, "event_type", "device");
    FilledValueOf(kids, "attribute");
  }

  lemma FilledRead(kids: seq<(string, Tree)>)
    requires !FillAll(EMPTY, kids).stopped
    ensures Needs(AttributeRead, FillAll(EMPTY, kids).keys) <==>
              (TreeValue(kids, "attr_name") || SomePuts(kids, "attr_name", Array)) && TreeValue(kids, "device_name")
  {
    FilledArrayOf(kids, "attr_name");
    FilledTwo(kids, "attr_name", "device_name");
    FilledValueOf(kids, "device_name");
    FilledValueOf(kids, "attr_name");
  }

  lemma NeedsNormal(t: ReqType, keys: Keys)
    ensures Needs(t, keys) <==> Needs(Normal(t), keys)
  {
  }

  /** The keys filled in are what a type needs exactly if the children are what its text needs. */
  lemma FilledNeeds(text: string, kids: seq<(string, Tree)>)
    requires !FillAll(EMPTY, kids).stopped
    ensures Needs(TypeOf(text), FillAll(EMPTY, kids).keys) <==> TextNeeds(text, kids)
  {
    TextTypes(text);
    EventTypes(text);
    NeedsNormal(TypeOf(text), FillAll(EMPTY, kids).keys);
    if CommandText(text) {
      FilledTwo(kids, "command_name", "device_name");
    } else if PipeText(text) {
      FilledTwo(kids, "pipe_name", "device_name");
    } else if WriteText(text) {
      FilledTwo(kids, "attr_name", "device_name");
    } else if ReadText(text) {
      FilledRead(kids);
    } else {
      FilledOtherNeeds(text, kids);
    }
  }

  lemma FilledOtherNeeds(text: string, kids: seq<(string, Tree)>)
    requires !FillAll(EMPTY, kids).stopped
    requires !CommandText(text) && !PipeText(text) && !WriteText(text) && !ReadText(text)
    ensures Needs(TypeOf(text), FillAll(EMPTY, kids).keys) <==> TextNeeds(text, kids)
  {
    TextTypes(text);
    EventTypes(text);
    if text == "change_user_smpl" {
      FilledTwo(kids, "login", "password");
    } else if text == "eventreq_add_dev" {
      FilledLists(kids);
    } else if text == "eventreq_rem_dev" {
      FilledValueOf(kids, "event_sub_id");
    } else if text == "eventreq_check_dev" {
      FilledCheck(kids);
    }
  }

  lemma {:induction false} LastTextIs(kids: seq<(string, Tree)>, i: nat)
    requires LastNamed(kids, "type_req", i)
    ensures LastText(kids) == kids[i].1.data
    decreases |kids|
  {
    var n := |kids| - 1;
    if i < n {
      assert LastNamed(kids[..n], "type_req", i);
      LastTextIs(kids[..n], i);
    }
  }

  lemma {:induction false} NoText(kids: seq<(string, Tree)>)
    requires !HasName(kids, "type_req")
    ensures LastText(kids) == ""
    decreases |kids|
  {
    if kids != [] {
      var n := |kids| - 1;
      forall i | 0 <= i < n ensures kids[..n][i].0 != "type_req" {
        assert kids[..n][i] == kids[i];
      }
      NoText(kids[..n]);
    }
  }

  lemma FilledLast(kids: seq<(string, Tree)>)
    requires HasName(kids, "type_req")
    ensures FillAll(EMPTY, kids).stopped <==> !NoEmptyType(kids)
    ensures FillAll(EMPTY, kids).stopped ==> FillAll(EMPTY, kids).type_ == Unknown
    ensures NoEmptyType(kids) ==> FillAll(EMPTY, kids).text == LastText(kids) != ""
                                  && FillAll(EMPTY, kids).type_ == TypeOf(LastText(kids))
  {
    FilledType(EMPTY, kids);
    var i := LastOfName(kids, "type_req");
    LastTextIs(kids, i);
    if NoEmptyType(kids) {
      FilledText(EMPTY, kids, i);
    }
  }

  lemma FinishedValid(f: Filled)
    ensures Finished(f).isValid <==> f.type_ != Unknown && Needs(f.type_, f.keys)
    ensures Finished(f).hasError <==> !Finished(f).isValid
  {
  }

  lemma AcceptedNamed(kids: seq<(string, Tree)>)
    requires HasName(kids, "type_req")
    ensures var f := FillAll(EMPTY, kids); f.type_ != Unknown && Needs(f.type_, f.keys) <==> Acceptable(kids)
  {
    FilledLast(kids);
    if NoEmptyType(kids) {
      FilledNeeds(LastText(kids), kids);
    }
  }

  lemma NothingNeeded(kids: seq<(string, Tree)>)
    ensures !TextNeeds("", kids)
  {
  }

  /** A JSON tree is accepted exactly if it is acceptable; any other gets an error. */
  lemma AcceptedExactly(tree: Option<Tree>)
    ensures Parsed(tree).isValid <==> tree.Some? && Acceptable(tree.value.kids)
    ensures Parsed(tree).hasError <==> !Parsed(tree).isValid
  {
    FinishedValid(FilledFrom(tree));
    if tree.Some? {
      if HasName(tree.value.kids, "type_req") {
        AcceptedNamed(tree.value.kids);
      } else {
        NoText(tree.value.kids);
        NothingNeeded(tree.value.kids);
      }
    }
  }

  // ----- handling -----

  function At(keys: Keys, k: string): string
    requires HasValue(keys, k)
  {
    keys.str[k]
  }

  predicate IsGroup(keys: Keys) {
    HasValue(keys, "group_request") && At(keys, "group_request") == "true"
  }

  predicate IsEventType(s: string) {
    s == "change" || s == "periodic" || s == "user" || s == "archive"
  }

  /** A request that was accepted has the keys its type needs, and a type under which it is handled. */
  predicate Ready(i: Input) {
    && Needs(i.type_, i.keys) && Normal(i.type_) == i.type_ && NoEmptyValue(i.keys)
    && (StringProc.Find(i.text, "eventreq").Some? <==> IsEvent(i.type_))
    && (i.type_.EventReqAddDev? ==> i.lists == ListsOf(i.keys))
  }

  /** What an accepted request means. */
  function Meaning(i: Input, w: World): Outcome
    requires Ready(i)
  {
    match i.type_
    case UserCheckStatus => Status
    case ChangeUser => Authenticate(At(i.keys, "login"), At(i.keys, "password"))
    case Command =>
      var name := At(i.keys, "command_name");
      if !w.allowed then Denied
      else RunCommand(At(i.keys, "device_name"), name, IsGroup(i.keys), if w.permissionWww then name + "/write" else name)
    case AttributeWrite =>
      var name := At(i.keys, "attr_name");
      if !w.allowed then Denied
      else WriteAttribute(At(i.keys, "device_name"), name, IsGroup(i.keys),
                          if w.permissionWww then name + "/write" else name)
    case AttributeRead =>
      ReadAttributes(At(i.keys, "device_name"),
                     if HasValue(i.keys, "attr_name") then [At(i.keys, "attr_name")] else i.keys.vec["attr_name"],
                     IsGroup(i.keys))
    case PipeComm => ReadPipe(At(i.keys, "device_name"), At(i.keys, "pipe_name"), IsGroup(i.keys))
    case EventReqAddDev => AddEvents(i.lists)
    case EventReqOff => if w.subscribed then EventsOff else NotSubscribed
    case EventReqRemDev => if w.subscribed then RemoveEvent(At(i.keys, "event_sub_id")) else NotSubscribed
    case EventReqCheckDev =>
      if !w.subscribed then NotSubscribed
      else if !IsEventType(At(i.keys, "event_type")) then BadEventType
      else CheckEvent(At(i.keys, "event_type"), At(i.keys, "device"), At(i.keys, "attribute"))
  }

  /** Whatever the JSON, an accepted request is ready to be handled. */
  lemma AcceptedIsReady(tree: Option<Tree>)
    requires Parsed(tree).isValid
    ensures Ready(Parsed(tree))
  {
    var f := FilledFrom(tree);
    TypeFilled(tree);
    if tree.Some? {
      FilledValues(EMPTY, tree.value.kids);
    }
    TellsEventReq(f.text);
    NormalIsNormal(f.type_);
  }

  lemma NormalIsNormal(t: ReqType)
    ensures Normal(Normal(t)) == Normal(t) && (IsEvent(Normal(t)) <==> IsEvent(t))
    ensures Normal(t).EventReqAddDev? <==> t.EventReqAddDev?
  {
  }

  lemma TellsEventReq(text: string)
    requires TypeOf(text) != Unknown
    ensures StringProc.Find(text, "eventreq").Some? <==> IsEvent(TypeOf(text))
  {
    FindSays(text, "eventreq");
  }

  /** What there is of an accepted tree: the type its last text stands for, and the keys its children put. */
  lemma ParsedIs(tree: Option<Tree>)
    requires Parsed(tree).isValid
    ensures tree.Some? && Acceptable(tree.value.kids) && Ready(Parsed(tree))
    ensures var kids, i := tree.value.kids, Parsed(tree);
            && !FillAll(EMPTY, kids).stopped && i.keys == FillAll(EMPTY, kids).keys
            && i.type_ == Normal(TypeOf(LastText(kids)))
            && (i.type_.EventReqAddDev? ==> i.lists == ListsFrom(kids))
  {
    AcceptedExactly(tree);
    AcceptedIsReady(tree);
    var kids := tree.value.kids;
    if HasName(kids, "type_req") {
      FilledLast(kids);
      FilledLists(kids);
    } else {
      NoText(kids);
    }
  }

  /** The id of an accepted request is the last one given, if any is. */
  lemma AcceptedId(tree: Option<Tree>)
    requires Parsed(tree).isValid
    ensures tree.Some? && Parsed(tree).id == if LastId(tree.value.kids) == "" then "null" else LastId(tree.value.kids)
  {
    ParsedIs(tree);
    FilledId(EMPTY, tree.value.kids);
  }

  lemma FilledGroup(kids: seq<(string, Tree)>)
    requires !FillAll(EMPTY, kids).stopped
    ensures IsGroup(FillAll(EMPTY, kids).keys) <==> GroupAsked(kids)
  {
    FilledValueOf(kids, "group_request");
  }

  lemma CommandMeant(i: Input, kids: seq<(string, Tree)>, w: World)
    requires Acceptable(kids) && !FillAll(EMPTY, kids).stopped && i.keys == FillAll(EMPTY, kids).keys
    requires Ready(i) && i.type_ == Normal(TypeOf(LastText(kids))) && CommandText(LastText(kids))
    ensures Meaning(i, w) == Meant(kids, w)
  {
    TextTypes(LastText(kids));
    FilledGroup(kids);
    FilledValueOf(kids, "command_name");
    FilledValueOf(kids, "device_name");
  }

  lemma PipeMeant(i: Input, kids: seq<(string, Tree)>, w: World)
    requires Acceptable(kids) && !FillAll(EMPTY, kids).stopped && i.keys == FillAll(EMPTY, kids).keys
    requires Ready(i) && i.type_ == Normal(TypeOf(LastText(kids))) && PipeText(LastText(kids))
    ensures Meaning(i, w) == Meant(kids, w)
  {
    TextTypes(LastText(kids));
    FilledGroup(kids);
    FilledValueOf(kids, "pipe_name");
    FilledValueOf(kids, "device_name");
  }

  lemma WriteMeant(i: Input, kids: seq<(string, Tree)>, w: World)
    requires Acceptable(kids) && !FillAll(EMPTY, kids).stopped && i.keys == FillAll(EMPTY, kids).keys
    requires Ready(i) && i.type_ == Normal(TypeOf(LastText(kids))) && WriteText(LastText(kids))
    ensures Meaning(i, w) == Meant(kids, w)
  {
    TextTypes(LastText(kids));
    FilledGroup(kids);
    FilledValueOf(kids, "attr_name");
    FilledValueOf(kids, "device_name");
  }

  lemma ReadMeant(i: Input, kids: seq<(string, Tree)>, w: World)
    requires Acceptable(kids) && !FillAll(EMPTY, kids).stopped && i.keys == FillAll(EMPTY, kids).keys
    requires Ready(i) && i.type_ == Normal(TypeOf(LastText(kids))) && ReadText(LastText(kids))
    ensures Meaning(i, w) == Meant(kids, w)
  {
    TextTypes(LastText(kids));
    FilledGroup(kids);
    FilledValueOf(kids, "attr_name");
    FilledArrayOf(kids, "attr_name");
    FilledValueOf(kids, "device_name");
  }

  lemma UserMeant(i: Input, kids: seq<(string, Tree)>, w: World)
    requires Acceptable(kids) && !FillAll(EMPTY, kids).stopped && i.keys == FillAll(EMPTY, kids).keys
    requires Ready(i) && i.type_ == Normal(TypeOf(LastText(kids)))
    requires LastText(kids) == "change_user_smpl" || LastText(kids) == "user_status"
    ensures Meaning(i, w) == Meant(kids, w)
  {
    TextTypes(LastText(kids));
    FilledValueOf(kids, "login");
    FilledValueOf(kids, "password");
  }

  lemma EventMeant(i: Input, kids: seq<(string, Tree)>, w: World)
    requires Acceptable(kids) && !FillAll(EMPTY, kids).stopped && i.keys == FillAll(EMPTY, kids).keys
    requires Ready(i) && i.type_ == Normal(TypeOf(LastText(kids))) && IsEvent(i.type_)
    requires i.type_.EventReqAddDev? ==> i.lists == ListsFrom(kids)
    ensures Meaning(i, w) == Meant(kids, w)
  {
    TextTypes(LastText(kids));
    EventTypes(LastText(kids));
    FilledValueOf(kids, "event_sub_id");
    FilledValueOf(kids, "event_type");
    FilledValueOf(kids, "device");
    FilledValueOf(kids, "attribute");
  }

  /** What an accepted request means is what its tree says, by the text of its type. */
  lemma MeaningIsMeant(tree: Option<Tree>, w: World)
    requires Parsed(tree).isValid
    ensures tree.Some? && Acceptable(tree.value.kids) && Ready(Parsed(tree))
    ensures Meaning(Parsed(tree), w) == Meant(tree.value.kids, w)
  {
    ParsedIs(tree);
    var kids, i := tree.value.kids, Parsed(tree);
    var text := LastText(kids);
    TextTypes(text);
    if CommandText(text) {
      CommandMeant(i, kids, w);
    } else if PipeText(text) {
      PipeMeant(i, kids, w);
    } else if WriteText(text) {
      WriteMeant(i, kids, w);
    } else if ReadText(text) {
      ReadMeant(i, kids, w);
    } else if text == "change_user_smpl" || text == "user_status" {
      UserMeant(i, kids, w);
    } else {
      EventTypes(text);
      EventMeant(i, kids, w);
    }
  }

  /** Nobody logs in with empty credentials, or subscribes to nothing. */
  predicate Understood(o: Outcome) {
    && (o.Authenticate? ==> o.login != "" && o.password != "")
    && (o.AddEvents? ==> o.lists != NO_LISTS)
  }

  lemma MeaningUnderstood(tree: Option<Tree>, w: World)
    requires Parsed(tree).isValid
    ensures Ready(Parsed(tree)) && Understood(Meaning(Parsed(tree), w))
  {
    AcceptedIsReady(tree);
  }

  method SendRequestForAuth(p: ParsedInputJson) returns (o: Outcome)
    requires p.typeReq.ChangeUser? && Ready(p.View())
    ensures o == Authenticate(At(p.GetKeys(), "login"), At(p.GetKeys(), "password"))
  {
    var login := p.otherInpStr["login"];
    var pass := p.otherInpStr["password"];
    if login == "" || pass == "" {
      return EmptyCredentials;
    }
    o := Authenticate(login, pass);
  }

  /** getPermissionData: what permission is asked for; none for a type that needs none. */
  method PermissionFor(p: ParsedInputJson, www: bool) returns (r: Option<string>)
    requires Ready(p.View())
    ensures p.typeReq.Command? ==>
              var name := At(p.GetKeys(), "command_name"); r == StringProc.Some(if www then name + "/write" else name)
    ensures p.typeReq.AttributeWrite? ==>
              var name := At(p.GetKeys(), "attr_name"); r == StringProc.Some(if www then name + "/write" else name)
    ensures !p.typeReq.Command? && !p.typeReq.AttributeWrite? ==> r == if www then StringProc.Some("") else StringProc.None
  {
    if !www {
      if p.typeReq == Command {
        r := StringProc.Some(p.otherInpStr["command_name"]);
      } else if p.typeReq == AttributeWrite {
        r := StringProc.Some(p.otherInpStr["attr_name"]);
      } else {
        r := StringProc.None;
      }
    } else {
      r := StringProc.Some("");
      if p.typeReq == Command {
        r := StringProc.Some(p.otherInpStr["command_name"] + "/write");
      } else if p.typeReq == AttributeWrite {
        r := StringProc.Some(p.otherInpStr["attr_name"] + "/write");
      }
    }
  }

  method GroupRequested(p: ParsedInputJson) returns (group: bool)
    ensures group == IsGroup(p.GetKeys())
  {
    group := false;
    if p.CheckKey("group_request") == Value && p.otherInpStr["group_request"] == "true" {
      group := true;
    }
  }

  method AttributesToRead(p: ParsedInputJson) returns (names: seq<string>)
    requires HasValue(p.GetKeys(), "attr_name") || KindOf(p.GetKeys(), "attr_name") == Array
    ensures names == if HasValue(p.GetKeys(), "attr_name") then [At(p.GetKeys(), "attr_name")]
                     else p.GetKeys().vec["attr_name"]
  {
    names := [];
    if p.CheckKey("attr_name") == Value {
      names := [p.otherInpStr["attr_name"]];
    } else if p.CheckKey("attr_name") == Array {
      names := p.otherInpVec["attr_name"];
    }
  }

  /** sendRequestAsync, and what processAsyncReq does of it for the type. */
  method SendRequestAsync(p: ParsedInputJson, w: World) returns (o: Outcome)
    requires Ready(p.View()) && (p.typeReq.Command? || p.typeReq.AttributeWrite? || p.typeReq.AttributeRead?)
    ensures o == Meaning(p.View(), w)
  {
    var group := GroupRequested(p);
    var deviceName := p.otherInpStr["device_name"];
    if p.typeReq == Command || p.typeReq == AttributeWrite {
      var permission := PermissionFor(p, w.permissionWww);
      if permission.None? {
        return Unsupported;
      }
      if !w.allowed {
        return Denied;
      }
      if p.typeReq == Command {
        o := RunCommand(deviceName, p.otherInpStr["command_name"], group, permission.value);
      } else {
        o := WriteAttribute(deviceName, p.otherInpStr["attr_name"], group, permission.value);
      }
    } else if p.typeReq == AttributeRead {
      var names := AttributesToRead(p);
      o := ReadAttributes(deviceName, names, group);
    } else {
      o := Unsupported;
    }
  }

  /** sendRequest. */
  method SendRequest(p: ParsedInputJson, w: World) returns (o: Outcome)
    requires Ready(p.View())
    ensures o == if p.typeReq.PipeComm? then Meaning(p.View(), w) else Unsupported
  {
    if p.typeReq != PipeComm {
      return Unsupported;
    }
    var group := GroupRequested(p);
    o := ReadPipe(p.otherInpStr["device_name"], p.otherInpStr["pipe_name"], group);
  }

  /** _checkEventReq, up to the lookup of the subscription. */
  method CheckEventReq(p: ParsedInputJson) returns (o: Outcome)
    requires p.typeReq.EventReqCheckDev? && Ready(p.View())
    ensures o == Meaning(p.View(), World(true, true, true))
  {
    var eventType := p.otherInpStr["event_type"];
    if !IsEventType(eventType) {
      return BadEventType;
    }
    o := CheckEvent(eventType, p.otherInpStr["device"], p.otherInpStr["attribute"]);
  }

  /** sendRequest_Event and request: an event processor is there when one is used. */
  method SendRequestEvent(p: ParsedInputJson, w: World) returns (o: Outcome)
    requires Ready(p.View()) && IsEvent(p.typeReq)
    ensures o == Meaning(p.View(), w)
  {
    var processor := w.subscribed;
    if !processor && (p.typeReq == EventReqCheckDev || p.typeReq == EventReqOff || p.typeReq == EventReqRemDev) {
      return NotSubscribed;
    }
    if !processor && p.typeReq == EventReqAddDev {
      processor := true;
    }
    assert processor;
    if p.typeReq == EventReqAddDev {
      o := AddEvents(Lists(p.periodicEvSubList, p.changeEvSubList, p.userEvSubList, p.archiveEvSubList));
    } else if p.typeReq == EventReqOff {
      o := EventsOff;
    } else if p.typeReq == EventReqCheckDev {
      o := CheckEventReq(p);
    } else if p.typeReq == EventReqRemDev {
      o := RemoveEvent(p.otherInpStr["event_sub_id"]);
    } else {
      o := Unsupported;
    }
  }

  /** on_message, from the parsed request to the handler. */
  method Dispatch(p: ParsedInputJson, w: World) returns (o: Outcome)
    requires p.isValid ==> Ready(p.View())
    ensures o == if p.isValid then Meaning(p.View(), w) else Rejected
  {
    if !p.isValid {
      return Rejected;
    }
    if p.typeReq == UserCheckStatus {
      o := Status;
    } else if p.typeReq == ChangeUser {
      o := SendRequestForAuth(p);
    } else if p.typeReq == Command || p.typeReq == AttributeRead || p.typeReq == AttributeWrite {
      o := SendRequestAsync(p, w);
    } else if StringProc.Find(p.typeReqStr, "eventreq").Some? {
      o := SendRequestEvent(p, w);
    } else {
      o := SendRequest(p, w);
    }
  }

  /** A message is rejected exactly if its tree is not acceptable; what is set about for any other is what the tree says.
      So none reaches an answer for types that no handler knows, nor the one for empty credentials. */
  method OnMessage(tree: Option<Tree>, w: World) returns (o: Outcome)
    ensures o == if tree.Some? && Acceptable(tree.value.kids) then Meant(tree.value.kids, w) else Rejected
    ensures o !in {EmptyCredentials, Unsupported} && Understood(o)
  {
    AcceptedExactly(tree);
    var p := ParseInputJson(tree);
    if p.isValid {
      MeaningIsMeant(tree, w);
      MeaningUnderstood(tree, w);
    }
    o := Dispatch(p, w);
  }
}
