/** What an eventreq_add_dev is answered, and what state it leaves, by the request, the state before and Tango's answers
    alone: every device and attribute it names gets its response, whatever failed before it. */
module SubscriptionAnswers {
  import opened SubscriptionModel
  import opened SubscriptionRuns

  // ----- what the responses so far say -----

  /** A key that was subscribed to before, or that a response granted. */
  ghost predicate Had(m: Model, rs: seq<Resp>, k: Key) {
    k in m.subs || Granted(rs, k)
  }

  /** A device with such a key has its proxy. */
  ghost predicate HadDevice(m: Model, rs: seq<Resp>, dev: string) {
    exists k :: Had(m, rs, k) && k.dev == dev
  }

  /** How many of the responses took a call of subscribe_event: those about an attribute that was not subscribed to. */
  ghost function Calls(m: Model, rs: seq<Resp>): nat {
    if rs == [] then 0
    else
      var n := |rs| - 1;
      Calls(m, rs[..n]) + if rs[n].key.typ != "" && !Had(m, rs[..n], rs[n].key) then 1 else 0
  }

  /** The id given out with the first success for a key. */
  function FirstId(rs: seq<Resp>, k: Key): Option<int> {
    if rs == [] then None
    else
      var n := |rs| - 1;
      var id := FirstId(rs[..n], k);
      if id == None && rs[n].key == k && rs[n].kind == Success then rs[n].eventSubId else id
  }

  /** The event type of the last success for an attribute. */
  function LastType(rs: seq<Resp>, dev: string, attr: string): Option<string> {
    if rs == [] then None
    else
      var n := |rs| - 1;
      if rs[n].key.dev == dev && rs[n].key.attr == attr && rs[n].kind == Success then Some(rs[n].key.typ)
      else LastType(rs[..n], dev, attr)
  }

  // ----- answers -----

  /** The response to one attribute, after others: nothing changes for who listens already; a subscription there is gets
      one more listener, whose response has no id; else Tango decides, by its next answer. */
  ghost predicate Answer(o: Oracle, m: Model, h: Conn, before: seq<Resp>, k: Key, r: Resp) {
    if Listens(m, h, k) || Granted(before, k) then
      r == Resp(AddedEarly, k, if k in m.subs then Some(m.subs[k].id) else FirstId(before, k))
    else if k in m.subs then r == Resp(Success, k, None)
    else
      match o.subscribe(m.calls + Calls(m, before))
      case None => r == Resp(Failed, k, None)
      case Some(id) => r == Resp(Success, k, Some(id))
  }

  /** The responses to one device: a single failure exactly if it has no proxy and none can be made; else one for each of
      its attributes, in order. */
  ghost predicate DeviceAnswer(o: Oracle, m: Model, h: Conn, before: seq<Resp>, proxies: nat, d: DeviceAttrs, typ: string,
                               rs: seq<Resp>)
  {
    if !HadDevice(m, before, d.dev) && !o.connect(m.proxyCalls + proxies) then
      rs == [Resp(Failed, Key(d.dev, "", ""), None)]
    else AttrsAnswer(o, m, h, before, d.dev, d.attrs, typ, rs)
  }

  ghost predicate AttrsAnswer(o: Oracle, m: Model, h: Conn, before: seq<Resp>, dev: string, attrs: seq<AttrOpt>,
                              typ: string, rs: seq<Resp>)
  {
    && |rs| == |attrs|
    && forall j :: 0 <= j < |rs| ==> Answer(o, m, h, before + rs[..j], Key(dev, attrs[j].0, typ), rs[j])
  }

  ghost function Flat(parts: seq<seq<Resp>>): seq<Resp> {
    if parts == [] then [] else Flat(parts[..|parts| - 1]) + parts[|parts| - 1]
  }

  /** How often making a proxy was tried: once for each device without one. */
  ghost function Proxies(m: Model, before: seq<Resp>, ds: seq<DeviceAttrs>, parts: seq<seq<Resp>>): nat
    requires |parts| == |ds|
  {
    if ds == [] then 0
    else
      var n := |ds| - 1;
      Proxies(m, before, ds[..n], parts[..n])
      + if HadDevice(m, before + Flat(parts[..n]), ds[n].dev) then 0 else 1
  }

  /** The responses to a list: those to each of its devices, in order. */
  ghost predicate ListAnswer(o: Oracle, m: Model, h: Conn, before: seq<Resp>, proxies: nat, ds: seq<DeviceAttrs>,
                             typ: string, parts: seq<seq<Resp>>)
    decreases |ds|
  {
    && |parts| == |ds|
    && (ds != [] ==>
          var n := |ds| - 1;
          && ListAnswer(o, m, h, before, proxies, ds[..n], typ, parts[..n])
          && DeviceAnswerAt(o, m, h, before, proxies, ds, typ, parts, n))
  }

  /** Device i, after the devices before it. */
  ghost predicate DeviceAnswerAt(o: Oracle, m: Model, h: Conn, before: seq<Resp>, proxies: nat, ds: seq<DeviceAttrs>,
                                 typ: string, parts: seq<seq<Resp>>, i: nat)
    requires |parts| == |ds| && i < |ds|
  {
    DeviceAnswer(o, m, h, before + Flat(parts[..i]), proxies + Proxies(m, before, ds[..i], parts[..i]), ds[i], typ,
                 parts[i])
  }

  lemma {:induction false} EachDevice(o: Oracle, m: Model, h: Conn, before: seq<Resp>, proxies: nat,
                                      ds: seq<DeviceAttrs>, typ: string, parts: seq<seq<Resp>>, i: nat)
    requires ListAnswer(o, m, h, before, proxies, ds, typ, parts) && i < |ds|
    ensures |parts| == |ds| && DeviceAnswerAt(o, m, h, before, proxies, ds, typ, parts, i)
    decreases |ds|
  {
    var n := |ds| - 1;
    if i < n {
      EachDevice(o, m, h, before, proxies, ds[..n], typ, parts[..n], i);
      assert ds[..n][..i] == ds[..i] && parts[..n][..i] == parts[..i];
    }
  }

  // ----- the state, by the responses -----

  /** A subscription keeps its id; a new one has the id that its first success gave out. */
  ghost predicate IdsBy(m: Model, m': Model, rs: seq<Resp>) {
    forall k :: k in m'.subs ==> Some(m'.subs[k].id) == if k in m.subs then Some(m.subs[k].id) else FirstId(rs, k)
  }

  ghost predicate IndexBy(m: Model, m': Model, h: Conn, rs: seq<Resp>) {
    forall s :: EntryBy(m, m', h, rs, s)
  }

  /** The entry of h for an attribute names the type of the last success for it; all others are as they were. */
  ghost predicate EntryBy(m: Model, m': Model, h: Conn, rs: seq<Resp>, s: Slot) {
    var typ := LastType(rs, s.dev, s.attr);
    if s.conn == h && typ != None then s in m'.index && TypeName(m'.index[s]) == typ.value
    else (s in m'.index <==> s in m.index) && (s in m.index ==> m'.index[s] == m.index[s])
  }

  datatype Part = Listeners | Ids | Index | Counts

  ghost predicate StandsIn(part: Part, m: Model, m': Model, h: Conn, rs: seq<Resp>, proxies: nat) {
    match part
    case Listeners => Added(m, m', h, rs)
    case Ids => IdsBy(m, m', rs)
    case Index => IndexBy(m, m', h, rs)
    case Counts => m'.calls == m.calls + Calls(m, rs) && m'.proxyCalls == m.proxyCalls + proxies
  }

  /** Where a request of h stands after some responses. */
  ghost predicate Stands(m: Model, m': Model, h: Conn, rs: seq<Resp>, proxies: nat) {
    forall part :: StandsIn(part, m, m', h, rs, proxies)
  }

  lemma StandsAtFirst(m: Model, h: Conn)
    ensures Stands(m, m, h, [], 0)
  {
    AddedNothing(m, m, h, []);
    forall part ensures StandsIn(part, m, m, h, [], 0) {
      forall s ensures EntryBy(m, m, h, [], s) {
      }
    }
  }

  lemma StandsAll(m: Model, m': Model, h: Conn, rs: seq<Resp>, proxies: nat)
    ensures Stands(m, m', h, rs, proxies) <==>
            && Added(m, m', h, rs) && IdsBy(m, m', rs) && IndexBy(m, m', h, rs)
            && m'.calls == m.calls + Calls(m, rs) && m'.proxyCalls == m.proxyCalls + proxies
  {
    if Stands(m, m', h, rs, proxies) {
      assert StandsIn(Listeners, m, m', h, rs, proxies) && StandsIn(Ids, m, m', h, rs, proxies);
      assert StandsIn(Index, m, m', h, rs, proxies) && StandsIn(Counts, m, m', h, rs, proxies);
    }
  }

  // ----- one attribute -----

  lemma {:induction false} FirstIdGranted(rs: seq<Resp>, k: Key)
    ensures FirstId(rs, k) != None ==> Granted(rs, k)
  {
    if rs != [] {
      var n := |rs| - 1;
      FirstIdGranted(rs[..n], k);
      assert rs == rs[..n] + [rs[n]];
      GrantedConcat(rs[..n], [rs[n]], k);
      assert [rs[n]][0] == rs[n];
    }
  }

  lemma Last<T>(s: seq<T>, t: T)
    ensures (s + [t])[..|s|] == s && (s + [t])[|s|] == t && |s + [t]| == |s| + 1
  {
  }

  lemma OneAdded(o: Oracle, m: Model, m1: Model, h: Conn, rs: seq<Resp>, dev: string, a: AttrOpt, typ: EventType)
    requires Added(m, m1, h, rs)
    ensures var (m2, r) := AddOne(o, m1, h, dev, a, typ); Added(m, m2, h, rs + [r])
  {
    var (m2, r) := AddOne(o, m1, h, dev, a, typ);
    AddOneAdded(o, m1, h, dev, a, typ);
    AddedThen(m, m1, m2, h, rs, [r]);
  }

  lemma OneIds(o: Oracle, m: Model, m1: Model, h: Conn, rs: seq<Resp>, dev: string, a: AttrOpt, typ: EventType)
    requires Added(m, m1, h, rs) && IdsBy(m, m1, rs)
    ensures var (m2, r) := AddOne(o, m1, h, dev, a, typ); IdsBy(m, m2, rs + [r])
  {
    var (m2, r) := AddOne(o, m1, h, dev, a, typ);
    forall k | k in m2.subs
      ensures Some(m2.subs[k].id) == if k in m.subs then Some(m.subs[k].id) else FirstId(rs + [r], k)
    {
      FirstIdGranted(rs, k);
      FirstIdMore(rs, r, k);
    }
  }

  lemma FirstIdMore(rs: seq<Resp>, r: Resp, k: Key)
    ensures FirstId(rs + [r], k)
         == if FirstId(rs, k) == None && r.key == k && r.kind == Success then r.eventSubId else FirstId(rs, k)
  {
    Last(rs, r);
  }

  lemma OneIndex(o: Oracle, m: Model, m1: Model, h: Conn, rs: seq<Resp>, dev: string, a: AttrOpt, typ: EventType)
    requires IndexBy(m, m1, h, rs)
    ensures var (m2, r) := AddOne(o, m1, h, dev, a, typ); IndexBy(m, m2, h, rs + [r])
  {
    var (m2, r) := AddOne(o, m1, h, dev, a, typ);
    Last(rs, r);
    forall s ensures EntryBy(m, m2, h, rs + [r], s) {
      assert EntryBy(m, m1, h, rs, s);
    }
  }

  lemma OneCall(o: Oracle, m: Model, m1: Model, h: Conn, rs: seq<Resp>, dev: string, a: AttrOpt, typ: EventType)
    requires Added(m, m1, h, rs) && m1.calls == m.calls + Calls(m, rs)
    ensures var (m2, r) := AddOne(o, m1, h, dev, a, typ); m2.calls == m.calls + Calls(m, rs + [r])
    ensures AddOne(o, m1, h, dev, a, typ).0.proxyCalls == m1.proxyCalls
  {
    var (m2, r) := AddOne(o, m1, h, dev, a, typ);
    Last(rs, r);
    assert |TypeName(typ)| > 0;
  }

  lemma OneAnswer(o: Oracle, m: Model, m1: Model, h: Conn, rs: seq<Resp>, proxies: nat, dev: string, a: AttrOpt,
                  typ: EventType)
    requires Stands(m, m1, h, rs, proxies)
    ensures var (m2, r) := AddOne(o, m1, h, dev, a, typ);
            && Stands(m, m2, h, rs + [r], proxies) && Answer(o, m, h, rs, Key(dev, a.0, TypeName(typ)), r)
            && (r.kind == Success ==> Listens(m2, h, r.key) && m2.subs[r.key].listeners[h] == a.1)
  {
    StandsAll(m, m1, h, rs, proxies);
    StandsAll(m, AddOne(o, m1, h, dev, a, typ).0, h, rs + [AddOne(o, m1, h, dev, a, typ).1], proxies);
    OneAdded(o, m, m1, h, rs, dev, a, typ);
    OneIds(o, m, m1, h, rs, dev, a, typ);
    OneIndex(o, m, m1, h, rs, dev, a, typ);
    OneCall(o, m, m1, h, rs, dev, a, typ);
    var k := Key(dev, a.0, TypeName(typ));
    assert Listens(m1, h, k) <==> Listens(m, h, k) || Granted(rs, k);
    assert k in m1.subs <==> k in m.subs || Granted(rs, k);
  }

  // ----- a device -----

  /** Who succeeded listens with the precision asked for. */
  ghost predicate OptionsBy(m': Model, h: Conn, d: DeviceAttrs, rs: seq<Resp>) {
    forall j :: 0 <= j < |rs| && j < |d.attrs| && rs[j].kind == Success ==>
      Listens(m', h, rs[j].key) && m'.subs[rs[j].key].listeners[h] == d.attrs[j].1
  }

  lemma OptionsStay(m1: Model, m2: Model, h: Conn, d: DeviceAttrs, rs: seq<Resp>, more: seq<Resp>)
    requires OptionsBy(m1, h, d, rs) && Added(m1, m2, h, more)
    ensures OptionsBy(m2, h, d, rs)
  {
    forall j | 0 <= j < |rs| && j < |d.attrs| && rs[j].kind == Success
      ensures Listens(m2, h, rs[j].key) && m2.subs[rs[j].key].listeners[h] == d.attrs[j].1
    {
      assert Listens(m1, h, rs[j].key);
    }
  }

  lemma OneMoreAnswer(o: Oracle, m: Model, h: Conn, before: seq<Resp>, dev: string, attrs: seq<AttrOpt>, typ: string,
                      rs: seq<Resp>, r: Resp)
    requires attrs != [] && AttrsAnswer(o, m, h, before, dev, attrs[..|attrs| - 1], typ, rs)
    requires Answer(o, m, h, before + rs, Key(dev, attrs[|attrs| - 1].0, typ), r)
    ensures AttrsAnswer(o, m, h, before, dev, attrs, typ, rs + [r])
  {
    forall j | 0 <= j < |rs + [r]|
      ensures Answer(o, m, h, before + (rs + [r])[..j], Key(dev, attrs[j].0, typ), (rs + [r])[j])
    {
      if j < |rs| {
        assert (rs + [r])[..j] == rs[..j] && attrs[..|attrs| - 1][j] == attrs[j];
      } else {
        assert (rs + [r])[..j] == rs;
      }
    }
  }

  lemma OneMoreOption(m2: Model, m3: Model, h: Conn, dev: string, attrs: seq<AttrOpt>, rs: seq<Resp>, r: Resp)
    requires attrs != [] && |rs| == |attrs| - 1 && OptionsBy(m2, h, DeviceAttrs(dev, attrs[..|attrs| - 1]), rs)
    requires Added(m2, m3, h, [r])
    requires r.kind == Success ==> Listens(m3, h, r.key) && m3.subs[r.key].listeners[h] == attrs[|attrs| - 1].1
    ensures OptionsBy(m3, h, DeviceAttrs(dev, attrs), rs + [r])
  {
    OptionsStay(m2, m3, h, DeviceAttrs(dev, attrs[..|attrs| - 1]), rs, [r]);
  }

  lemma {:induction false} AttrsAnswered(o: Oracle, m: Model, m1: Model, h: Conn, before: seq<Resp>, proxies: nat,
                                         dev: string, attrs: seq<AttrOpt>, typ: EventType)
    requires Stands(m, m1, h, before, proxies)
    ensures var (m2, rs) := AddAttrs(o, m1, h, dev, attrs, typ);
            && Stands(m, m2, h, before + rs, proxies) && AttrsAnswer(o, m, h, before, dev, attrs, TypeName(typ), rs)
            && OptionsBy(m2, h, DeviceAttrs(dev, attrs), rs)
  {
    if attrs == [] {
      assert before + [] == before;
    } else {
      var n := |attrs| - 1;
      AttrsAnswered(o, m, m1, h, before, proxies, dev, attrs[..n], typ);
      var (m2, rs) := AddAttrs(o, m1, h, dev, attrs[..n], typ);
      var (m3, r) := AddOne(o, m2, h, dev, attrs[n], typ);
      OneAnswer(o, m, m2, h, before + rs, proxies, dev, attrs[n], typ);
      AddOneAdded(o, m2, h, dev, attrs[n], typ);
      OneMoreOption(m2, m3, h, dev, attrs, rs, r);
      OneMoreAnswer(o, m, h, before, dev, attrs, TypeName(typ), rs, r);
      assert before + (rs + [r]) == before + rs + [r];
    }
  }

  lemma InUseBy(m: Model, m1: Model, h: Conn, before: seq<Resp>, dev: string)
    requires Added(m, m1, h, before)
    ensures InUse(m1, dev) <==> HadDevice(m, before, dev)
  {
    if k :| k in m1.subs && k.dev == dev {
      assert Had(m, before, k);
    }
    if k :| Had(m, before, k) && k.dev == dev {
      assert k in m1.subs;
    }
  }

  lemma OneMoreProxy(m: Model, m1: Model, h: Conn, before: seq<Resp>, proxies: nat)
    requires Stands(m, m1, h, before, proxies)
    ensures Stands(m, m1.(proxyCalls := m1.proxyCalls + 1), h, before, proxies + 1)
  {
    var m2 := m1.(proxyCalls := m1.proxyCalls + 1);
    StandsAll(m, m1, h, before, proxies);
    StandsAll(m, m2, h, before, proxies + 1);
    assert Added(m, m2, h, before) by {
      AddedNothing(m1, m2, h, []);
      AddedThen(m, m1, m2, h, before, []);
      assert before + [] == before;
    }
    forall s ensures EntryBy(m, m2, h, before, s) {
      assert EntryBy(m, m1, h, before, s);
    }
  }

  lemma NoProxyAnswer(m: Model, m1: Model, h: Conn, before: seq<Resp>, proxies: nat, dev: string)
    requires Stands(m, m1, h, before, proxies)
    ensures Stands(m, m1, h, before + [Resp(Failed, Key(dev, "", ""), None)], proxies)
  {
    var r := Resp(Failed, Key(dev, "", ""), None);
    Last(before, r);
    StandsAll(m, m1, h, before, proxies);
    StandsAll(m, m1, h, before + [r], proxies);
    forall k ensures Granted(before + [r], k) <==> Granted(before, k) {
      GrantedConcat(before, [r], k);
    }
    AddedNothing(m1, m1, h, [r]);
    AddedThen(m, m1, m1, h, before, [r]);
    forall s ensures EntryBy(m, m1, h, before + [r], s) {
      assert EntryBy(m, m1, h, before, s);
    }
  }

  datatype Goal = Responses | State | Options | Growth

  ghost predicate DeviceDoneIn(g: Goal, o: Oracle, m: Model, m1: Model, m2: Model, h: Conn, before: seq<Resp>,
                               proxies: nat, d: DeviceAttrs, typ: string, rs: seq<Resp>)
  {
    match g
    case Responses => DeviceAnswer(o, m, h, before, proxies, d, typ, rs)
    case State => Stands(m, m2, h, before + rs, proxies + if HadDevice(m, before, d.dev) then 0 else 1)
    case Options => OptionsBy(m2, h, d, rs)
    case Growth => Added(m1, m2, h, rs)
  }

  /** A device is done: from m1 to m2, with these responses. */
  ghost predicate DeviceDone(o: Oracle, m: Model, m1: Model, m2: Model, h: Conn, before: seq<Resp>, proxies: nat,
                             d: DeviceAttrs, typ: string, rs: seq<Resp>)
  {
    forall g :: DeviceDoneIn(g, o, m, m1, m2, h, before, proxies, d, typ, rs)
  }

  /** All its attributes are answered, if it has its proxy or gets one. */
  lemma AttrsDone(o: Oracle, m: Model, m1: Model, m2: Model, h: Conn, before: seq<Resp>, proxies: nat, d: DeviceAttrs,
                  typ: string, rs: seq<Resp>)
    requires AttrsAnswer(o, m, h, before, d.dev, d.attrs, typ, rs) && OptionsBy(m2, h, d, rs) && Added(m1, m2, h, rs)
    requires HadDevice(m, before, d.dev) || o.connect(m.proxyCalls + proxies)
    requires Stands(m, m2, h, before + rs, proxies + if HadDevice(m, before, d.dev) then 0 else 1)
    ensures DeviceDone(o, m, m1, m2, h, before, proxies, d, typ, rs)
  {
    forall g ensures DeviceDoneIn(g, o, m, m1, m2, h, before, proxies, d, typ, rs) {
    }
  }

  lemma NoProxyDone(o: Oracle, m: Model, m1: Model, m2: Model, h: Conn, before: seq<Resp>, proxies: nat, d: DeviceAttrs,
                    typ: string, rs: seq<Resp>)
    requires !HadDevice(m, before, d.dev) && !o.connect(m.proxyCalls + proxies)
    requires rs == [Resp(Failed, Key(d.dev, "", ""), None)] && m2 == m1.(proxyCalls := m1.proxyCalls + 1)
    requires Stands(m, m2, h, before + rs, proxies + 1)
    ensures DeviceDone(o, m, m1, m2, h, before, proxies, d, typ, rs)
  {
    AddedNothing(m1, m2, h, rs);
    forall g ensures DeviceDoneIn(g, o, m, m1, m2, h, before, proxies, d, typ, rs) {
    }
  }

  /** The device has its proxy. */
  lemma UsedDeviceAnswered(o: Oracle, m: Model, m1: Model, m2: Model, h: Conn, before: seq<Resp>, proxies: nat,
                           d: DeviceAttrs, typ: EventType, rs: seq<Resp>)
    requires Stands(m, m1, h, before, proxies) && HadDevice(m, before, d.dev)
    requires (m2, rs) == AddAttrs(o, m1, h, d.dev, d.attrs, typ) && Added(m1, m2, h, rs)
    ensures DeviceDone(o, m, m1, m2, h, before, proxies, d, TypeName(typ), rs)
  {
    AttrsAnswered(o, m, m1, h, before, proxies, d.dev, d.attrs, typ);
    AttrsDone(o, m, m1, m2, h, before, proxies, d, TypeName(typ), rs);
  }

  /** It has not, and gets one. */
  lemma NewDeviceAnswered(o: Oracle, m: Model, m1: Model, m2: Model, h: Conn, before: seq<Resp>, proxies: nat,
                          d: DeviceAttrs, typ: EventType, rs: seq<Resp>)
    requires Stands(m, m1, h, before, proxies) && !HadDevice(m, before, d.dev) && o.connect(m.proxyCalls + proxies)
    requires (m2, rs) == AddAttrs(o, m1.(proxyCalls := m1.proxyCalls + 1), h, d.dev, d.attrs, typ) && Added(m1, m2, h, rs)
    ensures DeviceDone(o, m, m1, m2, h, before, proxies, d, TypeName(typ), rs)
  {
    OneMoreProxy(m, m1, h, before, proxies);
    AttrsAnswered(o, m, m1.(proxyCalls := m1.proxyCalls + 1), h, before, proxies + 1, d.dev, d.attrs, typ);
    AttrsDone(o, m, m1, m2, h, before, proxies, d, TypeName(typ), rs);
  }

  lemma DeviceAnswered(o: Oracle, m: Model, m1: Model, h: Conn, before: seq<Resp>, proxies: nat, d: DeviceAttrs,
                       typ: EventType)
    requires Stands(m, m1, h, before, proxies)
    ensures var (m2, rs) := AddDevice(o, m1, h, d, typ);
            DeviceDone(o, m, m1, m2, h, before, proxies, d, TypeName(typ), rs)
  {
    var (m2, rs) := AddDevice(o, m1, h, d, typ);
    StandsAll(m, m1, h, before, proxies);
    InUseBy(m, m1, h, before, d.dev);
    AddDeviceAdded(o, m1, h, d, typ);
    if InUse(m1, d.dev) {
      UsedDeviceAnswered(o, m, m1, m2, h, before, proxies, d, typ, rs);
    } else if o.connect(m1.proxyCalls) {
      NewDeviceAnswered(o, m, m1, m2, h, before, proxies, d, typ, rs);
    } else {
      OneMoreProxy(m, m1, h, before, proxies);
      NoProxyAnswer(m, m2, h, before, proxies + 1, d.dev);
      NoProxyDone(o, m, m1, m2, h, before, proxies, d, TypeName(typ), rs);
    }
  }

  // ----- a list -----

  ghost predicate AllOptionsBy(m': Model, h: Conn, ds: seq<DeviceAttrs>, parts: seq<seq<Resp>>)
    requires |parts| == |ds|
  {
    forall i :: 0 <= i < |ds| ==> OptionsBy(m', h, ds[i], parts[i])
  }

  lemma OneMoreDevice(o: Oracle, m: Model, h: Conn, before: seq<Resp>, proxies: nat, ds: seq<DeviceAttrs>, typ: string,
                      parts: seq<seq<Resp>>, rs: seq<Resp>)
    requires ds != [] && ListAnswer(o, m, h, before, proxies, ds[..|ds| - 1], typ, parts)
    requires var n := |ds| - 1;
             DeviceAnswer(o, m, h, before + Flat(parts), proxies + Proxies(m, before, ds[..n], parts), ds[n], typ, rs)
    ensures ListAnswer(o, m, h, before, proxies, ds, typ, parts + [rs]) && Flat(parts + [rs]) == Flat(parts) + rs
  {
    Last(parts, rs);
  }

  lemma OneMoreProxies(m: Model, before: seq<Resp>, ds: seq<DeviceAttrs>, parts: seq<seq<Resp>>, rs: seq<Resp>)
    requires ds != [] && |parts| == |ds| - 1
    ensures Proxies(m, before, ds, parts + [rs])
         == Proxies(m, before, ds[..|ds| - 1], parts)
            + if HadDevice(m, before + Flat(parts), ds[|ds| - 1].dev) then 0 else 1
  {
    Last(parts, rs);
  }

  lemma AllOptionsStay(m2: Model, m3: Model, h: Conn, ds: seq<DeviceAttrs>, parts: seq<seq<Resp>>, more: seq<Resp>)
    requires |parts| == |ds| && AllOptionsBy(m2, h, ds, parts) && Added(m2, m3, h, more)
    ensures AllOptionsBy(m3, h, ds, parts)
  {
    forall i | 0 <= i < |ds| ensures OptionsBy(m3, h, ds[i], parts[i]) {
      OptionsStay(m2, m3, h, ds[i], parts[i], more);
    }
  }

  lemma OneMoreOptions(m2: Model, m3: Model, h: Conn, ds: seq<DeviceAttrs>, parts: seq<seq<Resp>>, r: seq<Resp>)
    requires ds != [] && |parts| == |ds| - 1 && AllOptionsBy(m2, h, ds[..|ds| - 1], parts)
    requires Added(m2, m3, h, r) && OptionsBy(m3, h, ds[|ds| - 1], r)
    ensures AllOptionsBy(m3, h, ds, parts + [r])
  {
    AllOptionsStay(m2, m3, h, ds[..|ds| - 1], parts, r);
  }

  ghost predicate DoneIn(g: Goal, o: Oracle, m: Model, m': Model, h: Conn, before: seq<Resp>, proxies: nat,
                         ds: seq<DeviceAttrs>, typ: string, parts: seq<seq<Resp>>)
    requires |parts| == |ds|
  {
    match g
    case Responses => ListAnswer(o, m, h, before, proxies, ds, typ, parts)
    case State => Stands(m, m', h, before + Flat(parts), proxies + Proxies(m, before, ds, parts))
    case Options => AllOptionsBy(m', h, ds, parts)
    case Growth => true
  }

  /** A list is done: each of its devices has its responses, the state is what they say, and whoever was granted something
      listens with the precision asked for. */
  ghost predicate ListDone(o: Oracle, m: Model, m': Model, h: Conn, before: seq<Resp>, proxies: nat,
                           ds: seq<DeviceAttrs>, typ: string, parts: seq<seq<Resp>>)
    requires |parts| == |ds|
  {
    forall g :: DoneIn(g, o, m, m', h, before, proxies, ds, typ, parts)
  }

  /** One more device of a list. */
  lemma ListMore(o: Oracle, m: Model, m2: Model, m3: Model, h: Conn, before: seq<Resp>, proxies: nat,
                 ds: seq<DeviceAttrs>, typ: string, parts: seq<seq<Resp>>, r: seq<Resp>)
    requires ds != [] && |parts| == |ds| - 1
    requires ListDone(o, m, m2, h, before, proxies, ds[..|ds| - 1], typ, parts)
    requires DeviceDone(o, m, m2, m3, h, before + Flat(parts), proxies + Proxies(m, before, ds[..|ds| - 1], parts),
                        ds[|ds| - 1], typ, r)
    ensures ListDone(o, m, m3, h, before, proxies, ds, typ, parts + [r]) && Flat(parts + [r]) == Flat(parts) + r
  {
    var n := |ds| - 1;
    Last(parts, r);
    assert before + (Flat(parts) + r) == before + Flat(parts) + r;
    var b, p := before + Flat(parts), proxies + Proxies(m, before, ds[..n], parts);
    forall g ensures DoneIn(g, o, m, m3, h, before, proxies, ds, typ, parts + [r]) {
      assert DoneIn(g, o, m, m2, h, before, proxies, ds[..n], typ, parts);
      assert DeviceDoneIn(g, o, m, m2, m3, h, b, p, ds[n], typ, r);
      match g
      case Responses => OneMoreDevice(o, m, h, before, proxies, ds, typ, parts, r);
      case State => OneMoreProxies(m, before, ds, parts, r);
      case Options =>
        assert DeviceDoneIn(Growth, o, m, m2, m3, h, b, p, ds[n], typ, r);
        OneMoreOptions(m2, m3, h, ds, parts, r);
      case Growth =>
    }
  }

  lemma StandsAfter(o: Oracle, m: Model, m': Model, h: Conn, before: seq<Resp>, proxies: nat, ds: seq<DeviceAttrs>,
                    typ: string, parts: seq<seq<Resp>>)
    requires |parts| == |ds| && ListDone(o, m, m', h, before, proxies, ds, typ, parts)
    ensures Stands(m, m', h, before + Flat(parts), proxies + Proxies(m, before, ds, parts))
  {
    assert DoneIn(State, o, m, m', h, before, proxies, ds, typ, parts);
  }

  lemma NothingDone(o: Oracle, m: Model, m1: Model, h: Conn, before: seq<Resp>, proxies: nat, typ: string)
    requires Stands(m, m1, h, before, proxies)
    ensures ListDone(o, m, m1, h, before, proxies, [], typ, [])
  {
    assert before + [] == before;
    forall g ensures DoneIn(g, o, m, m1, h, before, proxies, [], typ, []) {
    }
  }

  /** Every list is done, whatever fails in it. */
  lemma {:induction false} ListAnswered(o: Oracle, m: Model, m1: Model, h: Conn, before: seq<Resp>, proxies: nat,
                                        ds: seq<DeviceAttrs>, typ: EventType)
    returns (parts: seq<seq<Resp>>)
    requires Stands(m, m1, h, before, proxies)
    ensures |parts| == |ds| && AddList(o, m1, h, ds, typ).1 == Flat(parts)
    ensures ListDone(o, m, AddList(o, m1, h, ds, typ).0, h, before, proxies, ds, TypeName(typ), parts)
  {
    if ds == [] {
      parts := [];
      NothingDone(o, m, m1, h, before, proxies, TypeName(typ));
    } else {
      var n := |ds| - 1;
      var parts1 := ListAnswered(o, m, m1, h, before, proxies, ds[..n], typ);
      var m2 := AddList(o, m1, h, ds[..n], typ).0;
      StandsAfter(o, m, m2, h, before, proxies, ds[..n], TypeName(typ), parts1);
      DeviceAnswered(o, m, m2, h, before + Flat(parts1), proxies + Proxies(m, before, ds[..n], parts1), ds[n], typ);
      var (m3, r) := AddDevice(o, m2, h, ds[n], typ);
      ListMore(o, m, m2, m3, h, before, proxies, ds, TypeName(typ), parts1, r);
      parts := parts1 + [r];
    }
  }

  // ----- a request -----

  /** The responses to the four lists of a request, by device. */
  datatype Parts = Parts(periodic: seq<seq<Resp>>, change: seq<seq<Resp>>, archive: seq<seq<Resp>>, user: seq<seq<Resp>>)

  /** The order in which the lists are handled. */
  function Rank(t: EventType): (r: nat)
    ensures r <= 3
  {
    match t case Periodic => 0 case Change => 1 case Archive => 2 case User => 3
  }

  ghost predicate Fits(q: AddReq, a: Parts) {
    |a.periodic| == |q.periodic| && |a.change| == |q.change| && |a.archive| == |q.archive| && |a.user| == |q.user|
  }

  /** The responses before those to a list: the order is periodic, change, archive, user. */
  ghost function Before(t: EventType, a: Parts): seq<Resp> {
    match t
    case Periodic => []
    case Change => Flat(a.periodic)
    case Archive => Flat(a.periodic) + Flat(a.change)
    case User => Flat(a.periodic) + Flat(a.change) + Flat(a.archive)
  }

  /** How often making a proxy was tried before it. */
  ghost function Tried(t: EventType, m: Model, q: AddReq, a: Parts): nat
    requires Fits(q, a)
    decreases Rank(t)
  {
    match t
    case Periodic => 0
    case Change => Proxies(m, [], q.periodic, a.periodic)
    case Archive => Tried(Change, m, q, a) + Proxies(m, Before(Change, a), q.change, a.change)
    case User => Tried(Archive, m, q, a) + Proxies(m, Before(Archive, a), q.archive, a.archive)
  }

  ghost predicate AnswerOf(t: EventType, o: Oracle, m: Model, h: Conn, q: AddReq, a: Parts)
    requires Fits(q, a)
  {
    match t
    case Periodic => ListAnswer(o, m, h, [], 0, q.periodic, "periodic", a.periodic)
    case Change => ListAnswer(o, m, h, Before(t, a), Tried(t, m, q, a), q.change, "change", a.change)
    case Archive => ListAnswer(o, m, h, Before(t, a), Tried(t, m, q, a), q.archive, "archive", a.archive)
    case User => ListAnswer(o, m, h, Before(t, a), Tried(t, m, q, a), q.user, "user", a.user)
  }

  ghost predicate OptionsOf(t: EventType, m': Model, h: Conn, q: AddReq, a: Parts)
    requires Fits(q, a)
  {
    match t
    case Periodic => AllOptionsBy(m', h, q.periodic, a.periodic)
    case Change => AllOptionsBy(m', h, q.change, a.change)
    case Archive => AllOptionsBy(m', h, q.archive, a.archive)
    case User => AllOptionsBy(m', h, q.user, a.user)
  }

  lemma ListOptions(o: Oracle, m: Model, m': Model, h: Conn, before: seq<Resp>, proxies: nat, ds: seq<DeviceAttrs>,
                    typ: string, parts: seq<seq<Resp>>, m'': Model, more: seq<Resp>)
    requires |parts| == |ds| && ListDone(o, m, m', h, before, proxies, ds, typ, parts) && Added(m', m'', h, more)
    ensures AllOptionsBy(m'', h, ds, parts)
  {
    assert DoneIn(Options, o, m, m', h, before, proxies, ds, typ, parts);
    AllOptionsStay(m', m'', h, ds, parts, more);
  }

  function ListOf(t: EventType, q: AddReq): seq<DeviceAttrs> {
    match t case Periodic => q.periodic case Change => q.change case Archive => q.archive case User => q.user
  }

  function PartsOf(t: EventType, a: Parts): seq<seq<Resp>> {
    match t case Periodic => a.periodic case Change => a.change case Archive => a.archive case User => a.user
  }

  /** The state after the list of one type. */
  ghost function After(t: EventType, o: Oracle, m: Model, h: Conn, q: AddReq): Model
    decreases Rank(t)
  {
    var m1 := match t
              case Periodic => m
              case Change => After(Periodic, o, m, h, q)
              case Archive => After(Change, o, m, h, q)
              case User => After(Archive, o, m, h, q);
    AddList(o, m1, h, ListOf(t, q), t).0
  }

  ghost predicate ListDoneOf(t: EventType, o: Oracle, m: Model, h: Conn, q: AddReq, a: Parts)
    requires Fits(q, a)
  {
    ListDone(o, m, After(t, o, m, h, q), h, Before(t, a), Tried(t, m, q, a), ListOf(t, q), TypeName(t), PartsOf(t, a))
  }

  ghost predicate DidIn(g: Goal, o: Oracle, h: Conn, m1: Model, ds: seq<DeviceAttrs>, typ: EventType, m2: Model,
                        rs: seq<Resp>)
  {
    (m2, rs) == AddList(o, m1, h, ds, typ)
  }

  /** The list brings m1 to m2, with these responses; the quantifier keeps the list's function out of the proofs below. */
  ghost predicate Did(o: Oracle, h: Conn, m1: Model, ds: seq<DeviceAttrs>, typ: EventType, m2: Model, rs: seq<Resp>) {
    forall g :: DidIn(g, o, h, m1, ds, typ, m2, rs)
  }

  lemma OneMoreList(o: Oracle, m: Model, m1: Model, m2: Model, h: Conn, before: seq<Resp>, proxies: nat,
                    ds: seq<DeviceAttrs>, typ: EventType, rs: seq<Resp>)
    returns (parts: seq<seq<Resp>>, proxies': nat)
    requires Stands(m, m1, h, before, proxies) && Did(o, h, m1, ds, typ, m2, rs)
    ensures |parts| == |ds| && ListDone(o, m, m2, h, before, proxies, ds, TypeName(typ), parts)
    ensures rs == Flat(parts) && proxies' == proxies + Proxies(m, before, ds, parts)
    ensures Stands(m, m2, h, before + rs, proxies')
  {
    assert DidIn(State, o, h, m1, ds, typ, m2, rs);
    parts := ListAnswered(o, m, m1, h, before, proxies, ds, typ);
    proxies' := proxies + Proxies(m, before, ds, parts);
    StandsAfter(o, m, m2, h, before, proxies, ds, TypeName(typ), parts);
  }

  /** The four lists one after the other, from state to state. */
  lemma FourLists(o: Oracle, m: Model, ms: seq<Model>, rs: seq<seq<Resp>>, h: Conn, q: AddReq) returns (a: Parts)
    requires |ms| == 4 && |rs| == 4
    requires Did(o, h, m, q.periodic, Periodic, ms[0], rs[0]) && Did(o, h, ms[0], q.change, Change, ms[1], rs[1])
    requires Did(o, h, ms[1], q.archive, Archive, ms[2], rs[2]) && Did(o, h, ms[2], q.user, User, ms[3], rs[3])
    ensures Fits(q, a)
    ensures rs == [Flat(a.periodic), Flat(a.change), Flat(a.archive), Flat(a.user)]
    ensures ListDone(o, m, ms[0], h, [], 0, q.periodic, TypeName(Periodic), a.periodic)
    ensures ListDone(o, m, ms[1], h, Before(Change, a), Tried(Change, m, q, a), q.change, TypeName(Change), a.change)
    ensures ListDone(o, m, ms[2], h, Before(Archive, a), Tried(Archive, m, q, a), q.archive, TypeName(Archive), a.archive)
    ensures ListDone(o, m, ms[3], h, Before(User, a), Tried(User, m, q, a), q.user, TypeName(User), a.user)
    ensures Stands(m, ms[3], h, Before(User, a) + Flat(a.user),
                   Tried(User, m, q, a) + Proxies(m, Before(User, a), q.user, a.user))
  {
    StandsAtFirst(m, h);
    var p1, n1 := OneMoreList(o, m, m, ms[0], h, [], 0, q.periodic, Periodic, rs[0]);
    assert [] + rs[0] == rs[0];
    var p2, n2 := OneMoreList(o, m, ms[0], ms[1], h, rs[0], n1, q.change, Change, rs[1]);
    var p3, n3 := OneMoreList(o, m, ms[1], ms[2], h, rs[0] + rs[1], n2, q.archive, Archive, rs[2]);
    var p4, n4 := OneMoreList(o, m, ms[2], ms[3], h, rs[0] + rs[1] + rs[2], n3, q.user, User, rs[3]);
    a := Parts(p1, p2, p3, p4);
    TriedFour(m, q, a, n1, n2, n3);
  }

  lemma RequestLists(o: Oracle, m: Model, h: Conn, q: AddReq) returns (a: Parts)
    ensures Fits(q, a) && AddRequest(o, m, h, q).1 == Before(User, a) + Flat(a.user)
    ensures AddRequest(o, m, h, q).0 == After(User, o, m, h, q)
    ensures forall t :: ListDoneOf(t, o, m, h, q, a)
    ensures Stands(m, After(User, o, m, h, q), h, Before(User, a) + Flat(a.user),
                   Tried(User, m, q, a) + Proxies(m, Before(User, a), q.user, a.user))
  {
    var m1, r1 := After(Periodic, o, m, h, q), AddList(o, m, h, q.periodic, Periodic).1;
    var m2, r2 := After(Change, o, m, h, q), AddList(o, m1, h, q.change, Change).1;
    var m3, r3 := After(Archive, o, m, h, q), AddList(o, m2, h, q.archive, Archive).1;
    var m4, r4 := After(User, o, m, h, q), AddList(o, m3, h, q.user, User).1;
    a := FourLists(o, m, [m1, m2, m3, m4], [r1, r2, r3, r4], h, q);
    forall t ensures ListDoneOf(t, o, m, h, q, a) {
      match t case Periodic => case Change => case Archive => case User =>
    }
  }

  lemma TriedFour(m: Model, q: AddReq, a: Parts, n1: nat, n2: nat, n3: nat)
    requires Fits(q, a) && n1 == Proxies(m, [], q.periodic, a.periodic)
    requires n2 == n1 + Proxies(m, Flat(a.periodic), q.change, a.change)
    requires n3 == n2 + Proxies(m, Flat(a.periodic) + Flat(a.change), q.archive, a.archive)
    ensures Tried(Periodic, m, q, a) == 0 && Tried(Change, m, q, a) == n1
    ensures Tried(Archive, m, q, a) == n2 && Tried(User, m, q, a) == n3
  {
  }

  lemma AnswerFrom(t: EventType, o: Oracle, m: Model, h: Conn, q: AddReq, a: Parts)
    requires Fits(q, a) && ListDoneOf(t, o, m, h, q, a)
    ensures AnswerOf(t, o, m, h, q, a)
  {
    var m1 := After(t, o, m, h, q);
    assert DoneIn(Responses, o, m, m1, h, Before(t, a), Tried(t, m, q, a), ListOf(t, q), TypeName(t), PartsOf(t, a));
  }

  lemma OptionsFrom(t: EventType, o: Oracle, m: Model, h: Conn, q: AddReq, a: Parts) returns (more: seq<Resp>)
    requires Fits(q, a) && ListDoneOf(t, o, m, h, q, a)
    ensures OptionsOf(t, After(User, o, m, h, q), h, q, a)
  {
    var m1, m4 := After(t, o, m, h, q), After(User, o, m, h, q);
    more := LaterLists(t, o, m, h, q);
    ListOptions(o, m, m1, h, Before(t, a), Tried(t, m, q, a), ListOf(t, q), TypeName(t), PartsOf(t, a), m4, more);
  }

  /** A request is answered list by list, each with its event type: every device and attribute has its response, decided
      by the state before, the responses before and Tango's answers alone. The state is what the responses say, and who was
      granted something listens with the precision asked for. */
  lemma RequestAnswered(o: Oracle, m: Model, h: Conn, q: AddReq) returns (a: Parts)
    ensures Fits(q, a)
    ensures var (m', rs) := AddRequest(o, m, h, q);
            && rs == Before(User, a) + Flat(a.user)
            && Stands(m, m', h, rs, Tried(User, m, q, a) + Proxies(m, Before(User, a), q.user, a.user))
            && forall t :: AnswerOf(t, o, m, h, q, a) && OptionsOf(t, m', h, q, a)
  {
    a := RequestLists(o, m, h, q);
    var m4 := After(User, o, m, h, q);
    forall t ensures AnswerOf(t, o, m, h, q, a) && OptionsOf(t, m4, h, q, a) {
      assert ListDoneOf(t, o, m, h, q, a);
      AnswerFrom(t, o, m, h, q, a);
      var _ := OptionsFrom(t, o, m, h, q, a);
    }
  }

  /** The lists after one only add listeners. */
  lemma LaterLists(t: EventType, o: Oracle, m: Model, h: Conn, q: AddReq) returns (more: seq<Resp>)
    ensures Added(After(t, o, m, h, q), After(User, o, m, h, q), h, more)
    decreases 3 - Rank(t), 0
  {
    var m1, m4 := After(t, o, m, h, q), After(User, o, m, h, q);
    match t
    case User =>
      more := [];
      AddedNothing(m4, m4, h, []);
    case Archive => more := NextLists(User, o, m, h, q, m1);
    case Change => more := NextLists(Archive, o, m, h, q, m1);
    case Periodic => more := NextLists(Change, o, m, h, q, m1);
  }

  lemma NextLists(t: EventType, o: Oracle, m: Model, h: Conn, q: AddReq, m1: Model) returns (more: seq<Resp>)
    requires t != Periodic && After(t, o, m, h, q) == AddList(o, m1, h, ListOf(t, q), t).0
    ensures Added(m1, After(User, o, m, h, q), h, more)
    decreases 3 - Rank(t), 1
  {
    var (m2, r) := AddList(o, m1, h, ListOf(t, q), t);
    AddListAdded(o, m1, h, ListOf(t, q), t);
    var rest := LaterLists(t, o, m, h, q);
    AddedThen(m1, m2, After(User, o, m, h, q), h, r, rest);
    more := r + rest;
  }

  // ----- the other requests -----

  /** A check changes nothing; it knows four event types, and gives the id of a subscription that h listens to. */
  lemma CheckAnswered(o: Oracle, m: Model, h: Conn, k: Key)
    ensures var known := k.typ == "periodic" || k.typ == "change" || k.typ == "archive" || k.typ == "user";
            Step(o, m, h, CheckDev(k))
            == (m, if !known then NotValid else if Listens(m, h, k) then SubscriptionId(m.subs[k].id) else NotFound)
  {
  }

  /** What becomes of the subscriptions when h leaves the keys in ks: nothing else changes, and those that nobody listens
      to any more are gone. */
  ghost predicate Left(m: Model, m': Model, h: Conn, ks: iset<Key>) {
    && (forall k :: k in m'.subs <==> k in m.subs && !(k in ks && forall c :: c in m.subs[k].listeners ==> c == h))
    && (forall k :: k in m'.subs ==> m'.subs[k].id == m.subs[k].id)
    && (forall c, k :: Listens(m', c, k) <==> Listens(m, c, k) && !(c == h && k in ks))
    && (forall c, k :: Listens(m', c, k) ==> m'.subs[k].listeners[c] == m.subs[k].listeners[c])
    && m'.calls == m.calls && m'.proxyCalls == m.proxyCalls && m'.issued == m.issued
  }

  lemma DropAllLeft(m: Model, h: Conn, ks: set<Key>, index: map<Slot, EventType>, left: iset<Key>)
    requires SubsInv(m) && forall k :: k in m.subs && h in m.subs[k].listeners ==> (k in ks <==> k in left)
    requires forall k :: k in m.subs && k in ks ==> h in m.subs[k].listeners || k in left
    ensures Left(m, DropAll(m, h, ks).(index := index), h, left)
  {
    var m' := DropAll(m, h, ks).(index := index);
    forall k | k in m.subs
      ensures m.subs[k].listeners.Keys <= {h} <==> forall c :: c in m.subs[k].listeners ==> c == h
      ensures m.subs[k].listeners.Keys <= {h} ==> h in m.subs[k].listeners
    {
      var c :| c in m.subs[k].listeners;
    }
    forall c, k
      ensures Listens(m', c, k) <==> Listens(m, c, k) && !(c == h && k in left)
      ensures Listens(m', c, k) ==> m'.subs[k].listeners[c] == m.subs[k].listeners[c]
    {
      DropAllListens(m, h, ks, c, k);
    }
  }

  /** A removal by an id that no subscription has is answered so, and changes nothing. */
  lemma RemoveUnknown(o: Oracle, m: Model, h: Conn, id: Option<int>)
    requires id == None || forall k :: k in m.subs ==> m.subs[k].id != id.value
    ensures Step(o, m, h, RemDev(id)) == (m, NotFound)
  {
  }

  /** By the id of a subscription, whoever's it is, h leaves that subscription, and its index entry for the attribute is
      erased. */
  lemma RemoveAnswered(o: Oracle, m: Model, h: Conn, k: Key)
    requires Inv(o, m) && k in m.subs
    ensures var (m', reply) := Step(o, m, h, RemDev(Some(m.subs[k].id)));
            && reply == Done && Left(m, m', h, iset{k})
            && (forall s :: s in m'.index <==> s in m.index && s != Slot(h, k.dev, k.attr))
            && (forall s :: s in m'.index ==> m'.index[s] == m.index[s])
  {
    assert KeyOfId(m, m.subs[k].id) == Some(k);
    var index := m.index - {Slot(h, k.dev, k.attr)};
    DropAllLeft(m, h, {k}, index, iset{k});
  }

  /** The index entry of h for the attribute names the event type. */
  ghost predicate Named(m: Model, h: Conn, k: Key) {
    var s := Slot(h, k.dev, k.attr);
    s in m.index && match m.index[s]
                    case Periodic => k.typ == "periodic"
                    case Change => k.typ == "change"
                    case Archive => k.typ == "archive"
                    case User => k.typ == "user"
  }

  /** A disconnect takes h off what its index entries name, and erases them. */
  lemma OffAnswered(o: Oracle, m: Model, h: Conn)
    requires Inv(o, m)
    ensures var (m', reply) := Step(o, m, h, Off);
            && reply == Done
            && Left(m, m', h, iset k | Named(m, h, k))
            && (forall s :: s in m'.index <==> s in m.index && s.conn != h)
            && (forall s :: s in m'.index ==> m'.index[s] == m.index[s])
  {
    var left := iset k | Named(m, h, k);
    forall k | k in m.subs ensures k in RecordedKeys(m, h) <==> k in left {
    }
    DropAllLeft(m, h, RecordedKeys(m, h), Disconnect(m, h).index, left);
  }
}
