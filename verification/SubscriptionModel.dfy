/** The abstract state of the event-subscription registry: one entry per shared Tango
    subscription, and the reverse index that remembers, per connection and attribute, the last
    event type subscribed to. Every request is a function on this state; the class in
    EventProcCli.dfy is proved to compute exactly these functions with its four nested maps. */
module SubscriptionModel {

  datatype Option<+T> = None | Some(value: T)

  /** A connection handle, reduced to its identity. */
  type Conn = nat

  datatype EventType = Periodic | Change | Archive | User

  function TypeName(t: EventType): (s: string) {
    match t
    case Archive => "archive"
    case Periodic => "periodic"
    case User => "user"
    case Change => "change"
  }

  /** The event, device and attribute that a subscription is for. */
  datatype Key = Key(dev: string, attr: string, typ: string)

  /** A place in the reverse index: it holds one event type only. */
  datatype Slot = Slot(conn: Conn, dev: string, attr: string)

  /** A shared subscription: its Tango id, and the precision option of each listener. */
  datatype Sub = Sub(id: int, listeners: map<Conn, string>)

  /** What Tango answers: the outcome of the n-th subscribe call, and whether the n-th attempt to
      create a device proxy, and the n-th unsubscribe call, succeed. Any functions are allowed. */
  datatype Oracle = Oracle(subscribe: nat -> Option<int>, connect: nat -> bool, unsubscribe: nat -> bool)

  datatype Model = Model(
    subs: map<Key, Sub>,
    index: map<Slot, EventType>,
    calls: nat,
    proxyCalls: nat,
    issued: set<int>)

  const EMPTY := Model(map[], map[], 0, 0, {})

  datatype RespKind = Failed | Success | AddedEarly

  /** A response entry. eventSubId is None where the source leaves the field unset. */
  datatype Resp = Resp(kind: RespKind, key: Key, eventSubId: Option<int>)

  /** An attribute name with its precision option, after options were cut off the name. */
  type AttrOpt = (string, string)

  datatype DeviceAttrs = DeviceAttrs(dev: string, attrs: seq<AttrOpt>)

  /** Tango never hands out an id twice. */
  ghost predicate FreshIds(o: Oracle) {
    forall i: nat, j: nat :: i < j && o.subscribe(i).Some? && o.subscribe(j).Some?
                             ==> o.subscribe(i).value != o.subscribe(j).value
  }

  // ----- reading the state -----

  ghost predicate Listens(m: Model, c: Conn, k: Key) {
    k in m.subs && c in m.subs[k].listeners
  }

  /** What a connection learns by asking for its subscription id. */
  function Lookup(m: Model, c: Conn, k: Key): Option<int> {
    if k in m.subs && c in m.subs[k].listeners then Some(m.subs[k].id) else None
  }

  predicate Recorded(m: Model, c: Conn, k: Key) {
    var s := Slot(c, k.dev, k.attr);
    s in m.index && TypeName(m.index[s]) == k.typ
  }

  ghost predicate InUse(m: Model, dev: string) {
    exists k :: k in m.subs && k.dev == dev
  }

  // ----- adding -----

  function Join(m: Model, h: Conn, k: Key, typ: EventType, opt: string): Model
    requires k in m.subs
  {
    var s := m.subs[k];
    m.(subs := m.subs[k := s.(listeners := s.listeners[h := opt])],
       index := m.index[Slot(h, k.dev, k.attr) := typ])
  }

  /** A subscription for h to join, if there is one, if Tango grants one, and if h has not joined. */
  function Prepare(o: Oracle, m: Model, h: Conn, k: Key): (Model, Resp) {
    if k in m.subs then
      if h in m.subs[k].listeners then (m, Resp(AddedEarly, k, Some(m.subs[k].id)))
      else (m, Resp(Success, k, None))
    else
      match o.subscribe(m.calls)
      case None => (m.(calls := m.calls + 1), Resp(Failed, k, None))
      case Some(id) =>
        (m.(subs := m.subs[k := Sub(id, map[])], calls := m.calls + 1, issued := m.issued + {id}),
         Resp(Success, k, Some(id)))
  }

  function AddOne(o: Oracle, m: Model, h: Conn, dev: string, a: AttrOpt, typ: EventType): (Model, Resp) {
    var k := Key(dev, a.0, TypeName(typ));
    var (m', r) := Prepare(o, m, h, k);
    (if r.kind == Success then Join(m', h, k, typ, a.1) else m', r)
  }

  /** A key is subscribed to afterwards unless its first subscription failed; no other key comes or goes. */
  lemma AddOneKeys(o: Oracle, m: Model, h: Conn, dev: string, a: AttrOpt, typ: EventType)
    ensures var k := Key(dev, a.0, TypeName(typ));
            var (m', r) := AddOne(o, m, h, dev, a, typ);
            && m'.subs.Keys == m.subs.Keys + (if r.kind == Failed then {} else {k})
            && (r.kind == Failed ==> k !in m.subs)
  {
  }

  /** Some response is not a failure. */
  ghost predicate Anything(rs: seq<Resp>) {
    exists i :: 0 <= i < |rs| && rs[i].kind != Failed
  }

  lemma AnythingMore(rs: seq<Resp>, r: Resp)
    ensures Anything(rs + [r]) <==> Anything(rs) || r.kind != Failed
  {
    if i :| 0 <= i < |rs| && rs[i].kind != Failed {
      assert (rs + [r])[i] == rs[i];
    }
    assert (rs + [r])[|rs|] == r;
  }

  function AddAttrs(o: Oracle, m: Model, h: Conn, dev: string, attrs: seq<AttrOpt>, typ: EventType): (Model, seq<Resp>) {
    if attrs == [] then (m, [])
    else
      var n := |attrs| - 1;
      var (m1, rs) := AddAttrs(o, m, h, dev, attrs[..n], typ);
      var (m2, r) := AddOne(o, m1, h, dev, attrs[n], typ);
      (m2, rs + [r])
  }

  ghost function AddDevice(o: Oracle, m: Model, h: Conn, d: DeviceAttrs, typ: EventType): (Model, seq<Resp>) {
    if InUse(m, d.dev) then AddAttrs(o, m, h, d.dev, d.attrs, typ)
    else
      var m1 := m.(proxyCalls := m.proxyCalls + 1);
      if o.connect(m.proxyCalls) then AddAttrs(o, m1, h, d.dev, d.attrs, typ)
      else (m1, [Resp(Failed, Key(d.dev, "", ""), None)])
  }

  ghost function AddList(o: Oracle, m: Model, h: Conn, ds: seq<DeviceAttrs>, typ: EventType): (Model, seq<Resp>) {
    if ds == [] then (m, [])
    else
      var n := |ds| - 1;
      var (m1, rs) := AddList(o, m, h, ds[..n], typ);
      var (m2, r) := AddDevice(o, m1, h, ds[n], typ);
      (m2, rs + r)
  }

  /** The four lists of an eventreq_add_dev request. */
  datatype AddReq = AddReq(periodic: seq<DeviceAttrs>, change: seq<DeviceAttrs>,
                           archive: seq<DeviceAttrs>, user: seq<DeviceAttrs>)

  ghost function AddRequest(o: Oracle, m: Model, h: Conn, q: AddReq): (Model, seq<Resp>) {
    var (m1, r1) := AddList(o, m, h, q.periodic, Periodic);
    var (m2, r2) := AddList(o, m1, h, q.change, Change);
    var (m3, r3) := AddList(o, m2, h, q.archive, Archive);
    var (m4, r4) := AddList(o, m3, h, q.user, User);
    (m4, r1 + r2 + r3 + r4)
  }

  // ----- removing -----

  /** Removes h from the listeners of every key in ks; a subscription nobody listens to is dropped. */
  function DropAll(m: Model, h: Conn, ks: set<Key>): Model {
    m.(subs := map k | k in m.subs && !(k in ks && m.subs[k].listeners.Keys <= {h}) ::
      if k in ks then m.subs[k].(listeners := m.subs[k].listeners - {h}) else m.subs[k])
  }

  ghost function KeyOfId(m: Model, id: int): (r: Option<Key>) {
    if exists k :: k in m.subs && m.subs[k].id == id then
      var k :| k in m.subs && m.subs[k].id == id;
      Some(k)
    else None
  }

  /** eventreq_rem_dev: the second component says whether the id was found. */
  ghost function Remove(m: Model, h: Conn, id: int): (Model, bool) {
    match KeyOfId(m, id)
    case None => (m, false)
    case Some(k) => (DropAll(m, h, {k}).(index := m.index - {Slot(h, k.dev, k.attr)}), true)
  }

  function RecordedKeys(m: Model, h: Conn): set<Key> {
    set k | k in m.subs && Recorded(m, h, k)
  }

  /** eventreq_off and the clean-up after a closed connection. */
  function Disconnect(m: Model, h: Conn): Model {
    DropAll(m, h, RecordedKeys(m, h)).(index := map s | s in m.index && s.conn != h :: m.index[s])
  }

  // ----- the invariant -----

  ghost predicate SubsInv(m: Model) {
    forall k :: k in m.subs ==> m.subs[k].id in m.issued && exists c :: c in m.subs[k].listeners
  }

  ghost predicate IdsInv(m: Model) {
    forall k, k' :: k in m.subs && k' in m.subs && m.subs[k].id == m.subs[k'].id ==> k == k'
  }

  ghost predicate IndexInv(m: Model) {
    forall s :: s in m.index ==> Listens(m, s.conn, Key(s.dev, s.attr, TypeName(m.index[s])))
  }

  ghost predicate FreshInv(o: Oracle, m: Model) {
    forall i: nat :: i >= m.calls && o.subscribe(i).Some? ==> o.subscribe(i).value !in m.issued
  }

  ghost predicate Inv(o: Oracle, m: Model) {
    SubsInv(m) && IdsInv(m) && IndexInv(m) && FreshInv(o, m)
  }

  lemma EmptyInv(o: Oracle)
    ensures Inv(o, EMPTY)
  {
  }

  lemma JoinInv(o: Oracle, m: Model, h: Conn, k: Key, typ: EventType, opt: string)
    requires k in m.subs && k.typ == TypeName(typ)
    requires forall k' :: k' in m.subs && k' != k ==> exists c :: c in m.subs[k'].listeners
    requires forall k' :: k' in m.subs ==> m.subs[k'].id in m.issued
    requires IdsInv(m) && IndexInv(m) && FreshInv(o, m)
    ensures Inv(o, Join(m, h, k, typ, opt))
  {
    var m' := Join(m, h, k, typ, opt);
    assert h in m'.subs[k].listeners;
    forall s | s in m'.index
      ensures Listens(m', s.conn, Key(s.dev, s.attr, TypeName(m'.index[s])))
    {
      if s != Slot(h, k.dev, k.attr) {
        assert Listens(m, s.conn, Key(s.dev, s.attr, TypeName(m.index[s])));
      }
    }
  }

  lemma AddOneInv(o: Oracle, m: Model, h: Conn, dev: string, a: AttrOpt, typ: EventType)
    requires FreshIds(o) && Inv(o, m)
    ensures Inv(o, AddOne(o, m, h, dev, a, typ).0)
  {
    var k := Key(dev, a.0, TypeName(typ));
    if k in m.subs {
      JoinInv(o, m, h, k, typ, a.1);
    } else if o.subscribe(m.calls).Some? {
      var id := o.subscribe(m.calls).value;
      var m' := m.(subs := m.subs[k := Sub(id, map[])], calls := m.calls + 1, issued := m.issued + {id});
      assert IndexInv(m') by {
        forall s | s in m'.index
          ensures Listens(m', s.conn, Key(s.dev, s.attr, TypeName(m'.index[s])))
        {
          assert Listens(m, s.conn, Key(s.dev, s.attr, TypeName(m.index[s])));
        }
      }
      JoinInv(o, m', h, k, typ, a.1);
    }
  }

  lemma {:induction false} AddAttrsInv(o: Oracle, m: Model, h: Conn, dev: string, attrs: seq<AttrOpt>, typ: EventType)
    requires FreshIds(o) && Inv(o, m)
    ensures Inv(o, AddAttrs(o, m, h, dev, attrs, typ).0)
  {
    if attrs != [] {
      var n := |attrs| - 1;
      AddAttrsInv(o, m, h, dev, attrs[..n], typ);
      AddOneInv(o, AddAttrs(o, m, h, dev, attrs[..n], typ).0, h, dev, attrs[n], typ);
    }
  }

  /** Inv does not mention the count of proxy attempts. */
  lemma ProxyCallInv(o: Oracle, m: Model)
    requires Inv(o, m)
    ensures Inv(o, m.(proxyCalls := m.proxyCalls + 1))
  {
    var m' := m.(proxyCalls := m.proxyCalls + 1);
    forall s | s in m'.index
      ensures Listens(m', s.conn, Key(s.dev, s.attr, TypeName(m'.index[s])))
    {
      assert Listens(m, s.conn, Key(s.dev, s.attr, TypeName(m.index[s])));
    }
  }

  lemma AddDeviceInv(o: Oracle, m: Model, h: Conn, d: DeviceAttrs, typ: EventType)
    requires FreshIds(o) && Inv(o, m)
    ensures Inv(o, AddDevice(o, m, h, d, typ).0)
  {
    ProxyCallInv(o, m);
    AddAttrsInv(o, m, h, d.dev, d.attrs, typ);
    AddAttrsInv(o, m.(proxyCalls := m.proxyCalls + 1), h, d.dev, d.attrs, typ);
  }

  lemma {:induction false} AddListInv(o: Oracle, m: Model, h: Conn, ds: seq<DeviceAttrs>, typ: EventType)
    requires FreshIds(o) && Inv(o, m)
    ensures Inv(o, AddList(o, m, h, ds, typ).0)
  {
    if ds != [] {
      var n := |ds| - 1;
      AddListInv(o, m, h, ds[..n], typ);
      AddDeviceInv(o, AddList(o, m, h, ds[..n], typ).0, h, ds[n], typ);
    }
  }

  lemma AddRequestInv(o: Oracle, m: Model, h: Conn, q: AddReq)
    requires FreshIds(o) && Inv(o, m)
    ensures Inv(o, AddRequest(o, m, h, q).0)
  {
    AddListInv(o, m, h, q.periodic, Periodic);
    var m1 := AddList(o, m, h, q.periodic, Periodic).0;
    AddListInv(o, m1, h, q.change, Change);
    var m2 := AddList(o, m1, h, q.change, Change).0;
    AddListInv(o, m2, h, q.archive, Archive);
    AddListInv(o, AddList(o, m2, h, q.archive, Archive).0, h, q.user, User);
  }

  /** DropAll removes h from the keys in ks, and nothing else from anywhere. */
  lemma DropAllListens(m: Model, h: Conn, ks: set<Key>, c: Conn, k: Key)
    ensures Listens(DropAll(m, h, ks), c, k) <==> Listens(m, c, k) && !(c == h && k in ks)
    ensures Listens(DropAll(m, h, ks), c, k) ==>
              DropAll(m, h, ks).subs[k].id == m.subs[k].id
              && DropAll(m, h, ks).subs[k].listeners[c] == m.subs[k].listeners[c]
  {
  }

  /** Dropping keys, and at least the index entries that named them for h, keeps the invariant. */
  lemma DropAllInv(o: Oracle, m: Model, h: Conn, ks: set<Key>, index: map<Slot, EventType>)
    requires Inv(o, m)
    requires forall s :: s in index ==> s in m.index && index[s] == m.index[s]
    requires forall s :: s in index && s.conn == h ==> Key(s.dev, s.attr, TypeName(index[s])) !in ks
    ensures Inv(o, DropAll(m, h, ks).(index := index))
  {
    var m' := DropAll(m, h, ks).(index := index);
    forall k | k in m'.subs
      ensures exists c :: c in m'.subs[k].listeners
    {
      if k in ks {
        var c :| c in m.subs[k].listeners.Keys && c !in {h};
        assert c in m'.subs[k].listeners;
      }
    }
    forall s | s in index
      ensures Listens(m', s.conn, Key(s.dev, s.attr, TypeName(index[s])))
    {
      var k := Key(s.dev, s.attr, TypeName(index[s]));
      assert Listens(m, s.conn, k);
      DropAllListens(m, h, ks, s.conn, k);
    }
  }

  lemma RemoveInv(o: Oracle, m: Model, h: Conn, id: int)
    requires Inv(o, m)
    ensures Inv(o, Remove(m, h, id).0)
  {
    match KeyOfId(m, id)
    case None =>
    case Some(k) => DropAllInv(o, m, h, {k}, m.index - {Slot(h, k.dev, k.attr)});
  }

  lemma DisconnectInv(o: Oracle, m: Model, h: Conn)
    requires Inv(o, m)
    ensures Inv(o, Disconnect(m, h))
  {
    DropAllInv(o, m, h, RecordedKeys(m, h), Disconnect(m, h).index);
  }

  // ----- adding, seen from the device -----

  lemma AddOneInUse(o: Oracle, m: Model, h: Conn, dev: string, a: AttrOpt, typ: EventType)
    ensures var (m', r) := AddOne(o, m, h, dev, a, typ);
            InUse(m', dev) <==> InUse(m, dev) || r.kind != Failed
  {
    var (m', r) := AddOne(o, m, h, dev, a, typ);
    var k := Key(dev, a.0, TypeName(typ));
    if r.kind != Failed {
      assert k in m'.subs;
    }
    if InUse(m, dev) {
      var k' :| k' in m.subs && k'.dev == dev;
      assert k' in m'.subs;
    }
  }

  /** A device that was not in use is in use afterwards exactly when one attribute did not fail. */
  lemma {:induction false} AddAttrsInUse(o: Oracle, m: Model, h: Conn, dev: string, attrs: seq<AttrOpt>, typ: EventType)
    ensures var (m', rs) := AddAttrs(o, m, h, dev, attrs, typ);
            InUse(m', dev) <==> InUse(m, dev) || Anything(rs)
  {
    if attrs != [] {
      var n := |attrs| - 1;
      AddAttrsInUse(o, m, h, dev, attrs[..n], typ);
      var (m1, rs1) := AddAttrs(o, m, h, dev, attrs[..n], typ);
      AddOneInUse(o, m1, h, dev, attrs[n], typ);
      AnythingMore(rs1, AddOne(o, m1, h, dev, attrs[n], typ).1);
    }
  }

  // ----- removing, key by key -----

  lemma DropAllTwice(m: Model, h: Conn, ks: set<Key>, k: Key)
    requires k !in ks
    ensures DropAll(DropAll(m, h, ks), h, {k}) == DropAll(m, h, ks + {k})
  {
    var m1, m2 := DropAll(DropAll(m, h, ks), h, {k}), DropAll(m, h, ks + {k});
    assert m1.subs == m2.subs;
  }

  lemma DropNone(m: Model, h: Conn)
    ensures DropAll(m, h, {}) == m
  {
    assert DropAll(m, h, {}).subs == m.subs;
  }
}
