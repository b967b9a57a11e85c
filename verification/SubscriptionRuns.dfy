/** Requests as steps of the abstract registry, and what holds of every step and every run. */
module SubscriptionRuns {
  import opened SubscriptionModel

  /** An event request after parsing. A removal carries None when its id is not a number. */
  datatype Request =
    | AddDev(lists: AddReq)
    | Off
    | CheckDev(key: Key)
    | RemDev(eventSubId: Option<int>)

  datatype Reply =
    | Subscribed(responses: seq<Resp>)
    | Done
    | SubscriptionId(id: int)
    | NotValid
    | NotFound

  const EVENT_TYPES := {"change", "periodic", "user", "archive"}

  ghost function Step(o: Oracle, m: Model, h: Conn, q: Request): (Model, Reply) {
    match q
    case AddDev(lists) =>
      var (m', rs) := AddRequest(o, m, h, lists);
      (m', Subscribed(rs))
    case Off => (Disconnect(m, h), Done)
    case CheckDev(k) =>
      (m, if k.typ !in EVENT_TYPES then NotValid
          else match Lookup(m, h, k) case None => NotFound case Some(id) => SubscriptionId(id))
    case RemDev(None) => (m, NotFound)
    case RemDev(Some(id)) =>
      var (m', found) := Remove(m, h, id);
      (m', if found then Done else NotFound)
  }

  lemma StepInv(o: Oracle, m: Model, h: Conn, q: Request)
    requires FreshIds(o) && Inv(o, m)
    ensures Inv(o, Step(o, m, h, q).0)
  {
    match q
    case AddDev(lists) => AddRequestInv(o, m, h, lists);
    case Off => DisconnectInv(o, m, h);
    case CheckDev(k) =>
    case RemDev(None) =>
    case RemDev(Some(id)) => RemoveInv(o, m, h, id);
  }

  // ----- runs -----

  /** What is done under the registry's lock at a time: an add takes the lock once for each of its lists. */
  datatype Section =
    | AddSection(ds: seq<DeviceAttrs>, typ: EventType)
    | OffSection
    | CheckSection(key: Key)
    | RemSection(eventSubId: Option<int>)

  ghost function Enter(o: Oracle, m: Model, h: Conn, s: Section): Model {
    match s
    case AddSection(ds, typ) => AddList(o, m, h, ds, typ).0
    case OffSection => Disconnect(m, h)
    case CheckSection(_) => m
    case RemSection(None) => m
    case RemSection(Some(id)) => Remove(m, h, id).0
  }

  /** A run: sections of any connections, in any order. A closed connection counts as OffSection. */
  type History = seq<(Conn, Section)>

  ghost function Run(o: Oracle, run: History): Model {
    if run == [] then EMPTY
    else
      var n := |run| - 1;
      Enter(o, Run(o, run[..n]), run[n].0, run[n].1)
  }

  /** A request, section by section. */
  function Sections(h: Conn, q: Request): History {
    match q
    case AddDev(lists) =>
      [(h, AddSection(lists.periodic, Periodic)), (h, AddSection(lists.change, Change)),
       (h, AddSection(lists.archive, Archive)), (h, AddSection(lists.user, User))]
    case Off => [(h, OffSection)]
    case CheckDev(k) => [(h, CheckSection(k))]
    case RemDev(id) => [(h, RemSection(id))]
  }

  lemma RunMore(o: Oracle, run: History, h: Conn, s: Section)
    ensures Run(o, run + [(h, s)]) == Enter(o, Run(o, run), h, s)
  {
    assert (run + [(h, s)])[..|run|] == run;
  }

  /** A request whose sections are not interrupted is a step. */
  lemma RunRequest(o: Oracle, run: History, h: Conn, q: Request)
    ensures Run(o, run + Sections(h, q)) == Step(o, Run(o, run), h, q).0
  {
    match q
    case AddDev(lists) =>
      var s1, s2 := AddSection(lists.periodic, Periodic), AddSection(lists.change, Change);
      var s3, s4 := AddSection(lists.archive, Archive), AddSection(lists.user, User);
      RunMore(o, run, h, s1);
      RunMore(o, run + [(h, s1)], h, s2);
      RunMore(o, run + [(h, s1)] + [(h, s2)], h, s3);
      RunMore(o, run + [(h, s1)] + [(h, s2)] + [(h, s3)], h, s4);
      assert run + Sections(h, q) == run + [(h, s1)] + [(h, s2)] + [(h, s3)] + [(h, s4)];
    case Off => RunMore(o, run, h, OffSection);
    case CheckDev(k) => RunMore(o, run, h, CheckSection(k));
    case RemDev(id) => RunMore(o, run, h, RemSection(id));
  }

  lemma SectionInv(o: Oracle, m: Model, h: Conn, s: Section)
    requires FreshIds(o) && Inv(o, m)
    ensures Inv(o, Enter(o, m, h, s))
  {
    match s
    case AddSection(ds, typ) => AddListInv(o, m, h, ds, typ);
    case OffSection => DisconnectInv(o, m, h);
    case CheckSection(_) =>
    case RemSection(None) =>
    case RemSection(Some(id)) => RemoveInv(o, m, h, id);
  }

  /** The invariant holds in every reachable state, also between two lists of one add. */
  lemma {:induction false} RunInv(o: Oracle, run: History)
    requires FreshIds(o)
    ensures Inv(o, Run(o, run))
  {
    if run == [] {
      EmptyInv(o);
    } else {
      var n := |run| - 1;
      RunInv(o, run[..n]);
      SectionInv(o, Run(o, run[..n]), run[n].0, run[n].1);
    }
  }

  // ----- what an add does, exactly -----

  /** Among the responses there is one of success, or of an earlier success, for k. */
  ghost predicate Granted(rs: seq<Resp>, k: Key) {
    exists i :: 0 <= i < |rs| && rs[i].key == k && rs[i].kind != Failed
  }

  lemma GrantedConcat(r1: seq<Resp>, r2: seq<Resp>, k: Key)
    ensures Granted(r1 + r2, k) <==> Granted(r1, k) || Granted(r2, k)
  {
    var rs := r1 + r2;
    if i :| 0 <= i < |r1| && r1[i].key == k && r1[i].kind != Failed {
      assert rs[i] == r1[i];
    }
    if i :| 0 <= i < |r2| && r2[i].key == k && r2[i].kind != Failed {
      assert rs[|r1| + i] == r2[i];
    }
  }

  /** m' differs from m by the listener h at the keys granted in rs, and by nothing else. */
  ghost predicate Added(m: Model, m': Model, h: Conn, rs: seq<Resp>) {
    && (forall c, k :: Listens(m', c, k) <==> Listens(m, c, k) || (c == h && Granted(rs, k)))
    && (forall k :: k in m'.subs <==> k in m.subs || Granted(rs, k))
    && (forall c, k :: Listens(m, c, k) ==> Lookup(m', c, k) == Lookup(m, c, k)
                                            && m'.subs[k].listeners[c] == m.subs[k].listeners[c])
    && (forall s :: s in m'.index && (s !in m.index || m'.index[s] != m.index[s])
                    ==> s.conn == h && Granted(rs, Key(s.dev, s.attr, TypeName(m'.index[s]))))
    && (forall s :: s in m.index ==> s in m'.index)
  }

  lemma AddedNothing(m: Model, m': Model, h: Conn, rs: seq<Resp>)
    requires m'.subs == m.subs && m'.index == m.index && forall k :: !Granted(rs, k)
    ensures Added(m, m', h, rs)
  {
  }

  lemma AddedThen(m: Model, m1: Model, m2: Model, h: Conn, r1: seq<Resp>, r2: seq<Resp>)
    requires Added(m, m1, h, r1) && Added(m1, m2, h, r2)
    ensures Added(m, m2, h, r1 + r2)
  {
    forall k { GrantedConcat(r1, r2, k); }
    forall c, k
      ensures Listens(m2, c, k) <==> Listens(m, c, k) || (c == h && Granted(r1 + r2, k))
    {
      assert Listens(m2, c, k) <==> Listens(m1, c, k) || (c == h && Granted(r2, k));
    }
    forall c, k | Listens(m, c, k)
      ensures Lookup(m2, c, k) == Lookup(m, c, k) && m2.subs[k].listeners[c] == m.subs[k].listeners[c]
    {
      assert Listens(m1, c, k);
    }
  }

  lemma AddOneAdded(o: Oracle, m: Model, h: Conn, dev: string, a: AttrOpt, typ: EventType)
    ensures var (m', r) := AddOne(o, m, h, dev, a, typ); Added(m, m', h, [r])
  {
    var (m', r) := AddOne(o, m, h, dev, a, typ);
    var k0 := Key(dev, a.0, TypeName(typ));
    assert r.key == k0;
    forall k
      ensures Granted([r], k) <==> k == k0 && r.kind != Failed
    {
      if k == k0 && r.kind != Failed {
        assert [r][0].key == k;
      }
    }
  }

  lemma {:induction false} AddAttrsAdded(o: Oracle, m: Model, h: Conn, dev: string, attrs: seq<AttrOpt>, typ: EventType)
    ensures var (m', rs) := AddAttrs(o, m, h, dev, attrs, typ); Added(m, m', h, rs)
  {
    if attrs == [] {
      AddedNothing(m, m, h, []);
    } else {
      var n := |attrs| - 1;
      AddAttrsAdded(o, m, h, dev, attrs[..n], typ);
      var (m1, rs1) := AddAttrs(o, m, h, dev, attrs[..n], typ);
      AddOneAdded(o, m1, h, dev, attrs[n], typ);
      var (m2, r) := AddOne(o, m1, h, dev, attrs[n], typ);
      AddedThen(m, m1, m2, h, rs1, [r]);
    }
  }

  lemma AddDeviceAdded(o: Oracle, m: Model, h: Conn, d: DeviceAttrs, typ: EventType)
    ensures var (m', rs) := AddDevice(o, m, h, d, typ); Added(m, m', h, rs)
  {
    if InUse(m, d.dev) {
      AddAttrsAdded(o, m, h, d.dev, d.attrs, typ);
    } else {
      var m1 := m.(proxyCalls := m.proxyCalls + 1);
      AddedNothing(m, m1, h, []);
      if o.connect(m.proxyCalls) {
        AddAttrsAdded(o, m1, h, d.dev, d.attrs, typ);
        var (m2, rs) := AddAttrs(o, m1, h, d.dev, d.attrs, typ);
        AddedThen(m, m1, m2, h, [], rs);
        assert [] + rs == rs;
      } else {
        AddedNothing(m, m1, h, [Resp(Failed, Key(d.dev, "", ""), None)]);
      }
    }
  }

  lemma {:induction false} AddListAdded(o: Oracle, m: Model, h: Conn, ds: seq<DeviceAttrs>, typ: EventType)
    ensures var (m', rs) := AddList(o, m, h, ds, typ); Added(m, m', h, rs)
  {
    if ds == [] {
      AddedNothing(m, m, h, []);
    } else {
      var n := |ds| - 1;
      AddListAdded(o, m, h, ds[..n], typ);
      var (m1, rs1) := AddList(o, m, h, ds[..n], typ);
      AddDeviceAdded(o, m1, h, ds[n], typ);
      var (m2, r) := AddDevice(o, m1, h, ds[n], typ);
      AddedThen(m, m1, m2, h, rs1, r);
    }
  }

  /** A whole eventreq_add_dev adds exactly the listeners its responses grant. */
  lemma AddRequestAdded(o: Oracle, m: Model, h: Conn, q: AddReq)
    ensures var (m', rs) := AddRequest(o, m, h, q); Added(m, m', h, rs)
  {
    var (m1, r1) := AddList(o, m, h, q.periodic, Periodic);
    var (m2, r2) := AddList(o, m1, h, q.change, Change);
    var (m3, r3) := AddList(o, m2, h, q.archive, Archive);
    var (m4, r4) := AddList(o, m3, h, q.user, User);
    AddListAdded(o, m, h, q.periodic, Periodic);
    AddListAdded(o, m1, h, q.change, Change);
    AddListAdded(o, m2, h, q.archive, Archive);
    AddListAdded(o, m3, h, q.user, User);
    AddedThen(m, m1, m2, h, r1, r2);
    AddedThen(m, m2, m3, h, r1 + r2, r3);
    AddedThen(m, m3, m4, h, r1 + r2 + r3, r4);
  }

  lemma NothingAdded(o: Oracle, m: Model, m': Model, h: Conn, rs: seq<Resp>)
    requires Inv(o, m) && Added(m, m', h, rs) && forall k :: !Granted(rs, k)
    ensures m'.subs == m.subs && m'.index == m.index
  {
    forall k | k in m.subs
      ensures k in m'.subs && m'.subs[k] == m.subs[k]
    {
      SameListeners(o, m, m', h, rs, k);
    }
  }

  /** An add whose every device or attribute fails leaves subscriptions and index as they were. */
  lemma FailedAddInvisible(o: Oracle, m: Model, h: Conn, q: AddReq)
    requires Inv(o, m)
    requires forall i :: 0 <= i < |AddRequest(o, m, h, q).1| ==> AddRequest(o, m, h, q).1[i].kind == Failed
    ensures AddRequest(o, m, h, q).0.subs == m.subs && AddRequest(o, m, h, q).0.index == m.index
  {
    AddRequestAdded(o, m, h, q);
    var r := AddRequest(o, m, h, q);
    NothingGranted(r.1);
    NothingAdded(o, m, r.0, h, r.1);
  }

  lemma NothingGranted(rs: seq<Resp>)
    requires forall i :: 0 <= i < |rs| ==> rs[i].kind == Failed
    ensures forall k :: !Granted(rs, k)
  {
  }

  lemma SameListeners(o: Oracle, m: Model, m': Model, h: Conn, rs: seq<Resp>, k: Key)
    requires Inv(o, m) && k in m.subs && Added(m, m', h, rs) && forall k' :: !Granted(rs, k')
    ensures k in m'.subs && m'.subs[k] == m.subs[k]
  {
    var c :| c in m.subs[k].listeners;
    assert Listens(m, c, k) && Lookup(m', c, k) == Lookup(m, c, k);
    forall c'
      ensures c' in m'.subs[k].listeners <==> c' in m.subs[k].listeners
      ensures c' in m.subs[k].listeners ==> m'.subs[k].listeners[c'] == m.subs[k].listeners[c']
    {
      assert Listens(m', c', k) <==> Listens(m, c', k);
    }
    assert m'.subs[k].listeners == m.subs[k].listeners;
  }

  // ----- other connections -----

  /** A request of one connection changes no answer that another one gets. */
  lemma StepFrame(o: Oracle, m: Model, h: Conn, q: Request, c: Conn, k: Key)
    requires c != h
    ensures Lookup(Step(o, m, h, q).0, c, k) == Lookup(m, c, k)
  {
    match q
    case AddDev(lists) =>
      AddRequestAdded(o, m, h, lists);
      assert Listens(AddRequest(o, m, h, lists).0, c, k) <==> Listens(m, c, k);
    case Off => DropAllListens(m, h, RecordedKeys(m, h), c, k);
    case CheckDev(_) =>
    case RemDev(None) =>
    case RemDev(Some(id)) =>
      match KeyOfId(m, id)
      case None =>
      case Some(k0) => DropAllListens(m, h, {k0}, c, k);
  }

  /** The same for one section. */
  lemma SectionFrame(o: Oracle, m: Model, h: Conn, s: Section, c: Conn, k: Key)
    requires c != h
    ensures Lookup(Enter(o, m, h, s), c, k) == Lookup(m, c, k)
  {
    match s
    case AddSection(ds, typ) =>
      AddListAdded(o, m, h, ds, typ);
      assert Listens(AddList(o, m, h, ds, typ).0, c, k) <==> Listens(m, c, k);
    case OffSection => StepFrame(o, m, h, Off, c, k);
    case CheckSection(_) =>
    case RemSection(id) => StepFrame(o, m, h, RemDev(id), c, k);
  }

  // ----- checking and removing -----

  /** An id that a connection gets by asking is that key's only, and removing it takes the connection
      off that key and changes no other answer. */
  lemma CheckRemoveAgree(o: Oracle, m: Model, h: Conn, k: Key)
    requires Inv(o, m) && Lookup(m, h, k).Some?
    ensures KeyOfId(m, Lookup(m, h, k).value) == Some(k)
    ensures var (m', found) := Remove(m, h, Lookup(m, h, k).value);
            && found && Lookup(m', h, k) == None
            && forall c: Conn, k' :: c != h || k' != k ==> Lookup(m', c, k') == Lookup(m, c, k')
  {
    var (m', found) := Remove(m, h, Lookup(m, h, k).value);
    DropAllListens(m, h, {k}, h, k);
    forall c: Conn, k' | c != h || k' != k
      ensures Lookup(m', c, k') == Lookup(m, c, k')
    {
      DropAllListens(m, h, {k}, c, k');
    }
  }

  // ----- what a disconnect leaves behind -----

  /** Everything h listens to is named in its part of the reverse index. */
  ghost predicate Complete(m: Model, h: Conn) {
    forall k :: Listens(m, h, k) ==> Recorded(m, h, k)
  }

  /** h listens to the same attribute for another event type. */
  ghost predicate OtherType(m: Model, h: Conn, k: Key) {
    exists t :: t != k.typ && Listens(m, h, Key(k.dev, k.attr, t))
  }

  /** A disconnect takes h off exactly the recorded keys, so it takes h off all keys exactly when the
      index was complete. */
  lemma DisconnectExact(m: Model, h: Conn)
    ensures forall k :: Listens(Disconnect(m, h), h, k) <==> Listens(m, h, k) && !Recorded(m, h, k)
    ensures (forall k :: !Listens(Disconnect(m, h), h, k)) <==> Complete(m, h)
  {
    forall k { DropAllListens(m, h, RecordedKeys(m, h), h, k); }
    if Complete(m, h) {
      forall k ensures !Listens(Disconnect(m, h), h, k) {
        assert Listens(m, h, k) ==> Recorded(m, h, k);
      }
    } else {
      var k :| Listens(m, h, k) && !Recorded(m, h, k);
      assert Listens(Disconnect(m, h), h, k);
    }
  }

  /** The index stays complete under an add exactly when the connection does not join a second event
      type of the same attribute. */
  lemma AddKeepsCompleteIff(o: Oracle, m: Model, h: Conn, dev: string, a: AttrOpt, typ: EventType)
    requires Complete(m, h)
    ensures var (m', r) := AddOne(o, m, h, dev, a, typ);
            Complete(m', h) <==> r.kind != Success || !OtherType(m, h, r.key)
    ensures var k := Key(dev, a.0, TypeName(typ));
            Complete(AddOne(o, m, h, dev, a, typ).0, h) <==>
              Listens(m, h, k) || (k !in m.subs && o.subscribe(m.calls).None?) || !OtherType(m, h, k)
  {
    var (m', r) := AddOne(o, m, h, dev, a, typ);
    AddOneAdded(o, m, h, dev, a, typ);
    var k := Key(dev, a.0, TypeName(typ));
    if r.kind == Success {
      if OtherType(m, h, k) {
        var t :| t != k.typ && Listens(m, h, Key(dev, a.0, t));
        assert Listens(m', h, Key(dev, a.0, t)) && !Recorded(m', h, Key(dev, a.0, t));
      } else {
        forall k' | Listens(m', h, k')
          ensures Recorded(m', h, k')
        {
          if k' != k {
            assert Listens(m, h, k') && k' == Key(k'.dev, k'.attr, k'.typ);
          }
        }
      }
    } else {
      forall k'
        ensures Listens(m', h, k') <==> Listens(m, h, k')
      {
      }
    }
  }

  /** It stays complete under a removal by id exactly when the connection does not listen to another
      event type of the attribute that the id stands for. */
  lemma RemoveKeepsCompleteIff(m: Model, h: Conn, id: int)
    requires Complete(m, h)
    ensures Complete(Remove(m, h, id).0, h) <==>
            KeyOfId(m, id).None? || !OtherType(m, h, KeyOfId(m, id).value)
  {
    match KeyOfId(m, id)
    case None =>
    case Some(k) =>
      var m' := Remove(m, h, id).0;
      forall k' { DropAllListens(m, h, {k}, h, k'); }
      if OtherType(m, h, k) {
        var t :| t != k.typ && Listens(m, h, Key(k.dev, k.attr, t));
        assert Listens(m', h, Key(k.dev, k.attr, t)) && !Recorded(m', h, Key(k.dev, k.attr, t));
      } else {
        forall k' | Listens(m', h, k')
          ensures Recorded(m', h, k')
        {
          assert Listens(m, h, k') && k' != k && k' == Key(k'.dev, k'.attr, k'.typ);
        }
      }
  }

  // ----- a disciplined connection leaves nothing behind -----

  /** h listens to one event type per attribute at most. */
  ghost predicate OneType(m: Model, h: Conn) {
    forall k, k' :: Listens(m, h, k) && Listens(m, h, k') && k.dev == k'.dev && k.attr == k'.attr ==> k == k'
  }

  /** h does not remove ids of other connections' subscriptions, and after a section of h it
      listens to one type per attribute. */
  ghost predicate Disciplined(o: Oracle, m: Model, h: Conn, s: Section) {
    OneType(Enter(o, m, h, s), h) && RemovesOwn(m, h, s)
  }

  ghost predicate RemovesOwn(m: Model, h: Conn, s: Section) {
    s.RemSection? && s.eventSubId.Some? && KeyOfId(m, s.eventSubId.value).Some?
    ==> Listens(m, h, KeyOfId(m, s.eventSubId.value).value)
  }

  ghost predicate DisciplinedRun(o: Oracle, run: History, h: Conn) {
    forall i :: 0 <= i < |run| && run[i].0 == h ==> Disciplined(o, Run(o, run[..i]), h, run[i].1)
  }

  // ----- a discipline that can be kept by looking at the request -----

  /** A list names a key: one of its devices, one of that device's attributes, and the list's type. */
  predicate Names(ds: seq<DeviceAttrs>, typ: EventType, k: Key) {
    k.typ == TypeName(typ)
    && exists i :: 0 <= i < |ds| && ds[i].dev == k.dev && NamesAttr(ds[i].attrs, k.attr)
  }

  predicate NamesAttr(attrs: seq<AttrOpt>, attr: string) {
    exists j :: 0 <= j < |attrs| && attrs[j].0 == attr
  }

  /** h asks for no attribute that it listens to for another event type, and removes only ids it listens to. */
  ghost predicate Careful(m: Model, h: Conn, s: Section) {
    && (s.AddSection? ==> forall k :: Names(s.ds, s.typ, k) ==> !OtherType(m, h, k))
    && RemovesOwn(m, h, s)
  }

  lemma {:induction false} AttrsGrantNamed(o: Oracle, m: Model, h: Conn, dev: string, attrs: seq<AttrOpt>, typ: EventType,
                                           k: Key)
    requires Granted(AddAttrs(o, m, h, dev, attrs, typ).1, k)
    ensures k.dev == dev && k.typ == TypeName(typ) && NamesAttr(attrs, k.attr)
  {
    var rs := AddAttrs(o, m, h, dev, attrs, typ).1;
    if attrs != [] {
      var n := |attrs| - 1;
      var (m1, rs1) := AddAttrs(o, m, h, dev, attrs[..n], typ);
      var r := AddOne(o, m1, h, dev, attrs[n], typ).1;
      GrantedConcat(rs1, [r], k);
      if Granted(rs1, k) {
        AttrsGrantNamed(o, m, h, dev, attrs[..n], typ, k);
        var j :| 0 <= j < n && attrs[..n][j].0 == k.attr;
        assert attrs[j].0 == k.attr;
      } else {
        assert [r][0].key == k;
        assert attrs[n].0 == k.attr;
      }
    }
  }

  lemma DeviceGrantsNamed(o: Oracle, m: Model, h: Conn, d: DeviceAttrs, typ: EventType, k: Key)
    requires Granted(AddDevice(o, m, h, d, typ).1, k)
    ensures k.dev == d.dev && k.typ == TypeName(typ) && NamesAttr(d.attrs, k.attr)
  {
    if InUse(m, d.dev) {
      AttrsGrantNamed(o, m, h, d.dev, d.attrs, typ, k);
    } else if o.connect(m.proxyCalls) {
      AttrsGrantNamed(o, m.(proxyCalls := m.proxyCalls + 1), h, d.dev, d.attrs, typ, k);
    }
  }

  /** What an add grants, its list names. */
  lemma {:induction false} ListGrantsNamed(o: Oracle, m: Model, h: Conn, ds: seq<DeviceAttrs>, typ: EventType, k: Key)
    requires Granted(AddList(o, m, h, ds, typ).1, k)
    ensures Names(ds, typ, k)
  {
    if ds != [] {
      var n := |ds| - 1;
      var (m1, rs1) := AddList(o, m, h, ds[..n], typ);
      var rs2 := AddDevice(o, m1, h, ds[n], typ).1;
      GrantedConcat(rs1, rs2, k);
      if Granted(rs1, k) {
        ListGrantsNamed(o, m, h, ds[..n], typ, k);
        var i :| 0 <= i < n && ds[..n][i].dev == k.dev && NamesAttr(ds[..n][i].attrs, k.attr);
        assert ds[i].dev == k.dev && NamesAttr(ds[i].attrs, k.attr);
      } else {
        DeviceGrantsNamed(o, m1, h, ds[n], typ, k);
      }
    }
  }

  /** One list of an add cannot bring a second type by itself: all it names has one. */
  lemma CarefulAddKeepsOneType(o: Oracle, m: Model, h: Conn, ds: seq<DeviceAttrs>, typ: EventType)
    requires OneType(m, h) && Careful(m, h, AddSection(ds, typ))
    ensures OneType(AddList(o, m, h, ds, typ).0, h)
  {
    var (m', rs) := AddList(o, m, h, ds, typ);
    AddListAdded(o, m, h, ds, typ);
    forall k, k' | Listens(m', h, k) && Listens(m', h, k') && k.dev == k'.dev && k.attr == k'.attr
      ensures k == k'
    {
      OneOfTwo(o, m, h, ds, typ, k, k');
      OneOfTwo(o, m, h, ds, typ, k', k);
    }
  }

  lemma OneOfTwo(o: Oracle, m: Model, h: Conn, ds: seq<DeviceAttrs>, typ: EventType, k: Key, k': Key)
    requires OneType(m, h) && Careful(m, h, AddSection(ds, typ)) && k.dev == k'.dev && k.attr == k'.attr
    requires Listens(m, h, k) || Granted(AddList(o, m, h, ds, typ).1, k)
    requires Listens(m, h, k') || Granted(AddList(o, m, h, ds, typ).1, k')
    ensures Granted(AddList(o, m, h, ds, typ).1, k) ==> k == k'
    ensures Listens(m, h, k) && Listens(m, h, k') ==> k == k'
  {
    assert Key(k.dev, k.attr, k'.typ) == k';
    if Granted(AddList(o, m, h, ds, typ).1, k) {
      ListGrantsNamed(o, m, h, ds, typ, k);
      if Granted(AddList(o, m, h, ds, typ).1, k') {
        ListGrantsNamed(o, m, h, ds, typ, k');
      }
    }
  }

  /** Careful sections are disciplined. */
  lemma CarefulIsDisciplined(o: Oracle, m: Model, h: Conn, s: Section)
    requires OneType(m, h) && Careful(m, h, s)
    ensures Disciplined(o, m, h, s)
  {
    match s
    case AddSection(ds, typ) => CarefulAddKeepsOneType(o, m, h, ds, typ);
    case OffSection => DropsOneType(m, h, RecordedKeys(m, h), Disconnect(m, h));
    case CheckSection(_) =>
    case RemSection(None) =>
    case RemSection(Some(id)) =>
      match KeyOfId(m, id)
      case None =>
      case Some(k) => DropsOneType(m, h, {k}, Remove(m, h, id).0);
  }

  lemma DropsOneType(m: Model, h: Conn, ks: set<Key>, m': Model)
    requires OneType(m, h) && m'.subs == DropAll(m, h, ks).subs
    ensures OneType(m', h)
  {
    forall k ensures Listens(m', h, k) ==> Listens(m, h, k) {
    }
  }

  ghost predicate CarefulRun(o: Oracle, run: History, h: Conn) {
    forall i :: 0 <= i < |run| && run[i].0 == h ==> Careful(Run(o, run[..i]), h, run[i].1)
  }

  /** Adding only adds listeners, so one type at the end is one type all along. */
  lemma AddedOneType(m: Model, m': Model, h: Conn, rs: seq<Resp>)
    requires Added(m, m', h, rs) && OneType(m', h)
    ensures OneType(m, h)
  {
    forall k, k' | Listens(m, h, k) && Listens(m, h, k') && k.dev == k'.dev && k.attr == k'.attr
      ensures k == k'
    {
      assert Listens(m', h, k) && Listens(m', h, k');
    }
  }

  lemma AddOneComplete(o: Oracle, m: Model, h: Conn, dev: string, a: AttrOpt, typ: EventType)
    requires Complete(m, h) && OneType(AddOne(o, m, h, dev, a, typ).0, h)
    ensures Complete(AddOne(o, m, h, dev, a, typ).0, h)
  {
    AddKeepsCompleteIff(o, m, h, dev, a, typ);
    AddOneAdded(o, m, h, dev, a, typ);
    var (m', r) := AddOne(o, m, h, dev, a, typ);
    assert [r][0] == r;
  }

  lemma {:induction false} AddAttrsComplete(o: Oracle, m: Model, h: Conn, dev: string, attrs: seq<AttrOpt>, typ: EventType)
    requires Complete(m, h) && OneType(AddAttrs(o, m, h, dev, attrs, typ).0, h)
    ensures Complete(AddAttrs(o, m, h, dev, attrs, typ).0, h)
  {
    if attrs != [] {
      var n := |attrs| - 1;
      var m1 := AddAttrs(o, m, h, dev, attrs[..n], typ).0;
      AddOneAdded(o, m1, h, dev, attrs[n], typ);
      AddedOneType(m1, AddOne(o, m1, h, dev, attrs[n], typ).0, h, [AddOne(o, m1, h, dev, attrs[n], typ).1]);
      AddAttrsComplete(o, m, h, dev, attrs[..n], typ);
      AddOneComplete(o, m1, h, dev, attrs[n], typ);
    }
  }

  lemma SameComplete(m: Model, m': Model, h: Conn)
    requires m'.subs == m.subs && m'.index == m.index
    ensures Complete(m, h) ==> Complete(m', h)
    ensures OneType(m, h) ==> OneType(m', h)
  {
    forall k
      ensures Listens(m', h, k) <==> Listens(m, h, k)
      ensures Recorded(m', h, k) <==> Recorded(m, h, k)
    {
    }
  }

  lemma AddDeviceComplete(o: Oracle, m: Model, h: Conn, d: DeviceAttrs, typ: EventType)
    requires Complete(m, h) && OneType(AddDevice(o, m, h, d, typ).0, h)
    ensures Complete(AddDevice(o, m, h, d, typ).0, h)
  {
    if InUse(m, d.dev) {
      AddAttrsComplete(o, m, h, d.dev, d.attrs, typ);
    } else {
      var m1 := m.(proxyCalls := m.proxyCalls + 1);
      SameComplete(m, m1, h);
      if o.connect(m.proxyCalls) {
        AddAttrsComplete(o, m1, h, d.dev, d.attrs, typ);
      }
    }
  }

  lemma {:induction false} AddListComplete(o: Oracle, m: Model, h: Conn, ds: seq<DeviceAttrs>, typ: EventType)
    requires Complete(m, h) && OneType(AddList(o, m, h, ds, typ).0, h)
    ensures Complete(AddList(o, m, h, ds, typ).0, h)
  {
    if ds != [] {
      var n := |ds| - 1;
      var m1 := AddList(o, m, h, ds[..n], typ).0;
      AddDeviceAdded(o, m1, h, ds[n], typ);
      AddedOneType(m1, AddDevice(o, m1, h, ds[n], typ).0, h, AddDevice(o, m1, h, ds[n], typ).1);
      AddListComplete(o, m, h, ds[..n], typ);
      AddDeviceComplete(o, m1, h, ds[n], typ);
    }
  }

  /** What another connection does leaves the completeness of h's part alone. */
  lemma OtherSectionComplete(o: Oracle, m: Model, c: Conn, s: Section, h: Conn)
    requires c != h && Complete(m, h)
    ensures Complete(Enter(o, m, c, s), h)
  {
    var m' := Enter(o, m, c, s);
    forall k | Listens(m', h, k)
      ensures Recorded(m', h, k)
    {
      SectionFrame(o, m, c, s, h, k);
      assert Listens(m, h, k);
      var slot := Slot(h, k.dev, k.attr);
      if s.AddSection? {
        AddListAdded(o, m, c, s.ds, s.typ);
        assert slot in m'.index && m'.index[slot] == m.index[slot];
      }
    }
  }

  lemma OwnSectionComplete(o: Oracle, m: Model, h: Conn, s: Section)
    requires Inv(o, m) && Complete(m, h) && OneType(m, h) && Disciplined(o, m, h, s)
    ensures Complete(Enter(o, m, h, s), h)
  {
    match s
    case AddSection(ds, typ) => AddListComplete(o, m, h, ds, typ);
    case OffSection =>
      DisconnectExact(m, h);
    case CheckSection(_) =>
    case RemSection(None) =>
    case RemSection(Some(id)) =>
      RemoveKeepsCompleteIff(m, h, id);
  }

  lemma OtherSectionOneType(o: Oracle, m: Model, c: Conn, s: Section, h: Conn)
    requires c != h && OneType(m, h)
    ensures OneType(Enter(o, m, c, s), h)
  {
    var m' := Enter(o, m, c, s);
    forall k
      ensures Listens(m', h, k) ==> Listens(m, h, k)
    {
      SectionFrame(o, m, c, s, h, k);
    }
  }

  lemma {:induction false} DisciplinedComplete(o: Oracle, run: History, h: Conn)
    requires FreshIds(o) && DisciplinedRun(o, run, h)
    ensures Complete(Run(o, run), h) && OneType(Run(o, run), h)
  {
    if run != [] {
      var n := |run| - 1;
      var before := run[..n];
      forall i | 0 <= i < |before| && before[i].0 == h
        ensures Disciplined(o, Run(o, before[..i]), h, before[i].1)
      {
        assert before[..i] == run[..i] && before[i] == run[i];
      }
      DisciplinedComplete(o, before, h);
      RunInv(o, before);
      if run[n].0 == h {
        OwnSectionComplete(o, Run(o, before), h, run[n].1);
      } else {
        OtherSectionComplete(o, Run(o, before), run[n].0, run[n].1, h);
        OtherSectionOneType(o, Run(o, before), run[n].0, run[n].1, h);
      }
    }
  }

  /** A connection that is careful all along is disciplined all along. */
  lemma {:induction false} CarefulRunIsDisciplined(o: Oracle, run: History, h: Conn)
    requires FreshIds(o) && CarefulRun(o, run, h)
    ensures DisciplinedRun(o, run, h)
  {
    if run != [] {
      var n := |run| - 1;
      var before := run[..n];
      forall i | 0 <= i < n ensures before[..i] == run[..i] && before[i] == run[i] {
      }
      CarefulRunIsDisciplined(o, before, h);
      DisciplinedComplete(o, before, h);
      forall i | 0 <= i < |run| && run[i].0 == h ensures Disciplined(o, Run(o, run[..i]), h, run[i].1) {
        if i < n {
          assert Disciplined(o, Run(o, before[..i]), h, before[i].1);
        } else {
          CarefulIsDisciplined(o, Run(o, before), h, run[n].1);
        }
      }
    }
  }

  /** After any run in which h was disciplined, whatever others did, closing h leaves it in no
      listener set. */
  lemma DisconnectCleans(o: Oracle, run: History, h: Conn)
    requires FreshIds(o) && DisciplinedRun(o, run, h)
    ensures forall k :: !Listens(Run(o, run + [(h, OffSection)]), h, k)
  {
    DisciplinedComplete(o, run, h);
    DisconnectExact(Run(o, run), h);
    RunMore(o, run, h, OffSection);
  }

  /** The same, by conditions that h can check before each request. */
  lemma CarefulCleans(o: Oracle, run: History, h: Conn)
    requires FreshIds(o) && CarefulRun(o, run, h)
    ensures forall k :: !Listens(Run(o, run + [(h, OffSection)]), h, k)
  {
    CarefulRunIsDisciplined(o, run, h);
    DisconnectCleans(o, run, h);
  }

  /** Without the discipline it fails: one request for two event types of one attribute, then the connection closes. */
  lemma TwoTypesLeak(o: Oracle)
    requires FreshIds(o) && o.connect(0) && o.subscribe(0).Some? && o.subscribe(1).Some?
    ensures var d := DeviceAttrs("dev", [("attr", "")]);
            var q := AddDev(AddReq([d], [d], [], []));
            Listens(Run(o, Sections(7, q) + Sections(7, Off)), 7, Key("dev", "attr", "periodic"))
  {
    var d := DeviceAttrs("dev", [("attr", "")]);
    var q := AddDev(AddReq([d], [d], [], []));
    assert [] + Sections(7, q) == Sections(7, q);
    RunRequest(o, [], 7, q);
    RunRequest(o, Sections(7, q), 7, Off);
    var k1 := Key("dev", "attr", "periodic");
    var m0 := EMPTY.(proxyCalls := 1);
    var m1 := AddOne(o, m0, 7, "dev", ("attr", ""), Periodic).0;
    OneDevice(o, EMPTY, 7, d, Periodic);
    assert Listens(m1, 7, k1) && InUse(m1, "dev");
    var m2 := AddOne(o, m1, 7, "dev", ("attr", ""), Change).0;
    OneDevice(o, m1, 7, d, Change);
    assert |"periodic"| == 8 && |"change"| == 6;
    assert Listens(m2, 7, k1) && !Recorded(m2, 7, k1);
    assert Step(o, EMPTY, 7, q).0 == m2;
    DisconnectExact(m2, 7);
  }

  /** A list with one device, one of whose attributes is named. */
  lemma OneDevice(o: Oracle, m: Model, h: Conn, d: DeviceAttrs, typ: EventType)
    requires |d.attrs| == 1 && (InUse(m, d.dev) || o.connect(m.proxyCalls))
    ensures var m0 := if InUse(m, d.dev) then m else m.(proxyCalls := m.proxyCalls + 1);
            AddList(o, m, h, [d], typ).0 == AddOne(o, m0, h, d.dev, d.attrs[0], typ).0
  {
    var m0 := if InUse(m, d.dev) then m else m.(proxyCalls := m.proxyCalls + 1);
    assert [d][..0] == [] && d.attrs[..0] == [];
    assert AddAttrs(o, m0, h, d.dev, d.attrs, typ).0 == AddOne(o, m0, h, d.dev, d.attrs[0], typ).0;
  }

  /** With nothing subscribed, a request for one attribute makes its connection the only listener of the only key. */
  lemma AddsOne(o: Oracle, m: Model, h: Conn, dev: string, attr: string)
    requires m.subs == map[] && o.connect(m.proxyCalls) && o.subscribe(m.calls).Some?
    ensures var k := Key(dev, attr, TypeName(Periodic));
            var m' := Step(o, m, h, AddDev(AddReq([DeviceAttrs(dev, [(attr, "")])], [], [], []))).0;
            && m'.subs == map[k := Sub(o.subscribe(m.calls).value, map[h := ""])]
            && m'.calls == m.calls + 1 && m'.proxyCalls == m.proxyCalls + 1
  {
    OneDevice(o, m, h, DeviceAttrs(dev, [(attr, "")]), Periodic);
  }

  /** When the only listener of the only key leaves by its id, nothing is subscribed. */
  lemma RemovesLast(o: Oracle, m: Model, h: Conn, k: Key)
    requires m.subs.Keys == {k} && m.subs[k].listeners.Keys == {h}
    ensures var m' := Step(o, m, h, RemDev(Some(m.subs[k].id))).0;
            m'.subs == map[] && m'.calls == m.calls && m'.proxyCalls == m.proxyCalls
  {
    assert KeyOfId(m, m.subs[k].id) == Some(k);
  }
}
