/** The event-subscription registry of client mode: four cross-linked maps that are updated request
    by request. Each method is proved to do to the abstract state what the function of the same
    request does, and to make only allowed calls to the outside. */
module EventRegistry {
  import opened SubscriptionModel
  import opened TangoWorld
  import opened NestedMaps
  import opened Coupling
  import opened RegistrySteps
  import opened SubscriptionRuns

  class EventProcCli {
    // the registry's own fields
    var usedDevices: map<string, Ptr>
    var eventSubs: EventSubs
    var eventTypes: EventTypes
    var listOfId: map<int, Key>

    // the environment: what Tango answers, how far it has been asked, and the allocator
    const oracle: Oracle
    var calls: nat
    var proxyCalls: nat
    var closes: nat
    var nextPtr: Ptr

    // the fields as one value, with the abstract state they stand for and what was done to the outside
    ghost var reg: Reg

    ghost predicate Matches()
      reads this
    {
      && usedDevices == reg.used && eventSubs == reg.es && eventTypes == reg.et && listOfId == reg.ids
      && calls == reg.calls && proxyCalls == reg.proxyCalls && nextPtr == reg.next
      && closes == reg.closes && oracle.unsubscribe == reg.unsub
    }

    /** The state between requests: no leaf is dangling, no proxy is spare. */
    ghost predicate Valid()
      reads this
    {
      && FreshIds(oracle) && Inv(oracle, reg.m)
      && Matches() && Good(reg) && reg.leaves.Keys == reg.m.subs.Keys && reg.spare == {}
    }

    constructor (o: Oracle)
      requires FreshIds(o)
      ensures Valid() && oracle == o && reg.m == EMPTY && reg.log == []
    {
      usedDevices, eventSubs, eventTypes, listOfId := map[], map[], map[], map[];
      oracle, calls, proxyCalls, closes, nextPtr := o, 0, 0, 0, 0;
      reg := EmptyReg(o);
      new;
      forall a ensures Holds(a, reg) { }
    }

    // ----- eventreq_add_dev -----

    /** Makes sure there is a proxy for the device. */
    method CheckDeviceExist(dev: string) returns (existed: bool, failed: bool)
      requires Matches()
      modifies this
      ensures Matches()
      ensures existed <==> dev in old(usedDevices)
      ensures failed <==> !existed && !oracle.connect(old(proxyCalls))
      ensures reg == if existed then old(reg)
                     else if failed then AfterProxyCall(old(reg))
                     else AfterNewProxy(AfterProxyCall(old(reg)), dev)
    {
      existed, failed := true, false;
      if dev !in usedDevices {
        existed := false;
        failed := !oracle.connect(proxyCalls);
        proxyCalls := proxyCalls + 1;
        reg := AfterProxyCall(reg);
        if !failed {
          usedDevices := usedDevices[dev := nextPtr];
          nextPtr := nextPtr + 1;
          reg := AfterNewProxy(reg, dev);
        }
      }
    }

    /** The end of AddCallback: the connection joins the listeners and the reverse index. */
    method AddListener(hdl: Conn, k: Key, typ: EventType, opt: string)
      requires Matches() && k in reg.m.subs
      modifies this
      ensures Matches()
      ensures reg == AfterJoin(old(reg), hdl, k, typ, opt)
    {
      var leaf := Leaf(eventSubs, k);
      leaf := leaf.(connList := leaf.connList[hdl := opt]);
      eventSubs := PutLeaf(eventSubs, k, leaf);
      eventTypes := PutEntry(eventTypes, Slot(hdl, k.dev, k.attr), typ);
      reg := AfterJoin(reg, hdl, k, typ, opt);
    }

    /** The first subscription to a key: a new leaf and callback, and a call of subscribe_event. */
    method FirstSubscription(k: Key) returns (resp: Resp)
      requires Matches() && k.dev in usedDevices
      modifies this
      ensures Matches()
      ensures match oracle.subscribe(old(calls))
              case None =>
                && resp == Resp(Failed, k, None)
                && reg == AfterFail(AfterNewLeaf(old(reg), k, FailedLeaf(old(reg))), k)
              case Some(id) =>
                && resp == Resp(Success, k, Some(id))
                && var l := UsedEventSubscr(map[], id, k, Some(old(nextPtr)));
                   reg == AfterOpen(AfterNewLeaf(old(reg), k, l), k, id)
    {
      var l := DEFAULT_SUBSCR;
      l := l.(evCallback := Some(nextPtr));
      var outcome := oracle.subscribe(calls);
      calls := calls + 1;
      match outcome {
        case None =>
          reg := AfterFail(AfterNewLeaf(reg, k, l), k);
          resp := Resp(Failed, k, None);
        case Some(id) =>
          l := l.(eventAttrCh := k, eventSubId := id);
          listOfId := listOfId[id := k];
          reg := AfterOpen(AfterNewLeaf(reg, k, l), k, id);
          resp := Resp(Success, k, Some(id));
      }
      nextPtr := nextPtr + 1;
      eventSubs := PutLeaf(eventSubs, k, l);
    }

    /** The first half of AddCallback: after it either there is a subscription for hdl to join, or the
        request is answered. */
    method FindOrSubscribe(hdl: Conn, k: Key) returns (resp: Resp)
      requires Matches() && FreshInv(oracle, reg.m) && SubsInv(reg.m)
      requires Good(reg) && reg.leaves.Keys == reg.m.subs.Keys && k.dev in usedDevices
      modifies this
      ensures Matches() && Good(reg)
      ensures (reg.m, resp) == Prepare(oracle, old(reg.m), hdl, k)
      ensures Same(old(reg), reg, if k in old(reg.m.subs) then {} else {k})
    {
      LeafKeys(reg, k);
      var leaf := Leaf(eventSubs, k);
      if k in reg.m.subs {
        KnownLeaf(reg, k);
      }
      if leaf.evCallback == None {
        FirstSubscriptionStep(oracle, reg, k);
        resp := FirstSubscription(k);
      } else {
        if hdl in leaf.connList {
          resp := Resp(AddedEarly, k, Some(leaf.eventSubId));
        } else {
          resp := Resp(Success, k, None);
        }
      }
    }

    /** Subscribes hdl to one attribute. A failed first subscription leaves a dangling leaf behind,
        for the caller to erase. */
    method AddCallback(hdl: Conn, dev: string, a: AttrOpt, typ: EventType) returns (resp: Resp)
      requires Matches() && FreshInv(oracle, reg.m) && SubsInv(reg.m)
      requires Good(reg) && reg.leaves.Keys == reg.m.subs.Keys && dev in usedDevices
      modifies this
      ensures Matches() && Good(reg)
      ensures (reg.m, resp) == AddOne(oracle, old(reg.m), hdl, dev, a, typ)
      ensures var k := Key(dev, a.0, TypeName(typ));
              Same(old(reg), reg, if k in old(reg.m.subs) then {} else {k})
    {
      var k := Key(dev, a.0, TypeName(typ));
      resp := FindOrSubscribe(hdl, k);
      ghost var r1 := reg;
      if resp.kind == Success {
        JoinStep(r1, hdl, k, typ, a.1);
        AddListener(hdl, k, typ, a.1);
        SameTwice(old(reg), r1, reg, if k in old(reg.m.subs) then {} else {k});
      }
    }

    /** Subscribes hdl to the attributes of one device that has a proxy. */
    method SubscribeAttrs(hdl: Conn, dev: string, attrs: seq<AttrOpt>, typ: EventType)
      returns (rs: seq<Resp>, anything: bool)
      requires FreshIds(oracle) && Inv(oracle, reg.m) && Matches() && Good(reg)
      requires reg.leaves.Keys == reg.m.subs.Keys && dev in usedDevices && reg.spare == {dev}
      modifies this
      ensures Inv(oracle, reg.m) && Matches() && Good(reg)
      ensures reg.leaves.Keys == reg.m.subs.Keys && dev in usedDevices && reg.spare == {dev}
      ensures (reg.m, rs) == AddAttrs(oracle, old(reg.m), hdl, dev, attrs, typ)
      ensures anything <==> Anything(rs)
      ensures Kept(old(reg), reg)
    {
      rs, anything := [], false;
      var i := 0;
      while i < |attrs|
        invariant 0 <= i <= |attrs|
        invariant Inv(oracle, reg.m) && Matches() && Good(reg)
        invariant reg.leaves.Keys == reg.m.subs.Keys && dev in usedDevices && reg.spare == {dev}
        invariant (reg.m, rs) == AddAttrs(oracle, old(reg.m), hdl, dev, attrs[..i], typ)
        invariant anything <==> Anything(rs)
        invariant Kept(old(reg), reg)
      {
        AddOneInv(oracle, reg.m, hdl, dev, attrs[i], typ);
        assert attrs[..i + 1][..i] == attrs[..i];
        ghost var before := reg;
        var resp := SubscribeOne(hdl, dev, attrs[i], typ);
        KeptTwice(old(reg), before, reg);
        AnythingMore(rs, resp);
        rs := rs + [resp];
        anything := anything || resp.kind != Failed;
        i := i + 1;
      }
      assert attrs[..i] == attrs;
    }

    /** Erases a leaf, and its attribute's map with the last one. */
    method EraseLeaf(k: Key)
      requires Matches()
      modifies this
      ensures Matches() && reg == AfterPrune(old(reg), k)
    {
      eventSubs := EraseType(eventSubs, k);
      if AttrOf(eventSubs, k.dev, k.attr) == map[] {
        eventSubs := EraseAttr(eventSubs, k.dev, k.attr);
      }
      reg := AfterPrune(reg, k);
    }

    /** One attribute: a failure's dangling leaf is erased at once. */
    method SubscribeOne(hdl: Conn, dev: string, a: AttrOpt, typ: EventType) returns (resp: Resp)
      requires Matches() && FreshInv(oracle, reg.m) && SubsInv(reg.m) && Good(reg)
      requires reg.leaves.Keys == reg.m.subs.Keys && dev in usedDevices && reg.spare == {dev}
      modifies this
      ensures Matches() && Good(reg)
      ensures (reg.m, resp) == AddOne(oracle, old(reg.m), hdl, dev, a, typ)
      ensures reg.leaves.Keys == reg.m.subs.Keys && dev in usedDevices && reg.spare == {dev}
      ensures Kept(old(reg), reg)
    {
      ghost var m0 := reg.m;
      resp := AddCallback(hdl, dev, a, typ);
      ghost var r1, k := reg, Key(dev, a.0, TypeName(typ));
      AddOneKeys(oracle, m0, hdl, dev, a, typ);
      if resp.kind == Failed {
        PruneStep(r1, k);
        EraseLeaf(Key(dev, a.0, TypeName(typ)));
        KeptButNew(old(reg), r1, reg, dev);
      }
    }

    /** Before the attributes of a device: a proxy is found or made. */
    method PrepareDevice(dev: string) returns (existed: bool, failed: bool)
      requires Valid()
      modifies this
      ensures existed <==> InUse(old(reg.m), dev)
      ensures existed <==> dev in old(reg.used)
      ensures failed <==> !existed && !oracle.connect(old(reg.m.proxyCalls))
      ensures reg.m == if existed then old(reg.m) else old(reg.m).(proxyCalls := old(reg.m.proxyCalls) + 1)
      ensures Inv(oracle, reg.m) && Matches() && Good(reg) && reg.leaves.Keys == reg.m.subs.Keys
      ensures reg.spare == if failed then {} else {dev}
      ensures !failed ==> dev in usedDevices
      ensures Kept(old(reg), reg)
    {
      ghost var r0 := reg;
      UsedDevices(r0, dev);
      SameDevices(r0, dev);
      assert r0.proxyCalls == r0.m.proxyCalls by { assert Holds(Counters, r0); }
      ProxyCallStep(r0);
      ProxyCallInv(oracle, r0.m);
      existed, failed := CheckDeviceExist(dev);
      if existed {
        SpareStep(reg, dev);
        reg := reg.(spare := reg.spare + {dev});
      } else if !failed {
        NewProxyStep(AfterProxyCall(r0), dev);
      }
    }

    /** After the attributes of a device: a proxy made for nothing is released again. */
    method FinishDevice(dev: string, existed: bool, anything: bool)
      requires FreshIds(oracle) && Inv(oracle, reg.m) && Matches() && Good(reg)
      requires reg.leaves.Keys == reg.m.subs.Keys && reg.spare == {dev} && dev in usedDevices
      requires existed || anything <==> InUse(reg.m, dev)
      modifies this
      ensures Valid() && reg.m == old(reg.m) && old(reg.log) <= reg.log
      ensures reg.cbs == old(reg.cbs) && reg.closes == old(reg.closes)
      ensures reg.used == old(reg.used) || (!existed && reg.used == old(reg.used) - {dev})
    {
      SameDevices(reg, dev);
      if !anything && !existed {
        DropProxyStep(reg, dev);
        usedDevices := usedDevices - {dev};
        reg := AfterDropProxy(reg, dev);
      } else {
        NotSpareStep(reg, dev);
        reg := reg.(spare := reg.spare - {dev});
      }
    }

    method SubscribeDevice(hdl: Conn, d: DeviceAttrs, typ: EventType) returns (rs: seq<Resp>)
      requires Valid()
      modifies this
      ensures Valid()
      ensures (reg.m, rs) == AddDevice(oracle, old(reg.m), hdl, d, typ)
      ensures Kept(old(reg), reg)
    {
      var existed, failed := PrepareDevice(d.dev);
      ghost var r1 := reg;
      if failed {
        rs := [Resp(Failed, Key(d.dev, "", ""), None)];
        return;
      }
      assert existed <==> InUse(reg.m, d.dev);
      AddAttrsInUse(oracle, reg.m, hdl, d.dev, d.attrs, typ);
      var anything;
      rs, anything := SubscribeAttrs(hdl, d.dev, d.attrs, typ);
      ghost var r2 := reg;
      KeptTwice(old(reg), r1, r2);
      FinishDevice(d.dev, existed, anything);
      KeptButNew(old(reg), r2, reg, d.dev);
    }

    /** One of the four lists of a request, its devices in the order the map gives them. */
    method CheckEventReqList(hdl: Conn, ds: seq<DeviceAttrs>, typ: EventType) returns (rs: seq<Resp>)
      requires Valid()
      modifies this
      ensures Valid()
      ensures (reg.m, rs) == AddList(oracle, old(reg.m), hdl, ds, typ)
      ensures Kept(old(reg), reg)
    {
      rs := [];
      var i := 0;
      while i < |ds|
        invariant 0 <= i <= |ds|
        invariant Valid()
        invariant (reg.m, rs) == AddList(oracle, old(reg.m), hdl, ds[..i], typ)
        invariant Kept(old(reg), reg)
      {
        assert ds[..i + 1][..i] == ds[..i];
        ghost var before := reg;
        var r := SubscribeDevice(hdl, ds[i], typ);
        KeptTwice(old(reg), before, reg);
        rs := rs + r;
        i := i + 1;
      }
      assert ds[..i] == ds;
    }

    method AddDevReq(hdl: Conn, q: AddReq) returns (rs: seq<Resp>)
      requires Valid()
      modifies this
      ensures Valid()
      ensures (reg.m, rs) == AddRequest(oracle, old(reg.m), hdl, q)
      ensures Kept(old(reg), reg)
    {
      var r1 := CheckEventReqList(hdl, q.periodic, Periodic);
      ghost var g1 := reg;
      var r2 := CheckEventReqList(hdl, q.change, Change);
      ghost var g2 := reg;
      KeptTwice(old(reg), g1, g2);
      var r3 := CheckEventReqList(hdl, q.archive, Archive);
      ghost var g3 := reg;
      KeptTwice(old(reg), g2, g3);
      var r4 := CheckEventReqList(hdl, q.user, User);
      KeptTwice(old(reg), g3, reg);
      rs := r1 + r2 + r3 + r4;
    }

    // ----- eventreq_check_dev -----

    /** The nested look-up, with None for a missing key at any level. */
    method GetIdOfEventSubscription(hdl: Conn, k: Key) returns (id: Option<int>)
      requires Valid()
      ensures id == Lookup(reg.m, hdl, k)
    {
      LeafKeys(reg, k);
      if k.dev !in eventSubs || k.attr !in eventSubs[k.dev] || k.typ !in eventSubs[k.dev][k.attr] {
        assert !HasLeaf(eventSubs, k);
        return None;
      }
      var bytype := eventSubs[k.dev][k.attr][k.typ];
      assert bytype == Leaf(eventSubs, k);
      KnownLeaf(reg, k);
      if hdl !in bytype.connList {
        return None;
      }
      id := Some(bytype.eventSubId);
    }

    method CheckEventReq(hdl: Conn, k: Key) returns (reply: Reply)
      requires Valid()
      ensures (reg.m, reply) == Step(oracle, reg.m, hdl, CheckDev(k))
    {
      if k.typ != "change" && k.typ != "periodic" && k.typ != "user" && k.typ != "archive" {
        return NotValid;
      }
      var id := GetIdOfEventSubscription(hdl, k);
      match id
      case None => reply := NotFound;
      case Some(i) => reply := SubscriptionId(i);
    }

    // ----- eventreq_rem_dev -----

    /** Takes hdl off a subscription; closes it, and says so, when nobody listens any more. */
    method DelSubHdl(hdl: Conn, k: Key) returns (deleted: bool)
      requires Matches() && Good(reg) && k in reg.m.subs
      modifies this
      ensures Matches() && Good(reg)
      ensures reg.m == DropAll(old(reg.m), hdl, {k})
      ensures deleted <==> k !in reg.m.subs
      ensures reg.leaves.Keys == old(reg.leaves.Keys) && reg.spare == old(reg.spare)
      ensures eventTypes == old(eventTypes)
      ensures k.dev in old(usedDevices) && k in old(reg.cbs)
      ensures closes == old(closes) + if deleted then 1 else 0
      ensures reg.log == old(reg.log)
                         + if deleted then [Closing(old(usedDevices)[k.dev], k, old(reg.m.subs)[k].id,
                                                    oracle.unsubscribe(old(closes))),
                                            DeleteCallback(old(reg.cbs)[k])] else []
    {
      KnownLeaf(reg, k);
      LiveDevice(reg, k);
      DelSubStep(reg, hdl, k);
      var usedEvSub := Leaf(eventSubs, k);
      usedEvSub := usedEvSub.(connList := usedEvSub.connList - {hdl});
      eventSubs := PutLeaf(eventSubs, k, usedEvSub);
      EmptyWithout(reg.m.subs[k].listeners, hdl);
      deleted := usedEvSub.connList == map[];
      if deleted {
        // the proxy asked, the id closed and the callback released are those the log names; that closing may fail is
        // caught and makes no difference here
        closes := closes + 1;
        assert usedDevices[usedEvSub.eventAttrCh.dev] == reg.used[k.dev];
        assert usedEvSub.eventSubId == reg.m.subs[k].id && usedEvSub.evCallback == Some(reg.cbs[k]);
        listOfId := listOfId - {usedEvSub.eventSubId};
      }
      reg := AfterDelSub(reg, hdl, k);
    }

    /** Erases the leaf of a closed subscription, and its device's proxy with the last leaf. */
    method ClearSubscrInfoMaps(k: Key)
      requires Matches() && Good(reg) && k in reg.leaves && k !in reg.m.subs && reg.spare == {}
      modifies this
      ensures Matches() && Good(reg) && reg.m == old(reg.m)
      ensures reg.leaves.Keys == old(reg.leaves.Keys) - {k} && reg.spare == {}
      ensures eventTypes == old(eventTypes) && old(reg.log) <= reg.log
    {
      LeafDevice(reg, k);
      ClearStep(reg, k);
      EraseLeaf(k);
      if DevOf(eventSubs, k.dev) == map[] {
        eventSubs := eventSubs - {k.dev};
        usedDevices := usedDevices - {k.dev};
      }
      reg := AfterClear(old(reg), k);
    }

    /** Erases the entry of hdl for an attribute, whatever event type it names, and empty maps above it. */
    method ForgetEntry(hdl: Conn, k: Key)
      requires Matches()
      modifies this
      ensures Matches()
      ensures var slot := Slot(hdl, k.dev, k.attr);
              reg == old(reg).(et := EraseEntry(old(reg).et, slot), m := old(reg).m.(index := old(reg).m.index - {slot}))
    {
      eventTypes := eventTypes[hdl := TypesOf(eventTypes, hdl)[k.dev := DevTypes(eventTypes, hdl, k.dev) - {k.attr}]];
      if DevTypes(eventTypes, hdl, k.dev) == map[] {
        eventTypes := eventTypes[hdl := TypesOf(eventTypes, hdl) - {k.dev}];
      }
      if TypesOf(eventTypes, hdl) == map[] {
        eventTypes := eventTypes - {hdl};
      }
      ghost var slot := Slot(hdl, k.dev, k.attr);
      reg := reg.(et := EraseEntry(reg.et, slot), m := reg.m.(index := reg.m.index - {slot}));
    }

    /** Removal by subscription id, which need not be one of hdl's own. */
    method RemoveById(hdl: Conn, id: int) returns (found: bool)
      requires Valid()
      modifies this
      ensures Valid()
      ensures (reg.m, found) == Remove(old(reg.m), hdl, id)
      ensures old(reg.log) <= reg.log
    {
      KnownId(reg, id);
      RemoveInv(oracle, reg.m, hdl, id);
      found := id in listOfId;
      if found {
        var info := listOfId[id];
        LeaveById(hdl, info);
        EraseEntryStep(reg, Slot(hdl, info.dev, info.attr));
        ForgetEntry(hdl, info);
      }
    }

    /** hdl leaves a subscription; if it was the last, the subscription's leaf is erased too. */
    method LeaveById(hdl: Conn, k: Key)
      requires Matches() && Good(reg) && k in reg.m.subs
      requires reg.leaves.Keys == reg.m.subs.Keys && reg.spare == {}
      modifies this
      ensures Matches() && Good(reg) && reg.m == DropAll(old(reg.m), hdl, {k})
      ensures reg.leaves.Keys == reg.m.subs.Keys && reg.spare == {} && old(reg.log) <= reg.log
    {
      var deleted := DelSubHdl(hdl, k);
      ghost var keys := old(reg.m.subs.Keys);
      assert reg.m.subs.Keys == if deleted then keys - {k} else keys;
      if deleted {
        ClearSubscrInfoMaps(k);
      }
    }

    method RemDevReq(hdl: Conn, eventSubId: Option<int>) returns (reply: Reply)
      requires Valid()
      modifies this
      ensures Valid()
      ensures (reg.m, reply) == Step(oracle, old(reg.m), hdl, RemDev(eventSubId))
      ensures old(reg.log) <= reg.log
    {
      reply := NotFound;
      if eventSubId.Some? {
        var found := RemoveById(hdl, eventSubId.value);
        if found {
          reply := Done;
        }
      }
    }

    // ----- eventreq_off, and a closed connection -----

    /** All leaves are subscriptions or wait in forDel, once each. */
    ghost predicate Dangling(forDel: seq<Key>)
      reads this
    {
      && Matches() && Good(reg) && reg.spare == {}
      && reg.leaves.Keys == reg.m.subs.Keys + Elements(forDel) && reg.m.subs.Keys !! Elements(forDel)
      && NoRepeats(forDel)
    }

    /** The inner loop of unsubscribeAllDev: hdl leaves what it has recorded for one device. */
    method LeaveDevice(hdl: Conn, dev: string, attrs: TypesByAttr, pending: seq<Key>, ghost m0: Model, ghost done: set<Key>)
      returns (forDel: seq<Key>)
      requires Dangling(pending) && reg.m == DropAll(m0, hdl, done)
      requires KeysOf(dev, attrs, attrs.Keys) !! done
      requires forall k :: k in KeysOf(dev, attrs, attrs.Keys) ==> Listens(m0, hdl, k)
      modifies this
      ensures Dangling(forDel) && reg.m == DropAll(m0, hdl, done + KeysOf(dev, attrs, attrs.Keys))
      ensures eventTypes == old(eventTypes) && old(reg.log) <= reg.log
    {
      forDel := pending;
      var left := attrs.Keys;
      assert KeysOf(dev, attrs, {}) == {} && done + {} == done;
      while left != {}
        invariant left <= attrs.Keys
        invariant Dangling(forDel)
        invariant reg.m == DropAll(m0, hdl, done + KeysOf(dev, attrs, attrs.Keys - left))
        invariant eventTypes == old(eventTypes) && old(reg.log) <= reg.log
      {
        var attr :| attr in left;
        ghost var some := attrs.Keys - left;
        forDel := LeaveAttr(hdl, dev, attrs, attr, forDel, m0, done, some);
        left := left - {attr};
        assert attrs.Keys - left == some + {attr};
      }
      assert attrs.Keys - left == attrs.Keys;
    }

    /** One step of that loop. */
    method LeaveAttr(hdl: Conn, dev: string, attrs: TypesByAttr, attr: string, pending: seq<Key>, ghost m0: Model,
                     ghost done: set<Key>, ghost some: set<string>)
      returns (forDel: seq<Key>)
      requires attr in attrs && some <= attrs.Keys && attr !in some && Dangling(pending)
      requires reg.m == DropAll(m0, hdl, done + KeysOf(dev, attrs, some))
      requires KeysOf(dev, attrs, attrs.Keys) !! done
      requires forall k :: k in KeysOf(dev, attrs, attrs.Keys) ==> Listens(m0, hdl, k)
      modifies this
      ensures Dangling(forDel) && reg.m == DropAll(m0, hdl, done + KeysOf(dev, attrs, some + {attr}))
      ensures eventTypes == old(eventTypes) && old(reg.log) <= reg.log
    {
      var evType := attrs[attr];
      var k := Key(dev, attr, TypeName(evType));
      LeaveMore(m0, hdl, done, dev, attrs, some, attr);
      forDel := pending;
      var deleted := LeaveOne(hdl, k, forDel);
      if deleted {
        forDel := forDel + [k];
      }
    }

    method LeaveOne(hdl: Conn, k: Key, ghost pending: seq<Key>) returns (deleted: bool)
      requires Dangling(pending) && k in reg.m.subs
      modifies this
      ensures Dangling(if deleted then pending + [k] else pending)
      ensures reg.m == DropAll(old(reg.m), hdl, {k})
      ensures eventTypes == old(eventTypes) && old(reg.log) <= reg.log
    {
      deleted := DelSubHdl(hdl, k);
      PushElement(pending, k);
      assert reg.m.subs.Keys == old(reg.m.subs.Keys) - if deleted then {k} else {};
    }

    /** Erases the leaves of the subscriptions that were closed. */
    method ClearAll(forDel: seq<Key>)
      requires Dangling(forDel)
      modifies this
      ensures Dangling([]) && reg.m == old(reg.m)
      ensures eventTypes == old(eventTypes) && old(reg.log) <= reg.log
    {
      var i := 0;
      assert forDel[0..] == forDel;
      while i < |forDel|
        invariant 0 <= i <= |forDel|
        invariant Dangling(forDel[i..]) && reg.m == old(reg.m)
        invariant eventTypes == old(eventTypes) && old(reg.log) <= reg.log
      {
        PopElement(forDel[i..]);
        assert forDel[i..][1..] == forDel[i + 1..];
        ClearSubscrInfoMaps(forDel[i]);
        i := i + 1;
      }
    }

    /** The outer loop of unsubscribeAllDev. */
    method LeaveAll(hdl: Conn, list: TypesByDev, ghost m0: Model) returns (forDel: seq<Key>)
      requires Dangling([]) && reg.m == m0
      requires forall k :: k in KeysIn(list, list.Keys) ==> Listens(m0, hdl, k)
      modifies this
      ensures Dangling(forDel) && reg.m == DropAll(m0, hdl, KeysIn(list, list.Keys))
      ensures eventTypes == old(eventTypes) && old(reg.log) <= reg.log
    {
      DropNone(m0, hdl);
      assert KeysIn(list, {}) == {};
      forDel := [];
      var left := list.Keys;
      while left != {}
        invariant left <= list.Keys
        invariant Dangling(forDel) && reg.m == DropAll(m0, hdl, KeysIn(list, list.Keys - left))
        invariant eventTypes == old(eventTypes) && old(reg.log) <= reg.log
      {
        var dev :| dev in left;
        ghost var some := list.Keys - left;
        KeysInStep(list, some, dev);
        forDel := LeaveDevice(hdl, dev, list[dev], forDel, m0, KeysIn(list, some));
        left := left - {dev};
        assert list.Keys - left == some + {dev};
      }
      assert list.Keys - left == list.Keys;
    }

    /** Takes hdl off everything its part of the reverse index names, and forgets that part. */
    method UnsubscribeAllDev(hdl: Conn)
      requires Valid()
      modifies this
      ensures Valid()
      ensures reg.m == Disconnect(old(reg.m), hdl)
      ensures old(reg.log) <= reg.log
    {
      ghost var m0 := reg.m;
      DisconnectInv(oracle, m0, hdl);
      TouchStep(reg, hdl);
      RecordedInList(oracle, reg, hdl);
      var list := TypesOf(eventTypes, hdl);
      eventTypes := eventTypes[hdl := list];
      reg := reg.(et := eventTypes);
      if list == map[] {
        DisconnectNothing(m0, hdl);
        return;
      }
      var forDel := LeaveAll(hdl, list, m0);
      ClearAll(forDel);
      ForgetStep(reg, hdl);
      eventTypes := eventTypes - {hdl};
      reg := AfterForget(reg, hdl);
    }

    // ----- requests and events -----

    method HandleRequest(hdl: Conn, q: Request) returns (reply: Reply)
      requires Valid()
      modifies this
      ensures Valid()
      ensures (reg.m, reply) == Step(oracle, old(reg.m), hdl, q)
      ensures old(reg.log) <= reg.log
    {
      match q {
        case AddDev(lists) =>
          var rs := AddDevReq(hdl, lists);
          reply := Subscribed(rs);
        case Off =>
          UnsubscribeAllDev(hdl);
          reply := Done;
        case CheckDev(k) =>
          reply := CheckEventReq(hdl, k);
        case RemDev(id) =>
          reply := RemDevReq(hdl, id);
      }
    }

    /** An event of a subscription: who gets it; nobody, if the registry is busy. Looking up with operator[] leaves the
        registry alone exactly when the event is for a live subscription; else it leaves a leaf without a callback. */
    method SendMessage(k: Key, busy: bool) returns (targets: map<Conn, string>)
      requires Valid()
      modifies this`eventSubs
      ensures busy ==> targets == map[] && eventSubs == old(eventSubs)
      ensures !busy && k in reg.m.subs ==> targets == reg.m.subs[k].listeners
      ensures !busy && k !in reg.m.subs ==>
                targets == map[] && HasLeaf(eventSubs, k) && Leaf(eventSubs, k).evCallback == None
      ensures Valid() <==> busy || k in reg.m.subs
    {
      if busy {
        return map[];
      }
      LeafKeys(reg, k);
      if k in reg.m.subs {
        KnownLeaf(reg, k);
        PutSame(eventSubs, k);
      }
      var leaf := Leaf(eventSubs, k);
      PutLeafLookup(eventSubs, k, leaf, k);
      eventSubs := PutLeaf(eventSubs, k, leaf);
      targets := leaf.connList;
    }
  }
}
