/** The registry as one value, and the elementary steps its methods are made of. Each step is a
    function on that value; each is proved to keep the coupling with the abstract state. */
module RegistrySteps {
  import opened SubscriptionModel
  import opened TangoWorld
  import opened NestedMaps
  import opened Coupling

  /** The registry's fields, what they stand for (m, leaves, cbs), and the outside (world, log).
      spare: devices whose proxy is kept without a leaf. closes, unsub: how often Tango was asked to close a
      subscription, and what it answers. */
  datatype Reg = Reg(
    used: map<string, Ptr>, es: EventSubs, et: EventTypes, ids: map<int, Key>,
    calls: nat, proxyCalls: nat, closes: nat, unsub: nat -> bool, next: Ptr,
    m: Model, leaves: map<Key, UsedEventSubscr>, cbs: map<Key, Ptr>,
    world: World, log: seq<Call>, spare: set<string>)

  function EmptyReg(o: Oracle): Reg {
    Reg(map[], map[], map[], map[], 0, 0, 0, o.unsubscribe, 0, EMPTY, map[], map[], NOTHING, [], {})
  }

  datatype Aspect = Leaves | Subscriptions | Ids | Index | Devices | Proxies | LiveOnes | Lingering | History | Closings | Counters

  /** The attempts to close had the outcomes that Tango gives. */
  ghost predicate ClosingsMatch(log: seq<Call>, unsub: nat -> bool, closes: nat) {
    |Outcomes(log)| == closes && forall i: nat :: i < closes ==> Outcomes(log)[i] == unsub(i)
  }

  ghost predicate Holds(a: Aspect, r: Reg) {
    match a
    case Leaves => Flat(r.es, r.leaves)
    case Subscriptions => SubsMatch(r.leaves, r.m.subs, r.cbs)
    case Ids => IdsMatch(r.ids, r.m.subs)
    case Index => IndexMatch(r.et, r.m.index)
    case Devices => DevicesMatch(r.used, r.leaves.Keys, r.spare)
    case Proxies => ProxiesMatch(r.world, r.used, r.next)
    case LiveOnes => LiveMatch(r.world, r.used, r.m.subs, r.cbs, r.next)
    case Lingering => LingerMatch(r.world, r.m.issued, r.next)
    case History => Replay(r.log) == Some(r.world)
    case Closings => ClosingsMatch(r.log, r.unsub, r.closes)
    case Counters => r.calls == r.m.calls && r.proxyCalls == r.m.proxyCalls
  }

  /** The maps represent r.m, and the outside has been used as allowed. */
  ghost predicate Good(r: Reg) {
    forall a :: Holds(a, r)
  }

  /** What an add leaves alone: the proxies of used devices, the callbacks of subscriptions, and the past; and it asks
      for nothing to be closed. */
  ghost predicate Kept(r: Reg, r': Reg) {
    && r.log <= r'.log && r'.closes == r.closes
    && (forall d :: d in r.used ==> d in r'.used && r'.used[d] == r.used[d])
    && (forall k :: k in r.cbs ==> k in r'.cbs && r'.cbs[k] == r.cbs[k])
  }

  lemma KeptTwice(r: Reg, r1: Reg, r2: Reg)
    requires Kept(r, r1) && Kept(r1, r2)
    ensures Kept(r, r2)
  {
  }

  /** A proxy that was not there before may go again. */
  lemma KeptButNew(r: Reg, r1: Reg, r2: Reg, d: string)
    requires Kept(r, r1) && r2.cbs == r1.cbs && r2.closes == r1.closes && r1.log <= r2.log
    requires r2.used == r1.used || (d !in r.used && r2.used == r1.used - {d})
    ensures Kept(r, r2)
  {
  }

  /** What adding a listener leaves alone beside that: which proxies there are, and leaves but for new ones. */
  ghost predicate Same(r: Reg, r': Reg, added: set<Key>) {
    r'.used == r.used && r'.spare == r.spare && r'.leaves.Keys == r.leaves.Keys + added && Kept(r, r')
  }

  lemma SameTwice(r: Reg, r1: Reg, r2: Reg, added: set<Key>)
    requires Same(r, r1, added) && Same(r1, r2, {})
    ensures Same(r, r2, added)
  {
    KeptTwice(r, r1, r2);
  }

  // ----- what the coupling says -----

  lemma KnownLeaf(r: Reg, k: Key)
    requires Good(r) && k in r.m.subs
    ensures HasLeaf(r.es, k) && k in r.leaves && Leaf(r.es, k) == r.leaves[k] && k in r.cbs
    ensures LeafMatch(r.leaves[k], k, r.m.subs[k], r.cbs[k])
  {
    assert Holds(Leaves, r) && Holds(Subscriptions, r);
  }

  lemma LeafKeys(r: Reg, k: Key)
    requires Good(r)
    ensures HasLeaf(r.es, k) <==> k in r.leaves
    ensures k in r.leaves ==> Leaf(r.es, k) == r.leaves[k]
    ensures r.m.subs.Keys <= r.leaves.Keys
  {
    assert Holds(Leaves, r) && Holds(Subscriptions, r);
  }

  lemma UsedDevices(r: Reg, d: string)
    requires Good(r)
    ensures d in r.used <==> OnDevice(r.leaves.Keys, d) || d in r.spare
    ensures DevOf(r.es, d) == map[] <==> !OnDevice(r.leaves.Keys, d)
  {
    assert Holds(Devices, r) && Holds(Leaves, r);
    FlatDevEmpty(r.es, r.leaves, d);
  }

  /** Between requests a device has a leaf exactly when it has a subscription. */
  lemma SameDevices(r: Reg, d: string)
    requires r.leaves.Keys == r.m.subs.Keys
    ensures OnDevice(r.leaves.Keys, d) <==> InUse(r.m, d)
  {
    if k :| k in r.m.subs && k.dev == d {
      assert k in r.leaves.Keys;
    }
  }

  lemma KnownId(r: Reg, id: int)
    requires Good(r)
    ensures id in r.ids <==> exists k :: k in r.m.subs && r.m.subs[k].id == id
    ensures id in r.ids ==> r.ids[id] in r.m.subs && r.m.subs[r.ids[id]].id == id
  {
    assert Holds(Ids, r);
  }

  // ----- a proxy is made -----

  function AfterProxyCall(r: Reg): Reg {
    r.(proxyCalls := r.proxyCalls + 1, m := r.m.(proxyCalls := r.proxyCalls + 1))
  }

  lemma ProxyCallStep(r: Reg)
    requires Good(r)
    ensures Good(AfterProxyCall(r))
  {
    forall a ensures Holds(a, AfterProxyCall(r)) { assert Holds(a, r); }
  }

  function AfterNewProxy(r: Reg, d: string): Reg {
    var made := NewProxy(r.next, d);
    r.(used := r.used[d := r.next], next := r.next + 1, spare := r.spare + {d},
       world := Effect(r.world, made), log := r.log + [made])
  }

  lemma NewProxyOutside(r: Reg, d: string)
    requires Good(r) && d !in r.used
    ensures Holds(Proxies, AfterNewProxy(r, d)) && Holds(LiveOnes, AfterNewProxy(r, d))
    ensures Holds(Lingering, AfterNewProxy(r, d))
    ensures Holds(History, AfterNewProxy(r, d)) && Holds(Closings, AfterNewProxy(r, d))
  {
    assert Holds(Proxies, r) && Holds(LiveOnes, r) && Holds(History, r) && Holds(Lingering, r) && Holds(Closings, r);
    WorldNewProxy(r.world, r.used, r.m.subs, r.cbs, r.next, d);
    ReplayStep(r.log, r.world, NewProxy(r.next, d));
    OutcomesStep(r.log, NewProxy(r.next, d));
  }

  lemma NewProxyStep(r: Reg, d: string)
    requires Good(r) && d !in r.used
    ensures Good(AfterNewProxy(r, d))
  {
    NewProxyOutside(r, d);
    forall a ensures Holds(a, AfterNewProxy(r, d)) { assert Holds(a, r); }
  }

  // ----- the listeners of a subscription change -----

  lemma LeafStep(r: Reg, k: Key, l: UsedEventSubscr, s: Sub)
    requires Good(r) && k in r.m.subs && k in r.cbs && s.id == r.m.subs[k].id && LeafMatch(l, k, s, r.cbs[k])
    ensures Good(r.(es := PutLeaf(r.es, k, l), leaves := r.leaves[k := l], m := r.m.(subs := r.m.subs[k := s])))
  {
    KnownLeaf(r, k);
    assert Holds(Leaves, r) && Holds(LiveOnes, r);
    FlatPut(r.es, r.leaves, k, l);
    LiveFrame(r.world, r.used, r.m.subs, r.cbs, r.next, k, s);
    assert r.leaves[k := l].Keys == r.leaves.Keys;
    var r' := r.(es := PutLeaf(r.es, k, l), leaves := r.leaves[k := l], m := r.m.(subs := r.m.subs[k := s]));
    forall a ensures Holds(a, r') { assert Holds(a, r); }
  }

  function AfterJoin(r: Reg, h: Conn, k: Key, typ: EventType, opt: string): Reg
    requires k in r.m.subs
  {
    var l := Leaf(r.es, k).(connList := Leaf(r.es, k).connList[h := opt]);
    r.(es := PutLeaf(r.es, k, l), leaves := r.leaves[k := l],
       et := PutEntry(r.et, Slot(h, k.dev, k.attr), typ), m := Join(r.m, h, k, typ, opt))
  }

  lemma JoinStep(r: Reg, h: Conn, k: Key, typ: EventType, opt: string)
    requires Good(r) && k in r.m.subs
    ensures Good(AfterJoin(r, h, k, typ, opt)) && Same(r, AfterJoin(r, h, k, typ, opt), {})
  {
    KnownLeaf(r, k);
    var l := r.leaves[k].(connList := r.leaves[k].connList[h := opt]);
    var s := r.m.subs[k].(listeners := r.m.subs[k].listeners[h := opt]);
    LeafStep(r, k, l, s);
    var r1 := r.(es := PutLeaf(r.es, k, l), leaves := r.leaves[k := l], m := r.m.(subs := r.m.subs[k := s]));
    assert Holds(Index, r);
    PutIndex(r.et, r.m.index, Slot(h, k.dev, k.attr), typ);
    forall a ensures Holds(a, AfterJoin(r, h, k, typ, opt)) { assert Holds(a, r1); }
    assert r.leaves[k := l].Keys == r.leaves.Keys;
  }

  function AfterLeave(r: Reg, h: Conn, k: Key): Reg
    requires k in r.m.subs
  {
    var l := Leaf(r.es, k).(connList := Leaf(r.es, k).connList - {h});
    var s := r.m.subs[k].(listeners := r.m.subs[k].listeners - {h});
    r.(es := PutLeaf(r.es, k, l), leaves := r.leaves[k := l], m := r.m.(subs := r.m.subs[k := s]))
  }

  lemma LeaveStep(r: Reg, h: Conn, k: Key)
    requires Good(r) && k in r.m.subs
    ensures Good(AfterLeave(r, h, k))
    ensures AfterLeave(r, h, k).leaves.Keys == r.leaves.Keys
  {
    KnownLeaf(r, k);
    LeafStep(r, k, r.leaves[k].(connList := r.leaves[k].connList - {h}),
             r.m.subs[k].(listeners := r.m.subs[k].listeners - {h}));
  }

  // ----- a first subscription -----

  lemma OneMoreKey(used: map<string, Ptr>, keys: set<Key>, spare: set<string>, k: Key)
    requires DevicesMatch(used, keys, spare) && k.dev in used
    ensures DevicesMatch(used, keys + {k}, spare)
  {
    forall d
      ensures OnDevice(keys + {k}, d) <==> OnDevice(keys, d) || d == k.dev
    {
      assert k in keys + {k};
      if k' :| k' in keys && k'.dev == d {
        assert k' in keys + {k};
      }
    }
  }

  /** A new leaf, standing for nothing yet; subscribe_event has been asked once more. */
  function AfterNewLeaf(r: Reg, k: Key, l: UsedEventSubscr): Reg {
    r.(es := PutLeaf(r.es, k, l), leaves := r.leaves[k := l], calls := r.calls + 1, m := r.m.(calls := r.calls + 1))
  }

  lemma NewLeafStep(r: Reg, k: Key, l: UsedEventSubscr)
    requires Good(r) && k !in r.leaves && k.dev in r.used
    ensures Good(AfterNewLeaf(r, k, l))
  {
    assert Holds(Leaves, r) && Holds(Devices, r);
    FlatPut(r.es, r.leaves, k, l);
    OneMoreKey(r.used, r.leaves.Keys, r.spare, k);
    assert r.leaves[k := l].Keys == r.leaves.Keys + {k};
    forall a ensures Holds(a, AfterNewLeaf(r, k, l)) { assert Holds(a, r) && Holds(Subscriptions, r); }
  }

  lemma OpenIds(leaves: map<Key, UsedEventSubscr>, ids: map<int, Key>, subs: map<Key, Sub>, cbs: map<Key, Ptr>,
                k: Key, id: int, cb: Ptr)
    requires IdsMatch(ids, subs) && SubsMatch(leaves, subs, cbs)
    requires forall k' :: k' in subs ==> subs[k'].id != id
    requires k in leaves && LeafMatch(leaves[k], k, Sub(id, map[]), cb)
    ensures IdsMatch(ids[id := k], subs[k := Sub(id, map[])])
    ensures SubsMatch(leaves, subs[k := Sub(id, map[])], cbs[k := cb])
  {
  }

  /** The subscription succeeded: the new leaf now stands for it. */
  function AfterOpen(r: Reg, k: Key, id: int): Reg
    requires k.dev in r.used
  {
    var made, open := NewCallback(r.next, k), SubscribeOk(r.used[k.dev], k, r.next, id);
    r.(ids := r.ids[id := k], next := r.next + 1, cbs := r.cbs[k := r.next],
       m := r.m.(subs := r.m.subs[k := Sub(id, map[])], issued := r.m.issued + {id}),
       world := Effect(Effect(r.world, made), open), log := r.log + [made, open])
  }

  lemma OpenStep(r: Reg, k: Key, id: int)
    requires Good(r) && k !in r.m.subs && k.dev in r.used
    requires k in r.leaves && LeafMatch(r.leaves[k], k, Sub(id, map[]), r.next)
    requires id !in r.m.issued && forall k' :: k' in r.m.subs ==> r.m.subs[k'].id != id
    ensures Good(AfterOpen(r, k, id))
  {
    assert Holds(Lingering, r);
    LingerOpen(r.world, r.m.issued, r.next, r.used[k.dev], k, id);
    OutcomesTwo(r.log, NewCallback(r.next, k), SubscribeOk(r.used[k.dev], k, r.next, id));
    assert Holds(Proxies, r) && Holds(LiveOnes, r) && Holds(Subscriptions, r) && Holds(Ids, r) && Holds(History, r);
    WorldOpen(r.world, r.used, r.m.subs, r.cbs, r.next, k, Sub(id, map[]));
    OpenIds(r.leaves, r.ids, r.m.subs, r.cbs, k, id, r.next);
    ReplayTwo(r.log, r.world, NewCallback(r.next, k), SubscribeOk(r.used[k.dev], k, r.next, id));
    forall a ensures Holds(a, AfterOpen(r, k, id)) { assert Holds(a, r); }
  }

  /** The subscription failed: its callback is made and released again. */
  function AfterFail(r: Reg, k: Key): Reg
    requires k.dev in r.used
  {
    r.(next := r.next + 1,
       log := r.log + [NewCallback(r.next, k), SubscribeFailed(r.used[k.dev], k, r.next)] + [DeleteCallback(r.next)])
  }

  lemma FailStep(r: Reg, k: Key)
    requires Good(r) && k !in r.m.subs && k.dev in r.used
    ensures Good(AfterFail(r, k))
  {
    assert Holds(Proxies, r) && Holds(LiveOnes, r) && Holds(History, r);
    WorldFail(r.world, r.used, r.m.subs, r.cbs, r.next, k);
    var made, failed := NewCallback(r.next, k), SubscribeFailed(r.used[k.dev], k, r.next);
    ReplayTwo(r.log, r.world, made, failed);
    ReplayStep(r.log + [made, failed], Effect(r.world, made), DeleteCallback(r.next));
    OutcomesTwo(r.log, made, failed);
    OutcomesStep(r.log + [made, failed], DeleteCallback(r.next));
    forall a ensures Holds(a, AfterFail(r, k)) { assert Holds(a, r); }
  }

  function FailedLeaf(r: Reg): UsedEventSubscr {
    DEFAULT_SUBSCR.(evCallback := Some(r.next))
  }

  lemma FirstFails(r: Reg, k: Key)
    requires Good(r) && k !in r.m.subs && k !in r.leaves && k.dev in r.used
    ensures var r' := AfterFail(AfterNewLeaf(r, k, FailedLeaf(r)), k);
            Good(r') && r'.m == r.m.(calls := r.calls + 1) && Same(r, r', {k})
  {
    NewLeafStep(r, k, FailedLeaf(r));
    FailStep(AfterNewLeaf(r, k, FailedLeaf(r)), k);
  }

  lemma FirstSucceeds(r: Reg, k: Key, id: int)
    requires Good(r) && k !in r.m.subs && k !in r.leaves && k.dev in r.used
    requires id !in r.m.issued && forall k' :: k' in r.m.subs ==> r.m.subs[k'].id != id
    ensures var r' := AfterOpen(AfterNewLeaf(r, k, UsedEventSubscr(map[], id, k, Some(r.next))), k, id);
            && Good(r') && Same(r, r', {k})
            && r'.m == r.m.(subs := r.m.subs[k := Sub(id, map[])], calls := r.calls + 1, issued := r.m.issued + {id})
  {
    var l := UsedEventSubscr(map[], id, k, Some(r.next));
    NewLeafStep(r, k, l);
    OpenStep(AfterNewLeaf(r, k, l), k, id);
    NoCallback(r, k);
  }

  lemma NoCallback(r: Reg, k: Key)
    requires Good(r) && k !in r.m.subs
    ensures k !in r.cbs
  {
    assert Holds(Subscriptions, r);
  }

  lemma SameCalls(r: Reg)
    requires Good(r)
    ensures r.calls == r.m.calls
  {
    assert Holds(Counters, r);
  }

  /** Both outcomes of the first subscription to a key. */
  lemma FirstSubscriptionStep(o: Oracle, r: Reg, k: Key)
    requires Good(r) && k !in r.leaves && k.dev in r.used
    requires FreshInv(o, r.m) && SubsInv(r.m)
    ensures k !in r.m.subs && r.calls == r.m.calls
    ensures match o.subscribe(r.calls)
            case None =>
              var r' := AfterFail(AfterNewLeaf(r, k, FailedLeaf(r)), k);
              && Good(r') && r'.m == r.m.(calls := r.calls + 1) && Same(r, r', {k})
            case Some(id) =>
              var r' := AfterOpen(AfterNewLeaf(r, k, UsedEventSubscr(map[], id, k, Some(r.next))), k, id);
              && Good(r') && Same(r, r', {k})
              && r'.m == r.m.(subs := r.m.subs[k := Sub(id, map[])], calls := r.calls + 1, issued := r.m.issued + {id})
  {
    SameCalls(r);
    LeafKeys(r, k);
    FirstFails(r, k);
    match o.subscribe(r.calls)
    case None =>
    case Some(id) => FirstSucceeds(r, k, id);
  }

  // ----- a subscription ends -----

  /** The call that asks for a subscription to be closed. */
  function CloseCall(r: Reg, k: Key): Call
    requires k in r.m.subs && k.dev in r.used
  {
    Closing(r.used[k.dev], k, r.m.subs[k].id, r.unsub(r.closes))
  }

  /** The subscription is asked to be closed; its leaf stays behind, dangling. */
  function AfterClose(r: Reg, k: Key): Reg
    requires k in r.m.subs && k in r.cbs && k.dev in r.used
  {
    var close, release := CloseCall(r, k), DeleteCallback(r.cbs[k]);
    r.(ids := r.ids - {r.m.subs[k].id}, cbs := r.cbs - {k}, m := r.m.(subs := r.m.subs - {k}), closes := r.closes + 1,
       world := Effect(Effect(r.world, close), release), log := r.log + [close, release])
  }

  lemma LiveDevice(r: Reg, k: Key)
    requires Good(r) && k in r.m.subs
    ensures k.dev in r.used && k in r.cbs
  {
    assert Holds(LiveOnes, r);
  }

  lemma CloseClosings(r: Reg, k: Key)
    requires k in r.m.subs && k in r.cbs && k.dev in r.used && Holds(Closings, r)
    ensures Holds(Closings, AfterClose(r, k))
  {
    OutcomesTwo(r.log, CloseCall(r, k), DeleteCallback(r.cbs[k]));
  }

  lemma CloseBooks(r: Reg, k: Key)
    requires Good(r) && k in r.m.subs && k in r.cbs && k.dev in r.used
    ensures Holds(Subscriptions, AfterClose(r, k)) && Holds(Ids, AfterClose(r, k))
  {
    assert Holds(Subscriptions, r) && Holds(Ids, r);
  }

  lemma CloseOutside(r: Reg, k: Key)
    requires Good(r) && k in r.m.subs && k in r.cbs && k.dev in r.used
    ensures Holds(Proxies, AfterClose(r, k)) && Holds(LiveOnes, AfterClose(r, k))
    ensures Holds(History, AfterClose(r, k))
  {
    assert Holds(Proxies, r) && Holds(LiveOnes, r) && Holds(History, r);
    WorldClose(r.world, r.used, r.m.subs, r.cbs, r.next, k, r.unsub(r.closes));
    ReplayTwo(r.log, r.world, CloseCall(r, k), DeleteCallback(r.cbs[k]));
  }

  lemma CloseLingering(r: Reg, k: Key)
    requires Good(r) && k in r.m.subs && k in r.cbs && k.dev in r.used
    ensures Holds(Lingering, AfterClose(r, k))
  {
    assert Holds(LiveOnes, r) && Holds(Lingering, r);
    LingerClose(r.world, r.used, r.m.subs, r.cbs, r.m.issued, r.next, k, r.unsub(r.closes));
  }

  lemma CloseStep(r: Reg, k: Key)
    requires Good(r) && k in r.m.subs && k in r.cbs && k.dev in r.used
    ensures Good(AfterClose(r, k))
  {
    assert Holds(Closings, r);
    CloseClosings(r, k);
    CloseBooks(r, k);
    CloseOutside(r, k);
    CloseLingering(r, k);
    forall a ensures Holds(a, AfterClose(r, k)) { assert Holds(a, r); }
  }

  /** A dangling leaf is erased; its device may then be without leaves. */
  function AfterPrune(r: Reg, k: Key): Reg {
    r.(es := PruneType(r.es, k), leaves := r.leaves - {k}, spare := r.spare + {k.dev})
  }

  lemma PruneStep(r: Reg, k: Key)
    requires Good(r) && k !in r.m.subs && k in r.leaves
    ensures Good(AfterPrune(r, k))
  {
    assert Holds(Leaves, r) && Holds(Devices, r);
    FlatPrune(r.es, r.leaves, k);
    var keys := (r.leaves - {k}).Keys;
    forall d
      ensures OnDevice(r.leaves.Keys, d) ==> OnDevice(keys, d) || d == k.dev
      ensures OnDevice(keys, d) ==> OnDevice(r.leaves.Keys, d)
    {
      if k' :| k' in r.leaves.Keys && k'.dev == d {
        assert k' == k || k' in keys;
      }
      if k' :| k' in keys && k'.dev == d {
        assert k' in r.leaves.Keys;
      }
    }
    assert k in r.leaves.Keys && OnDevice(r.leaves.Keys, k.dev);
    forall a ensures Holds(a, AfterPrune(r, k)) { assert Holds(a, r); }
  }

  /** The proxy of a device without leaves is released. */
  function AfterDropProxy(r: Reg, d: string): Reg
    requires d in r.used
  {
    r.(used := r.used - {d}, spare := r.spare - {d},
       world := Effect(r.world, DeleteProxy(r.used[d])), log := r.log + [DeleteProxy(r.used[d])])
  }

  lemma DropProxyOutside(r: Reg, d: string)
    requires Good(r) && d in r.used && !OnDevice(r.leaves.Keys, d)
    ensures Holds(Proxies, AfterDropProxy(r, d)) && Holds(LiveOnes, AfterDropProxy(r, d))
    ensures Holds(History, AfterDropProxy(r, d)) && Holds(Closings, AfterDropProxy(r, d))
  {
    assert Holds(Proxies, r) && Holds(LiveOnes, r) && Holds(Subscriptions, r) && Holds(History, r) && Holds(Closings, r);
    forall k | k in r.m.subs
      ensures k.dev != d
    {
      assert k in r.leaves.Keys;
    }
    WorldDropProxy(r.world, r.used, r.m.subs, r.cbs, r.next, d);
    ReplayStep(r.log, r.world, DeleteProxy(r.used[d]));
    OutcomesStep(r.log, DeleteProxy(r.used[d]));
  }

  lemma DropProxyStep(r: Reg, d: string)
    requires Good(r) && d in r.used && !OnDevice(r.leaves.Keys, d)
    ensures Good(AfterDropProxy(r, d))
  {
    DropProxyOutside(r, d);
    forall a ensures Holds(a, AfterDropProxy(r, d)) { assert Holds(a, r); }
  }

  lemma DropDevStep(r: Reg, d: string)
    requires Good(r) && DevOf(r.es, d) == map[]
    ensures Good(r.(es := r.es - {d}))
  {
    assert Holds(Leaves, r);
    FlatDropDev(r.es, r.leaves, d);
    var r' := r.(es := r.es - {d});
    forall a ensures Holds(a, r') { assert Holds(a, r); }
  }

  /** A device with a leaf need not be spare, nor one without a proxy. */
  lemma NotSpareStep(r: Reg, d: string)
    requires Good(r) && (OnDevice(r.leaves.Keys, d) || d !in r.used)
    ensures Good(r.(spare := r.spare - {d}))
  {
    var r' := r.(spare := r.spare - {d});
    forall a ensures Holds(a, r') { assert Holds(a, r); }
  }

  lemma SpareStep(r: Reg, d: string)
    requires Good(r) && d in r.used
    ensures Good(r.(spare := r.spare + {d}))
  {
    var r' := r.(spare := r.spare + {d});
    forall a ensures Holds(a, r') { assert Holds(a, r); }
  }

  // ----- the reverse index -----

  lemma EraseEntryStep(r: Reg, s: Slot)
    requires Good(r)
    ensures Good(r.(et := EraseEntry(r.et, s), m := r.m.(index := r.m.index - {s})))
  {
    assert Holds(Index, r);
    EraseIndex(r.et, r.m.index, s);
    var r' := r.(et := EraseEntry(r.et, s), m := r.m.(index := r.m.index - {s}));
    forall a ensures Holds(a, r') { assert Holds(a, r); }
  }

  // ----- a listener is removed -----

  /** What _delSubHdl does: the last listener's leaving closes the subscription. */
  function AfterDelSub(r: Reg, h: Conn, k: Key): Reg
    requires k in r.m.subs && k in r.cbs && k.dev in r.used
  {
    var r1 := AfterLeave(r, h, k);
    if r.m.subs[k].listeners.Keys <= {h} then AfterClose(r1, k) else r1
  }

  lemma DelSubStep(r: Reg, h: Conn, k: Key)
    requires Good(r) && k in r.m.subs && k in r.cbs && k.dev in r.used
    ensures var r' := AfterDelSub(r, h, k);
            && Good(r') && r'.m == DropAll(r.m, h, {k})
            && r'.leaves.Keys == r.leaves.Keys && r'.spare == r.spare && r'.used == r.used && r.log <= r'.log
  {
    LeaveStep(r, h, k);
    var r1 := AfterLeave(r, h, k);
    if r.m.subs[k].listeners.Keys <= {h} {
      CloseStep(r1, k);
    }
    assert AfterDelSub(r, h, k).m.subs == DropAll(r.m, h, {k}).subs;
  }

  /** What _clearSubscrInfoMaps does with a dangling leaf. */
  function AfterClear(r: Reg, k: Key): Reg
    requires k.dev in r.used
  {
    var r1 := AfterPrune(r, k);
    if DevOf(r1.es, k.dev) == map[] then AfterDropProxy(r1.(es := r1.es - {k.dev}), k.dev)
    else r1.(spare := r1.spare - {k.dev})
  }

  lemma ClearStep(r: Reg, k: Key)
    requires Good(r) && k !in r.m.subs && k in r.leaves && k.dev in r.used && r.spare == {}
    ensures var r' := AfterClear(r, k);
            Good(r') && r'.m == r.m && r'.leaves == r.leaves - {k} && r'.spare == {} && r.log <= r'.log
  {
    PruneStep(r, k);
    var r1 := AfterPrune(r, k);
    UsedDevices(r1, k.dev);
    if DevOf(r1.es, k.dev) == map[] {
      DropDevStep(r1, k.dev);
      DropProxyStep(r1.(es := r1.es - {k.dev}), k.dev);
    } else {
      NotSpareStep(r1, k.dev);
    }
  }

  /** A leaf's device has a proxy. */
  lemma LeafDevice(r: Reg, k: Key)
    requires Good(r) && k in r.leaves
    ensures k.dev in r.used
  {
    UsedDevices(r, k.dev);
    assert k in r.leaves.Keys;
  }

  // ----- a connection's part of the reverse index -----

  lemma KnownEntry(r: Reg, s: Slot)
    requires Good(r)
    ensures HasEntry(r.et, s) <==> s in r.m.index
    ensures HasEntry(r.et, s) ==> Entry(r.et, s) == r.m.index[s]
  {
    assert Holds(Index, r);
  }

  /** Reading eventTypes[h] creates an empty entry. */
  lemma TouchStep(r: Reg, h: Conn)
    requires Good(r)
    ensures Good(r.(et := r.et[h := TypesOf(r.et, h)]))
  {
    assert Holds(Index, r);
    var r' := r.(et := r.et[h := TypesOf(r.et, h)]);
    forall s
      ensures HasEntry(r'.et, s) <==> HasEntry(r.et, s)
      ensures HasEntry(r.et, s) ==> Entry(r'.et, s) == Entry(r.et, s)
    {
      assert TypesOf(r'.et, s.conn) == TypesOf(r.et, s.conn);
    }
    forall a ensures Holds(a, r') { assert Holds(a, r); }
  }

  function AfterForget(r: Reg, h: Conn): Reg {
    r.(et := r.et - {h}, m := r.m.(index := map s | s in r.m.index && s.conn != h :: r.m.index[s]))
  }

  lemma ForgetStep(r: Reg, h: Conn)
    requires Good(r)
    ensures Good(AfterForget(r, h))
  {
    assert Holds(Index, r);
    var r' := AfterForget(r, h);
    forall s
      ensures HasEntry(r'.et, s) <==> HasEntry(r.et, s) && s.conn != h
      ensures HasEntry(r'.et, s) ==> Entry(r'.et, s) == Entry(r.et, s)
    {
      if s.conn != h {
        assert TypesOf(r'.et, s.conn) == TypesOf(r.et, s.conn);
      }
    }
    forall a ensures Holds(a, r') { assert Holds(a, r); }
  }

  /** The keys that a connection's entries name: for some attributes of a device, for some devices. */
  function KeysOf(dev: string, attrs: TypesByAttr, some: set<string>): set<Key>
    requires some <= attrs.Keys
  {
    set a | a in some :: Key(dev, a, TypeName(attrs[a]))
  }

  function KeysIn(list: TypesByDev, some: set<string>): set<Key>
    requires some <= list.Keys
  {
    set d, a | d in some && a in list[d] :: Key(d, a, TypeName(list[d][a]))
  }

  lemma KeysOfStep(dev: string, attrs: TypesByAttr, some: set<string>, a: string)
    requires some <= attrs.Keys && a in attrs && a !in some
    ensures var k := Key(dev, a, TypeName(attrs[a]));
            && k !in KeysOf(dev, attrs, some) && k in KeysOf(dev, attrs, attrs.Keys)
            && KeysOf(dev, attrs, some + {a}) == KeysOf(dev, attrs, some) + {k}
  {
  }

  lemma KeysInStep(list: TypesByDev, some: set<string>, d: string)
    requires some <= list.Keys && d in list && d !in some
    ensures KeysOf(d, list[d], list[d].Keys) !! KeysIn(list, some)
    ensures KeysIn(list, some + {d}) == KeysIn(list, some) + KeysOf(d, list[d], list[d].Keys)
  {
  }

  /** A connection's entries name exactly the keys recorded for it, and it listens to them. */
  lemma RecordedInList(o: Oracle, r: Reg, h: Conn)
    requires Good(r) && Inv(o, r.m)
    ensures var list := TypesOf(r.et, h); KeysIn(list, list.Keys) == RecordedKeys(r.m, h)
    ensures forall k :: k in RecordedKeys(r.m, h) ==> Listens(r.m, h, k)
    ensures TypesOf(r.et, h) == map[] ==> forall s :: s in r.m.index ==> s.conn != h
  {
    var list := TypesOf(r.et, h);
    forall k | k in KeysIn(list, list.Keys)
      ensures k in RecordedKeys(r.m, h)
    {
      var s := Slot(h, k.dev, k.attr);
      assert HasEntry(r.et, s);
      KnownEntry(r, s);
      assert Listens(r.m, h, k);
    }
    forall k | k in RecordedKeys(r.m, h)
      ensures k in KeysIn(list, list.Keys)
    {
      KnownEntry(r, Slot(h, k.dev, k.attr));
    }
    forall s | s in r.m.index && s.conn == h
      ensures list != map[]
    {
      KnownEntry(r, s);
      assert s.dev in list;
    }
  }

  lemma DisconnectNothing(m: Model, h: Conn)
    requires forall s :: s in m.index ==> s.conn != h
    ensures Disconnect(m, h) == m
  {
    assert RecordedKeys(m, h) == {};
    DropNone(m, h);
    assert Disconnect(m, h).index == m.index;
  }

  /** One more of a device's attributes is left. */
  lemma LeaveMore(m: Model, h: Conn, done: set<Key>, dev: string, attrs: TypesByAttr, some: set<string>, a: string)
    requires some <= attrs.Keys && a in attrs && a !in some
    requires KeysOf(dev, attrs, attrs.Keys) !! done
    requires forall k :: k in KeysOf(dev, attrs, attrs.Keys) ==> Listens(m, h, k)
    ensures var before, k := done + KeysOf(dev, attrs, some), Key(dev, a, TypeName(attrs[a]));
            && k in DropAll(m, h, before).subs
            && DropAll(DropAll(m, h, before), h, {k}) == DropAll(m, h, done + KeysOf(dev, attrs, some + {a}))
  {
    var before, k := done + KeysOf(dev, attrs, some), Key(dev, a, TypeName(attrs[a]));
    KeysOfStep(dev, attrs, some, a);
    DropAllListens(m, h, before, h, k);
    DropAllTwice(m, h, before, k);
    assert before + {k} == done + KeysOf(dev, attrs, some + {a});
  }

  // ----- the list of closed subscriptions -----

  ghost function Elements(s: seq<Key>): set<Key> {
    set k | k in s
  }

  ghost predicate NoRepeats(s: seq<Key>) {
    forall i, j :: 0 <= i < j < |s| ==> s[i] != s[j]
  }

  lemma PushElement(s: seq<Key>, k: Key)
    ensures Elements(s + [k]) == Elements(s) + {k}
    ensures NoRepeats(s) && k !in Elements(s) ==> NoRepeats(s + [k])
  {
  }

  lemma PopElement(s: seq<Key>)
    requires s != [] && NoRepeats(s)
    ensures s[0] !in Elements(s[1..]) && NoRepeats(s[1..])
    ensures Elements(s) == {s[0]} + Elements(s[1..])
  {
    assert s == [s[0]] + s[1..];
    forall j | 0 <= j < |s[1..]|
      ensures s[1..][j] != s[0]
    {
    }
  }

  // ----- between requests -----

  lemma LeafIsLive(o: Oracle, r: Reg, k: Key)
    requires Good(r) && Inv(o, r.m) && r.leaves.Keys == r.m.subs.Keys && HasLeaf(r.es, k)
    ensures Leaf(r.es, k).connList != map[]
    ensures Leaf(r.es, k).evCallback.Some? && Leaf(r.es, k).evCallback.value in r.world.callbacks
    ensures Leaf(r.es, k).eventSubId in r.ids && r.ids[Leaf(r.es, k).eventSubId] == k
  {
    LeafKeys(r, k);
    KnownLeaf(r, k);
    assert Holds(Ids, r) && Holds(LiveOnes, r);
  }

  lemma IdIsLeaf(r: Reg, id: int)
    requires Good(r) && id in r.ids
    ensures HasLeaf(r.es, r.ids[id]) && Leaf(r.es, r.ids[id]).eventSubId == id
  {
    KnownId(r, id);
    KnownLeaf(r, r.ids[id]);
  }

  lemma UsedHasLeaf(r: Reg, d: string)
    requires Good(r) && r.spare == {}
    ensures d in r.used <==> exists k :: HasLeaf(r.es, k) && k.dev == d
  {
    UsedDevices(r, d);
    assert Holds(Leaves, r);
    DevEmptyIff(r.es, d);
  }

  lemma EntryIsListener(o: Oracle, r: Reg, s: Slot)
    requires Good(r) && Inv(o, r.m) && HasEntry(r.et, s)
    ensures var k := Key(s.dev, s.attr, TypeName(Entry(r.et, s)));
            HasLeaf(r.es, k) && s.conn in Leaf(r.es, k).connList
  {
    KnownEntry(r, s);
    assert Listens(r.m, s.conn, Key(s.dev, s.attr, TypeName(r.m.index[s])));
    KnownLeaf(r, Key(s.dev, s.attr, TypeName(r.m.index[s])));
  }

  /** The invariant on the registry's own maps: every leaf has listeners, a live callback and its id in
      listOfId; listOfId names leaves only; usedDevices holds the devices with a leaf; and every
      eventTypes entry names a leaf that its connection listens to. */
  lemma RegistryInvariant(o: Oracle, r: Reg)
    requires Good(r) && Inv(o, r.m) && r.leaves.Keys == r.m.subs.Keys && r.spare == {}
    ensures forall k {:trigger HasLeaf(r.es, k)} :: HasLeaf(r.es, k) ==>
              && Leaf(r.es, k).connList != map[]
              && Leaf(r.es, k).evCallback.Some? && Leaf(r.es, k).evCallback.value in r.world.callbacks
              && Leaf(r.es, k).eventSubId in r.ids && r.ids[Leaf(r.es, k).eventSubId] == k
    ensures forall id :: id in r.ids ==> HasLeaf(r.es, r.ids[id]) && Leaf(r.es, r.ids[id]).eventSubId == id
    ensures forall d :: d in r.used <==> exists k :: HasLeaf(r.es, k) && k.dev == d
    ensures forall s :: HasEntry(r.et, s) ==>
              var k := Key(s.dev, s.attr, TypeName(Entry(r.et, s)));
              HasLeaf(r.es, k) && s.conn in Leaf(r.es, k).connList
  {
    forall k | HasLeaf(r.es, k) { LeafIsLive(o, r, k); }
    forall id | id in r.ids { IdIsLeaf(r, id); }
    forall d { UsedHasLeaf(r, d); }
    forall s | HasEntry(r.et, s) { EntryIsListener(o, r, s); }
  }

  /** A leaf without a callback, as an event for a dead subscription leaves behind, fits no state. */
  lemma NullLeafNotGood(r: Reg, k: Key)
    requires HasLeaf(r.es, k) && Leaf(r.es, k).evCallback == None
    ensures !(Good(r) && r.leaves.Keys == r.m.subs.Keys)
  {
    if Good(r) && r.leaves.Keys == r.m.subs.Keys {
      LeafKeys(r, k);
      KnownLeaf(r, k);
      assert false;
    }
  }

  /** Whatever requests led here: the log of outside calls broke no rule; each Tango id was closed as
      often as it was opened, but for one opening while it is a subscription's id; and each proxy or
      callback was released as often as it was made, but for one making while it is in use. */
  lemma Conservation(r: Reg, id: int, p: Ptr)
    requires Good(r) && r.leaves.Keys == r.m.subs.Keys && r.spare == {}
    ensures Replay(r.log).Some?
    ensures Opened(r.log, id) == Closed(r.log, id) + if exists k :: k in r.m.subs && r.m.subs[k].id == id then 1 else 0
    ensures Made(r.log, p) == Released(r.log, p)
                              + (if exists d :: InUse(r.m, d) && d in r.used && r.used[d] == p then 1 else 0)
                              + (if exists k :: k in r.m.subs && Leaf(r.es, k).evCallback == Some(p) then 1 else 0)
  {
    assert Holds(History, r) && Holds(LiveOnes, r) && Holds(Proxies, r);
    OpenedMinusClosed(r.log, id);
    MadeMinusReleased(r.log, p);
    ProxyInUse(r, p);
    CallbackInUse(r, p);
  }

  lemma ProxyInUse(r: Reg, p: Ptr)
    requires Good(r) && r.leaves.Keys == r.m.subs.Keys && r.spare == {}
    ensures p in r.world.proxies <==> exists d :: InUse(r.m, d) && d in r.used && r.used[d] == p
  {
    assert Holds(Proxies, r);
    if p in r.world.proxies {
      var d := r.world.proxies[p];
      UsedDevices(r, d);
      SameDevices(r, d);
      assert InUse(r.m, d) && d in r.used && r.used[d] == p;
    }
  }

  lemma CallbackInUse(r: Reg, p: Ptr)
    requires Good(r)
    ensures p in r.world.callbacks <==> exists k :: k in r.m.subs && Leaf(r.es, k).evCallback == Some(p)
  {
    assert Holds(LiveOnes, r);
    if p in r.world.callbacks {
      var k := r.world.callbacks[p];
      KnownLeaf(r, k);
      assert k in r.m.subs && Leaf(r.es, k).evCallback == Some(p);
    }
    if k :| k in r.m.subs && Leaf(r.es, k).evCallback == Some(p) {
      KnownLeaf(r, k);
    }
  }
}
