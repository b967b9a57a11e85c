/** What the registry's log of outside calls and its own maps come to: when Tango's books agree with the registry's,
    and that a failed add leaves every map as it was. */
module RegistryResults {
  import opened SubscriptionModel
  import opened TangoWorld
  import opened NestedMaps
  import opened Coupling
  import opened RegistrySteps
  import opened EventRegistry
  import opened SubscriptionRuns

  /** The state between requests: no leaf is dangling, no proxy is spare. */
  ghost predicate Between(r: Reg) {
    Good(r) && r.leaves.Keys == r.m.subs.Keys && r.spare == {}
  }

  // ----- attempts to close that fail -----

  /** Every attempt to close a subscription so far has succeeded. */
  ghost predicate AllClosed(r: Reg) {
    forall i: nat :: i < r.closes ==> r.unsub(i)
  }

  lemma AllClosedInLog(r: Reg)
    requires Good(r)
    ensures Replay(r.log) == Some(r.world)
    ensures AllClosed(r) <==> NoFailure(r.log)
    ensures AllClosed(r) <==> r.world.lingering == map[]
  {
    assert Holds(History, r) && Holds(Closings, r);
    NoFailureOutcomes(r.log);
    assert AllClosed(r) <==> forall i :: 0 <= i < |Outcomes(r.log)| ==> Outcomes(r.log)[i];
    LingeringExactly(r.log);
  }

  lemma LingeringHasNoCallback(r: Reg, id: int)
    requires Good(r) && id in r.world.lingering
    ensures Held(r.world, id) && HeldSub(r.world, id).cb !in r.world.callbacks
  {
    assert Holds(Lingering, r) && Holds(History, r);
    ReplaySound(r.log);
  }

  lemma LiveHasCallback(r: Reg, id: int)
    requires Good(r) && id in r.world.live
    ensures r.world.live[id].cb in r.world.callbacks
  {
    assert Holds(History, r);
    ReplaySound(r.log);
  }

  /** Every callback that Tango may still call is alive exactly if no attempt to close has failed. */
  lemma CallbacksAliveExactly(r: Reg)
    requires Good(r)
    ensures CallbacksAlive(r.world) <==> AllClosed(r)
  {
    AllClosedInLog(r);
    if AllClosed(r) {
      forall id | Held(r.world, id) ensures HeldSub(r.world, id).cb in r.world.callbacks {
        LiveHasCallback(r, id);
      }
    } else {
      assert (forall id: int :: id !in r.world.lingering) ==> r.world.lingering == map[];
      var id: int :| id in r.world.lingering;
      LingeringHasNoCallback(r, id);
    }
  }

  /** The log is within the rules by Tango's own books under the same condition. */
  lemma StrictExactly(r: Reg)
    requires Good(r)
    ensures StrictReplay(r.log).Some? <==> AllClosed(r)
  {
    AllClosedInLog(r);
    if AllClosed(r) {
      StrictWithoutFailure(r.log);
    }
    if StrictReplay(r.log).Some? {
      StrictIsAlive(r.log);
      CallbacksAliveExactly(r);
    }
  }

  /** Tango never held two subscriptions of one key exactly if no key was subscribed to again after an attempt to close
      it failed; so certainly if none has failed. */
  lemma OneSubscriptionExactly(r: Reg)
    requires Good(r)
    ensures Replay(r.log).Some?
    ensures AlwaysOnePerKey(r.log) <==> !Resubscribed(r.log)
    ensures AllClosed(r) ==> AlwaysOnePerKey(r.log)
  {
    AllClosedInLog(r);
    OnePerKeyExactly(r.log);
  }

  /** A subscription that is gone, when all attempts to close in the meantime failed, is one whose closing failed. */
  lemma GoneIsFailed(r: Reg, r': Reg, k: Key)
    requires Good(r) && Good(r') && r.log <= r'.log && r'.unsub == r.unsub
    requires forall i: nat :: r.closes <= i < r'.closes ==> !r.unsub(i)
    requires k in r.m.subs && k !in r'.m.subs
    ensures FailedKey(r'.log, k)
  {
    assert Holds(LiveOnes, r) && Holds(History, r) && Holds(Closings, r);
    assert Holds(LiveOnes, r') && Holds(History, r') && Holds(Closings, r');
    LaterOutcomes(r.log, r'.log);
    LiveOrFailed(r.log, r'.log, r.m.subs[k].id);
  }

  /** So from then on, whatever requests follow, Tango may call a callback that was released; and while the key is
      subscribed to again, Tango holds two subscriptions of it. */
  lemma LostOnReturn(r: Reg, r': Reg, r'': Reg, k: Key)
    requires Good(r) && Good(r') && Good(r'') && r.log <= r'.log <= r''.log && r''.unsub == r'.unsub == r.unsub
    requires forall i: nat :: r.closes <= i < r'.closes ==> !r.unsub(i)
    requires k in r.m.subs && k !in r'.m.subs
    ensures !CallbacksAlive(r''.world)
    ensures k in r''.m.subs ==> !OnePerKey(r''.world)
  {
    GoneIsFailed(r, r', k);
    var i :| 0 <= i < |r'.log| && r'.log[i].UnsubscribeFailed? && r'.log[i].key == k;
    assert r''.log[i] == r'.log[i];
    AllClosedInLog(r'');
    CallbacksAliveExactly(r'');
    if k in r''.m.subs {
      TwoHeld(r'', k);
    }
  }

  lemma TwoHeld(r: Reg, k: Key)
    requires Good(r) && k in r.m.subs && FailedKey(r.log, k)
    ensures !OnePerKey(r.world)
  {
    assert Holds(LiveOnes, r) && Holds(History, r);
    LingersExactly(r.log, k);
    ReplaySound(r.log);
    var left :| left in r.world.lingering && r.world.lingering[left].key == k;
    var id := r.m.subs[k].id;
    assert Held(r.world, left) && HeldSub(r.world, left).key == k;
    assert Held(r.world, id) && HeldSub(r.world, id).key == k;
  }

  /** Such a run: a connection subscribes, leaves while closing fails, and subscribes again. */
  method FailedCloseRun(o: Oracle, h: Conn, dev: string, attr: string) returns (p: EventProcCli)
    requires FreshIds(o) && (forall i :: !o.unsubscribe(i))
    requires o.connect(0) && o.connect(1) && o.subscribe(0).Some? && o.subscribe(1).Some?
    ensures p.Valid() && !CallbacksAlive(p.reg.world) && !OnePerKey(p.reg.world)
  {
    p := new EventProcCli(o);
    var k := Key(dev, attr, TypeName(Periodic));
    var add := AddDev(AddReq([DeviceAttrs(dev, [(attr, "")])], [], [], []));
    AddsOne(o, EMPTY, h, dev, attr);
    var added := p.HandleRequest(h, add);
    ghost var r := p.reg;
    var id := p.HandleRequest(h, CheckDev(k));
    assert id == SubscriptionId(r.m.subs[k].id);
    RemovesLast(o, r.m, h, k);
    var removed := p.HandleRequest(h, RemDev(Some(id.id)));
    ghost var r' := p.reg;
    AddsOne(o, r'.m, h, dev, attr);
    added := p.HandleRequest(h, add);
    LostOnReturn(r, r', p.reg, k);
  }

  // ----- a failed add -----

  lemma SameIds(r: Reg, r': Reg)
    requires Good(r) && Good(r') && r'.m.subs == r.m.subs
    ensures r'.ids == r.ids
  {
    assert Holds(Ids, r) && Holds(Ids, r');
    forall id { OneId(r.ids, r'.ids, r.m.subs, id); }
  }

  lemma OneId(ids: map<int, Key>, ids': map<int, Key>, subs: map<Key, Sub>, id: int)
    requires IdsMatch(ids, subs) && IdsMatch(ids', subs)
    ensures id in ids <==> id in ids'
    ensures id in ids ==> ids'[id] == ids[id]
  {
    if id in ids {
      assert ids[id] in subs && subs[ids[id]].id == id;
    }
    if id in ids' {
      assert ids'[id] in subs && subs[ids'[id]].id == id;
    }
  }

  lemma SameUsed(r: Reg, r': Reg)
    requires Between(r) && Between(r') && r'.m.subs == r.m.subs && Kept(r, r')
    ensures r'.used == r.used
  {
    forall d ensures d in r.used <==> d in r'.used {
      UsedDevices(r, d);
      UsedDevices(r', d);
    }
  }

  lemma SameLeaf(r: Reg, r': Reg, k: Key)
    requires Between(r) && Between(r') && r'.m.subs == r.m.subs && Kept(r, r')
    ensures HasLeaf(r'.es, k) <==> HasLeaf(r.es, k)
    ensures HasLeaf(r.es, k) ==> Leaf(r'.es, k) == Leaf(r.es, k)
  {
    LeafKeys(r, k);
    LeafKeys(r', k);
    if k in r.m.subs {
      KnownLeaf(r, k);
      KnownLeaf(r', k);
    } else {
      assert k !in r.leaves.Keys && k !in r'.leaves.Keys;
    }
  }

  lemma SameEntry(r: Reg, r': Reg, s: Slot)
    requires Good(r) && Good(r') && r'.m.index == r.m.index
    ensures HasEntry(r'.et, s) <==> HasEntry(r.et, s)
    ensures HasEntry(r.et, s) ==> Entry(r'.et, s) == Entry(r.et, s)
  {
    KnownEntry(r, s);
    KnownEntry(r', s);
  }

  /** An add whose every device or attribute fails leaves the registry's maps as they were: the same ids, the same
      proxies, and the same leaves and reverse-index entries, callbacks included. */
  lemma FailedAddLeavesMaps(o: Oracle, r: Reg, r': Reg, h: Conn, q: AddReq)
    requires Between(r) && Between(r') && Inv(o, r.m) && Kept(r, r') && r'.m == AddRequest(o, r.m, h, q).0
    requires forall i :: 0 <= i < |AddRequest(o, r.m, h, q).1| ==> AddRequest(o, r.m, h, q).1[i].kind == Failed
    ensures r'.ids == r.ids && r'.used == r.used && r'.closes == r.closes
    ensures forall k {:trigger HasLeaf(r.es, k)} :: HasLeaf(r'.es, k) <==> HasLeaf(r.es, k)
    ensures forall k {:trigger Leaf(r.es, k)} :: HasLeaf(r.es, k) ==> Leaf(r'.es, k) == Leaf(r.es, k)
    ensures forall s {:trigger HasEntry(r.et, s)} :: HasEntry(r'.et, s) <==> HasEntry(r.et, s)
    ensures forall s {:trigger Entry(r.et, s)} :: HasEntry(r.et, s) ==> Entry(r'.et, s) == Entry(r.et, s)
  {
    FailedAddInvisible(o, r.m, h, q);
    SameMaps(r, r');
  }

  lemma SameMaps(r: Reg, r': Reg)
    requires Between(r) && Between(r') && Kept(r, r') && r'.m.subs == r.m.subs && r'.m.index == r.m.index
    ensures r'.ids == r.ids && r'.used == r.used
    ensures forall k {:trigger HasLeaf(r.es, k)} :: HasLeaf(r'.es, k) <==> HasLeaf(r.es, k)
    ensures forall k {:trigger Leaf(r.es, k)} :: HasLeaf(r.es, k) ==> Leaf(r'.es, k) == Leaf(r.es, k)
    ensures forall s {:trigger HasEntry(r.et, s)} :: HasEntry(r'.et, s) <==> HasEntry(r.et, s)
    ensures forall s {:trigger Entry(r.et, s)} :: HasEntry(r.et, s) ==> Entry(r'.et, s) == Entry(r.et, s)
  {
    SameIds(r, r');
    SameUsed(r, r');
    forall k { SameLeaf(r, r', k); }
    forall s { SameEntry(r, r', s); }
  }
}
