/** How the registry's maps represent the abstract state, field by field, and how the elementary
    updates keep them in step. */
module Coupling {
  import opened SubscriptionModel
  import opened TangoWorld
  import opened NestedMaps

  /** The nested map, flattened: it has exactly these leaves, and no attribute without leaves. */
  ghost predicate Flat(es: EventSubs, leaves: map<Key, UsedEventSubscr>) {
    && NoEmptyAttr(es)
    && (forall k {:trigger HasLeaf(es, k)} :: HasLeaf(es, k) <==> k in leaves)
    && (forall k {:trigger Leaf(es, k)} :: k in leaves ==> Leaf(es, k) == leaves[k])
  }

  /** What a leaf holds for a subscription s whose callback is cb. */
  ghost predicate LeafMatch(l: UsedEventSubscr, k: Key, s: Sub, cb: Ptr) {
    l == UsedEventSubscr(s.listeners, s.id, k, Some(cb))
  }

  /** The leaves of the subscriptions. Other leaves are dangling: their callback is already released
      and they are still to be erased. */
  ghost predicate SubsMatch(leaves: map<Key, UsedEventSubscr>, subs: map<Key, Sub>, cbs: map<Key, Ptr>) {
    && cbs.Keys == subs.Keys
    && forall k :: k in subs ==> k in leaves && LeafMatch(leaves[k], k, subs[k], cbs[k])
  }

  /** listOfId is a bijection between ids and subscriptions. */
  ghost predicate IdsMatch(ids: map<int, Key>, subs: map<Key, Sub>) {
    && (forall id :: id in ids ==> ids[id] in subs && subs[ids[id]].id == id)
    && (forall k :: k in subs ==> subs[k].id in ids && ids[subs[k].id] == k)
  }

  ghost predicate IndexMatch(et: EventTypes, index: map<Slot, EventType>) {
    && (forall s {:trigger HasEntry(et, s)} :: HasEntry(et, s) <==> s in index)
    && (forall s {:trigger Entry(et, s)} :: s in index && HasEntry(et, s) ==> Entry(et, s) == index[s])
  }

  ghost predicate OnDevice(keys: set<Key>, d: string) {
    exists k :: k in keys && k.dev == d
  }

  /** usedDevices holds the devices with a leaf, and the spare ones: a proxy made for a device on
      which nothing is subscribed yet. */
  ghost predicate DevicesMatch(used: map<string, Ptr>, keys: set<Key>, spare: set<string>) {
    forall d :: d in used <==> OnDevice(keys, d) || d in spare
  }

  /** The live proxies are the used devices. */
  ghost predicate ProxiesMatch(w: World, used: map<string, Ptr>, next: Ptr) {
    && (forall d :: d in used ==> used[d] in w.proxies && w.proxies[used[d]] == d)
    && (forall p :: p in w.proxies ==> p < next && w.proxies[p] in used && used[w.proxies[p]] == p)
  }

  /** The live callbacks and the live Tango subscriptions are those of the subscriptions. */
  ghost predicate LiveMatch(w: World, used: map<string, Ptr>, subs: map<Key, Sub>, cbs: map<Key, Ptr>, next: Ptr) {
    && cbs.Keys == subs.Keys
    && (forall k :: k in subs ==> && k.dev in used && subs[k].id in w.live
                                  && w.live[subs[k].id] == LiveSub(used[k.dev], k, cbs[k]))
    && (forall id :: id in w.live ==> w.live[id].key in subs && subs[w.live[id].key].id == id)
    && (forall k :: k in subs ==> cbs[k] in w.callbacks && w.callbacks[cbs[k]] == k)
    && (forall cb :: cb in w.callbacks ==> cb < next && w.callbacks[cb] in subs && cbs[w.callbacks[cb]] == cb)
  }

  /** Tango's ids are issued ones, and what lingers there has lost its callback. */
  ghost predicate LingerMatch(w: World, issued: set<int>, next: Ptr) {
    && (forall id :: id in w.live ==> id in issued)
    && (forall id :: id in w.lingering ==>
          id in issued && w.lingering[id].cb !in w.callbacks && w.lingering[id].cb < next)
  }

  // ----- updates of one leaf -----

  lemma FlatPut(es: EventSubs, leaves: map<Key, UsedEventSubscr>, k: Key, l: UsedEventSubscr)
    requires Flat(es, leaves)
    ensures Flat(PutLeaf(es, k, l), leaves[k := l])
  {
    PutLeafShape(es, k, l);
    forall k'
      ensures HasLeaf(PutLeaf(es, k, l), k') <==> k' in leaves[k := l]
      ensures k' in leaves[k := l] ==> Leaf(PutLeaf(es, k, l), k') == leaves[k := l][k']
    {
      assert HasLeaf(es, k') <==> k' in leaves;
      PutLeafLookup(es, k, l, k');
    }
  }

  lemma FlatPrune(es: EventSubs, leaves: map<Key, UsedEventSubscr>, k: Key)
    requires Flat(es, leaves)
    ensures Flat(PruneType(es, k), leaves - {k})
  {
    PruneTypeShape(es, k);
    forall k' { PruneTypeLookup(es, k, k'); }
  }

  lemma FlatDropDev(es: EventSubs, leaves: map<Key, UsedEventSubscr>, d: string)
    requires Flat(es, leaves) && DevOf(es, d) == map[]
    ensures Flat(es - {d}, leaves)
  {
    DropEmptyDev(es, d);
    forall k
      ensures HasLeaf(es - {d}, k) <==> k in leaves
    {
      assert HasLeaf(es - {d}, k) <==> HasLeaf(es, k);
    }
  }

  /** The source's size test on a device's map. */
  lemma FlatDevEmpty(es: EventSubs, leaves: map<Key, UsedEventSubscr>, d: string)
    requires Flat(es, leaves)
    ensures DevOf(es, d) == map[] <==> !OnDevice(leaves.Keys, d)
  {
    DevEmptyIff(es, d);
    if k :| k in leaves && k.dev == d {
      assert HasLeaf(es, k);
    }
  }

  lemma PutIndex(et: EventTypes, index: map<Slot, EventType>, s: Slot, t: EventType)
    requires IndexMatch(et, index)
    ensures IndexMatch(PutEntry(et, s, t), index[s := t])
  {
    forall s' { PutEntryLookup(et, s, t, s'); }
  }

  lemma EraseIndex(et: EventTypes, index: map<Slot, EventType>, s: Slot)
    requires IndexMatch(et, index)
    ensures IndexMatch(EraseEntry(et, s), index - {s})
  {
    forall s' { EraseEntryLookup(et, s, s'); }
  }

  // ----- calls to the outside -----

  /** Who listens does not matter to the outside. */
  lemma LiveFrame(w: World, used: map<string, Ptr>, subs: map<Key, Sub>, cbs: map<Key, Ptr>, next: Ptr, k: Key, s: Sub)
    requires LiveMatch(w, used, subs, cbs, next) && k in subs && s.id == subs[k].id
    ensures LiveMatch(w, used, subs[k := s], cbs, next)
  {
  }

  /** A subscription is opened with a new callback. */
  lemma WorldOpen(w: World, used: map<string, Ptr>, subs: map<Key, Sub>, cbs: map<Key, Ptr>, next: Ptr, k: Key, s: Sub)
    requires ProxiesMatch(w, used, next) && LiveMatch(w, used, subs, cbs, next) && k !in subs && k.dev in used
    requires s.id !in w.lingering && forall k' :: k' in subs ==> subs[k'].id != s.id
    ensures var w1 := Effect(w, NewCallback(next, k));
            var open := SubscribeOk(used[k.dev], k, next, s.id);
            var w2 := Effect(w1, open);
            && Allowed(w, NewCallback(next, k)) && Allowed(w1, open)
            && ProxiesMatch(w2, used, next + 1) && LiveMatch(w2, used, subs[k := s], cbs[k := next], next + 1)
  {
    LiveOpen(w, used, subs, cbs, next, k, s);
  }

  lemma LiveOpen(w: World, used: map<string, Ptr>, subs: map<Key, Sub>, cbs: map<Key, Ptr>, next: Ptr, k: Key, s: Sub)
    requires LiveMatch(w, used, subs, cbs, next) && k !in subs && k.dev in used
    requires forall k' :: k' in subs ==> subs[k'].id != s.id
    ensures var w2 := Effect(Effect(w, NewCallback(next, k)), SubscribeOk(used[k.dev], k, next, s.id));
            LiveMatch(w2, used, subs[k := s], cbs[k := next], next + 1)
  {
  }

  /** An attempt that fails: the callback is made and released again. */
  lemma WorldFail(w: World, used: map<string, Ptr>, subs: map<Key, Sub>, cbs: map<Key, Ptr>, next: Ptr, k: Key)
    requires ProxiesMatch(w, used, next) && LiveMatch(w, used, subs, cbs, next) && k !in subs && k.dev in used
    ensures var w1 := Effect(w, NewCallback(next, k));
            && Allowed(w, NewCallback(next, k)) && Allowed(w1, SubscribeFailed(used[k.dev], k, next))
            && Allowed(w1, DeleteCallback(next)) && Effect(w1, DeleteCallback(next)) == w
            && ProxiesMatch(w, used, next + 1) && LiveMatch(w, used, subs, cbs, next + 1)
  {
    assert next !in w.callbacks;
    assert w.callbacks[next := k] - {next} == w.callbacks;
  }

  lemma LingerOpen(w: World, issued: set<int>, next: Ptr, p: Ptr, k: Key, id: int)
    requires LingerMatch(w, issued, next)
    ensures LingerMatch(Effect(Effect(w, NewCallback(next, k)), SubscribeOk(p, k, next, id)), issued + {id}, next + 1)
  {
  }

  /** An attempt to close, and whether it succeeds. */
  function Closing(p: Ptr, k: Key, id: int, ok: bool): Call {
    if ok then Unsubscribe(p, id) else UnsubscribeFailed(p, k, id)
  }

  /** The last listener leaves: the subscription is asked to be closed, then its callback released, whether or not
      closing it succeeded. */
  lemma WorldClose(w: World, used: map<string, Ptr>, subs: map<Key, Sub>, cbs: map<Key, Ptr>, next: Ptr, k: Key, ok: bool)
    requires ProxiesMatch(w, used, next) && LiveMatch(w, used, subs, cbs, next) && k in subs
    ensures var close := Closing(used[k.dev], k, subs[k].id, ok);
            var w1 := Effect(w, close);
            var w2 := Effect(w1, DeleteCallback(cbs[k]));
            && Allowed(w, close) && Allowed(w1, DeleteCallback(cbs[k]))
            && ProxiesMatch(w2, used, next) && LiveMatch(w2, used, subs - {k}, cbs - {k}, next)
  {
  }

  lemma LingerClose(w: World, used: map<string, Ptr>, subs: map<Key, Sub>, cbs: map<Key, Ptr>, issued: set<int>,
                    next: Ptr, k: Key, ok: bool)
    requires LiveMatch(w, used, subs, cbs, next) && LingerMatch(w, issued, next) && k in subs
    ensures var w1 := Effect(w, Closing(used[k.dev], k, subs[k].id, ok));
            LingerMatch(Effect(w1, DeleteCallback(cbs[k])), issued, next)
  {
  }

  /** A proxy on which nothing is subscribed may go. */
  lemma WorldDropProxy(w: World, used: map<string, Ptr>, subs: map<Key, Sub>, cbs: map<Key, Ptr>, next: Ptr, d: string)
    requires ProxiesMatch(w, used, next) && LiveMatch(w, used, subs, cbs, next) && d in used
    requires forall k :: k in subs ==> k.dev != d
    ensures Allowed(w, DeleteProxy(used[d]))
    ensures ProxiesMatch(Effect(w, DeleteProxy(used[d])), used - {d}, next)
    ensures LiveMatch(Effect(w, DeleteProxy(used[d])), used - {d}, subs, cbs, next)
  {
  }

  lemma WorldNewProxy(w: World, used: map<string, Ptr>, subs: map<Key, Sub>, cbs: map<Key, Ptr>, next: Ptr, d: string)
    requires ProxiesMatch(w, used, next) && LiveMatch(w, used, subs, cbs, next) && d !in used
    ensures Allowed(w, NewProxy(next, d))
    ensures ProxiesMatch(Effect(w, NewProxy(next, d)), used[d := next], next + 1)
    ensures LiveMatch(Effect(w, NewProxy(next, d)), used[d := next], subs, cbs, next + 1)
  {
  }
}
