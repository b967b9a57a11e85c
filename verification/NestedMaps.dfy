/** The registry's maps of maps of maps, with the C++ operator[] (which creates what is missing)
    and the erase-then-prune sequences, and what each of them means for a look-up. */
module NestedMaps {
  import opened SubscriptionModel
  import opened TangoWorld

  /** One registered event type of one attribute. evCallback is None for a null pointer. */
  datatype UsedEventSubscr = UsedEventSubscr(
    connList: map<Conn, string>,
    eventSubId: int,
    eventAttrCh: Key,
    evCallback: Option<Ptr>)

  const DEFAULT_SUBSCR := UsedEventSubscr(map[], 0, Key("", "", ""), None)

  type ByType = map<string, UsedEventSubscr>
  type ByAttr = map<string, ByType>
  type EventSubs = map<string, ByAttr>

  type TypesByAttr = map<string, EventType>
  type TypesByDev = map<string, TypesByAttr>
  type EventTypes = map<Conn, TypesByDev>

  // ----- device, attribute, event type -----

  function DevOf(es: EventSubs, d: string): ByAttr {
    if d in es then es[d] else map[]
  }

  function AttrOf(es: EventSubs, d: string, a: string): ByType {
    if a in DevOf(es, d) then DevOf(es, d)[a] else map[]
  }

  predicate HasLeaf(es: EventSubs, k: Key) {
    k.typ in AttrOf(es, k.dev, k.attr)
  }

  function Leaf(es: EventSubs, k: Key): UsedEventSubscr {
    if HasLeaf(es, k) then AttrOf(es, k.dev, k.attr)[k.typ] else DEFAULT_SUBSCR
  }

  function PutLeaf(es: EventSubs, k: Key, l: UsedEventSubscr): EventSubs {
    es[k.dev := DevOf(es, k.dev)[k.attr := AttrOf(es, k.dev, k.attr)[k.typ := l]]]
  }

  function EraseType(es: EventSubs, k: Key): EventSubs {
    es[k.dev := DevOf(es, k.dev)[k.attr := AttrOf(es, k.dev, k.attr) - {k.typ}]]
  }

  function EraseAttr(es: EventSubs, d: string, a: string): EventSubs {
    es[d := DevOf(es, d) - {a}]
  }

  /** Erase a leaf, and its attribute's map when that was the last event type. */
  function PruneType(es: EventSubs, k: Key): EventSubs {
    var e1 := EraseType(es, k);
    if AttrOf(e1, k.dev, k.attr) == map[] then EraseAttr(e1, k.dev, k.attr) else e1
  }

  /** No attribute is left with an empty map. A device may be: the source leaves one behind after a
      failed add. */
  ghost predicate NoEmptyAttr(es: EventSubs) {
    forall d, a :: a in DevOf(es, d) ==> AttrOf(es, d, a) != map[]
  }

  lemma PutLeafLookup(es: EventSubs, k: Key, l: UsedEventSubscr, k': Key)
    ensures HasLeaf(PutLeaf(es, k, l), k') <==> HasLeaf(es, k') || k' == k
    ensures Leaf(PutLeaf(es, k, l), k') == if k' == k then l else Leaf(es, k')
  {
    var e1 := PutLeaf(es, k, l);
    assert k'.dev != k.dev ==> DevOf(e1, k'.dev) == DevOf(es, k'.dev);
    assert k'.dev == k.dev && k'.attr != k.attr ==> AttrOf(e1, k'.dev, k'.attr) == AttrOf(es, k'.dev, k'.attr);
  }

  lemma PutSame(es: EventSubs, k: Key)
    requires HasLeaf(es, k)
    ensures PutLeaf(es, k, Leaf(es, k)) == es
  {
    assert AttrOf(es, k.dev, k.attr)[k.typ := Leaf(es, k)] == AttrOf(es, k.dev, k.attr);
    assert DevOf(es, k.dev)[k.attr := AttrOf(es, k.dev, k.attr)] == DevOf(es, k.dev);
  }

  lemma PutLeafShape(es: EventSubs, k: Key, l: UsedEventSubscr)
    requires NoEmptyAttr(es)
    ensures NoEmptyAttr(PutLeaf(es, k, l))
    ensures DevOf(PutLeaf(es, k, l), k.dev) != map[]
    ensures forall d :: d != k.dev ==> DevOf(PutLeaf(es, k, l), d) == DevOf(es, d)
  {
    var e1 := PutLeaf(es, k, l);
    assert k.attr in DevOf(e1, k.dev);
    forall d, a | a in DevOf(e1, d)
      ensures AttrOf(e1, d, a) != map[]
    {
      if d == k.dev && a == k.attr {
        assert k.typ in AttrOf(e1, d, a);
      } else {
        assert a in DevOf(es, d) && AttrOf(e1, d, a) == AttrOf(es, d, a);
      }
    }
  }

  lemma PruneTypeLookup(es: EventSubs, k: Key, k': Key)
    ensures HasLeaf(PruneType(es, k), k') <==> HasLeaf(es, k') && k' != k
    ensures k' != k ==> Leaf(PruneType(es, k), k') == Leaf(es, k')
  {
    var e1 := EraseType(es, k);
    assert k'.dev != k.dev ==> DevOf(e1, k'.dev) == DevOf(es, k'.dev);
    assert k'.dev == k.dev && k'.attr != k.attr ==> AttrOf(e1, k'.dev, k'.attr) == AttrOf(es, k'.dev, k'.attr);
    assert AttrOf(e1, k.dev, k.attr) == AttrOf(es, k.dev, k.attr) - {k.typ};
    if AttrOf(e1, k.dev, k.attr) == map[] {
      var e2 := EraseAttr(e1, k.dev, k.attr);
      assert k'.dev != k.dev ==> DevOf(e2, k'.dev) == DevOf(es, k'.dev);
      assert k'.dev == k.dev && k'.attr != k.attr ==> AttrOf(e2, k'.dev, k'.attr) == AttrOf(es, k'.dev, k'.attr);
    }
  }

  lemma PruneTypeShape(es: EventSubs, k: Key)
    requires NoEmptyAttr(es)
    ensures NoEmptyAttr(PruneType(es, k))
    ensures forall d :: d != k.dev ==> DevOf(PruneType(es, k), d) == DevOf(es, d)
  {
    var e2 := PruneType(es, k);
    forall d, a | a in DevOf(e2, d)
      ensures AttrOf(e2, d, a) != map[]
    {
      if d != k.dev || a != k.attr {
        assert a in DevOf(es, d) && AttrOf(e2, d, a) == AttrOf(es, d, a);
      }
    }
  }

  /** The source's size tests: a device map is empty exactly when no leaf of the device is left. */
  lemma DevEmptyIff(es: EventSubs, d: string)
    requires NoEmptyAttr(es)
    ensures DevOf(es, d) != map[] <==> exists k :: HasLeaf(es, k) && k.dev == d
  {
    if DevOf(es, d) != map[] {
      var a :| a in DevOf(es, d);
      assert AttrOf(es, d, a) != map[];
      var t :| t in AttrOf(es, d, a);
      assert HasLeaf(es, Key(d, a, t));
    }
    if k :| HasLeaf(es, k) && k.dev == d {
      assert k.attr in DevOf(es, d);
    }
  }

  /** Removing a device whose map is empty changes no look-up. */
  lemma DropEmptyDev(es: EventSubs, d: string)
    requires NoEmptyAttr(es) && DevOf(es, d) == map[]
    ensures NoEmptyAttr(es - {d})
    ensures forall d' :: DevOf(es - {d}, d') == DevOf(es, d')
    ensures forall k :: (HasLeaf(es - {d}, k) <==> HasLeaf(es, k)) && Leaf(es - {d}, k) == Leaf(es, k)
  {
    var e1 := es - {d};
    assert forall d' :: DevOf(e1, d') == DevOf(es, d');
    assert forall d', a :: AttrOf(e1, d', a) == AttrOf(es, d', a);
  }

  lemma EmptyWithout(l: map<Conn, string>, h: Conn)
    ensures l - {h} == map[] <==> l.Keys <= {h}
  {
    if l - {h} == map[] {
      forall c | c in l.Keys
        ensures c in {h}
      {
        assert c != h ==> c in l - {h};
      }
    }
  }

  // ----- connection, device, attribute -----

  function TypesOf(et: EventTypes, h: Conn): TypesByDev {
    if h in et then et[h] else map[]
  }

  function DevTypes(et: EventTypes, h: Conn, d: string): TypesByAttr {
    if d in TypesOf(et, h) then TypesOf(et, h)[d] else map[]
  }

  predicate HasEntry(et: EventTypes, s: Slot) {
    s.attr in DevTypes(et, s.conn, s.dev)
  }

  function Entry(et: EventTypes, s: Slot): EventType
    requires HasEntry(et, s)
  {
    DevTypes(et, s.conn, s.dev)[s.attr]
  }

  function PutEntry(et: EventTypes, s: Slot, t: EventType): EventTypes {
    et[s.conn := TypesOf(et, s.conn)[s.dev := DevTypes(et, s.conn, s.dev)[s.attr := t]]]
  }

  lemma PutEntryLookup(et: EventTypes, s: Slot, t: EventType, s': Slot)
    ensures HasEntry(PutEntry(et, s, t), s') <==> HasEntry(et, s') || s' == s
    ensures HasEntry(PutEntry(et, s, t), s') ==>
              Entry(PutEntry(et, s, t), s') == if s' == s then t else Entry(et, s')
  {
    var e1 := PutEntry(et, s, t);
    assert s'.conn != s.conn ==> TypesOf(e1, s'.conn) == TypesOf(et, s'.conn);
    assert s'.conn == s.conn && s'.dev != s.dev ==> DevTypes(e1, s'.conn, s'.dev) == DevTypes(et, s'.conn, s'.dev);
  }

  /** The three erasures at the end of eventreq_rem_dev. */
  function EraseEntry(et: EventTypes, s: Slot): EventTypes {
    var e1 := et[s.conn := TypesOf(et, s.conn)[s.dev := DevTypes(et, s.conn, s.dev) - {s.attr}]];
    var e2 := if DevTypes(e1, s.conn, s.dev) == map[] then e1[s.conn := TypesOf(e1, s.conn) - {s.dev}] else e1;
    if TypesOf(e2, s.conn) == map[] then e2 - {s.conn} else e2
  }

  lemma EraseEntryLookup(et: EventTypes, s: Slot, s': Slot)
    ensures HasEntry(EraseEntry(et, s), s') <==> HasEntry(et, s') && s' != s
    ensures HasEntry(EraseEntry(et, s), s') ==> Entry(EraseEntry(et, s), s') == Entry(et, s')
  {
    var e1 := et[s.conn := TypesOf(et, s.conn)[s.dev := DevTypes(et, s.conn, s.dev) - {s.attr}]];
    assert DevTypes(e1, s.conn, s.dev) == DevTypes(et, s.conn, s.dev) - {s.attr};
    if s'.conn != s.conn {
      assert TypesOf(EraseEntry(et, s), s'.conn) == TypesOf(et, s'.conn);
    } else if s'.dev != s.dev {
      assert DevTypes(EraseEntry(et, s), s'.conn, s'.dev) == DevTypes(et, s'.conn, s'.dev);
    }
  }
}
