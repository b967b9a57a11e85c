/** What the registry does to the outside: device proxies and callbacks allocated and released,
    Tango subscriptions opened and closed. A log of such calls is replayed by a strict judge,
    which stops at the first call that misuses a proxy, a callback or a subscription. */
module TangoWorld {
  import opened SubscriptionModel

  /** An allocation, reduced to its identity. */
  type Ptr = nat

  datatype Call =
    | NewProxy(p: Ptr, dev: string)
    | DeleteProxy(p: Ptr)
    | NewCallback(cb: Ptr, key: Key)
    | DeleteCallback(cb: Ptr)
    | SubscribeOk(p: Ptr, key: Key, cb: Ptr, id: int)
    | SubscribeFailed(p: Ptr, key: Key, cb: Ptr)
    | Unsubscribe(p: Ptr, id: int)
    | UnsubscribeFailed(p: Ptr, key: Key, id: int)

  datatype LiveSub = LiveSub(p: Ptr, key: Key, cb: Ptr)

  /** live: subscriptions opened and not yet asked to be closed. lingering: those that were asked to be closed when
      Tango refused, and that it may hold ever since. */
  datatype World = World(proxies: map<Ptr, string>, callbacks: map<Ptr, Key>, live: map<int, LiveSub>,
                         lingering: map<int, LiveSub>)

  const NOTHING := World(map[], map[], map[], map[])

  /** The rules by the caller's own books, in which a subscription ends when it is asked to be closed: nothing is
      released twice or while a live subscription needs it, calls go to live proxies of the right device, one live
      subscription per key, and only live ids are closed. */
  predicate Allowed(w: World, e: Call) {
    match e
    case NewProxy(p, dev) => p !in w.proxies
    case DeleteProxy(p) => p in w.proxies && forall id :: id in w.live ==> w.live[id].p != p
    case NewCallback(cb, key) => cb !in w.callbacks
    case DeleteCallback(cb) => cb in w.callbacks && forall id :: id in w.live ==> w.live[id].cb != cb
    case SubscribeOk(p, key, cb, id) =>
      && p in w.proxies && w.proxies[p] == key.dev
      && cb in w.callbacks && w.callbacks[cb] == key
      && id !in w.live && id !in w.lingering && forall id' :: id' in w.live ==> w.live[id'].key != key
    case SubscribeFailed(p, key, cb) =>
      p in w.proxies && w.proxies[p] == key.dev && cb in w.callbacks
    case Unsubscribe(p, id) =>
      p in w.proxies && id in w.live && w.live[id].p == p
    case UnsubscribeFailed(p, key, id) =>
      p in w.proxies && id in w.live && w.live[id].p == p && w.live[id].key == key
  }

  function Effect(w: World, e: Call): World {
    match e
    case NewProxy(p, dev) => w.(proxies := w.proxies[p := dev])
    case DeleteProxy(p) => w.(proxies := w.proxies - {p})
    case NewCallback(cb, key) => w.(callbacks := w.callbacks[cb := key])
    case DeleteCallback(cb) => w.(callbacks := w.callbacks - {cb})
    case SubscribeOk(p, key, cb, id) => w.(live := w.live[id := LiveSub(p, key, cb)])
    case SubscribeFailed(p, key, cb) => w
    case Unsubscribe(p, id) => w.(live := w.live - {id})
    case UnsubscribeFailed(p, key, id) =>
      if id !in w.live then w else w.(live := w.live - {id}, lingering := w.lingering[id := w.live[id]])
  }

  /** Replays a log from nothing; None as soon as one call is not allowed. */
  function Replay(log: seq<Call>): Option<World> {
    if log == [] then Some(NOTHING)
    else
      var n := |log| - 1;
      match Replay(log[..n])
      case None => None
      case Some(w) => if Allowed(w, log[n]) then Some(Effect(w, log[n])) else None
  }

  lemma ReplayStep(log: seq<Call>, w: World, e: Call)
    requires Replay(log) == Some(w) && Allowed(w, e)
    ensures Replay(log + [e]) == Some(Effect(w, e))
  {
    assert (log + [e])[..|log|] == log;
  }

  lemma ReplayTwo(log: seq<Call>, w: World, e1: Call, e2: Call)
    requires Replay(log) == Some(w) && Allowed(w, e1) && Allowed(Effect(w, e1), e2)
    ensures Replay(log + [e1, e2]) == Some(Effect(Effect(w, e1), e2))
  {
    ReplayStep(log, w, e1);
    ReplayStep(log + [e1], Effect(w, e1), e2);
    assert log + [e1, e2] == log + [e1] + [e2];
  }

  /** An attempt to close a subscription. */
  predicate IsClosing(e: Call) {
    e.Unsubscribe? || e.UnsubscribeFailed?
  }

  /** How often a subscription id was opened, and how often asked to be closed. */
  function Opened(log: seq<Call>, id: int): nat {
    if log == [] then 0
    else
      var n := |log| - 1;
      Opened(log[..n], id) + if log[n].SubscribeOk? && log[n].id == id then 1 else 0
  }

  function Closed(log: seq<Call>, id: int): nat {
    if log == [] then 0
    else
      var n := |log| - 1;
      Closed(log[..n], id) + if IsClosing(log[n]) && log[n].id == id then 1 else 0
  }

  /** Conservation: in every log the judge accepts, whatever attempts failed, each id was asked to be closed as often
      as it was opened, except for one opening while the subscription is live. */
  lemma {:induction false} OpenedMinusClosed(log: seq<Call>, id: int)
    requires Replay(log).Some?
    ensures Opened(log, id) == Closed(log, id) + if id in Replay(log).value.live then 1 else 0
  {
    if log != [] {
      OpenedMinusClosed(log[..|log| - 1], id);
    }
  }

  /** How often an allocation was made and released. */
  function Made(log: seq<Call>, p: Ptr): nat {
    if log == [] then 0
    else
      var n := |log| - 1;
      Made(log[..n], p) + if (log[n].NewProxy? && log[n].p == p) || (log[n].NewCallback? && log[n].cb == p) then 1 else 0
  }

  function Released(log: seq<Call>, p: Ptr): nat {
    if log == [] then 0
    else
      var n := |log| - 1;
      Released(log[..n], p) + if (log[n].DeleteProxy? && log[n].p == p) || (log[n].DeleteCallback? && log[n].cb == p) then 1 else 0
  }

  lemma {:induction false} MadeMinusReleased(log: seq<Call>, p: Ptr)
    requires Replay(log).Some?
    ensures var w := Replay(log).value;
            Made(log, p) == Released(log, p) + (if p in w.proxies then 1 else 0) + (if p in w.callbacks then 1 else 0)
  {
    if log != [] {
      MadeMinusReleased(log[..|log| - 1], p);
    }
  }

  /** Every live subscription has a live proxy of its device and a live callback of its key, no two share a key, and
      what lingers is not live. */
  ghost predicate Sound(w: World) {
    && (forall id :: id in w.live ==>
          && w.live[id].p in w.proxies && w.proxies[w.live[id].p] == w.live[id].key.dev
          && w.live[id].cb in w.callbacks && w.callbacks[w.live[id].cb] == w.live[id].key)
    && (forall id, id' :: id in w.live && id' in w.live && w.live[id].key == w.live[id'].key ==> id == id')
    && (forall id :: id in w.lingering ==> id !in w.live)
  }

  lemma {:induction false} ReplaySound(log: seq<Call>)
    requires Replay(log).Some?
    ensures Sound(Replay(log).value)
  {
    if log != [] {
      var n := |log| - 1;
      ReplaySound(log[..n]);
      EffectSound(Replay(log[..n]).value, log[n]);
    }
  }

  lemma EffectSound(w: World, e: Call)
    requires Sound(w) && Allowed(w, e)
    ensures Sound(Effect(w, e))
  {
  }

  // ----- attempts to close that fail -----

  /** The outcomes of the attempts to close, in order. */
  function Outcomes(log: seq<Call>): seq<bool> {
    if log == [] then []
    else
      var n := |log| - 1;
      Outcomes(log[..n]) + if IsClosing(log[n]) then [log[n].Unsubscribe?] else []
  }

  lemma OutcomesStep(log: seq<Call>, e: Call)
    ensures Outcomes(log + [e]) == Outcomes(log) + if IsClosing(e) then [e.Unsubscribe?] else []
  {
    assert (log + [e])[..|log|] == log;
  }

  lemma OutcomesTwo(log: seq<Call>, e1: Call, e2: Call)
    requires !IsClosing(e2)
    ensures Outcomes(log + [e1, e2]) == Outcomes(log) + if IsClosing(e1) then [e1.Unsubscribe?] else []
  {
    OutcomesStep(log, e1);
    OutcomesStep(log + [e1], e2);
    assert log + [e1, e2] == log + [e1] + [e2];
  }

  predicate NoFailure(log: seq<Call>) {
    forall i :: 0 <= i < |log| ==> !log[i].UnsubscribeFailed?
  }

  /** No attempt has failed exactly if all outcomes are good. */
  lemma {:induction false} NoFailureOutcomes(log: seq<Call>)
    ensures NoFailure(log) <==> forall i :: 0 <= i < |Outcomes(log)| ==> Outcomes(log)[i]
  {
    if log != [] {
      var n := |log| - 1;
      NoFailureOutcomes(log[..n]);
      assert NoFailure(log) <==> NoFailure(log[..n]) && !log[n].UnsubscribeFailed?;
      if IsClosing(log[n]) {
        assert Outcomes(log)[|Outcomes(log[..n])|] == log[n].Unsubscribe?;
      }
      assert forall i :: 0 <= i < |Outcomes(log[..n])| ==> Outcomes(log)[i] == Outcomes(log[..n])[i];
    }
  }

  /** Something lingers exactly if an attempt has failed. */
  lemma {:induction false} LingeringExactly(log: seq<Call>)
    requires Replay(log).Some?
    ensures Replay(log).value.lingering == map[] <==> NoFailure(log)
  {
    if log != [] {
      var n := |log| - 1;
      LingeringExactly(log[..n]);
      assert NoFailure(log) <==> NoFailure(log[..n]) && !log[n].UnsubscribeFailed?;
      if log[n].UnsubscribeFailed? {
        assert log[n].id in Replay(log).value.lingering;
      }
    }
  }

  /** What Tango may hold: live subscriptions and lingering ones. */
  predicate Held(w: World, id: int) {
    id in w.live || id in w.lingering
  }

  function HeldSub(w: World, id: int): LiveSub
    requires Held(w, id)
  {
    if id in w.live then w.live[id] else w.lingering[id]
  }

  /** No callback that Tango may still call is released. */
  ghost predicate CallbacksAlive(w: World) {
    forall id :: Held(w, id) ==> HeldSub(w, id).cb in w.callbacks
  }

  /** Tango holds one subscription per key. */
  ghost predicate OnePerKey(w: World) {
    forall id, id' :: Held(w, id) && Held(w, id') && HeldSub(w, id).key == HeldSub(w, id').key ==> id == id'
  }

  /** The rules by Tango's books: also what lingers needs its callback, and keeps its key. */
  predicate StrictlyAllowed(w: World, e: Call) {
    && Allowed(w, e)
    && match e
       case DeleteCallback(cb) => forall id :: id in w.lingering ==> w.lingering[id].cb != cb
       case SubscribeOk(_, key, _, _) => forall id :: id in w.lingering ==> w.lingering[id].key != key
       case _ => true
  }

  function StrictReplay(log: seq<Call>): Option<World> {
    if log == [] then Some(NOTHING)
    else
      var n := |log| - 1;
      match StrictReplay(log[..n])
      case None => None
      case Some(w) => if StrictlyAllowed(w, log[n]) then Some(Effect(w, log[n])) else None
  }

  /** The strict judge is stricter, and leaves every callback that may be called alive. */
  lemma {:induction false} StrictIsAlive(log: seq<Call>)
    requires StrictReplay(log).Some?
    ensures Replay(log) == StrictReplay(log) && CallbacksAlive(StrictReplay(log).value)
  {
    if log != [] {
      var n := |log| - 1;
      StrictIsAlive(log[..n]);
      ReplaySound(log[..n]);
      StrictStepAlive(Replay(log[..n]).value, log[n]);
    }
  }

  lemma StrictStepAlive(w: World, e: Call)
    requires Sound(w) && CallbacksAlive(w) && StrictlyAllowed(w, e)
    ensures CallbacksAlive(Effect(w, e))
  {
    var w' := Effect(w, e);
    forall id | Held(w', id) ensures HeldSub(w', id).cb in w'.callbacks {
      if !e.SubscribeOk? || e.id != id {
        assert Held(w, id) && HeldSub(w', id).cb == HeldSub(w, id).cb;
      }
    }
  }

  /** Without a failure the judges agree. */
  lemma {:induction false} StrictWithoutFailure(log: seq<Call>)
    requires Replay(log).Some? && NoFailure(log)
    ensures StrictReplay(log) == Replay(log)
  {
    if log != [] {
      var n := |log| - 1;
      assert NoFailure(log[..n]);
      StrictWithoutFailure(log[..n]);
      LingeringExactly(log[..n]);
    }
  }

  lemma {:induction false} LaterOutcomes(log: seq<Call>, log': seq<Call>)
    requires log <= log'
    ensures Outcomes(log) <= Outcomes(log')
    ensures forall i :: |log| <= i < |log'| && log'[i].Unsubscribe? ==>
              exists j :: |Outcomes(log)| <= j < |Outcomes(log')| && Outcomes(log')[j]
    decreases |log'|
  {
    if log != log' {
      var n := |log'| - 1;
      var before := log'[..n];
      LaterOutcomes(log, before);
      forall i | |log| <= i < |log'| && log'[i].Unsubscribe?
        ensures exists j :: |Outcomes(log)| <= j < |Outcomes(log')| && Outcomes(log')[j]
      {
        if i < n {
          assert before[i].Unsubscribe?;
          var j :| |Outcomes(log)| <= j < |Outcomes(before)| && Outcomes(before)[j];
          assert Outcomes(log')[j];
        } else {
          assert Outcomes(log')[|Outcomes(before)|];
        }
      }
    }
  }

  // ----- one subscription per key -----

  /** An attempt to close a subscription of this key has failed. */
  predicate FailedKey(log: seq<Call>, k: Key) {
    exists i :: 0 <= i < |log| && log[i].UnsubscribeFailed? && log[i].key == k
  }

  /** A live subscription stays live as long as it is not closed, unless closing it fails. */
  lemma {:induction false} LiveOrFailed(log: seq<Call>, log': seq<Call>, id: int)
    requires log <= log' && Replay(log).Some? && Replay(log').Some? && id in Replay(log).value.live
    requires forall i :: |log| <= i < |log'| ==> !log'[i].Unsubscribe?
    ensures var s := Replay(log).value.live[id];
            FailedKey(log', s.key) || (id in Replay(log').value.live && Replay(log').value.live[id] == s)
    decreases |log'|
  {
    if log != log' {
      var n := |log'| - 1;
      LiveOrFailed(log, log'[..n], id);
      FailedKeyStep(log', Replay(log).value.live[id].key);
    }
  }

  /** A key was subscribed to again after that. */
  predicate Resubscribed(log: seq<Call>) {
    exists j :: 0 <= j < |log| && log[j].SubscribeOk? && FailedKey(log[..j], log[j].key)
  }

  ghost predicate Lingers(w: World, k: Key) {
    exists id :: id in w.lingering && w.lingering[id].key == k
  }

  lemma {:induction false} LingersExactly(log: seq<Call>, k: Key)
    requires Replay(log).Some?
    ensures Lingers(Replay(log).value, k) <==> FailedKey(log, k)
  {
    if log != [] {
      var n := |log| - 1;
      LingersExactly(log[..n], k);
      ReplaySound(log[..n]);
      FailedKeyStep(log, k);
      LingersStep(Replay(log[..n]).value, log[n], k);
    }
  }

  lemma FailedKeyStep(log: seq<Call>, k: Key)
    requires log != []
    ensures var n := |log| - 1;
            FailedKey(log, k) <==> FailedKey(log[..n], k) || (log[n].UnsubscribeFailed? && log[n].key == k)
  {
    var n := |log| - 1;
    if i :| 0 <= i < n && log[i].UnsubscribeFailed? && log[i].key == k {
      assert log[..n][i] == log[i];
    }
  }

  lemma LingersStep(w: World, e: Call, k: Key)
    requires Sound(w) && Allowed(w, e)
    ensures Lingers(Effect(w, e), k) <==> Lingers(w, k) || (e.UnsubscribeFailed? && e.key == k)
  {
    var w' := Effect(w, e);
    if e.UnsubscribeFailed? {
      assert e.id in w'.lingering && w'.lingering[e.id].key == e.key;
    }
    if id :| id in w.lingering && w.lingering[id].key == k {
      assert id in w'.lingering && w'.lingering[id].key == k;
    }
  }

  /** At no time did Tango hold two subscriptions of one key. */
  ghost predicate AlwaysOnePerKey(log: seq<Call>)
    requires Replay(log).Some?
  {
    OnePerKey(Replay(log).value) && (log != [] ==> AlwaysOnePerKey(log[..|log| - 1]))
  }

  /** That is so exactly if no key was subscribed to again after an attempt to close it failed. */
  lemma {:induction false} OnePerKeyExactly(log: seq<Call>)
    requires Replay(log).Some?
    ensures AlwaysOnePerKey(log) <==> !Resubscribed(log)
  {
    if log != [] {
      var n := |log| - 1;
      OnePerKeyExactly(log[..n]);
      ResubscribedStep(log);
      ReplaySound(log[..n]);
      var w := Replay(log[..n]).value;
      if AlwaysOnePerKey(log[..n]) {
        if log[n].SubscribeOk? {
          LingersExactly(log[..n], log[n].key);
          SubscribeOnePerKey(w, log[n]);
        } else {
          OtherOnePerKey(w, log[n]);
        }
      }
    }
  }

  lemma ResubscribedStep(log: seq<Call>)
    requires log != []
    ensures var n := |log| - 1;
            Resubscribed(log) <==> Resubscribed(log[..n]) || (log[n].SubscribeOk? && FailedKey(log[..n], log[n].key))
  {
    var n := |log| - 1;
    forall j | 0 <= j < n ensures log[..n][..j] == log[..j] {
    }
    if j :| 0 <= j < n && log[j].SubscribeOk? && FailedKey(log[..j], log[j].key) {
      assert log[..n][j].SubscribeOk? && FailedKey(log[..n][..j], log[..n][j].key);
    }
    if j :| 0 <= j < n && log[..n][j].SubscribeOk? && FailedKey(log[..n][..j], log[..n][j].key) {
      assert log[j].SubscribeOk? && FailedKey(log[..j], log[j].key);
    }
  }

  lemma SubscribeOnePerKey(w: World, e: Call)
    requires Sound(w) && OnePerKey(w) && Allowed(w, e) && e.SubscribeOk?
    ensures OnePerKey(Effect(w, e)) <==> !Lingers(w, e.key)
  {
    var w' := Effect(w, e);
    assert Held(w', e.id) && HeldSub(w', e.id).key == e.key;
    if id :| id in w.lingering && w.lingering[id].key == e.key {
      assert Held(w', id) && HeldSub(w', id).key == e.key && id != e.id;
    } else {
      forall id, id' | Held(w', id) && Held(w', id') && HeldSub(w', id).key == HeldSub(w', id').key
        ensures id == id'
      {
        assert id != e.id ==> Held(w, id) && HeldSub(w', id) == HeldSub(w, id);
        assert id' != e.id ==> Held(w, id') && HeldSub(w', id') == HeldSub(w, id');
      }
    }
  }

  lemma OtherOnePerKey(w: World, e: Call)
    requires Sound(w) && OnePerKey(w) && Allowed(w, e) && !e.SubscribeOk?
    ensures OnePerKey(Effect(w, e))
  {
    var w' := Effect(w, e);
    forall id, id' | Held(w', id) && Held(w', id') && HeldSub(w', id).key == HeldSub(w', id').key
      ensures id == id'
    {
      assert Held(w, id) && HeldSub(w', id).key == HeldSub(w, id).key;
      assert Held(w, id') && HeldSub(w', id').key == HeldSub(w, id').key;
    }
  }
}
