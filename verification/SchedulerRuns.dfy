/** Every interleaving of the scheduler's steps. */
module SchedulerRuns {
  import opened Scheduler

  datatype Step =
    | Open(h: Hdl, failed: bool)
    | Close(h: Hdl)
    | Add(h: Hdl, list: seq<(Id, TaskInfo)>)
    | SendFailure(h: Hdl)
    | Poll(o: Oracle)

  ghost predicate Next(s: State, step: Step, s': State) {
    match step
    case Open(h, failed) => s' == if failed then Dropped(Opened(s, h), h) else Opened(s, h)
    case Close(h) => s' == Closed(s, h)
    case Add(h, list) => s' == Added(s, h, list)
    case SendFailure(h) => s' == Dropped(s, h)
    case Poll(o) => s.active <= s.conns.Keys && Polled(s, o, s')
  }

  /** A handle is new when it is opened, and ids are new when they are added. */
  ghost predicate Fresh(s: State, step: Step) {
    match step
    case Open(h, _) => h !in s.conns && h !in s.history.dropped
    case Add(h, list) => Listed(h, list) !! s.history.registered
    case _ => true
  }

  predicate Pending(s: State, t: Task) {
    t.0 in s.conns && t.1 in s.conns[t.0]
  }

  // ----- safety -----

  /** Active connections are known; every connection with tasks is active, or was dropped since it last was. */
  predicate Safe(s: State) {
    && s.active <= s.conns.Keys
    && s.history.dropped <= s.conns.Keys && s.active !! s.history.dropped
    && forall h :: h in s.conns && s.conns[h] != map[] ==> h in s.active || h in s.history.dropped
  }

  lemma SafePoll(s: State, o: Oracle, s': State)
    requires Safe(s) && Polled(s, o, s')
    ensures Safe(s')
  {
    assert s'.conns.Keys == s.conns.Keys;
    assert forall h :: h in s'.active ==> h in s.active && h in s.conns.Keys;
    assert s'.active <= s.active;
    assert forall h :: h in s'.history.dropped ==> h in s.conns.Keys && h !in s'.active;
  }

  lemma SafeAdd(s: State, h: Hdl, list: seq<(Id, TaskInfo)>)
    requires Safe(s)
    ensures Safe(Added(s, h, list))
  {
  }

  lemma SafeStep(s: State, step: Step, s': State)
    requires Safe(s) && Fresh(s, step) && Next(s, step, s')
    ensures Safe(s')
  {
    match step
    case Poll(o) => SafePoll(s, o, s');
    case Add(h, list) => SafeAdd(s, h, list);
    case _ =>
  }

  // ----- accounts -----

  /** Where a task stands: it was registered if its reply was taken, or it is pending, or it was lost. */
  ghost predicate Accounted(s: State, t: Task) {
    && s.history.answered[t] <= s.history.taken[t] <= 1
    && (t in s.history.registered <==> s.history.taken[t] == 1 || Pending(s, t) || t in s.history.lost)
    && !(Pending(s, t) && t in s.history.lost)
    && (Stale(s, t) ==> t.0 !in s.active)
  }

  /** A pending task whose reply has been taken: only a failed send leaves one. */
  ghost predicate Stale(s: State, t: Task) {
    Pending(s, t) && s.history.taken[t] > 0
  }

  ghost predicate Ledger(s: State) {
    forall t: Task :: Accounted(s, t)
  }

  /** A connection is not made active again with stale tasks. */
  ghost predicate Disciplined(s: State, step: Step) {
    step.Add? && step.h !in s.active ==> forall t: Task :: t.0 == step.h ==> !Stale(s, t)
  }

  lemma PendingAfterPoll(s: State, o: Oracle, s': State, t: Task)
    requires Safe(s) && Polled(s, o, s')
    ensures Pending(s', t) <==> Pending(s, t) && !(Due(s.conns, o, s.active, t) && !Breaks(o, t.0, s.conns[t.0]))
  {
    assert s'.conns.Keys == s.conns.Keys;
    var h := t.0;
    if h in s.conns.Keys {
      var turn := h in s.active && !Breaks(o, h, s.conns[h]);
      assert s'.conns[h] == if turn then Waiting(o, h, s.conns[h]) else s.conns[h];
    }
  }

  lemma LedgerPoll(s: State, o: Oracle, s': State, t: Task)
    requires Safe(s) && Accounted(s, t) && Polled(s, o, s')
    ensures Accounted(s', t)
  {
    var g := s'.history.(dropped := s.history.dropped);
    assert TookOne(s.conns, o, s.active, s.history, g, t);
    assert g.registered == s.history.registered && g.lost == s.history.lost;
    PendingAfterPoll(s, o, s', t);
    var h := t.0;
    assert h in s'.active ==> h in s.active && !Breaks(o, h, s.conns[h]);
  }

  lemma LedgerAdd(s: State, h: Hdl, list: seq<(Id, TaskInfo)>, t: Task)
    requires Safe(s) && Ledger(s) && Listed(h, list) !! s.history.registered
    requires h !in s.active ==> forall t: Task :: t.0 == h ==> !Stale(s, t)
    ensures Accounted(Added(s, h, list), t)
  {
    assert Accounted(s, t);
    ListedHas(h, list, t);
  }

  lemma ListedHas(h: Hdl, list: seq<(Id, TaskInfo)>, t: Task)
    ensures t in Listed(h, list) <==> t.0 == h && exists i :: 0 <= i < |list| && list[i].0 == t.1
  {
    if t.0 == h && exists i :: 0 <= i < |list| && list[i].0 == t.1 {
      var i :| 0 <= i < |list| && list[i].0 == t.1;
      assert (h, list[i].0) == t;
    }
  }

  lemma TasksOfHas(s: State, h: Hdl, t: Task)
    ensures t in TasksOf(s, h) <==> t.0 == h && Pending(s, t)
  {
    if t.0 == h && Pending(s, t) {
      var (k, id) := t;
      assert id in s.conns[h];
      assert (h, id) in TasksOf(s, h);
    }
  }

  /** Every reply is taken at most once, and no task is forgotten. */
  lemma LedgerStep(s: State, step: Step, s': State)
    requires Safe(s) && Ledger(s) && Fresh(s, step) && Disciplined(s, step) && Next(s, step, s')
    ensures Ledger(s')
  {
    forall t: Task ensures Accounted(s', t) {
      assert Accounted(s, t);
      match step
      case Close(h) => TasksOfHas(s, h, t);
      case Add(h, list) => LedgerAdd(s, h, list, t);
      case Poll(o) => LedgerPoll(s, o, s', t);
      case _ =>
    }
  }

  // ----- replies that are all sent -----

  /** No send of a poll fails. */
  ghost predicate Unbroken(s: State, step: Step) {
    step.Poll? ==> forall h :: h in s.active && h in s.conns ==> !Breaks(step.o, h, s.conns[h])
  }

  /** Every reply taken was sent, and settled its task for good. */
  ghost predicate Settled(s: State, t: Task) {
    && s.history.answered[t] == s.history.taken[t]
    && (s.history.taken[t] > 0 ==> !Pending(s, t) && t !in s.history.lost)
  }

  ghost predicate Clean(s: State) {
    forall t: Task :: Settled(s, t)
  }

  lemma CleanIsDisciplined(s: State, step: Step)
    requires Clean(s)
    ensures Disciplined(s, step)
  {
    forall t: Task ensures !Stale(s, t) {
      assert Settled(s, t);
    }
  }

  lemma CleanPoll(s: State, o: Oracle, s': State, t: Task)
    requires Safe(s) && Settled(s, t) && Accounted(s, t) && Unbroken(s, Poll(o)) && Polled(s, o, s')
    ensures Settled(s', t)
  {
    var g := s'.history.(dropped := s.history.dropped);
    assert TookOne(s.conns, o, s.active, s.history, g, t);
    assert g.lost == s.history.lost;
    PendingAfterPoll(s, o, s', t);
  }

  lemma CleanStep(s: State, step: Step, s': State)
    requires Safe(s) && Ledger(s) && Clean(s) && Fresh(s, step) && Unbroken(s, step) && Next(s, step, s')
    ensures Clean(s')
  {
    forall t: Task ensures Settled(s', t) {
      assert Settled(s, t) && Accounted(s, t);
      match step
      case Close(h) => TasksOfHas(s, h, t);
      case Add(h, list) => ListedHas(h, list, t);
      case Poll(o) => CleanPoll(s, o, s', t);
      case _ =>
    }
  }

  // ----- runs -----

  /** From s to s' by these steps, in this order. */
  ghost predicate Runs(s: State, steps: seq<Step>, s': State)
    decreases |steps|
  {
    if steps == [] then s == s'
    else exists m: State :: Next(s, steps[0], m) && Fresh(s, steps[0]) && Runs(m, steps[1..], s')
  }

  ghost predicate RunsDisciplined(s: State, steps: seq<Step>, s': State)
    decreases |steps|
  {
    if steps == [] then s == s'
    else exists m: State :: Next(s, steps[0], m) && Fresh(s, steps[0]) && Disciplined(s, steps[0])
                            && RunsDisciplined(m, steps[1..], s')
  }

  ghost predicate RunsUnbroken(s: State, steps: seq<Step>, s': State)
    decreases |steps|
  {
    if steps == [] then s == s'
    else exists m: State :: Next(s, steps[0], m) && Fresh(s, steps[0]) && Unbroken(s, steps[0])
                            && RunsUnbroken(m, steps[1..], s')
  }

  /** In every interleaving the active connections are known, so that no poll looks up a missing one, and no
      connection with tasks is forgotten. */
  lemma {:induction false} RunSafe(s: State, steps: seq<Step>, s': State)
    requires Safe(s) && Runs(s, steps, s')
    ensures Safe(s')
    decreases |steps|
  {
    if steps != [] {
      var m: State :| Next(s, steps[0], m) && Fresh(s, steps[0]) && Runs(m, steps[1..], s');
      SafeStep(s, steps[0], m);
      RunSafe(m, steps[1..], s');
    }
  }

  lemma {:induction false} RunLedger(s: State, steps: seq<Step>, s': State)
    requires Safe(s) && Ledger(s) && RunsDisciplined(s, steps, s')
    ensures Safe(s') && Ledger(s')
    decreases |steps|
  {
    if steps != [] {
      var m: State :| Next(s, steps[0], m) && Fresh(s, steps[0]) && Disciplined(s, steps[0])
                      && RunsDisciplined(m, steps[1..], s');
      SafeStep(s, steps[0], m);
      LedgerStep(s, steps[0], m);
      RunLedger(m, steps[1..], s');
    }
  }

  lemma {:induction false} RunClean(s: State, steps: seq<Step>, s': State)
    requires Safe(s) && Ledger(s) && Clean(s) && RunsUnbroken(s, steps, s')
    ensures Safe(s') && Ledger(s') && Clean(s')
    decreases |steps|
  {
    if steps != [] {
      var m: State :| Next(s, steps[0], m) && Fresh(s, steps[0]) && Unbroken(s, steps[0])
                      && RunsUnbroken(m, steps[1..], s');
      SafeStep(s, steps[0], m);
      CleanIsDisciplined(s, steps[0]);
      LedgerStep(s, steps[0], m);
      CleanStep(s, steps[0], m);
      RunClean(m, steps[1..], s');
    }
  }

  /** Whether a connection is known after one more step. */
  predicate KnownAfter(known: bool, step: Step, h: Hdl) {
    if step.Open? && step.h == h then true else if step == Close(h) then false else known
  }

  /** Along the steps the connection of a task was closed, or was not known when the task was added. */
  predicate Gone(known: bool, steps: seq<Step>, t: Task)
    decreases |steps|
  {
    && steps != []
    && (|| steps[0] == Close(t.0)
        || (steps[0].Add? && !known && t in Listed(steps[0].h, steps[0].list))
        || Gone(KnownAfter(known, steps[0], t.0), steps[1..], t))
  }

  lemma {:induction false} LostIsGone(s: State, steps: seq<Step>, s': State, t: Task)
    requires Safe(s) && Runs(s, steps, s') && t in s'.history.lost && t !in s.history.lost
    ensures Gone(t.0 in s.conns, steps, t)
    decreases |steps|
  {
    if steps != [] {
      var m: State :| Next(s, steps[0], m) && Fresh(s, steps[0]) && Runs(m, steps[1..], s');
      SafeStep(s, steps[0], m);
      LostNow(s, steps[0], m, t);
      if t !in m.history.lost {
        LostIsGone(m, steps[1..], s', t);
      }
    }
  }

  lemma LostNow(s: State, step: Step, s': State, t: Task)
    requires Safe(s) && Next(s, step, s')
    ensures t.0 in s'.conns <==> KnownAfter(t.0 in s.conns, step, t.0)
    ensures t in s'.history.lost && t !in s.history.lost ==>
              step == Close(t.0) || (step.Add? && t.0 !in s.conns && t in Listed(step.h, step.list))
  {
    var h := t.0;
    match step
    case Close(k) => TasksOfHas(s, k, t);
    case Add(k, list) => ListedHas(k, list, t);
    case Poll(o) =>
      assert s'.conns.Keys == s.conns.Keys && (h in s'.conns.Keys <==> h in s.conns.Keys);
      var g := s'.history.(dropped := s.history.dropped);
      assert g.lost == s.history.lost;
    case _ =>
  }

  lemma {:induction false} UnbrokenRuns(s: State, steps: seq<Step>, s': State)
    requires RunsUnbroken(s, steps, s')
    ensures Runs(s, steps, s')
    decreases |steps|
  {
    if steps != [] {
      var m: State :| Next(s, steps[0], m) && Fresh(s, steps[0]) && Unbroken(s, steps[0])
                      && RunsUnbroken(m, steps[1..], s');
      UnbrokenRuns(m, steps[1..], s');
    }
  }

  /** If no poll's send fails, every registered task is answered exactly once, or still pending, or was lost: one of the
      three and never two. And it was lost only because its connection was closed, or not known when it was added. */
  lemma ReplyConservation(steps: seq<Step>, s: State, t: Task)
    requires RunsUnbroken(START, steps, s)
    ensures t in s.history.registered <==> s.history.answered[t] == 1 || Pending(s, t) || t in s.history.lost
    ensures s.history.answered[t] <= 1
    ensures !(s.history.answered[t] == 1 && Pending(s, t)) && !(s.history.answered[t] == 1 && t in s.history.lost)
    ensures !(Pending(s, t) && t in s.history.lost)
    ensures t in s.history.lost ==> Gone(false, steps, t)
  {
    RunClean(START, steps, s);
    UnbrokenRuns(START, steps, s);
    if t in s.history.lost {
      LostIsGone(START, steps, s, t);
    }
    assert Accounted(s, t) && Settled(s, t);
  }

  /** With sends that fail, every reply is still taken at most once and no task forgotten, as long as no connection
      with stale tasks is made active again. */
  lemma TakenOnce(steps: seq<Step>, s: State, t: Task)
    requires RunsDisciplined(START, steps, s)
    ensures s.history.answered[t] <= s.history.taken[t] <= 1
    ensures t in s.history.registered <==> s.history.taken[t] == 1 || Pending(s, t) || t in s.history.lost
  {
    RunLedger(START, steps, s);
    assert Accounted(s, t);
  }

  /** Adding to a connection makes an active one with stale tasks exactly if the connection had stale tasks and was
      not active. */
  lemma ReactivatedExactly(s: State, h: Hdl, list: seq<(Id, TaskInfo)>)
    requires Safe(s) && Ledger(s) && Fresh(s, Add(h, list))
    ensures (exists t: Task :: Stale(Added(s, h, list), t) && t.0 in Added(s, h, list).active)
            <==> !Disciplined(s, Add(h, list))
  {
    var s' := Added(s, h, list);
    if Disciplined(s, Add(h, list)) {
      LedgerStep(s, Add(h, list), s');
      forall t: Task | Stale(s', t) ensures t.0 !in s'.active {
        assert Accounted(s', t);
      }
    } else {
      var t: Task :| t.0 == h && Stale(s, t);
      assert t.1 in s.conns[h] && t.1 in s'.conns[h];
      assert Stale(s', t) && t.0 in s'.active;
    }
  }

  /** After some poll of this state a reply has been taken more than once. */
  ghost predicate CanTakeTwice(s: State) {
    s.active <= s.conns.Keys
    && exists o: Oracle, s': State, t: Task :: Polled(s, o, s') && s'.history.taken[t] > 1
  }

  /** No poll of a state with good accounts does. */
  lemma LedgerTakesOnce(s: State)
    requires Safe(s) && Ledger(s)
    ensures !CanTakeTwice(s)
  {
    forall o: Oracle, s': State, t: Task | Polled(s, o, s') ensures s'.history.taken[t] <= 1 {
      assert Accounted(s, t);
      LedgerPoll(s, o, s', t);
    }
  }

  /** A stale task of an active connection is taken again by a poll in which its reply has arrived. */
  lemma StaleIsTakenAgain(s: State, t: Task)
    requires Safe(s) && Stale(s, t) && t.0 in s.active
    ensures CanTakeTwice(s)
  {
    PollWorking(s);
    var s' := AfterWorking(s);
    TakenByWorking(s, t);
    assert Polled(s, WORKING, s') && s'.history.taken[t] > 1;
  }

  /** With good accounts before, a request added to a connection makes it possible that a reply is taken twice exactly
      if the connection was inactive and had a stale task. */
  lemma TakenTwiceExactly(s: State, h: Hdl, list: seq<(Id, TaskInfo)>)
    requires Safe(s) && Ledger(s) && Fresh(s, Add(h, list))
    ensures CanTakeTwice(Added(s, h, list)) <==> !Disciplined(s, Add(h, list))
  {
    var s' := Added(s, h, list);
    SafeAdd(s, h, list);
    if Disciplined(s, Add(h, list)) {
      LedgerStep(s, Add(h, list), s');
      LedgerTakesOnce(s');
    } else {
      var t: Task :| t.0 == h && Stale(s, t);
      assert t.1 in s.conns[h] && t.1 in s'.conns[h];
      StaleIsTakenAgain(s', t);
    }
  }

  // ----- the same over whole runs -----

  /** A run with its states, from the start. */
  ghost predicate Trace(states: seq<State>, steps: seq<Step>) {
    && |states| == |steps| + 1 && states[0] == START
    && forall i :: 0 <= i < |steps| ==> Next(states[i], steps[i], states[i + 1]) && Fresh(states[i], steps[i])
  }

  lemma {:induction false} TraceLedger(states: seq<State>, steps: seq<Step>, n: nat)
    requires Trace(states, steps) && n <= |steps|
    requires forall i :: 0 <= i < n ==> Disciplined(states[i], steps[i])
    ensures Safe(states[n]) && Ledger(states[n])
  {
    if n > 0 {
      TraceLedger(states, steps, n - 1);
      SafeStep(states[n - 1], steps[n - 1], states[n]);
      LedgerStep(states[n - 1], steps[n - 1], states[n]);
    }
  }

  /** Along a run no poll can take a reply twice exactly if no request was added to an inactive connection with a
      stale task. */
  lemma TakenOnceExactly(states: seq<State>, steps: seq<Step>)
    requires Trace(states, steps)
    ensures (forall i :: 0 <= i < |states| ==> !CanTakeTwice(states[i]))
            <==> (forall i :: 0 <= i < |steps| ==> Disciplined(states[i], steps[i]))
  {
    if forall i :: 0 <= i < |steps| ==> Disciplined(states[i], steps[i]) {
      forall i | 0 <= i < |states| ensures !CanTakeTwice(states[i]) {
        TraceLedger(states, steps, i);
        LedgerTakesOnce(states[i]);
      }
    } else {
      var i := FirstUndisciplined(states, steps, 0);
      TraceLedger(states, steps, i);
      TakenTwiceExactly(states[i], steps[i].h, steps[i].list);
      assert CanTakeTwice(states[i + 1]);
    }
  }

  lemma FirstUndisciplined(states: seq<State>, steps: seq<Step>, n: nat) returns (i: nat)
    requires Trace(states, steps) && n <= |steps|
    requires forall j :: 0 <= j < n ==> Disciplined(states[j], steps[j])
    requires exists j :: 0 <= j < |steps| && !Disciplined(states[j], steps[j])
    ensures i < |steps| && !Disciplined(states[i], steps[i])
    ensures forall j :: 0 <= j < i ==> Disciplined(states[j], steps[j])
    decreases |steps| - n
  {
    if !Disciplined(states[n], steps[n]) {
      i := n;
    } else {
      i := FirstUndisciplined(states, steps, n + 1);
    }
  }

  // ----- a guard that reads only what the scheduler keeps -----

  /** The connection is active, or has no tasks. */
  predicate Guard(s: State, h: Hdl) {
    h in s.active || h !in s.conns || s.conns[h] == map[]
  }

  lemma GuardIsEnough(s: State, h: Hdl, list: seq<(Id, TaskInfo)>)
    requires Guard(s, h)
    ensures Disciplined(s, Add(h, list))
  {
    if h !in s.active {
      forall t: Task | t.0 == h ensures !Stale(s, t) {
      }
    }
  }

  /** The same connections, tasks and activity, with good accounts. */
  ghost predicate SameFields(s: State, s': State) {
    s'.conns == s.conns && s'.active == s.active && s'.history.registered == s.history.registered
    && Safe(s') && Ledger(s')
  }

  /** The guard is as weak as a guard on these fields can be: if it fails, the fields do not tell whether a task is
      stale, and in one of the histories that lead to them one is. */
  lemma GuardExact(s: State, h: Hdl, list: seq<(Id, TaskInfo)>)
    requires Safe(s) && Ledger(s) && Fresh(s, Add(h, list))
    ensures Guard(s, h) <==> forall s': State :: SameFields(s, s') ==> !CanTakeTwice(Added(s', h, list))
  {
    if Guard(s, h) {
      forall s': State | SameFields(s, s') ensures !CanTakeTwice(Added(s', h, list)) {
        GuardIsEnough(s', h, list);
        TakenTwiceExactly(s', h, list);
      }
    } else {
      assert s.conns[h].Keys != {};
      NonEmpty(s.conns[h].Keys);
      var id: Id :| id in s.conns[h].Keys;
      var s' := MadeStale(s, (h, id));
      MadeStaleIsGood(s, h, id);
      TakenTwiceExactly(s', h, list);
      assert Stale(s', (h, id));
    }
  }

  /** A history in which the reply of one task was taken, and sending it failed. */
  function MadeStale(s: State, t: Task): State {
    s.(history := s.history.(taken := s.history.taken[t := 1]))
  }

  lemma MadeStaleIsGood(s: State, h: Hdl, id: Id)
    requires Safe(s) && Ledger(s) && h in s.conns && id in s.conns[h] && h !in s.active
    ensures SameFields(s, MadeStale(s, (h, id)))
  {
    var s' := MadeStale(s, (h, id));
    forall t: Task ensures Accounted(s', t) {
      assert Accounted(s, t);
    }
  }

  lemma Prepend(s: State, step: Step, m: State, steps: seq<Step>, s': State)
    requires Next(s, step, m) && Fresh(s, step) && Runs(m, steps, s')
    ensures Runs(s, [step] + steps, s')
  {
    assert ([step] + steps)[1..] == steps;
  }

  const FAILING := Oracle((h, id) => Data, (h, id) => true)
  const WORKING := Oracle((h, id) => Data, (h, id) => false)

  function AfterFailing(s: State, t: Task): State {
    State(s.conns, {}, s.history.(taken := s.history.taken + multiset{t}, dropped := s.history.dropped + {t.0}))
  }

  /** A poll of one connection with one task, when the reply cannot be sent. */
  lemma PollFailing(s: State, h: Hdl, id: Id)
    requires s.active == {h} && h in s.conns && s.conns[h].Keys == {id}
    ensures Polled(s, FAILING, AfterFailing(s, (h, id)))
  {
    var s' := AfterFailing(s, (h, id));
    assert id in s.conns[h] && FAILING.Arrived(h, id) && FAILING.fails(h, id);
    assert s'.history.taken[(h, id)] == s.history.taken[(h, id)] + 1;
  }

  /** The tasks of active connections. */
  function UnderWay(s: State): set<Task>
    requires s.active <= s.conns.Keys
  {
    set h, id | h in s.active && id in s.conns[h] :: (h, id)
  }

  function AfterWorking(s: State): State
    requires s.active <= s.conns.Keys
  {
    State(map h | h in s.conns :: if h in s.active then map[] else s.conns[h], {},
          s.history.(taken := s.history.taken + multiset(UnderWay(s)),
                     answered := s.history.answered + multiset(UnderWay(s))))
  }

  lemma UnderWayIsDue(s: State, t: Task)
    requires s.active <= s.conns.Keys
    ensures t in UnderWay(s) <==> Due(s.conns, WORKING, s.active, t)
  {
    var (h, id) := t;
    if h in s.active && id in s.conns[h] {
      assert (h, id) in UnderWay(s);
    }
  }

  lemma TakenByWorking(s: State, t: Task)
    requires s.active <= s.conns.Keys && Pending(s, t) && t.0 in s.active
    ensures AfterWorking(s).history.taken[t] == s.history.taken[t] + 1
  {
    UnderWayIsDue(s, t);
  }

  /** A poll at which all replies have arrived and can be sent. */
  lemma PollWorking(s: State)
    requires s.active <= s.conns.Keys
    ensures Polled(s, WORKING, AfterWorking(s))
  {
    var s' := AfterWorking(s);
    assert s'.conns.Keys == s.conns.Keys;
    forall h | h in s.conns ensures Waiting(WORKING, h, s.conns[h]) == map[] && !Breaks(WORKING, h, s.conns[h]) {
    }
    var g := s'.history.(dropped := s.history.dropped);
    forall t: Task ensures TookOne(s.conns, WORKING, s.active, s.history, g, t) {
      UnderWayIsDue(s, t);
    }
  }

  /** And then a reply is taken twice: a send fails, the connection gets another request, and is polled again. */
  lemma TakenTwice(info: TaskInfo) returns (s: State, steps: seq<Step>)
    ensures Runs(START, steps, s) && s.history.taken[(1, 7)] == 2
  {
    var s1 := Opened(START, 1);
    var s2 := Added(s1, 1, [(7, info)]);
    assert s2.conns[1].Keys == {7};
    var s3 := AfterFailing(s2, (1, 7));
    PollFailing(s2, 1, 7);
    var s4 := Added(s3, 1, [(8, info)]);
    assert s4.conns[1].Keys == {7, 8};
    s := AfterWorking(s4);
    PollWorking(s4);
    TakenAgain(s3, s4, s);
    steps := FourSteps(s1, s2, s3, s4, s, info);
  }

  lemma TakenAgain(s3: State, s4: State, s: State)
    requires s3.history.taken == multiset{(1, 7)} && s4.history.taken == s3.history.taken
    requires s4.active <= s4.conns.Keys && 1 in s4.active && 7 in s4.conns[1] && s == AfterWorking(s4)
    ensures s.history.taken[(1, 7)] == 2
  {
    TakenByWorking(s4, (1, 7));
  }

  lemma FourSteps(s1: State, s2: State, s3: State, s4: State, s: State, info: TaskInfo) returns (steps: seq<Step>)
    requires s1 == Opened(START, 1) && s2 == Added(s1, 1, [(7, info)]) && s4 == Added(s3, 1, [(8, info)])
    requires Next(s2, Poll(FAILING), s3) && Next(s4, Poll(WORKING), s)
    requires s3.history.registered == {(1, 7)}
    ensures Runs(START, steps, s)
  {
    Prepend(s4, Poll(WORKING), s, [], s);
    ListedHas(1, [(8, info)], (1, 7));
    Prepend(s3, Add(1, [(8, info)]), s4, [Poll(WORKING)], s);
    steps := [Add(1, [(8, info)])] + [Poll(WORKING)];
    Prepend(s2, Poll(FAILING), s3, steps, s);
    steps := [Poll(FAILING)] + steps;
    Prepend(s1, Add(1, [(7, info)]), s2, steps, s);
    steps := [Add(1, [(7, info)])] + steps;
    Prepend(START, Open(1, false), s1, steps, s);
    steps := [Open(1, false)] + steps;
  }

  // ----- progress -----

  /** Those whose reply this poll finds. */
  ghost predicate SomeArrived(s: State, o: Oracle)
    requires s.active <= s.conns.Keys
  {
    exists h, id :: h in s.active && id in s.conns[h] && o.Arrived(h, id)
  }

  /** A poll keeps a connection active exactly if a reply is awaited there and no send to it failed; so once every
      reply has arrived none is. */
  lemma PollEmpties(s: State, o: Oracle, s': State)
    requires Safe(s) && Polled(s, o, s')
    ensures s'.active == {} <==>
            forall h :: h in s.active ==> Breaks(o, h, s.conns[h]) || forall id :: id in s.conns[h] ==> o.Arrived(h, id)
  {
    forall h | h in s.active && !Breaks(o, h, s.conns[h])
      ensures h in s'.active <==> exists id :: id in s.conns[h] && !o.Arrived(h, id)
    {
      var w := Waiting(o, h, s.conns[h]);
      if w != map[] {
        assert w.Keys != {};
        NonEmpty(w.Keys);
        var id :| id in w.Keys;
        assert id in s.conns[h] && !o.Arrived(h, id);
      }
      if id :| id in s.conns[h] && !o.Arrived(h, id) {
        assert id in w;
      }
    }
    if s'.active != {} {
      NonEmpty(s'.active);
    }
  }

  lemma UnderWayHas(s: State, h: Hdl, id: Id)
    requires s.active <= s.conns.Keys
    ensures (h, id) in UnderWay(s) <==> h in s.active && id in s.conns[h]
  {
  }

  /** What is still under way was before, and its reply has not arrived. */
  lemma PollKeeps(s: State, o: Oracle, s': State, h: Hdl, id: Id)
    requires Safe(s) && Polled(s, o, s')
    ensures s'.active <= s'.conns.Keys
    ensures h in s'.active && id in s'.conns[h] ==> h in s.active && id in s.conns[h] && !o.Arrived(h, id)
  {
    SafePoll(s, o, s');
    assert h in s'.active ==> h in s.active && !Breaks(o, h, s.conns[h]);
  }

  /** Every poll that finds a reply makes the work strictly less. */
  lemma PollShrinks(s: State, o: Oracle, s': State)
    requires Safe(s) && Polled(s, o, s')
    ensures s'.active <= s'.conns.Keys && UnderWay(s') <= UnderWay(s)
    ensures |UnderWay(s')| <= |UnderWay(s)| && (SomeArrived(s, o) ==> |UnderWay(s')| < |UnderWay(s)|)
  {
    SafePoll(s, o, s');
    forall t | t in UnderWay(s') ensures t in UnderWay(s) {
      var (h, id) := t;
      PollKeeps(s, o, s', h, id);
      UnderWayHas(s, h, id);
    }
    if SomeArrived(s, o) {
      var h, id :| h in s.active && id in s.conns[h] && o.Arrived(h, id);
      PollKeeps(s, o, s', h, id);
      UnderWayHas(s, h, id);
      UnderWayHas(s', h, id);
      assert UnderWay(s') <= UnderWay(s) - {(h, id)};
      Smaller(UnderWay(s'), UnderWay(s) - {(h, id)});
    } else {
      Smaller(UnderWay(s'), UnderWay(s));
    }
  }

  lemma Smaller(a: set<Task>, b: set<Task>)
    requires a <= b
    ensures |a| <= |b|
  {
    assert b == a + (b - a);
  }

  /** The inner loop of checkActions with no request added: any polls, n of which find a reply. */
  ghost predicate Polls(s: State, os: seq<Oracle>, s': State, n: nat)
    decreases |os|
  {
    if os == [] then s == s' && n == 0
    else
      && s.active <= s.conns.Keys
      && exists m: State ::
           && Polled(s, os[0], m)
           && if SomeArrived(s, os[0]) then n > 0 && Polls(m, os[1..], s', n - 1) else Polls(m, os[1..], s', n)
  }

  /** However many polls find nothing: those that find a reply are no more than the tasks that are done. */
  lemma {:induction false} PollsBounded(s: State, os: seq<Oracle>, s': State, n: nat)
    requires Safe(s) && Polls(s, os, s', n)
    ensures Safe(s') && n + |UnderWay(s')| <= |UnderWay(s)|
    decreases |os|
  {
    if os != [] {
      var n' := if SomeArrived(s, os[0]) then n - 1 else n;
      var m: State :| Polled(s, os[0], m) && Polls(m, os[1..], s', n');
      SafePoll(s, os[0], m);
      PollShrinks(s, os[0], m);
      PollsBounded(m, os[1..], s', n');
    }
  }

  /** Once every reply awaited has arrived at a poll, the loop is over: no connection is active, whatever came before
      and whatever polls would come after. */
  lemma {:induction false} PollsEnd(s: State, before: seq<Oracle>, s1: State, n: nat, o: Oracle, s2: State,
                                    after: seq<Oracle>, s': State, n': nat)
    requires Safe(s) && Polls(s, before, s1, n)
    requires s1.active <= s1.conns.Keys && Polled(s1, o, s2) && Polls(s2, after, s', n')
    requires forall h, id :: h in s1.active && id in s1.conns[h] ==> o.Arrived(h, id)
    ensures s2.active == {} && s'.active == {} && n <= |UnderWay(s)|
  {
    PollsBounded(s, before, s1, n);
    SafePoll(s1, o, s2);
    PollEmpties(s1, o, s2);
    StaysEmpty(s2, after, s', n');
  }

  /** As many polls with a reply as there were tasks under way leave nothing under way, and one more poll of any kind
      leaves no connection active. */
  lemma PollsDone(s: State, os: seq<Oracle>, s1: State, n: nat, o: Oracle, s2: State)
    requires Safe(s) && Polls(s, os, s1, n) && n >= |UnderWay(s)|
    requires s1.active <= s1.conns.Keys && Polled(s1, o, s2)
    ensures UnderWay(s1) == {} && s2.active == {}
  {
    PollsBounded(s, os, s1, n);
    assert forall h, id :: h in s1.active && id in s1.conns[h] ==> (h, id) in UnderWay(s1);
    PollEmpties(s1, o, s2);
  }

  lemma {:induction false} StaysEmpty(s: State, os: seq<Oracle>, s': State, n: nat)
    requires Safe(s) && Polls(s, os, s', n) && s.active == {}
    ensures s'.active == {}
    decreases |os|
  {
    if os != [] {
      var n' := if SomeArrived(s, os[0]) then n - 1 else n;
      var m: State :| Polled(s, os[0], m) && Polls(m, os[1..], s', n');
      SafePoll(s, os[0], m);
      PollEmpties(s, os[0], m);
      StaysEmpty(m, os[1..], s', n');
    }
  }
}
