/** What each step of the scheduler does to each connection and each task, and what becomes of every task of a run. */
module SchedulerFate {
  import opened Scheduler
  import opened SchedulerRuns

  // ----- step by step -----

  /** These two states agree on a connection: whether it is known, its tasks, and whether it is active. */
  predicate SameConn(s: State, s': State, h: Hdl) {
    && (h in s'.conns <==> h in s.conns) && (h in s.conns ==> s'.conns[h] == s.conns[h])
    && (h in s'.active <==> h in s.active)
  }

  /** What was registered, taken, sent and lost is the same. */
  predicate SameAccounts(s: State, s': State) {
    && s'.history.registered == s.history.registered && s'.history.taken == s.history.taken
    && s'.history.answered == s.history.answered && s'.history.lost == s.history.lost
  }

  /** Steps other than polls touch one connection only. */
  lemma OthersStay(s: State, step: Step, s': State, h: Hdl)
    requires Next(s, step, s') && !step.Poll? && h != step.h
    ensures SameConn(s, s', h)
  {
  }

  /** A new connection has no tasks; telling its user of an error may fail, and then it is not active. */
  lemma OpenEffect(s: State, h: Hdl, failed: bool, s': State)
    requires Next(s, Open(h, failed), s')
    ensures h in s'.conns && s'.conns[h] == map[] && (h in s'.active <==> h in s.active && !failed)
    ensures SameAccounts(s, s')
  {
  }

  /** A closed connection is gone, and its tasks are lost. */
  lemma CloseEffect(s: State, h: Hdl, s': State, t: Task)
    requires Next(s, Close(h), s')
    ensures h !in s'.conns && h !in s'.active
    ensures t in s'.history.lost <==> t in s.history.lost || (t.0 == h && Pending(s, t))
    ensures SameAccounts(s, s'.(history := s'.history.(lost := s.history.lost)))
  {
    TasksOfHas(s, h, t);
  }

  /** A message that cannot be sent makes its connection inactive, and leaves its tasks. */
  lemma SendFailureEffect(s: State, h: Hdl, s': State)
    requires Next(s, SendFailure(h), s')
    ensures s'.conns == s.conns && h !in s'.active && SameAccounts(s, s')
  {
  }

  /** A known connection becomes active, and all its new tasks are pending: an id that was there keeps what it stood for,
      and of a new one the first counts. Nothing is lost. */
  lemma AddEffect(s: State, h: Hdl, list: seq<(Id, TaskInfo)>, s': State, i: nat)
    requires Next(s, Add(h, list), s') && h in s.conns && i < |list|
    ensures h in s'.active && h in s'.conns && list[i].0 in s'.conns[h]
    ensures list[i].0 in s.conns[h] ==> s'.conns[h][list[i].0] == s.conns[h][list[i].0]
    ensures (list[i].0 !in s.conns[h] && forall j :: 0 <= j < i ==> list[j].0 != list[i].0)
            ==> s'.conns[h][list[i].0] == list[i].1
    ensures (h, list[i].0) in s'.history.registered && s'.history.lost == s.history.lost
  {
    Inserted(s.conns[h], list, i);
    ListedHas(h, list, (h, list[i].0));
  }

  /** It keeps the tasks it had, and gets no others. */
  lemma AddKeeps(s: State, h: Hdl, list: seq<(Id, TaskInfo)>, s': State, id: Id)
    requires Next(s, Add(h, list), s') && h in s.conns
    ensures h in s'.conns && (id in s'.conns[h] <==> id in s.conns[h] || exists i :: 0 <= i < |list| && list[i].0 == id)
    ensures id in s.conns[h] ==> s'.conns[h][id] == s.conns[h][id]
    ensures s'.active == s.active + {h}
    ensures s'.history.taken == s.history.taken && s'.history.answered == s.history.answered
  {
  }

  /** Of a connection that is not known, or no longer, nothing is kept. */
  lemma AddUnknownEffect(s: State, h: Hdl, list: seq<(Id, TaskInfo)>, s': State, t: Task)
    requires Next(s, Add(h, list), s') && h !in s.conns
    ensures s'.conns == s.conns && s'.active == s.active
    ensures t in s'.history.lost <==> t in s.history.lost || (t.0 == h && exists i :: 0 <= i < |list| && list[i].0 == t.1)
  {
    ListedHas(h, list, t);
  }

  lemma {:induction false} Inserted(tasks: Tasks, list: seq<(Id, TaskInfo)>, i: nat)
    requires i < |list|
    ensures var r := InsertAll(tasks, list);
            && list[i].0 in r
            && (list[i].0 !in tasks && (forall j :: 0 <= j < i ==> list[j].0 != list[i].0) ==> r[list[i].0] == list[i].1)
    decreases |list|
  {
    var (id, info) := list[0];
    var tasks' := if id in tasks then tasks else tasks[id := info];
    if i > 0 {
      assert list[1..][i - 1] == list[i];
      assert forall j :: 0 <= j < i - 1 ==> list[1..][j] == list[j + 1];
      Inserted(tasks', list[1..], i - 1);
    }
  }

  /** A send of this poll to the connection fails. */
  ghost predicate FailsFor(s: State, o: Oracle, h: Hdl)
    requires h in s.conns
  {
    exists id :: id in s.conns[h] && o.reply(h, id) != NotArrived && o.fails(h, id)
  }

  /** A poll and one task: if its connection is active, its reply has arrived and no send to the connection fails, the
      reply is taken and sent, once, and the task is done; if the connection is not active or the reply has not arrived,
      nothing happens to it; and where a send fails it stays, its reply perhaps taken, and sent unless that failed. */
  lemma PollEffect(s: State, o: Oracle, s': State, t: Task)
    requires Safe(s) && Next(s, Poll(o), s') && Pending(s, t)
    ensures var arrived := t.0 in s.active && o.reply(t.0, t.1) != NotArrived;
            var n: int := s'.history.taken[t] as int - s.history.taken[t];
            var sent: int := s'.history.answered[t] as int - s.history.answered[t];
            && (Pending(s', t) <==> !arrived || FailsFor(s, o, t.0))
            && (Pending(s', t) ==> s'.conns[t.0][t.1] == s.conns[t.0][t.1])
            && (!arrived ==> n == 0 && sent == 0)
            && (arrived && !FailsFor(s, o, t.0) ==> n == 1 && sent == 1)
            && (arrived && FailsFor(s, o, t.0) ==> 0 <= n <= 1 && sent == if o.fails(t.0, t.1) then 0 else n)
  {
    PendingAfterPoll(s, o, s', t);
    var h := t.0;
    assert h in s.conns.Keys && s'.conns.Keys == s.conns.Keys;
    var turn := h in s.active && !Breaks(o, h, s.conns[h]);
    assert s'.conns[h] == if turn then Waiting(o, h, s.conns[h]) else s.conns[h];
    var g := s'.history.(dropped := s.history.dropped);
    assert TookOne(s.conns, o, s.active, s.history, g, t);
  }

  /** A poll and everything else: no connection and no task appears, replies of tasks that are not pending are not taken,
      and a connection stays active exactly if no send to it fails and it has a reply to wait for. */
  lemma PollKeepsOut(s: State, o: Oracle, s': State, h: Hdl, t: Task)
    requires Safe(s) && Next(s, Poll(o), s')
    ensures (h in s'.conns <==> h in s.conns) && (Pending(s', t) ==> Pending(s, t))
    ensures !Pending(s, t) ==> s'.history.taken[t] == s.history.taken[t] && s'.history.answered[t] == s.history.answered[t]
    ensures s'.history.lost == s.history.lost && s'.history.registered == s.history.registered
    ensures h in s'.active <==> h in s.active && !FailsFor(s, o, h)
                                && exists id :: id in s.conns[h] && o.reply(h, id) == NotArrived
  {
    assert s'.conns.Keys == s.conns.Keys;
    var g := s'.history.(dropped := s.history.dropped);
    assert g.lost == s.history.lost && g.registered == s.history.registered;
    assert TookOne(s.conns, o, s.active, s.history, g, t);
    PendingOnly(s, o, s', t);
    if h in s.active {
      WaitingSome(o, h, s.conns[h]);
    }
  }

  lemma PendingOnly(s: State, o: Oracle, s': State, t: Task)
    requires Safe(s) && Next(s, Poll(o), s')
    ensures Pending(s', t) ==> Pending(s, t)
  {
    PendingAfterPoll(s, o, s', t);
  }

  lemma WaitingSome(o: Oracle, h: Hdl, tasks: Tasks)
    ensures Waiting(o, h, tasks) != map[] <==> exists id :: id in tasks && o.reply(h, id) == NotArrived
  {
    var w := Waiting(o, h, tasks);
    if w != map[] {
      assert w.Keys != {};
      NonEmpty(w.Keys);
      var id: Id :| id in w.Keys;
      assert id in tasks && o.reply(h, id) == NotArrived;
    }
    if id :| id in tasks && o.reply(h, id) == NotArrived {
      assert id in w;
    }
  }

  // ----- what becomes of a task -----

  /** This step loses the task: its connection is closed while it is pending, or not there when it is added. */
  predicate Loses(s: State, step: Step, t: Task) {
    || (step == Close(t.0) && Pending(s, t))
    || (step.Add? && step.h == t.0 && t.0 !in s.conns && exists i :: 0 <= i < |step.list| && step.list[i].0 == t.1)
  }

  predicate Asks(step: Step, t: Task) {
    step.Add? && step.h == t.0 && exists i :: 0 <= i < |step.list| && step.list[i].0 == t.1
  }

  lemma LostByStep(s: State, step: Step, s': State, t: Task)
    requires Safe(s) && Next(s, step, s')
    ensures t in s'.history.lost <==> t in s.history.lost || Loses(s, step, t)
    ensures t in s'.history.registered <==> t in s.history.registered || Asks(step, t)
  {
    match step
    case Close(h) => CloseEffect(s, h, s', t);
    case Add(h, list) => ListedHas(h, list, t);
    case Poll(o) => PollKeepsOut(s, o, s', t.0, t);
    case _ =>
  }

  ghost predicate LostAt(states: seq<State>, steps: seq<Step>, n: nat, t: Task)
    requires |states| > |steps| >= n
  {
    exists i :: 0 <= i < n && Loses(states[i], steps[i], t)
  }

  predicate AskedBefore(steps: seq<Step>, n: nat, t: Task)
    requires n <= |steps|
  {
    exists i :: 0 <= i < n && Asks(steps[i], t)
  }

  lemma {:induction false} LostInRun(states: seq<State>, steps: seq<Step>, n: nat, t: Task)
    requires Trace(states, steps) && n <= |steps|
    ensures Safe(states[n])
    ensures t in states[n].history.lost <==> LostAt(states, steps, n, t)
    ensures t in states[n].history.registered <==> AskedBefore(steps, n, t)
  {
    if n > 0 {
      LostInRun(states, steps, n - 1, t);
      SafeStep(states[n - 1], steps[n - 1], states[n]);
      LostByStep(states[n - 1], steps[n - 1], states[n], t);
      if Loses(states[n - 1], steps[n - 1], t) {
        assert LostAt(states, steps, n, t);
      }
      if Asks(steps[n - 1], t) {
        assert AskedBefore(steps, n, t);
      }
    }
  }

  lemma {:induction false} TraceClean(states: seq<State>, steps: seq<Step>, n: nat)
    requires Trace(states, steps) && n <= |steps|
    requires forall i :: 0 <= i < |steps| ==> Unbroken(states[i], steps[i])
    ensures Safe(states[n]) && Ledger(states[n]) && Clean(states[n])
  {
    if n > 0 {
      TraceClean(states, steps, n - 1);
      SafeStep(states[n - 1], steps[n - 1], states[n]);
      CleanIsDisciplined(states[n - 1], steps[n - 1]);
      LedgerStep(states[n - 1], steps[n - 1], states[n]);
      CleanStep(states[n - 1], steps[n - 1], states[n]);
    }
  }

  /** If no poll's send fails, every task that was asked for is answered exactly once, or still pending, or was lost:
      because its connection was closed while it was pending, or was not there when it was added. One of the three and
      never two; and no other task is any of them. */
  lemma EveryTaskEnds(states: seq<State>, steps: seq<Step>, t: Task)
    requires Trace(states, steps)
    requires forall i :: 0 <= i < |steps| ==> Unbroken(states[i], steps[i])
    ensures var n := |steps|; var s := states[n];
            && (AskedBefore(steps, n, t) <==> s.history.answered[t] == 1 || Pending(s, t) || LostAt(states, steps, n, t))
            && s.history.answered[t] <= 1 && !(s.history.answered[t] == 1 && Pending(s, t))
            && !(s.history.answered[t] == 1 && LostAt(states, steps, n, t))
            && !(Pending(s, t) && LostAt(states, steps, n, t))
  {
    TraceClean(states, steps, |steps|);
    LostInRun(states, steps, |steps|, t);
    assert Accounted(states[|steps|], t) && Settled(states[|steps|], t);
  }
}
