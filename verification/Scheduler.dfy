/** The scheduler of asynchronous requests: the connections, those that have requests under way, and the tasks of
    each. Every critical section under the connection lock is one step; what the devices and the sockets do is an
    oracle. */
module Scheduler {

  type Hdl = int
  type Id = int
  type Task = (Hdl, Id)

  datatype TaskInfo = TaskInfo(idReq: string, deviceName: string)

  type Tasks = map<Id, TaskInfo>

  /** What has happened so far, beside the state. Taken: its reply, data or error, was taken from the device.
      Answered: it was sent. Lost: its connection was closed first. Dropped: out of the active connections because
      a message could not be sent. */
  datatype History = History(registered: set<Task>, taken: multiset<Task>, answered: multiset<Task>, lost: set<Task>,
                             dropped: set<Hdl>)

  datatype State = State(conns: map<Hdl, Tasks>, active: set<Hdl>, history: History)

  const START := State(map[], {}, History({}, multiset{}, multiset{}, {}, {}))

  datatype Reply = NotArrived | Data | Failed

  /** One poll's view of the world: the replies of the devices, and the sends that end in ConnectionClosedException. */
  datatype Oracle = Oracle(reply: (Hdl, Id) -> Reply, fails: (Hdl, Id) -> bool)
  {
    predicate Arrived(h: Hdl, id: Id) {
      reply(h, id) != NotArrived
    }
  }

  /** unordered_map::insert, for a list of pairs: an id that is there keeps its task. */
  function InsertAll(tasks: Tasks, list: seq<(Id, TaskInfo)>): (r: Tasks)
    ensures r.Keys == tasks.Keys + set i | 0 <= i < |list| :: list[i].0
    ensures forall id :: id in tasks ==> r[id] == tasks[id]
    decreases |list|
  {
    if list == [] then tasks
    else
      var (id, info) := list[0];
      InsertAll(if id in tasks then tasks else tasks[id := info], list[1..])
  }

  lemma NonEmpty(s: set<Hdl>)
    requires s != {}
    ensures exists h: Hdl :: h in s
  {
    assert (forall h: Hdl :: h !in s) ==> s == {};
  }

  // ----- the steps -----

  function Opened(s: State, h: Hdl): State {
    s.(conns := s.conns[h := map[]])
  }

  function Dropped(s: State, h: Hdl): State {
    if h !in s.active then s
    else s.(active := s.active - {h}, history := s.history.(dropped := s.history.dropped + {h}))
  }

  function TasksOf(s: State, h: Hdl): set<Task> {
    if h in s.conns then set id | id in s.conns[h] :: (h, id) else {}
  }

  function Closed(s: State, h: Hdl): State {
    State(s.conns - {h}, s.active - {h},
          s.history.(lost := s.history.lost + TasksOf(s, h), dropped := s.history.dropped - {h}))
  }

  function Listed(h: Hdl, list: seq<(Id, TaskInfo)>): set<Task> {
    set i | 0 <= i < |list| :: (h, list[i].0)
  }

  function Added(s: State, h: Hdl, list: seq<(Id, TaskInfo)>): State {
    var g := s.history.(registered := s.history.registered + Listed(h, list));
    if h !in s.conns then s.(history := g.(lost := g.lost + Listed(h, list)))
    else State(s.conns[h := InsertAll(s.conns[h], list)], s.active + {h}, g.(dropped := g.dropped - {h}))
  }

  /** Sending one of the replies that have arrived fails. */
  ghost predicate Breaks(o: Oracle, h: Hdl, tasks: Tasks) {
    exists id :: id in tasks && o.Arrived(h, id) && o.fails(h, id)
  }

  function Waiting(o: Oracle, h: Hdl, tasks: Tasks): Tasks {
    map id | id in tasks && !o.Arrived(h, id) :: tasks[id]
  }

  /** A task of these connections has its reply. */
  predicate Due(conns: map<Hdl, Tasks>, o: Oracle, hs: set<Hdl>, t: Task) {
    t.0 in hs && t.0 in conns && t.1 in conns[t.0] && o.Arrived(t.0, t.1)
  }

  /** What taking and answering one task may come to: both happen, unless a send to its connection fails, which ends
      the connection's turn there and then. */
  ghost predicate TookOne(conns: map<Hdl, Tasks>, o: Oracle, hs: set<Hdl>, g: History, g': History, t: Task) {
    if !Due(conns, o, hs, t) then g'.taken[t] == g.taken[t] && g'.answered[t] == g.answered[t]
    else if !Breaks(o, t.0, conns[t.0]) then g'.taken[t] == g.taken[t] + 1 && g'.answered[t] == g.answered[t] + 1
    else
      && g.taken[t] <= g'.taken[t] <= g.taken[t] + 1
      && g'.answered[t] == g.answered[t] + if o.fails(t.0, t.1) || g'.taken[t] == g.taken[t] then 0 else 1
  }

  ghost predicate Took(conns: map<Hdl, Tasks>, o: Oracle, hs: set<Hdl>, g: History, g': History) {
    && g' == g.(taken := g'.taken, answered := g'.answered)
    && forall t: Task :: TookOne(conns, o, hs, g, g', t)
  }

  /** Where a send fails, its reply has been taken. */
  ghost predicate TookBreaker(conns: map<Hdl, Tasks>, o: Oracle, h: Hdl, g: History, g': History) {
    h in conns && exists id :: id in conns[h] && o.Arrived(h, id) && o.fails(h, id) && g'.taken[(h, id)] > g.taken[(h, id)]
  }

  /** One poll of the active connections. */
  ghost predicate Polled(s: State, o: Oracle, s': State)
    requires s.active <= s.conns.Keys
  {
    && s'.conns.Keys == s.conns.Keys
    && (forall h :: h in s.conns ==>
          s'.conns[h] == if h in s.active && !Breaks(o, h, s.conns[h]) then Waiting(o, h, s.conns[h]) else s.conns[h])
    && (forall h :: h in s'.active <==>
          h in s.active && !Breaks(o, h, s.conns[h]) && Waiting(o, h, s.conns[h]) != map[])
    && (forall h :: h in s.active && Breaks(o, h, s.conns[h]) ==> TookBreaker(s.conns, o, h, s.history, s'.history))
    && Took(s.conns, o, s.active, s.history, s'.history.(dropped := s.history.dropped))
    && (forall h :: h in s'.history.dropped <==>
          h in s.history.dropped || (h in s.active && Breaks(o, h, s.conns[h])))
  }

  // ----- the class -----

  class WSThread {
    var connections: map<Hdl, Tasks>
    var activeConnections: set<Hdl>
    ghost var history: History

    ghost function View(): State
      reads this
    {
      State(connections, activeConnections, history)
    }

    constructor ()
      ensures View() == START
    {
      connections, activeConnections, history := map[], {}, START.history;
    }

    /** The user may fail the check, and telling so may fail too. */
    method OnOpen(h: Hdl, userError: bool, sendFails: bool)
      modifies this
      ensures View() == if userError && sendFails then Dropped(Opened(old(View()), h), h) else Opened(old(View()), h)
    {
      connections := connections[h := map[]];
      if userError && sendFails {
        OnSendFailure(h);
      }
    }

    method OnClose(h: Hdl)
      modifies this
      ensures View() == Closed(old(View()), h)
    {
      history := Closed(View(), h).history;
      DeleteFromActiveConnections(h);
      connections := connections - {h};
    }

    method AddActive(h: Hdl, list: seq<(Id, TaskInfo)>)
      requires activeConnections <= connections.Keys
      modifies this
      ensures View() == Added(old(View()), h, list)
    {
      history := Added(View(), h, list).history;
      if h !in activeConnections {
        if h !in connections {
          return;
        }
        activeConnections := activeConnections + {h};
      }
      var tasks := connections[h];
      var i := 0;
      while i < |list|
        invariant 0 <= i <= |list| && InsertAll(tasks, list[i..]) == InsertAll(connections[h], list)
      {
        if list[i].0 !in tasks {
          tasks := tasks[list[i].0 := list[i].1];
        }
        i := i + 1;
      }
      connections := connections[h := tasks];
    }

    method DeleteFromActiveConnections(h: Hdl)
      modifies this`activeConnections
      ensures activeConnections == old(activeConnections) - {h}
    {
      if h in activeConnections {
        activeConnections := activeConnections - {h};
      }
    }

    /** Wherever a message to a connection cannot be sent. */
    method OnSendFailure(h: Hdl)
      modifies this
      ensures View() == Dropped(old(View()), h)
    {
      history := Dropped(View(), h).history;
      DeleteFromActiveConnections(h);
    }

    method CloseConnections(hs: set<Hdl>)
      modifies this`activeConnections
      ensures activeConnections == old(activeConnections) - hs
    {
      var left := hs;
      while left != {}
        invariant left <= hs && activeConnections == old(activeConnections) - (hs - left)
        decreases |left|
      {
        NonEmpty(left);
        var h: Hdl :| h in left;
        DeleteFromActiveConnections(h);
        left := left - {h};
      }
    }

    /** The loop of _checkRequests, in whatever order the tasks come. */
    method TakeReplies(h: Hdl, o: Oracle, tasks: Tasks) returns (del: set<Id>, closed: bool)
      modifies this`history
      ensures closed ==> Interrupted(h, o, tasks, old(history), history)
      ensures !closed ==> del == ArrivedIds(h, o, tasks) && Sent(h, del, old(history), history)
      ensures !closed ==> !Breaks(o, h, tasks)
    {
      var left := tasks.Keys;
      del, closed := {}, false;
      while left != {}
        invariant left <= tasks.Keys && del == ArrivedIds(h, o, tasks) - left
        invariant forall id :: id in del ==> !o.fails(h, id)
        invariant Sent(h, del, old(history), history)
        decreases |left|
      {
        var id: Id :| id in left;
        left := left - {id};
        if o.Arrived(h, id) {
          // data, or the text of an error: either is sent
          ghost var g := history;
          history := history.(taken := history.taken + multiset{(h, id)});
          if o.fails(h, id) {
            InterruptedAt(h, o, tasks, del, id, old(history), g);
            return del, true;
          }
          history := history.(answered := history.answered + multiset{(h, id)});
          SentOne(h, del, id, old(history), g);
          del := del + {id};
        }
      }
    }

    /** _checkRequests. Whether the connection has nothing left to wait for, or a send ended it. */
    method CheckRequests(h: Hdl, o: Oracle) returns (done: bool, closed: bool)
      requires h in connections
      modifies this`connections, this`history
      ensures closed <==> Breaks(o, h, old(connections)[h])
      ensures connections == if closed then old(connections)
                             else old(connections)[h := Waiting(o, h, old(connections)[h])]
      ensures !closed ==> (done <==> connections[h] == map[])
      ensures Took(old(connections), o, {h}, old(history), history)
      ensures closed ==> TookBreaker(old(connections), o, h, old(history), history)
    {
      var tasks := connections[h];
      if tasks == map[] {
        assert Waiting(o, h, tasks) == tasks && connections[h := tasks] == connections;
        return true, false;
      }
      var del;
      del, closed := TakeReplies(h, o, tasks);
      if closed {
        InterruptedTook(connections, h, o, old(history), history);
        return false, true;
      }
      SentTook(connections, h, o, old(history), history);
      connections := connections[h := tasks - del];
      assert tasks - del == Waiting(o, h, tasks);
      done := tasks - del == map[];
    }

    /** One turn of the loop of _forCheckActions. */
    method CheckOne(h: Hdl, o: Oracle, delActive: set<Hdl>, delConn: set<Hdl>, ghost conns: map<Hdl, Tasks>,
                    ghost hs: set<Hdl>, ghost g: History)
      returns (delActive': set<Hdl>, delConn': set<Hdl>)
      requires h !in hs && h in conns && hs <= conns.Keys
      requires CheckedSome(conns, o, hs, g, connections, history)
      requires delActive == Finished(conns, o, hs) && delConn == Broken(conns, o, hs)
      modifies this`connections, this`history
      ensures CheckedSome(conns, o, hs + {h}, g, connections, history)
      ensures delActive' == Finished(conns, o, hs + {h}) && delConn' == Broken(conns, o, hs + {h})
    {
      ghost var c1, g1 := connections, history;
      var done, closed := CheckRequests(h, o);
      CheckedMore(conns, o, hs, h, g, c1, g1, connections, history);
      delActive', delConn' := delActive, delConn;
      if closed {
        delConn' := delConn + {h};
      } else if done {
        delActive' := delActive + {h};
      }
    }

    /** The loop: the connections that are done, and those whose turn a send ended. */
    method CheckAll(o: Oracle) returns (delActive: set<Hdl>, delConn: set<Hdl>)
      requires activeConnections <= connections.Keys
      modifies this`connections, this`history
      ensures CheckedSome(old(connections), o, activeConnections, old(history), connections, history)
      ensures delActive == Finished(old(connections), o, activeConnections)
      ensures delConn == Broken(old(connections), o, activeConnections)
    {
      var left := activeConnections;
      ghost var done: set<Hdl> := {};
      delActive, delConn := {}, {};
      TookNone(connections, o, history);
      while left != {}
        invariant left !! done && left + done == activeConnections
        invariant CheckedSome(old(connections), o, done, old(history), connections, history)
        invariant delActive == Finished(old(connections), o, done) && delConn == Broken(old(connections), o, done)
        decreases |left|
      {
        NonEmpty(left);
        var h: Hdl :| h in left;
        delActive, delConn := CheckOne(h, o, delActive, delConn, old(connections), done, old(history));
        left, done := left - {h}, done + {h};
      }
    }

    method ForCheckActions(o: Oracle)
      requires activeConnections <= connections.Keys
      modifies this
      ensures Polled(old(View()), o, View())
    {
      var delActive, delConn := CheckAll(o);
      CloseConnections(delActive);
      CloseConnections(delConn);
      history := history.(dropped := history.dropped + delConn);
    }
  }

  // ----- taking and sending replies -----

  function ArrivedIds(h: Hdl, o: Oracle, tasks: Tasks): set<Id> {
    set id | id in tasks && o.Arrived(h, id)
  }

  /** The replies of these tasks have been taken and sent. */
  ghost predicate Sent(h: Hdl, ids: set<Id>, g: History, g': History) {
    && g' == g.(taken := g'.taken, answered := g'.answered)
    && forall t: Task ::
         var n := if t.0 == h && t.1 in ids then 1 else 0;
         g'.taken[t] == g.taken[t] + n && g'.answered[t] == g.answered[t] + n
  }

  /** After some replies were sent, sending one more failed. */
  ghost predicate Interrupted(h: Hdl, o: Oracle, tasks: Tasks, g: History, g': History) {
    exists ids: set<Id>, id: Id, g1: History :: InterruptedBy(h, o, tasks, ids, id, g, g1, g')
  }

  ghost predicate InterruptedBy(h: Hdl, o: Oracle, tasks: Tasks, ids: set<Id>, id: Id, g: History, g1: History,
                                g': History)
  {
    && ids <= ArrivedIds(h, o, tasks) && (forall i :: i in ids ==> !o.fails(h, i))
    && id in ArrivedIds(h, o, tasks) && id !in ids && o.fails(h, id)
    && Sent(h, ids, g, g1) && g' == g1.(taken := g1.taken + multiset{(h, id)})
  }

  lemma InterruptedAt(h: Hdl, o: Oracle, tasks: Tasks, ids: set<Id>, id: Id, g: History, g1: History)
    requires InterruptedBy(h, o, tasks, ids, id, g, g1, g1.(taken := g1.taken + multiset{(h, id)}))
    ensures Interrupted(h, o, tasks, g, g1.(taken := g1.taken + multiset{(h, id)}))
  {
  }

  lemma SentOne(h: Hdl, ids: set<Id>, id: Id, g: History, g1: History)
    requires Sent(h, ids, g, g1) && id !in ids
    ensures Sent(h, ids + {id}, g, g1.(taken := g1.taken + multiset{(h, id)},
                                       answered := g1.answered + multiset{(h, id)}))
  {
  }

  lemma SentTook(conns: map<Hdl, Tasks>, h: Hdl, o: Oracle, g: History, g': History)
    requires h in conns && Sent(h, ArrivedIds(h, o, conns[h]), g, g') && !Breaks(o, h, conns[h])
    ensures Took(conns, o, {h}, g, g')
  {
  }

  lemma InterruptedTook(conns: map<Hdl, Tasks>, h: Hdl, o: Oracle, g: History, g': History)
    requires h in conns && Interrupted(h, o, conns[h], g, g')
    ensures Took(conns, o, {h}, g, g') && Breaks(o, h, conns[h]) && TookBreaker(conns, o, h, g, g')
  {
    var ids: set<Id>, id: Id, g1: History :| InterruptedBy(h, o, conns[h], ids, id, g, g1, g');
    assert g'.taken[(h, id)] == g.taken[(h, id)] + 1;
  }

  /** Of these connections, those left with no task. */
  ghost function Finished(conns: map<Hdl, Tasks>, o: Oracle, hs: set<Hdl>): set<Hdl>
    requires hs <= conns.Keys
  {
    set h | h in hs && !Breaks(o, h, conns[h]) && Waiting(o, h, conns[h]) == map[]
  }

  /** Of these connections, those a send to which fails. */
  ghost function Broken(conns: map<Hdl, Tasks>, o: Oracle, hs: set<Hdl>): set<Hdl>
    requires hs <= conns.Keys
  {
    set h | h in hs && Breaks(o, h, conns[h])
  }

  /** These connections have had their turn, and the others have not. */
  ghost predicate CheckedSome(conns: map<Hdl, Tasks>, o: Oracle, hs: set<Hdl>, g: History, conns': map<Hdl, Tasks>,
                              g': History)
  {
    && conns'.Keys == conns.Keys
    && (forall h :: h in conns ==>
          conns'[h] == if h in hs && !Breaks(o, h, conns[h]) then Waiting(o, h, conns[h]) else conns[h])
    && Took(conns, o, hs, g, g')
    && (forall h :: h in hs && h in conns && Breaks(o, h, conns[h]) ==> TookBreaker(conns, o, h, g, g'))
  }

  lemma TookNone(conns: map<Hdl, Tasks>, o: Oracle, g: History)
    ensures CheckedSome(conns, o, {}, g, conns, g)
  {
  }

  lemma TookMore(conns: map<Hdl, Tasks>, o: Oracle, hs: set<Hdl>, h: Hdl, g: History, conns1: map<Hdl, Tasks>,
                 g1: History, g2: History)
    requires h !in hs && h in conns && h in conns1 && conns1[h] == conns[h]
    requires Took(conns, o, hs, g, g1) && Took(conns1, o, {h}, g1, g2)
    ensures Took(conns, o, hs + {h}, g, g2)
  {
    forall t: Task ensures TookOne(conns, o, hs + {h}, g, g2, t) {
      assert TookOne(conns, o, hs, g, g1, t) && TookOne(conns1, o, {h}, g1, g2, t);
    }
  }

  lemma CheckedMore(conns: map<Hdl, Tasks>, o: Oracle, hs: set<Hdl>, h: Hdl, g: History, conns1: map<Hdl, Tasks>,
                    g1: History, conns2: map<Hdl, Tasks>, g2: History)
    requires h !in hs && h in conns && CheckedSome(conns, o, hs, g, conns1, g1)
    requires conns2 == if Breaks(o, h, conns1[h]) then conns1 else conns1[h := Waiting(o, h, conns1[h])]
    requires Took(conns1, o, {h}, g1, g2)
    requires Breaks(o, h, conns1[h]) ==> TookBreaker(conns1, o, h, g1, g2)
    ensures CheckedSome(conns, o, hs + {h}, g, conns2, g2)
  {
    TookMore(conns, o, hs, h, g, conns1, g1, g2);
    forall k | k in hs + {h} && k in conns && Breaks(o, k, conns[k]) ensures TookBreaker(conns, o, k, g, g2) {
      if k == h {
        var id :| id in conns[h] && o.Arrived(h, id) && o.fails(h, id) && g2.taken[(h, id)] > g1.taken[(h, id)];
        assert TookOne(conns, o, hs, g, g1, (h, id));
      } else {
        var id :| id in conns[k] && o.Arrived(k, id) && o.fails(k, id) && g1.taken[(k, id)] > g.taken[(k, id)];
        assert TookOne(conns1, o, {h}, g1, g2, (k, id));
      }
    }
  }
}
