/**
 The broker among its callers: every call is a task that runs in indivisible pieces between its
 awaits, interleaved in any order with the other tasks and with the writers.
 */
module BrokerTasks {
  import opened Wrappers
  import opened Brokers

  /** A call from outside, or the part of a gathered call that concerns one subscriber. */
  datatype TaskId = Call(n: nat) | PartOf(n: nat, id: SubscriptionId)

  /** What a task does next. */
  datatype Task<M> =
    | DisconnectCall(id: SubscriptionId)          // wait for the lock and pop
    | SendCall(id: SubscriptionId, message: M)    // wait for the lock and offer
    | PublishCall(message: M)                     // wait for the lock and list the subscribers
    | CloseCall                                   // wait for the lock and clear
    | Shutdown(id: SubscriptionId)                // it removed `id`: cancel its writer
    | CloseSink(id: SubscriptionId)               // then start closing its sink
    | Finished

  datatype System<M> = System(broker: Broker<M>, tasks: map<TaskId, Task<M>>, closes: multiset<SubscriptionId>)

  datatype SystemEvent<M> =
    | Arrives(n: nat, task: Task<M>)
    | Joins(subscription: SubscriptionId, owner: Option<int>)
    | Runs(id: TaskId, cancelTakesEffect: bool)
    | WriterMoves(event: BrokerEvent<M>)

  predicate IsCall<M>(task: Task<M>) {
    task.DisconnectCall? || task.SendCall? || task.PublishCall? || task.CloseCall?
  }

  predicate IsWriterEvent<M>(e: BrokerEvent<M>) {
    e.WriterTakes? || e.WriterDelivers? || e.WriterFails? || e.WriterCleansUp? || e.WriterCancelled?
      || e.WriterClosesSink?
  }

  /** The sends of one publish, one task for each listed subscriber. */
  function Sends<M>(n: nat, b: Broker<M>, m: M): map<TaskId, Task<M>> {
    map t: TaskId | t in Parts(n, b.registered.Keys) :: SendCall(t.id, m)
  }

  function Parts(n: nat, ids: set<SubscriptionId>): (r: set<TaskId>)
    ensures forall t :: t in r <==> t.PartOf? && t.n == n && t.id in ids
  {
    set id | id in ids :: PartOf(n, id)
  }

  /** The shutdowns of one close, one task for each cleared subscriber. */
  function Shutdowns<M>(n: nat, b: Broker<M>): map<TaskId, Task<M>> {
    map t: TaskId | t in Parts(n, b.registered.Keys) :: Shutdown(t.id)
  }

  function RunTask<M>(limits: Limits, s: System<M>, t: TaskId, cancelTakesEffect: bool): System<M>
    requires t in s.tasks
  {
    var b := s.broker;
    match s.tasks[t]
    case DisconnectCall(id) =>
      s.(broker := Popped(b, id), tasks := s.tasks[t := if id in b.registered then Shutdown(id) else Finished])
    case SendCall(id, m) =>
      var (b', outcome) := Offered(limits, b, id, m);
      s.(broker := b', tasks := s.tasks[t := if outcome == Overflowed then Shutdown(id) else Finished])
    case PublishCall(m) =>
      s.(tasks := s.tasks[t := Finished] + Sends(t.n, b, m))
    case CloseCall =>
      if b.closed then s.(tasks := s.tasks[t := Finished])
      else s.(broker := Closed(b), tasks := s.tasks[t := Finished] + Shutdowns(t.n, b))
    case Shutdown(id) =>
      s.(broker := if cancelTakesEffect then Apply(limits, b, WriterCancelled(id)) else b,
         tasks := s.tasks[t := CloseSink(id)])
    case CloseSink(id) =>
      s.(tasks := s.tasks[t := Finished], closes := s.closes + multiset{id})
    case Finished => s
  }

  predicate Enabled<M>(s: System<M>, e: SystemEvent<M>) {
    match e
    case Arrives(n, task) => IsCall(task) && forall t :: t in s.tasks ==> t.n != n
    case Joins(_, _) => true
    case Runs(t, _) => t in s.tasks
    case WriterMoves(e) => IsWriterEvent(e)
  }

  function Next<M>(limits: Limits, s: System<M>, e: SystemEvent<M>): System<M>
    requires Enabled(s, e)
  {
    match e
    case Arrives(n, task) => s.(tasks := s.tasks[Call(n) := task])
    case Joins(id, owner) => s.(broker := Apply(limits, s.broker, Subscribe(id, owner)))
    case Runs(t, cancelTakesEffect) => RunTask(limits, s, t, cancelTakesEffect)
    case WriterMoves(e) =>
      var closing := e.WriterClosesSink? && e.id in s.broker.channels && s.broker.channels[e.id].writer.ClosingSink?;
      s.(broker := Apply(limits, s.broker, e), closes := if closing then s.closes + multiset{e.id} else s.closes)
  }

  // ---------------------------------------------------------------- who has to close a sink

  predicate Holds<M>(task: Task<M>, id: SubscriptionId) {
    (task.Shutdown? || task.CloseSink?) && task.id == id
  }

  /** The tasks that removed `id` and have not yet started to close its sink. */
  function Holders<M>(tasks: map<TaskId, Task<M>>, id: SubscriptionId): set<TaskId> {
    set t | t in tasks && Holds(tasks[t], id)
  }

  predicate WriterHolds<M>(b: Broker<M>, id: SubscriptionId) {
    id in b.channels && b.channels[id].writer.ClosingSink?
  }

  /** How often the sink of `id` has been or is going to be closed. */
  function Closings<M>(s: System<M>, id: SubscriptionId): nat {
    |Holders(s.tasks, id)| + (if WriterHolds(s.broker, id) then 1 else 0) + s.closes[id]
  }

  /** One closing for a removed subscriber, none for any other identity. */
  ghost predicate ClosingsInv<M>(s: System<M>, id: SubscriptionId) {
    Closings(s, id) == if id in s.broker.channels && id !in s.broker.registered then 1 else 0
  }

  /** A publish or close that has not run yet has no parts yet. */
  ghost predicate TasksInv<M>(tasks: map<TaskId, Task<M>>) {
    forall t :: t in tasks && (tasks[t].PublishCall? || tasks[t].CloseCall?) ==>
      t.Call? && forall id :: PartOf(t.n, id) !in tasks
  }

  ghost predicate SystemInv<M>(limits: Limits, s: System<M>) {
    && BrokerInv(limits, s.broker)
    && TasksInv(s.tasks)
    && forall id :: ClosingsInv(s, id)
  }

  /** What the account of closings needs to know about the broker. */
  ghost predicate WritersFit<M>(b: Broker<M>) {
    b.registered.Keys <= b.channels.Keys && forall id :: id in b.registered ==> !b.channels[id].writer.ClosingSink?
  }

  lemma HoldersAfter<M>(tasks: map<TaskId, Task<M>>, t: TaskId, task: Task<M>, id: SubscriptionId)
    ensures var before, after := Holders(tasks, id), Holders(tasks[t := task], id);
      |after| == |before| - (if t in before then 1 else 0) + (if Holds(task, id) then 1 else 0)
  {
    var before, after := Holders(tasks, id), Holders(tasks[t := task], id);
    var others := before - {t};
    assert after == if Holds(task, id) then others + {t} else others;
    assert before == if t in before then others + {t} else others;
  }

  lemma HoldersWithSends<M>(tasks: map<TaskId, Task<M>>, n: nat, b: Broker<M>, m: M, id: SubscriptionId)
    requires forall x :: PartOf(n, x) !in tasks
    ensures Holders(tasks + Sends(n, b, m), id) == Holders(tasks, id)
  {
  }

  lemma HoldersWithShutdowns<M>(tasks: map<TaskId, Task<M>>, n: nat, b: Broker<M>, id: SubscriptionId)
    requires forall x :: PartOf(n, x) !in tasks
    ensures |Holders(tasks + Shutdowns(n, b), id)| == |Holders(tasks, id)| + (if id in b.registered then 1 else 0)
  {
    var before, after := Holders(tasks, id), Holders(tasks + Shutdowns(n, b), id);
    if id in b.registered {
      assert after == before + {PartOf(n, id)};
    } else {
      assert after == before;
    }
  }

  lemma PopCounts<M>(s: System<M>, t: TaskId, x: SubscriptionId, id: SubscriptionId)
    requires WritersFit(s.broker) && ClosingsInv(s, id)
    requires t in s.tasks && !s.tasks[t].Shutdown? && !s.tasks[t].CloseSink?
    ensures var next := if x in s.broker.registered then Shutdown(x) else Finished;
      ClosingsInv(s.(broker := Popped(s.broker, x), tasks := s.tasks[t := next]), id)
  {
    HoldersAfter(s.tasks, t, if x in s.broker.registered then Shutdown(x) else Finished, id);
  }

  lemma SendCounts<M>(limits: Limits, s: System<M>, t: TaskId, id: SubscriptionId)
    requires WritersFit(s.broker) && ClosingsInv(s, id)
    requires t in s.tasks && s.tasks[t].SendCall?
    ensures ClosingsInv(RunTask(limits, s, t, true), id)
  {
    var x, m := s.tasks[t].id, s.tasks[t].message;
    HoldersAfter(s.tasks, t, if Offered(limits, s.broker, x, m).1 == Overflowed then Shutdown(x) else Finished, id);
  }

  lemma CloseCounts<M>(limits: Limits, s: System<M>, t: TaskId, id: SubscriptionId)
    requires WritersFit(s.broker) && TasksInv(s.tasks) && ClosingsInv(s, id)
    requires t in s.tasks && s.tasks[t].CloseCall?
    ensures ClosingsInv(RunTask(limits, s, t, true), id)
  {
    HoldersAfter(s.tasks, t, Finished, id);
    if !s.broker.closed { HoldersWithShutdowns(s.tasks[t := Finished], t.n, s.broker, id); }
  }

  lemma OtherCounts<M>(limits: Limits, s: System<M>, t: TaskId, cancelTakesEffect: bool, id: SubscriptionId)
    requires WritersFit(s.broker) && TasksInv(s.tasks) && ClosingsInv(s, id)
    requires t in s.tasks
      && (s.tasks[t].PublishCall? || s.tasks[t].Shutdown? || s.tasks[t].CloseSink? || s.tasks[t].Finished?)
    ensures ClosingsInv(RunTask(limits, s, t, cancelTakesEffect), id)
  {
    match s.tasks[t]
    case PublishCall(m) =>
      HoldersAfter(s.tasks, t, Finished, id);
      HoldersWithSends(s.tasks[t := Finished], t.n, s.broker, m, id);
    case Shutdown(x) => HoldersAfter(s.tasks, t, CloseSink(x), id);
    case CloseSink(x) => HoldersAfter(s.tasks, t, Finished, id);
    case _ =>
  }

  lemma CountsKept<M>(limits: Limits, s: System<M>, t: TaskId, cancelTakesEffect: bool, id: SubscriptionId)
    requires WritersFit(s.broker) && TasksInv(s.tasks) && ClosingsInv(s, id) && t in s.tasks
    ensures ClosingsInv(RunTask(limits, s, t, cancelTakesEffect), id)
  {
    match s.tasks[t]
    case DisconnectCall(x) => PopCounts(s, t, x, id);
    case SendCall(_, _) => SendCounts(limits, s, t, id);
    case CloseCall => CloseCounts(limits, s, t, id);
    case _ => OtherCounts(limits, s, t, cancelTakesEffect, id);
  }

  lemma WriterCounts<M>(limits: Limits, s: System<M>, w: BrokerEvent<M>, id: SubscriptionId)
    requires WritersFit(s.broker) && ClosingsInv(s, id) && IsWriterEvent(w)
    ensures ClosingsInv(Next(limits, s, WriterMoves(w)), id)
  {
  }

  lemma BrokerOfTask<M>(limits: Limits, s: System<M>, t: TaskId, cancelTakesEffect: bool)
    requires BrokerInv(limits, s.broker) && t in s.tasks
    ensures BrokerInv(limits, RunTask(limits, s, t, cancelTakesEffect).broker)
  {
    hide BrokerInv;
    match s.tasks[t]
    case DisconnectCall(x) => ApplyInv(limits, s.broker, Pop(x));
    case SendCall(x, m) => ApplyInv(limits, s.broker, Offer(x, m));
    case CloseCall => ApplyInv(limits, s.broker, CloseAll);
    case Shutdown(x) => ApplyInv(limits, s.broker, WriterCancelled(x));
    case _ =>
  }

  lemma TasksOfTask<M>(limits: Limits, s: System<M>, t: TaskId, cancelTakesEffect: bool)
    requires TasksInv(s.tasks) && t in s.tasks
    ensures TasksInv(RunTask(limits, s, t, cancelTakesEffect).tasks)
  {
    var after := RunTask(limits, s, t, cancelTakesEffect).tasks;
    forall u | u in after && (after[u].PublishCall? || after[u].CloseCall?)
      ensures u.Call? && forall id :: PartOf(u.n, id) !in after
    {
      assert u in s.tasks && s.tasks[u] == after[u] && u != t;
    }
  }

  /** Every piece of every task and writer keeps the account of closings. */
  lemma NextInv<M>(limits: Limits, s: System<M>, e: SystemEvent<M>)
    requires SystemInv(limits, s) && Enabled(s, e)
    ensures SystemInv(limits, Next(limits, s, e))
  {
    var after := Next(limits, s, e);
    match e
    case Arrives(n, task) =>
      forall id ensures ClosingsInv(after, id) {
        assert ClosingsInv(s, id);
        HoldersAfter(s.tasks, Call(n), task, id);
      }
    case Joins(x, owner) =>
      ApplyInv(limits, s.broker, Subscribe(x, owner));
      forall id ensures ClosingsInv(after, id) {
        assert ClosingsInv(s, id);
      }
    case Runs(t, c) =>
      BrokerOfTask(limits, s, t, c);
      TasksOfTask(limits, s, t, c);
      forall id ensures ClosingsInv(after, id) {
        assert ClosingsInv(s, id);
        CountsKept(limits, s, t, c, id);
      }
    case WriterMoves(w) =>
      ApplyInv(limits, s.broker, w);
      forall id ensures ClosingsInv(after, id) {
        assert ClosingsInv(s, id);
        WriterCounts(limits, s, w, id);
      }
  }

  // ---------------------------------------------------------------- whole runs

  datatype SystemRun<M> = SystemRun(limits: Limits, events: seq<SystemEvent<M>>)
  {
    /** An event that is not enabled does not happen. */
    function After(n: nat): System<M>
      requires n <= |events|
    {
      if n == 0 then System(Broker(false, map[], map[]), map[], multiset{})
      else
        var s := After(n - 1);
        if Enabled(s, events[n - 1]) then Next(limits, s, events[n - 1]) else s
    }

    lemma Beginning()
      requires limits.Valid()
      ensures SystemInv(limits, After(0))
    {
      forall id ensures ClosingsInv(After(0), id) {
        assert Holders(After(0).tasks, id) == {};
      }
    }

    lemma InvNext(i: nat)
      requires limits.Valid() && i < |events| && SystemInv(limits, After(i))
      ensures SystemInv(limits, After(i + 1))
    {
      hide SystemInv;
      if Enabled(After(i), events[i]) {
        NextInv(limits, After(i), events[i]);
      }
    }

    lemma {:induction false} InvKept(n: nat)
      requires limits.Valid() && n <= |events|
      ensures SystemInv(limits, After(n))
    {
      hide *;
      if n == 0 {
        Beginning();
      } else {
        InvKept(n - 1);
        InvNext(n - 1);
      }
    }

    /**
     In every interleaving: a registered subscriber's sink is never closed; the sink of a removed one
     is closed at most once; and when nobody is left who removed it and has still to act, exactly once.
     */
    lemma SinkClosedOnce(n: nat, id: SubscriptionId)
      requires limits.Valid() && n <= |events| && id in After(n).broker.channels
      ensures var s := After(n);
        && s.closes[id] <= 1
        && (id in s.broker.registered ==> s.closes[id] == 0 && Holders(s.tasks, id) == {})
        && (id !in s.broker.registered && Holders(s.tasks, id) == {} && !WriterHolds(s.broker, id) ==>
          s.closes[id] == 1)
        && (forall t, u :: t in Holders(s.tasks, id) && u in Holders(s.tasks, id) ==> t == u)
    {
      InvKept(n);
      var s := After(n);
      assert ClosingsInv(s, id);
      forall t, u | t in Holders(s.tasks, id) && u in Holders(s.tasks, id)
        ensures t == u
      {
        assert {t, u} <= Holders(s.tasks, id);
        if t != u { Subset({t, u}, Holders(s.tasks, id)); }
      }
    }

    /**
     No silent loss: what a registered subscriber was promised is what it got, then what is in flight,
     then its queue; what a removed one got is the beginning of what it was promised; queues and
     connections stay within their limits; and a closed broker stays empty.
     */
    lemma NoSilentLoss(n: nat)
      requires limits.Valid() && n <= |events|
      ensures var b := After(n).broker;
        && b.registered.Keys <= b.channels.Keys
        && (forall id :: id in b.registered ==>
          b.channels[id].accepted == b.channels[id].delivered + b.channels[id].InFlight() + b.channels[id].queue)
        && (forall id :: id in b.channels ==>
          b.channels[id].delivered <= b.channels[id].accepted && |b.channels[id].queue| <= limits.queueCapacity)
        && |b.registered| <= limits.maxConnections
        && (forall owner: int :: |OwnedBy(b.registered, Some(owner))| <= limits.maxPerOwner)
        && (b.closed ==> b.registered == map[])
    {
      InvKept(n);
    }
  }
}
