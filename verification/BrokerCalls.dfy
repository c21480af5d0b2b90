/**
 What the calls on the broker bring about, over whole runs: whom a publish reaches, what an offer, a disconnect
 and a close do, and that nothing but a send ever promises a message to anybody.
 */
module BrokerCalls {
  import opened Wrappers
  import opened Brokers
  import opened BrokerTasks

  /** Everything a subscriber, connected or removed, has ever been promised. */
  function Promised<M>(s: System<M>, id: SubscriptionId): seq<M> {
    if id in s.broker.channels then s.broker.channels[id].accepted else []
  }

  predicate Registered<M>(s: System<M>, id: SubscriptionId) {
    id in s.broker.registered
  }

  predicate HasRoom<M>(limits: Limits, s: System<M>, id: SubscriptionId) {
    id in s.broker.channels && |s.broker.channels[id].queue| < limits.queueCapacity
  }

  // ---------------------------------------------------------------- one piece of a call

  /** What a send does to its subscriber, and that it does nothing to anybody else. */
  ghost predicate SendOutcome<M>(limits: Limits, s: System<M>, t: System<M>, id: SubscriptionId, m: M) {
    && (Registered(s, id) && HasRoom(limits, s, id) ==> Registered(t, id) && Promised(t, id) == Promised(s, id) + [m])
    && (Registered(s, id) && !HasRoom(limits, s, id) ==> !Registered(t, id) && Promised(t, id) == Promised(s, id))
    && (!Registered(s, id) ==> !Registered(t, id) && Promised(t, id) == Promised(s, id))
    && forall x :: x != id ==> Promised(t, x) == Promised(s, x) && (Registered(t, x) <==> Registered(s, x))
  }

  lemma SendPiece<M>(limits: Limits, s: System<M>, t: TaskId, c: bool)
    requires BrokerInv(limits, s.broker) && t in s.tasks && s.tasks[t].SendCall?
    ensures var (id, after) := (s.tasks[t].id, RunTask(limits, s, t, c));
      && SendOutcome(limits, s, after, id, s.tasks[t].message)
      && after.closes == s.closes && after.broker.closed == s.broker.closed
      && after.tasks.Keys == s.tasks.Keys
      && after.tasks[t] == (if Registered(s, id) && !HasRoom(limits, s, id) then Shutdown(id) else Finished)
  {
    hide ChannelInv, OwnedBy;
  }

  /** A disconnect removes its subscriber and nobody else; whoever removed it has to shut it down. */
  lemma DisconnectPiece<M>(limits: Limits, s: System<M>, t: TaskId, c: bool)
    requires t in s.tasks && s.tasks[t].DisconnectCall?
    ensures var (id, after) := (s.tasks[t].id, RunTask(limits, s, t, c));
      && (forall x :: Registered(after, x) <==> Registered(s, x) && x != id)
      && (forall x :: Promised(after, x) == Promised(s, x))
      && after.tasks.Keys == s.tasks.Keys
      && after.tasks[t] == (if Registered(s, id) then Shutdown(id) else Finished)
  {
  }

  /** The first close removes everybody, and each of them gets its shutdown; a later one does nothing. */
  lemma ClosePiece<M>(limits: Limits, s: System<M>, t: TaskId, c: bool)
    requires BrokerInv(limits, s.broker) && TasksInv(s.tasks) && t in s.tasks && s.tasks[t].CloseCall?
    ensures var after := RunTask(limits, s, t, c);
      && after.broker.closed && t in after.tasks && after.tasks[t] == Finished
      && (forall x :: !Registered(after, x) && Promised(after, x) == Promised(s, x))
      && (forall x :: PartOf(t.n, x) in after.tasks <==> Registered(s, x))
      && (forall x :: Registered(s, x) ==> after.tasks[PartOf(t.n, x)] == Shutdown(x))
  {
    hide ChannelInv, OwnedBy;
    if !s.broker.closed {
      forall x ensures PartOf(t.n, x) in Shutdowns(t.n, s.broker) <==> Registered(s, x) {
      }
    }
  }

  /** The writer of a removed subscriber, unless it is on the way to close the sink itself. */
  predicate Cancellable<M>(s: System<M>, id: SubscriptionId) {
    id in s.broker.channels && !Registered(s, id) && !s.broker.channels[id].writer.ClosingSink?
  }

  /** A shutdown cancels the writer of a removed subscriber and then closes its sink, once. */
  lemma ShutdownPieces<M>(limits: Limits, s: System<M>, t: TaskId, c: bool)
    requires t in s.tasks && (s.tasks[t].Shutdown? || s.tasks[t].CloseSink?)
    ensures var (id, after) := (s.tasks[t].id, RunTask(limits, s, t, c));
      && after.broker.registered == s.broker.registered
      && (s.tasks[t].Shutdown? ==> after.tasks[t] == CloseSink(id) && after.closes == s.closes)
      && (s.tasks[t].Shutdown? && c && Cancellable(s, id) ==> after.broker.channels[id].writer.Ended?)
      && (s.tasks[t].CloseSink? ==>
        after.tasks[t] == Finished && after.closes == s.closes + multiset{id} && after.broker == s.broker)
  {
  }

  /** A publish sends to everybody registered when it lists them, and to nobody else. */
  lemma PublishPiece<M>(limits: Limits, s: System<M>, t: TaskId, c: bool)
    requires TasksInv(s.tasks) && t in s.tasks && s.tasks[t].PublishCall?
    ensures var after := RunTask(limits, s, t, c);
      && after.broker == s.broker && after.closes == s.closes && t in after.tasks && after.tasks[t] == Finished
      && (forall x :: PartOf(t.n, x) in after.tasks <==> Registered(s, x))
      && (forall x :: Registered(s, x) ==> after.tasks[PartOf(t.n, x)] == SendCall(x, s.tasks[t].message))
  {
  }

  // ---------------------------------------------------------------- joining

  predicate NonPositive(owner: Option<int>) {
    owner.Some? && owner.value <= 0
  }

  /** How many subscriptions the owner has. */
  function Connections<M>(b: Broker<M>, owner: Option<int>): nat {
    |set id | id in b.registered && b.registered[id] == owner|
  }

  /**
   A subscription is accepted exactly within all limits, each error has exactly its own cause, and a new subscriber
   starts with nothing queued, promised or delivered; nobody else is touched.
   */
  lemma JoinsExactly<M>(limits: Limits, b: Broker<M>, id: SubscriptionId, owner: Option<int>)
    requires id !in b.channels
    ensures var (refusal, t) := (SubscribeRefusal(limits, b, owner), Apply(limits, b, Subscribe(id, owner)));
      && (refusal == Some(BadOwner) <==> NonPositive(owner))
      && (refusal == Some(BrokerClosed) <==> !NonPositive(owner) && b.closed)
      && (refusal == Some(GlobalCapacity) <==>
        !NonPositive(owner) && !b.closed && |b.registered| >= limits.maxConnections)
      && (refusal == Some(OwnerCapacity) <==>
        && !NonPositive(owner) && !b.closed && |b.registered| < limits.maxConnections
        && owner.Some? && Connections(b, owner) >= limits.maxPerOwner)
      && (refusal.None? <==>
        && !NonPositive(owner) && !b.closed && |b.registered| < limits.maxConnections
        && (owner.Some? ==> Connections(b, owner) < limits.maxPerOwner))
      && (refusal.Some? ==> t == b)
      && (refusal.None? ==>
        && t.registered == b.registered[id := owner] && t.closed == b.closed
        && t.channels == b.channels[id := Channel([], Waiting, [], [])])
  {
    assert OwnedBy(b.registered, owner) == set x | x in b.registered && b.registered[x] == owner;
  }

  // ---------------------------------------------------------------- the writer

  /** The writer takes a message and sends it, `n` times over. */
  function Written<M>(limits: Limits, b: Broker<M>, id: SubscriptionId, n: nat): Broker<M> {
    if n == 0 then b
    else Apply(limits, Apply(limits, Written(limits, b, id, n - 1), WriterTakes(id)), WriterDelivers(id))
  }

  /** The broker with this queue and these deliveries of the subscriber, and everything else as it was. */
  ghost predicate HasWritten<M>(b: Broker<M>, t: Broker<M>, id: SubscriptionId, n: nat)
    requires id in b.channels && n <= |b.channels[id].queue|
  {
    var c := b.channels[id];
    && t.registered == b.registered && t.closed == b.closed
    && t.channels == b.channels[id := Channel(c.queue[n..], Waiting, c.accepted, c.delivered + c.queue[..n])]
  }

  lemma WritesOneMore<M>(limits: Limits, b: Broker<M>, t: Broker<M>, id: SubscriptionId, n: nat)
    requires id in b.channels && n < |b.channels[id].queue| && HasWritten(b, t, id, n)
    ensures HasWritten(b, Apply(limits, Apply(limits, t, WriterTakes(id)), WriterDelivers(id)), id, n + 1)
  {
    var c := b.channels[id];
    assert c.queue[n..][0] == c.queue[n] && c.queue[n..][1..] == c.queue[n + 1..];
    assert c.delivered + c.queue[..n + 1] == c.delivered + c.queue[..n] + [c.queue[n]];
    var taken := Apply(limits, t, WriterTakes(id));
    assert taken.channels[id]
      == Channel(c.queue[n + 1..], Sending(c.queue[n]), c.accepted, c.delivered + c.queue[..n]);
    assert Apply(limits, taken, WriterDelivers(id)).channels[id]
      == Channel(c.queue[n + 1..], Waiting, c.accepted, c.delivered + c.queue[..n + 1]);
  }

  /** A waiting writer sends the queue in order, one message after the other, and nothing else happens. */
  lemma {:induction false} WriterDrains<M>(limits: Limits, b: Broker<M>, id: SubscriptionId, n: nat)
    requires id in b.channels && b.channels[id].writer.Waiting? && n <= |b.channels[id].queue|
    ensures HasWritten(b, Written(limits, b, id, n), id, n)
  {
    if n == 0 {
      var c := b.channels[id];
      assert c == Channel(c.queue[0..], Waiting, c.accepted, c.delivered + c.queue[..0]);
    } else {
      WriterDrains(limits, b, id, n - 1);
      WritesOneMore(limits, b, Written(limits, b, id, n - 1), id, n - 1);
    }
  }

  /** As soon as a writer with nothing in flight has worked off its queue, everything promised has been delivered. */
  lemma EverythingArrives<M>(limits: Limits, b: Broker<M>, id: SubscriptionId)
    requires BrokerInv(limits, b) && id in b.registered && b.channels[id].writer.Waiting?
    ensures var c := Written(limits, b, id, |b.channels[id].queue|).channels;
      id in c && c[id].queue == [] && c[id].delivered == c[id].accepted == b.channels[id].accepted
  {
    hide Written, OwnedBy;
    var c := b.channels[id];
    WriterDrains(limits, b, id, |c.queue|);
    assert c.queue[..|c.queue|] == c.queue && ChannelInv(limits, c);
  }

  // ---------------------------------------------------------------- what one event leaves alone

  predicate RunsTask<M>(e: SystemEvent<M>, t: TaskId) {
    e.Runs? && e.id == t
  }

  /** A task goes on as it is until its own next piece runs. */
  lemma OthersWait<M>(limits: Limits, s: System<M>, e: SystemEvent<M>, t: TaskId)
    requires TasksInv(s.tasks) && Enabled(s, e) && t in s.tasks
    ensures t in Next(limits, s, e).tasks
    ensures !RunsTask(e, t) ==> Next(limits, s, e).tasks[t] == s.tasks[t]
  {
  }

  /** Parts of a call appear only when the call itself runs. */
  lemma PartsAppear<M>(limits: Limits, s: System<M>, e: SystemEvent<M>, n: nat, id: SubscriptionId)
    requires TasksInv(s.tasks) && Enabled(s, e)
    requires PartOf(n, id) !in s.tasks && PartOf(n, id) in Next(limits, s, e).tasks
    ensures RunsTask(e, Call(n)) && (s.tasks[Call(n)].PublishCall? || s.tasks[Call(n)].CloseCall?)
  {
  }

  /** What can happen to a subscriber in one event that is no send to it. */
  ghost predicate Unpromised<M>(b: Broker<M>, after: Broker<M>, id: SubscriptionId) {
    && b.channels.Keys <= after.channels.Keys
    && (id in after.channels ==>
      after.channels[id].accepted == if id in b.channels then b.channels[id].accepted else [])
    && (id in b.channels && id in after.registered ==> id in b.registered)
  }

  lemma EventPromisesNothing<M>(limits: Limits, b: Broker<M>, e: BrokerEvent<M>, id: SubscriptionId)
    requires !e.Offer?
    ensures Unpromised(b, Apply(limits, b, e), id)
  {
    hide SubscribeRefusal;
  }

  lemma TaskPromisesNothing<M>(limits: Limits, s: System<M>, t: TaskId, c: bool, id: SubscriptionId)
    requires t in s.tasks && !s.tasks[t].SendCall?
    ensures Unpromised(s.broker, RunTask(limits, s, t, c).broker, id)
  {
    hide Apply;
    match s.tasks[t]
    case Shutdown(x) => EventPromisesNothing(limits, s.broker, WriterCancelled(x), id);
    case _ =>
  }

  lemma SendKeepsChannels<M>(limits: Limits, s: System<M>, t: TaskId, c: bool)
    requires t in s.tasks && s.tasks[t].SendCall?
    ensures s.broker.channels.Keys == RunTask(limits, s, t, c).broker.channels.Keys
  {
  }

  /** Nobody comes back, and only a send promises anything to anybody. */
  lemma OnlySendsPromise<M>(limits: Limits, s: System<M>, e: SystemEvent<M>, id: SubscriptionId)
    requires BrokerInv(limits, s.broker) && Enabled(s, e)
    ensures var t := Next(limits, s, e);
      && s.broker.channels.Keys <= t.broker.channels.Keys
      && Promised(s, id) <= Promised(t, id)
      && (id in s.broker.channels && Registered(t, id) ==> Registered(s, id))
      && (Promised(t, id) != Promised(s, id) ==>
        && e.Runs? && s.tasks[e.id].SendCall? && s.tasks[e.id].id == id && Registered(s, id)
        && Promised(t, id) == Promised(s, id) + [s.tasks[e.id].message])
  {
    hide BrokerInv, Apply, RunTask;
    match e
    case Arrives(_, _) =>
    case Joins(x, owner) => EventPromisesNothing(limits, s.broker, Subscribe(x, owner), id);
    case WriterMoves(w) => EventPromisesNothing(limits, s.broker, w, id);
    case Runs(t, c) =>
      if s.tasks[t].SendCall? {
        SendPiece(limits, s, t, c);
        SendKeepsChannels(limits, s, t, c);
      } else {
        TaskPromisesNothing(limits, s, t, c, id);
      }
  }

  // ---------------------------------------------------------------- a publish, to its end

  /** The publish of `m` as call `n` lists the subscribers in event `i`. */
  ghost predicate Publishes<M>(r: SystemRun<M>, i: nat, n: nat, m: M) {
    && i < |r.events| && RunsTask(r.events[i], Call(n))
    && Call(n) in r.After(i).tasks && r.After(i).tasks[Call(n)] == PublishCall(m)
  }

  /** Event `x` runs the send that is task `t`. */
  ghost predicate SendsAt<M>(r: SystemRun<M>, x: nat, t: TaskId) {
    x < |r.events| && RunsTask(r.events[x], t) && t in r.After(x).tasks && r.After(x).tasks[t].SendCall?
  }

  ghost predicate Pending<M>(r: SystemRun<M>, j: nat, t: TaskId)
    requires j <= |r.events|
  {
    t in r.After(j).tasks && r.After(j).tasks[t].SendCall?
  }

  /** The publish has one send for the subscriber, which has not run or has run once, with the outcome of a send. */
  ghost predicate Reaches<M>(r: SystemRun<M>, i: nat, n: nat, m: M, id: SubscriptionId, j: nat)
    requires j <= |r.events|
  {
    var t := PartOf(n, id);
    && t in r.After(j).tasks
    && (Pending(r, j, t) ==> r.After(j).tasks[t] == SendCall(id, m))
    && (Pending(r, j, t) <==> forall x :: 0 <= x < j ==> !SendsAt(r, x, t))
    && (forall x, y :: 0 <= x < j && 0 <= y < j && SendsAt(r, x, t) && SendsAt(r, y, t) ==> x == y)
    && (forall x :: 0 <= x < j && SendsAt(r, x, t) ==>
      i < x && SendOutcome(r.limits, r.After(x), r.After(x + 1), id, m))
  }

  ghost predicate PublishInv<M>(r: SystemRun<M>, i: nat, n: nat, m: M, id: SubscriptionId, j: nat)
    requires i <= |r.events| && j <= |r.events|
  {
    && Call(n) in r.After(j).tasks && r.After(j).tasks[Call(n)] == Finished
    && if Registered(r.After(i), id) then Reaches(r, i, n, m, id, j)
       else PartOf(n, id) !in r.After(j).tasks && forall x :: 0 <= x < j ==> !SendsAt(r, x, PartOf(n, id))
  }

  lemma TasksKept<M>(r: SystemRun<M>, n: nat)
    requires r.limits.Valid() && n <= |r.events|
    ensures TasksInv(r.After(n).tasks) && BrokerInv(r.limits, r.After(n).broker)
  {
    hide TasksInv, BrokerInv, ClosingsInv;
    r.InvKept(n);
  }

  /** Tasks stay, promises are kept, and nobody comes back. */
  lemma {:induction false} Grows<M>(r: SystemRun<M>, a: nat, b: nat, id: SubscriptionId)
    requires r.limits.Valid() && a <= b <= |r.events|
    ensures r.After(a).tasks.Keys <= r.After(b).tasks.Keys
    ensures r.After(a).broker.channels.Keys <= r.After(b).broker.channels.Keys
    ensures Promised(r.After(a), id) <= Promised(r.After(b), id)
    ensures id in r.After(a).broker.channels && Registered(r.After(b), id) ==> Registered(r.After(a), id)
  {
    hide TasksInv, BrokerInv, Next, Enabled, Promised;
    if a < b {
      Grows(r, a, b - 1, id);
      var (s, e) := (r.After(b - 1), r.events[b - 1]);
      if Enabled(s, e) {
        TasksKept(r, b - 1);
        OnlySendsPromise(r.limits, s, e, id);
        forall t | t in s.tasks ensures t in Next(r.limits, s, e).tasks {
          OthersWait(r.limits, s, e, t);
        }
      }
    }
  }

  /** Before a publish runs, no part of it exists. */
  lemma NoPartsBefore<M>(r: SystemRun<M>, i: nat, n: nat, m: M, id: SubscriptionId, x: nat)
    requires r.limits.Valid() && Publishes(r, i, n, m) && x <= i
    ensures PartOf(n, id) !in r.After(x).tasks
  {
    hide BrokerInv;
    TasksKept(r, i);
    Grows(r, x, i, id);
    assert r.After(i).tasks[Call(n)].PublishCall?;
  }

  lemma PublishStart<M>(r: SystemRun<M>, i: nat, n: nat, m: M, id: SubscriptionId)
    requires r.limits.Valid() && Publishes(r, i, n, m)
    ensures PublishInv(r, i, n, m, id, i + 1)
    ensures Registered(r.After(i), id) ==> Pending(r, i + 1, PartOf(n, id))
  {
    hide BrokerInv, TasksInv, SendOutcome, RunTask;
    TasksKept(r, i);
    var e := r.events[i];
    PublishPiece(r.limits, r.After(i), Call(n), e.cancelTakesEffect);
    assert r.After(i + 1) == RunTask(r.limits, r.After(i), Call(n), e.cancelTakesEffect);
    forall x | 0 <= x < i + 1 ensures !SendsAt(r, x, PartOf(n, id)) {
      NoPartsBefore(r, i, n, m, id, x);
    }
  }

  /** An event that is no piece of the send leaves everything said about it as it was. */
  lemma NotItsTurn<M>(r: SystemRun<M>, i: nat, n: nat, m: M, id: SubscriptionId, j: nat)
    requires j < |r.events| && Reaches(r, i, n, m, id, j) && !SendsAt(r, j, PartOf(n, id))
    requires PartOf(n, id) in r.After(j + 1).tasks
    requires r.After(j + 1).tasks[PartOf(n, id)] == r.After(j).tasks[PartOf(n, id)]
      || (!r.After(j + 1).tasks[PartOf(n, id)].SendCall? && !Pending(r, j, PartOf(n, id)))
    ensures Reaches(r, i, n, m, id, j + 1)
  {
    hide SendOutcome, SystemRun.After;
  }

  lemma ItsTurn<M>(r: SystemRun<M>, i: nat, n: nat, m: M, id: SubscriptionId, j: nat)
    requires i < j < |r.events| && Reaches(r, i, n, m, id, j) && SendsAt(r, j, PartOf(n, id))
    requires BrokerInv(r.limits, r.After(j).broker)
    ensures Reaches(r, i, n, m, id, j + 1)
  {
    hide SendOutcome, RunTask, BrokerInv;
    var t := PartOf(n, id);
    SendPiece(r.limits, r.After(j), t, r.events[j].cancelTakesEffect);
    assert r.After(j + 1) == RunTask(r.limits, r.After(j), t, r.events[j].cancelTakesEffect);
    assert Pending(r, j, t);
  }

  /** The pieces after the send are no sends. */
  lemma NeverAgain<M>(limits: Limits, s: System<M>, e: SystemEvent<M>, t: TaskId)
    requires TasksInv(s.tasks) && Enabled(s, e) && t in s.tasks && t.PartOf? && !s.tasks[t].SendCall?
    ensures t in Next(limits, s, e).tasks && !Next(limits, s, e).tasks[t].SendCall?
  {
  }

  lemma ReachesNext<M>(r: SystemRun<M>, i: nat, n: nat, m: M, id: SubscriptionId, j: nat)
    requires r.limits.Valid() && i < j < |r.events| && Reaches(r, i, n, m, id, j)
    ensures Reaches(r, i, n, m, id, j + 1)
  {
    hide BrokerInv, TasksInv, SendOutcome, RunTask, Next;
    var (s, e, t) := (r.After(j), r.events[j], PartOf(n, id));
    TasksKept(r, j);
    if SendsAt(r, j, t) {
      ItsTurn(r, i, n, m, id, j);
    } else {
      if Enabled(s, e) {
        OthersWait(r.limits, s, e, t);
        if !s.tasks[t].SendCall? {
          NeverAgain(r.limits, s, e, t);
        }
      }
      NotItsTurn(r, i, n, m, id, j);
    }
  }

  lemma FinishedStays<M>(limits: Limits, s: System<M>, e: SystemEvent<M>, n: nat)
    requires TasksInv(s.tasks) && Enabled(s, e) && Call(n) in s.tasks && s.tasks[Call(n)] == Finished
    ensures Call(n) in Next(limits, s, e).tasks && Next(limits, s, e).tasks[Call(n)] == Finished
  {
    hide TasksInv;
    OthersWait(limits, s, e, Call(n));
  }

  lemma PublishNext<M>(r: SystemRun<M>, i: nat, n: nat, m: M, id: SubscriptionId, j: nat)
    requires r.limits.Valid() && i < j < |r.events| && PublishInv(r, i, n, m, id, j)
    ensures PublishInv(r, i, n, m, id, j + 1)
  {
    hide BrokerInv, TasksInv, SendOutcome, RunTask, Next, Reaches;
    var (s, e, t) := (r.After(j), r.events[j], PartOf(n, id));
    TasksKept(r, j);
    if Enabled(s, e) {
      FinishedStays(r.limits, s, e, n);
    }
    if Registered(r.After(i), id) {
      ReachesNext(r, i, n, m, id, j);
    } else if Enabled(s, e) && t in r.After(j + 1).tasks {
      PartsAppear(r.limits, s, e, n, id);
    }
  }

  lemma {:induction false} PublishKept<M>(r: SystemRun<M>, i: nat, n: nat, m: M, id: SubscriptionId, j: nat)
    requires r.limits.Valid() && Publishes(r, i, n, m) && i < j <= |r.events|
    ensures PublishInv(r, i, n, m, id, j)
  {
    hide *;
    if j == i + 1 {
      PublishStart(r, i, n, m, id);
    } else {
      PublishKept(r, i, n, m, id, j - 1);
      PublishNext(r, i, n, m, id, j - 1);
    }
  }

  /** The subscriber was promised the message in or after event `i`. */
  ghost predicate PromisedSince<M>(r: SystemRun<M>, i: nat, j: nat, id: SubscriptionId, m: M)
    requires i <= j <= |r.events|
  {
    var (before, now) := (Promised(r.After(i), id), Promised(r.After(j), id));
    before <= now && m in now[|before|..]
  }

  lemma SentIsPromised<M>(r: SystemRun<M>, i: nat, x: nat, j: nat, id: SubscriptionId, m: M)
    requires r.limits.Valid() && i <= x < j <= |r.events|
    requires id in r.After(i).broker.channels && Registered(r.After(j), id)
    requires SendOutcome(r.limits, r.After(x), r.After(x + 1), id, m)
    ensures PromisedSince(r, i, j, id, m)
  {
    hide SystemRun.After, Promised, Registered, HasRoom;
    Grows(r, i, x, id);
    Grows(r, i, j, id);
    Grows(r, i, x + 1, id);
    Grows(r, x + 1, j, id);
    var (before, now) := (Promised(r.After(i), id), Promised(r.After(j), id));
    assert now[|Promised(r.After(x), id)|] == m;
  }

  /**
   A publish reaches everybody: whoever is registered when it lists the subscribers gets one send of its message,
   run at most once; as soon as it has run, the subscriber has been promised the message, unless it is gone.
   Nobody else gets anything from it.
   */
  lemma PublishReachesEverybody<M>(r: SystemRun<M>, i: nat, n: nat, m: M, id: SubscriptionId, j: nat)
    requires r.limits.Valid() && Publishes(r, i, n, m) && i < j <= |r.events|
    ensures r.After(i + 1).broker == r.After(i).broker
    ensures Registered(r.After(i), id) ==>
      && Pending(r, i + 1, PartOf(n, id)) && Reaches(r, i, n, m, id, j)
      && (!Pending(r, j, PartOf(n, id)) && Registered(r.After(j), id) ==> PromisedSince(r, i, j, id, m))
    ensures !Registered(r.After(i), id) ==> forall x :: 0 <= x < j ==> !SendsAt(r, x, PartOf(n, id))
  {
    hide BrokerInv, TasksInv, SendOutcome, RunTask;
    TasksKept(r, i);
    PublishPiece(r.limits, r.After(i), Call(n), r.events[i].cancelTakesEffect);
    PublishStart(r, i, n, m, id);
    PublishKept(r, i, n, m, id, j);
    if Registered(r.After(i), id) && !Pending(r, j, PartOf(n, id)) && Registered(r.After(j), id) {
      var x :| 0 <= x < j && SendsAt(r, x, PartOf(n, id));
      RegisteredHasChannel(r.limits, r.After(i), id);
      SentIsPromised(r, i, x, j, id, m);
    }
  }

  lemma RegisteredHasChannel<M>(limits: Limits, s: System<M>, id: SubscriptionId)
    requires BrokerInv(limits, s.broker) && Registered(s, id)
    ensures id in s.broker.channels
  {
  }

  // ---------------------------------------------------------------- a close, for good

  lemma ClosedStays<M>(limits: Limits, s: System<M>, e: SystemEvent<M>)
    requires Enabled(s, e) && s.broker.closed
    ensures Next(limits, s, e).broker.closed
  {
  }

  lemma {:induction false} ClosedFrom<M>(r: SystemRun<M>, i: nat, j: nat)
    requires i <= j <= |r.events| && r.After(i).broker.closed
    ensures r.After(j).broker.closed
  {
    hide Next, Enabled;
    if i < j {
      ClosedFrom(r, i, j - 1);
      if Enabled(r.After(j - 1), r.events[j - 1]) {
        ClosedStays(r.limits, r.After(j - 1), r.events[j - 1]);
      }
    }
  }

  /**
   Once a close has run nobody is connected ever again, and everybody who was is shut down: their sink has been
   closed exactly once as soon as nobody is left who still has to.
   */
  lemma CloseIsFinal<M>(r: SystemRun<M>, i: nat, t: TaskId, j: nat, id: SubscriptionId)
    requires r.limits.Valid() && i < j <= |r.events|
    requires RunsTask(r.events[i], t) && t in r.After(i).tasks && r.After(i).tasks[t].CloseCall?
    ensures var s := r.After(j);
      && s.broker.closed && s.broker.registered == map[]
      && (Registered(r.After(i), id) && Holders(s.tasks, id) == {} && !WriterHolds(s.broker, id) ==> s.closes[id] == 1)
  {
    hide BrokerInv, TasksInv, RunTask, WriterHolds, Holders;
    TasksKept(r, i);
    ClosePiece(r.limits, r.After(i), t, r.events[i].cancelTakesEffect);
    assert r.After(i + 1) == RunTask(r.limits, r.After(i), t, r.events[i].cancelTakesEffect);
    ClosedFrom(r, i + 1, j);
    r.NoSilentLoss(j);
    if Registered(r.After(i), id) {
      RegisteredHasChannel(r.limits, r.After(i), id);
      Grows(r, i, j, id);
      r.SinkClosedOnce(j, id);
    }
  }

  // ---------------------------------------------------------------- the other ways out

  /** Whoever was disconnected is gone for good, nobody else is, and the sink is closed exactly once. */
  lemma DisconnectIsFinal<M>(r: SystemRun<M>, i: nat, t: TaskId, j: nat)
    requires r.limits.Valid() && i < j <= |r.events|
    requires RunsTask(r.events[i], t) && t in r.After(i).tasks && r.After(i).tasks[t].DisconnectCall?
    requires Registered(r.After(i), r.After(i).tasks[t].id)
    ensures var (id, s) := (r.After(i).tasks[t].id, r.After(j));
      && !Registered(s, id)
      && (forall x :: x != id ==> (Registered(r.After(i + 1), x) <==> Registered(r.After(i), x)))
      && (Holders(s.tasks, id) == {} && !WriterHolds(s.broker, id) ==> s.closes[id] == 1)
  {
    hide BrokerInv, TasksInv, RunTask, WriterHolds, Holders;
    var id := r.After(i).tasks[t].id;
    TasksKept(r, i);
    DisconnectPiece(r.limits, r.After(i), t, r.events[i].cancelTakesEffect);
    assert r.After(i + 1) == RunTask(r.limits, r.After(i), t, r.events[i].cancelTakesEffect);
    RegisteredHasChannel(r.limits, r.After(i), id);
    Grows(r, i, i + 1, id);
    Grows(r, i + 1, j, id);
    r.SinkClosedOnce(j, id);
  }

  /** The subscriber is gone and its writer has ended. */
  ghost predicate Over<M>(s: System<M>, id: SubscriptionId, c: Channel<M>) {
    id in s.broker.channels && s.broker.channels[id] == c && c.writer.Ended? && !Registered(s, id)
  }

  lemma OverInBroker<M>(limits: Limits, b: Broker<M>, e: BrokerEvent<M>, id: SubscriptionId)
    requires id in b.channels && b.channels[id].writer.Ended? && id !in b.registered && !e.Offer?
    ensures var t := Apply(limits, b, e); id in t.channels && t.channels[id] == b.channels[id] && id !in t.registered
  {
    hide SubscribeRefusal;
  }

  lemma OverInTask<M>(limits: Limits, s: System<M>, t: TaskId, c: bool, id: SubscriptionId, channel: Channel<M>)
    requires t in s.tasks && Over(s, id, channel)
    ensures Over(RunTask(limits, s, t, c), id, channel)
  {
    hide Apply;
    match s.tasks[t]
    case Shutdown(x) => OverInBroker(limits, s.broker, WriterCancelled(x), id);
    case _ =>
  }

  lemma OverStays<M>(limits: Limits, s: System<M>, e: SystemEvent<M>, id: SubscriptionId, c: Channel<M>)
    requires Enabled(s, e) && Over(s, id, c)
    ensures Over(Next(limits, s, e), id, c)
  {
    hide Apply, RunTask;
    match e
    case Arrives(_, _) =>
    case Joins(x, owner) => OverInBroker(limits, s.broker, Subscribe(x, owner), id);
    case WriterMoves(w) => OverInBroker(limits, s.broker, w, id);
    case Runs(t, cancels) => OverInTask(limits, s, t, cancels, id, c);
  }

  lemma {:induction false} OverFrom<M>(r: SystemRun<M>, i: nat, j: nat, id: SubscriptionId, c: Channel<M>)
    requires i <= j <= |r.events| && Over(r.After(i), id, c)
    ensures Over(r.After(j), id, c)
  {
    hide Next, Enabled, Over;
    if i < j {
      OverFrom(r, i, j - 1, id, c);
      if Enabled(r.After(j - 1), r.events[j - 1]) {
        OverStays(r.limits, r.After(j - 1), r.events[j - 1], id, c);
      }
    }
  }

  /** From a shutdown whose cancellation takes effect on, nothing more reaches the subscriber. */
  lemma ShutdownStops<M>(r: SystemRun<M>, i: nat, t: TaskId, j: nat)
    requires i < j <= |r.events| && RunsTask(r.events[i], t) && r.events[i].cancelTakesEffect
    requires t in r.After(i).tasks && r.After(i).tasks[t].Shutdown? && Cancellable(r.After(i), r.After(i).tasks[t].id)
    ensures var (id, s) := (r.After(i).tasks[t].id, r.After(j));
      && id in s.broker.channels && s.broker.channels[id].writer.Ended?
      && s.broker.channels[id].delivered == r.After(i).broker.channels[id].delivered
      && Promised(s, id) == Promised(r.After(i), id)
  {
    hide Next, Over;
    var (id, s) := (r.After(i).tasks[t].id, r.After(i));
    ShutdownPieces(r.limits, s, t, true);
    assert r.After(i + 1) == Next(r.limits, s, r.events[i]);
    NowOver(r.limits, s, r.events[i], t);
    OverFrom(r, i + 1, j, id, r.After(i + 1).broker.channels[id]);
    StillOver(r.After(j), id, r.After(i + 1).broker.channels[id]);
  }

  lemma NowOver<M>(limits: Limits, s: System<M>, e: SystemEvent<M>, t: TaskId)
    requires RunsTask(e, t) && e.cancelTakesEffect && t in s.tasks && s.tasks[t].Shutdown?
    requires Cancellable(s, s.tasks[t].id)
    ensures var (id, after) := (s.tasks[t].id, Next(limits, s, e));
      && id in after.broker.channels && Over(after, id, after.broker.channels[id])
      && after.broker.channels[id].delivered == s.broker.channels[id].delivered
      && after.broker.channels[id].accepted == s.broker.channels[id].accepted
  {
  }

  lemma StillOver<M>(s: System<M>, id: SubscriptionId, c: Channel<M>)
    requires Over(s, id, c)
    ensures id in s.broker.channels && s.broker.channels[id] == c && c.writer.Ended?
  {
  }

  predicate Failing<M>(s: System<M>, id: SubscriptionId) {
    id in s.broker.channels && s.broker.channels[id].writer.Failing?
  }

  lemma FailingInBroker<M>(limits: Limits, b: Broker<M>, e: BrokerEvent<M>, id: SubscriptionId)
    requires id in b.channels && b.channels[id].writer.Failing? && !e.Offer? && e != WriterCleansUp(id)
    ensures var t := Apply(limits, b, e); id in t.registered ==> id in t.channels && t.channels[id].writer.Failing?
  {
    hide SubscribeRefusal;
  }

  lemma FailingInTask<M>(limits: Limits, s: System<M>, t: TaskId, c: bool, id: SubscriptionId)
    requires t in s.tasks && Failing(s, id)
    ensures Registered(RunTask(limits, s, t, c), id) ==> Failing(RunTask(limits, s, t, c), id)
  {
    hide Apply;
    match s.tasks[t]
    case Shutdown(x) => FailingInBroker(limits, s.broker, WriterCancelled(x), id);
    case _ =>
  }

  /** A failed writer stays failed until it cleans up, unless its subscriber is removed before. */
  lemma FailingStays<M>(limits: Limits, s: System<M>, e: SystemEvent<M>, id: SubscriptionId)
    requires Enabled(s, e) && Failing(s, id) && e != WriterMoves(WriterCleansUp(id))
    ensures Registered(Next(limits, s, e), id) ==> Failing(Next(limits, s, e), id)
  {
    hide Apply, RunTask;
    match e
    case Arrives(_, _) =>
    case Joins(x, owner) => FailingInBroker(limits, s.broker, Subscribe(x, owner), id);
    case WriterMoves(w) => FailingInBroker(limits, s.broker, w, id);
    case Runs(t, c) => FailingInTask(limits, s, t, c, id);
  }

  lemma {:induction false} FailingFrom<M>(r: SystemRun<M>, i: nat, k: nat, id: SubscriptionId)
    requires r.limits.Valid() && i <= k <= |r.events| && Failing(r.After(i), id)
    requires forall x :: i <= x < k ==> r.events[x] != WriterMoves(WriterCleansUp(id))
    ensures Registered(r.After(k), id) ==> Failing(r.After(k), id)
  {
    hide Next, Enabled, Failing, BrokerInv, TasksInv;
    if i < k {
      FailingFrom(r, i, k - 1, id);
      HasChannel(r.After(i), id);
      Grows(r, i, k - 1, id);
      Grows(r, k - 1, k, id);
      if Enabled(r.After(k - 1), r.events[k - 1]) && Registered(r.After(k), id) {
        FailingStays(r.limits, r.After(k - 1), r.events[k - 1], id);
      }
    }
  }

  lemma HasChannel<M>(s: System<M>, id: SubscriptionId)
    requires Failing(s, id)
    ensures id in s.broker.channels
  {
  }

  lemma FailPiece<M>(limits: Limits, s: System<M>, id: SubscriptionId)
    requires id in s.broker.channels && s.broker.channels[id].writer.Sending?
    ensures Failing(Next(limits, s, WriterMoves(WriterFails(id))), id)
    ensures Next(limits, s, WriterMoves(WriterFails(id))).broker.registered == s.broker.registered
  {
  }

  lemma CleanUpPiece<M>(limits: Limits, s: System<M>, id: SubscriptionId)
    ensures var t := Next(limits, s, WriterMoves(WriterCleansUp(id)));
      && (Registered(s, id) && Failing(s, id) ==> !Registered(t, id) && WriterHolds(t.broker, id))
      && forall x :: x != id ==> (Registered(t, x) <==> Registered(s, x))
  {
  }

  /**
   A send that fails in event `i` costs its own subscriber the connection, for good, as soon as the writer cleans up
   in event `k`; nobody else is touched, and the sink is closed exactly once.
   */
  lemma FailureIsFinal<M>(r: SystemRun<M>, i: nat, k: nat, j: nat, id: SubscriptionId)
    requires r.limits.Valid() && i < k < j <= |r.events|
    requires r.events[i] == WriterMoves(WriterFails(id)) && r.events[k] == WriterMoves(WriterCleansUp(id))
    requires forall x :: i < x < k ==> r.events[x] != WriterMoves(WriterCleansUp(id))
    requires id in r.After(i).broker.channels && r.After(i).broker.channels[id].writer.Sending?
    ensures !Registered(r.After(j), id)
    ensures forall x :: x != id ==> (Registered(r.After(k + 1), x) <==> Registered(r.After(k), x))
    ensures var s := r.After(j);
      Holders(s.tasks, id) == {} && !WriterHolds(s.broker, id) ==> s.closes[id] == 1
  {
    hide Next, BrokerInv, TasksInv, WriterHolds, Holders, Failing;
    FailPiece(r.limits, r.After(i), id);
    FailingFrom(r, i + 1, k, id);
    CleanUpPiece(r.limits, r.After(k), id);
    assert r.After(k + 1) == Next(r.limits, r.After(k), r.events[k]);
    Grows(r, i, k, id);
    Grows(r, k, k + 1, id);
    Grows(r, k + 1, j, id);
    r.SinkClosedOnce(j, id);
  }
}
