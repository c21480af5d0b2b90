/**
 The realtime broker: a dictionary of subscribers with bounded queues, changed only in short
 blocks under one lock, and one writer per subscriber that takes messages from its queue.
 */
module Brokers {
  import opened Wrappers

  type SubscriptionId = nat

  /** Where the writer task of a subscriber is. */
  datatype Writer<M> =
    | Waiting               // for a message
    | Sending(message: M)   // inside sink.send
    | Failing(message: M)   // sink.send raised; on the way to remove its subscriber
    | ClosingSink           // removed its own subscriber; about to close the sink
    | Ended

  /** The queue and writer of a subscriber outlive its entry in the dictionary. */
  datatype Channel<M> = Channel(queue: seq<M>, writer: Writer<M>, accepted: seq<M>, delivered: seq<M>)
  {
    function InFlight(): seq<M> {
      if writer.Sending? || writer.Failing? then [writer.message] else []
    }
  }

  datatype Limits = Limits(queueCapacity: nat, maxConnections: nat, maxPerOwner: nat)
  {
    predicate Valid() {
      0 < queueCapacity && 0 < maxPerOwner <= maxConnections
    }
  }

  datatype Broker<M> = Broker(closed: bool, registered: map<SubscriptionId, Option<int>>,
                              channels: map<SubscriptionId, Channel<M>>)

  datatype SubscribeError = BadOwner | BrokerClosed | GlobalCapacity | OwnerCapacity | IdInUse

  datatype SendOutcome = Unknown | Enqueued | Overflowed

  function OwnedBy(registered: map<SubscriptionId, Option<int>>, owner: Option<int>): set<SubscriptionId> {
    set id | id in registered && registered[id] == owner
  }

  function SubscribeRefusal<M>(limits: Limits, b: Broker<M>, owner: Option<int>): Option<SubscribeError> {
    if owner.Some? && owner.value <= 0 then Some(BadOwner)
    else if b.closed then Some(BrokerClosed)
    else if |b.registered| >= limits.maxConnections then Some(GlobalCapacity)
    else if owner.Some? && |OwnedBy(b.registered, owner)| >= limits.maxPerOwner then Some(OwnerCapacity)
    else None
  }

  function Subscribed<M>(b: Broker<M>, id: SubscriptionId, owner: Option<int>): Broker<M> {
    b.(registered := b.registered[id := owner], channels := b.channels[id := Channel([], Waiting, [], [])])
  }

  function Popped<M>(b: Broker<M>, id: SubscriptionId): Broker<M> {
    b.(registered := b.registered - {id})
  }

  /** The locked block of `send_to`: an accepted message is queued; a full queue removes the subscriber. */
  function Offered<M>(limits: Limits, b: Broker<M>, id: SubscriptionId, m: M): (Broker<M>, SendOutcome) {
    if id !in b.registered || id !in b.channels then (b, Unknown)
    else
      var c := b.channels[id];
      if |c.queue| < limits.queueCapacity
      then (b.(channels := b.channels[id := c.(queue := c.queue + [m], accepted := c.accepted + [m])]), Enqueued)
      else (Popped(b, id), Overflowed)
  }

  function Closed<M>(b: Broker<M>): Broker<M> {
    b.(closed := true, registered := map[])
  }

  // ---------------------------------------------------------------- writer steps

  function Taken<M>(c: Channel<M>): Channel<M> {
    if c.writer.Waiting? && c.queue != [] then c.(writer := Sending(c.queue[0]), queue := c.queue[1..]) else c
  }

  function SendCompleted<M>(c: Channel<M>): Channel<M> {
    if c.writer.Sending? then c.(writer := Waiting, delivered := c.delivered + [c.writer.message]) else c
  }

  function SendRaised<M>(c: Channel<M>): Channel<M> {
    if c.writer.Sending? then c.(writer := Failing(c.writer.message)) else c
  }

  /** Cancellation reaches the writer only after its subscriber has been removed. */
  function Cancelled<M>(c: Channel<M>): Channel<M> {
    if c.writer.ClosingSink? then c else c.(writer := Ended)
  }

  function SinkClosed<M>(c: Channel<M>): Channel<M> {
    if c.writer.ClosingSink? then c.(writer := Ended) else c
  }

  function WithChannel<M>(b: Broker<M>, id: SubscriptionId, c: Channel<M>): Broker<M> {
    b.(channels := b.channels[id := c])
  }

  /** `_remove_failed_writer`: the failed writer removes its own subscriber unless somebody already has. */
  function CleanedUp<M>(b: Broker<M>, id: SubscriptionId): Broker<M> {
    if id !in b.channels || !b.channels[id].writer.Failing? then b
    else if id in b.registered then Popped(b, id).(channels := b.channels[id := b.channels[id].(writer := ClosingSink)])
    else b.(channels := b.channels[id := b.channels[id].(writer := Ended)])
  }

  /** Everything that happens to a broker in one indivisible piece. */
  datatype BrokerEvent<M> =
    | Subscribe(id: SubscriptionId, owner: Option<int>)
    | Offer(id: SubscriptionId, message: M)
    | Pop(id: SubscriptionId)
    | CloseAll
    | WriterTakes(id: SubscriptionId)
    | WriterDelivers(id: SubscriptionId)
    | WriterFails(id: SubscriptionId)
    | WriterCleansUp(id: SubscriptionId)
    | WriterCancelled(id: SubscriptionId)
    | WriterClosesSink(id: SubscriptionId)

  function Apply<M>(limits: Limits, b: Broker<M>, e: BrokerEvent<M>): Broker<M> {
    match e
    case Subscribe(id, owner) =>
      if id in b.channels || SubscribeRefusal(limits, b, owner).Some? then b else Subscribed(b, id, owner)
    case Offer(id, m) => Offered(limits, b, id, m).0
    case Pop(id) => Popped(b, id)
    case CloseAll => if b.closed then b else Closed(b)
    case WriterTakes(id) => if id in b.channels then WithChannel(b, id, Taken(b.channels[id])) else b
    case WriterDelivers(id) => if id in b.channels then WithChannel(b, id, SendCompleted(b.channels[id])) else b
    case WriterFails(id) => if id in b.channels then WithChannel(b, id, SendRaised(b.channels[id])) else b
    case WriterCleansUp(id) => CleanedUp(b, id)
    case WriterCancelled(id) =>
      if id in b.channels && id !in b.registered then WithChannel(b, id, Cancelled(b.channels[id])) else b
    case WriterClosesSink(id) => if id in b.channels then WithChannel(b, id, SinkClosed(b.channels[id])) else b
  }

  // ---------------------------------------------------------------- invariant: no silent loss

  ghost predicate ChannelInv<M>(limits: Limits, c: Channel<M>) {
    && |c.queue| <= limits.queueCapacity
    && (if c.writer.ClosingSink? || c.writer.Ended? then c.delivered <= c.accepted
        else c.accepted == c.delivered + c.InFlight() + c.queue)
  }

  ghost predicate BrokerInv<M>(limits: Limits, b: Broker<M>) {
    && limits.Valid()
    && (forall id :: id in b.channels ==> ChannelInv(limits, b.channels[id]))
    && (forall id :: id in b.registered ==>
      id in b.channels && !b.channels[id].writer.ClosingSink? && !b.channels[id].writer.Ended?)
    && |b.registered| <= limits.maxConnections
    && (forall owner: Option<int> :: owner.Some? ==> |OwnedBy(b.registered, owner)| <= limits.maxPerOwner)
    && (b.closed ==> b.registered == map[])
  }

  lemma FewerOwned(before: map<SubscriptionId, Option<int>>, after: map<SubscriptionId, Option<int>>,
                   owner: Option<int>)
    requires forall id :: id in after ==> id in before && after[id] == before[id]
    ensures |after| <= |before| && |OwnedBy(after, owner)| <= |OwnedBy(before, owner)|
  {
    Subset(after.Keys, before.Keys);
    assert |after| == |after.Keys| && |before| == |before.Keys|;
    Subset(OwnedBy(after, owner), OwnedBy(before, owner));
  }

  lemma Subset<T>(a: set<T>, b: set<T>)
    requires a <= b
    ensures |a| <= |b|
  {
    assert b == a + (b - a);
  }

  lemma RemovalKeeps<M>(limits: Limits, b: Broker<M>, after: map<SubscriptionId, Option<int>>)
    requires BrokerInv(limits, b)
    requires forall id :: id in after ==> id in b.registered && after[id] == b.registered[id]
    ensures BrokerInv(limits, b.(registered := after))
  {
    forall owner: Option<int> | owner.Some?
      ensures |OwnedBy(after, owner)| <= limits.maxPerOwner
    {
      FewerOwned(b.registered, after, owner);
    }
    FewerOwned(b.registered, after, None);
    if b.closed { assert after == map[]; }
  }

  lemma OneMoreOwned(registered: map<SubscriptionId, Option<int>>, id: SubscriptionId, owner: Option<int>,
                     o: Option<int>)
    requires id !in registered
    ensures |OwnedBy(registered[id := owner], o)| == |OwnedBy(registered, o)| + if o == owner then 1 else 0
  {
    var (before, after) := (OwnedBy(registered, o), OwnedBy(registered[id := owner], o));
    if o == owner {
      assert after == before + {id};
    } else {
      assert after == before;
    }
  }

  lemma OneMoreRegistered(registered: map<SubscriptionId, Option<int>>, id: SubscriptionId, owner: Option<int>)
    requires id !in registered
    ensures |registered[id := owner]| == |registered| + 1
  {
    var after := registered[id := owner];
    assert after.Keys == registered.Keys + {id};
    assert |after| == |after.Keys| && |registered| == |registered.Keys|;
  }

  lemma SubscribeKeeps<M>(limits: Limits, b: Broker<M>, id: SubscriptionId, owner: Option<int>)
    requires BrokerInv(limits, b) && id !in b.channels && SubscribeRefusal(limits, b, owner).None?
    ensures BrokerInv(limits, Subscribed(b, id, owner))
  {
    forall o: Option<int> | o.Some?
      ensures |OwnedBy(b.registered[id := owner], o)| <= limits.maxPerOwner
    {
      OneMoreOwned(b.registered, id, owner, o);
    }
    OneMoreRegistered(b.registered, id, owner);
    hide OwnedBy;
  }

  lemma ChannelChangeKeeps<M>(limits: Limits, b: Broker<M>, id: SubscriptionId, c: Channel<M>)
    requires BrokerInv(limits, b) && id in b.channels && ChannelInv(limits, c)
    requires id in b.registered ==> !c.writer.ClosingSink? && !c.writer.Ended?
    ensures BrokerInv(limits, WithChannel(b, id, c))
  {
  }

  lemma WriterStepsKeep<M>(limits: Limits, c: Channel<M>)
    requires ChannelInv(limits, c)
    ensures ChannelInv(limits, Taken(c)) && ChannelInv(limits, SendCompleted(c)) && ChannelInv(limits, SendRaised(c))
    ensures ChannelInv(limits, Cancelled(c)) && ChannelInv(limits, SinkClosed(c))
  {
  }

  lemma OfferKeeps<M>(limits: Limits, b: Broker<M>, id: SubscriptionId, m: M)
    requires BrokerInv(limits, b)
    ensures BrokerInv(limits, Offered(limits, b, id, m).0)
  {
    if id in b.registered {
      var c := b.channels[id];
      if |c.queue| < limits.queueCapacity {
        ChannelChangeKeeps(limits, b, id, c.(queue := c.queue + [m], accepted := c.accepted + [m]));
      } else {
        RemovalKeeps(limits, b, b.registered - {id});
      }
    }
  }

  lemma CleanUpKeeps<M>(limits: Limits, b: Broker<M>, id: SubscriptionId)
    requires BrokerInv(limits, b)
    ensures BrokerInv(limits, CleanedUp(b, id))
  {
    if id in b.channels && b.channels[id].writer.Failing? {
      var c := b.channels[id];
      RemovalKeeps(limits, b, b.registered - {id});
      if id in b.registered {
        ChannelChangeKeeps(limits, Popped(b, id), id, c.(writer := ClosingSink));
      } else {
        ChannelChangeKeeps(limits, b, id, c.(writer := Ended));
      }
    }
  }

  lemma WriterEventKeeps<M>(limits: Limits, b: Broker<M>, id: SubscriptionId, c: Channel<M>)
    requires BrokerInv(limits, b) && id in b.channels
    requires ChannelInv(limits, c) && (id in b.registered ==> !c.writer.ClosingSink? && !c.writer.Ended?)
    ensures BrokerInv(limits, WithChannel(b, id, c))
  {
    ChannelChangeKeeps(limits, b, id, c);
  }

  /** Every event keeps the limits, and every message a subscriber was promised is delivered, in flight or queued. */
  lemma ApplyInv<M>(limits: Limits, b: Broker<M>, e: BrokerEvent<M>)
    requires BrokerInv(limits, b)
    ensures BrokerInv(limits, Apply(limits, b, e))
  {
    match e
    case Subscribe(id, owner) =>
      if id !in b.channels && SubscribeRefusal(limits, b, owner).None? { SubscribeKeeps(limits, b, id, owner); }
    case Offer(id, m) => OfferKeeps(limits, b, id, m);
    case Pop(id) => RemovalKeeps(limits, b, b.registered - {id});
    case CloseAll => RemovalKeeps(limits, b, map[]);
    case WriterCleansUp(id) => CleanUpKeeps(limits, b, id);
    case WriterTakes(id) =>
      if id in b.channels {
        WriterStepsKeep(limits, b.channels[id]);
        WriterEventKeeps(limits, b, id, Taken(b.channels[id]));
      }
    case WriterDelivers(id) =>
      if id in b.channels {
        WriterStepsKeep(limits, b.channels[id]);
        WriterEventKeeps(limits, b, id, SendCompleted(b.channels[id]));
      }
    case WriterFails(id) =>
      if id in b.channels {
        WriterStepsKeep(limits, b.channels[id]);
        WriterEventKeeps(limits, b, id, SendRaised(b.channels[id]));
      }
    case WriterCancelled(id) =>
      if id in b.channels && id !in b.registered {
        WriterStepsKeep(limits, b.channels[id]);
        WriterEventKeeps(limits, b, id, Cancelled(b.channels[id]));
      }
    case WriterClosesSink(id) =>
      if id in b.channels {
        WriterStepsKeep(limits, b.channels[id]);
        WriterEventKeeps(limits, b, id, SinkClosed(b.channels[id]));
      }
  }

  /** What a subscriber, registered or removed, has accepted changes by an offer only. */
  lemma AcceptedStays<M>(limits: Limits, b: Broker<M>, e: BrokerEvent<M>, id: SubscriptionId)
    requires !e.Offer? && id in Apply(limits, b, e).channels
    ensures var after := Apply(limits, b, e);
      after.channels[id].accepted == if id in b.channels then b.channels[id].accepted else []
  {
  }

  /** Nothing but an offer makes a subscriber accept anything, and no channel disappears. */
  lemma OnlyOffersAdd<M>(limits: Limits, b: Broker<M>, e: BrokerEvent<M>, id: SubscriptionId)
    requires BrokerInv(limits, b) && !e.Offer?
    ensures var after := Apply(limits, b, e);
      && b.channels.Keys <= after.channels.Keys
      && (id in after.registered && id in b.channels ==>
        id in b.registered && after.channels[id].accepted == b.channels[id].accepted)
      && (id in after.registered && id !in b.channels ==> id in after.channels && after.channels[id].accepted == [])
  {
    hide ChannelInv, OwnedBy, SubscribeRefusal;
  }

  // ---------------------------------------------------------------- the broker object

  class InMemoryRealtimeEventBroker<M(!new)> {
    const limits: Limits
    var subscribers: map<SubscriptionId, Option<int>>
    var channels: map<SubscriptionId, Channel<M>>
    var closed: bool

    ghost function Model(): Broker<M>
      reads this
    {
      Broker(closed, subscribers, channels)
    }

    ghost predicate Valid()
      reads this
    {
      BrokerInv(limits, Model())
    }

    constructor (limits: Limits)
      requires limits.Valid()
      ensures Valid() && this.limits == limits && Model() == Broker(false, map[], map[])
    {
      this.limits := limits;
      subscribers, channels, closed := map[], map[], false;
    }

    /** The locked block of `subscribe`; `id` is the new random identity. */
    method Subscribe(id: SubscriptionId, owner: Option<int>) returns (r: Result<SubscriptionId, SubscribeError>)
      requires Valid() && id !in channels
      modifies this
      ensures Valid() && Model() == Apply(limits, old(Model()), BrokerEvent.Subscribe(id, owner))
      ensures r == match SubscribeRefusal(limits, old(Model()), owner) case Some(e) => Err(e) case None => Ok(id)
    {
      ApplyInv(limits, Model(), BrokerEvent.Subscribe(id, owner));
      if owner.Some? && owner.value <= 0 { return Err(BadOwner); }
      if closed { return Err(BrokerClosed); }
      if |subscribers| >= limits.maxConnections { return Err(GlobalCapacity); }
      var ownerConnections := |OwnedBy(subscribers, owner)|;
      if owner.Some? && ownerConnections >= limits.maxPerOwner { return Err(OwnerCapacity); }
      subscribers := subscribers[id := owner];
      channels := channels[id := Channel([], Waiting, [], [])];
      r := Ok(id);
    }

    /** The locked block of `disconnect`: true for the one caller that removed the subscriber. */
    method PopSubscriber(id: SubscriptionId) returns (removed: bool)
      requires Valid()
      modifies this
      ensures Valid() && Model() == Apply(limits, old(Model()), Pop(id))
      ensures removed == (id in old(subscribers))
    {
      ApplyInv(limits, Model(), Pop(id));
      removed := id in subscribers;
      subscribers := subscribers - {id};
      assert Model() == Popped(old(Model()), id);
    }

    /** The locked block of `send_to`. */
    method OfferTo(id: SubscriptionId, message: M) returns (outcome: SendOutcome)
      requires Valid()
      modifies this
      ensures Valid() && (Model(), outcome) == Offered(limits, old(Model()), id, message)
    {
      ApplyInv(limits, Model(), Offer(id, message));
      if id !in subscribers { return Unknown; }
      var c := channels[id];
      if |c.queue| < limits.queueCapacity {
        channels := channels[id := c.(queue := c.queue + [message], accepted := c.accepted + [message])];
        outcome := Enqueued;
      } else {
        subscribers := subscribers - {id};
        outcome := Overflowed;
      }
    }

    /** The locked block of `publish`. */
    method SubscriptionIds() returns (ids: set<SubscriptionId>)
      ensures ids == subscribers.Keys
    {
      ids := subscribers.Keys;
    }

    /** The locked block of `close`: whom the one closing caller has to shut down. */
    method CloseBroker() returns (removed: set<SubscriptionId>)
      requires Valid()
      modifies this
      ensures Valid() && Model() == Apply(limits, old(Model()), CloseAll) && closed
      ensures removed == if old(closed) then {} else old(subscribers).Keys
    {
      ApplyInv(limits, Model(), CloseAll);
      if closed { return {}; }
      closed := true;
      removed := subscribers.Keys;
      subscribers := map[];
    }

    /** The writer takes the oldest queued message when it is waiting for one. */
    method WriterGet(id: SubscriptionId) returns (message: Option<M>)
      requires Valid() && id in channels
      modifies this
      ensures Valid() && Model() == Apply(limits, old(Model()), WriterTakes(id))
      ensures message.Some? <==> old(channels)[id].writer.Waiting? && old(channels)[id].queue != []
      ensures message.Some? ==> message.value == old(channels)[id].queue[0]
    {
      ApplyInv(limits, Model(), WriterTakes(id));
      var c := channels[id];
      message := if c.writer.Waiting? && c.queue != [] then Some(c.queue[0]) else None;
      channels := channels[id := Taken(c)];
    }

    /** The locked block of `_remove_failed_writer`: true when the writer removed its own subscriber. */
    method RemoveFailedWriter(id: SubscriptionId) returns (removed: bool)
      requires Valid() && id in channels && channels[id].writer.Failing?
      modifies this
      ensures Valid() && Model() == Apply(limits, old(Model()), WriterCleansUp(id))
      ensures removed == (id in old(subscribers))
    {
      ApplyInv(limits, Model(), WriterCleansUp(id));
      removed := id in subscribers;
      if removed {
        subscribers := subscribers - {id};
      }
      channels := channels[id := channels[id].(writer := if removed then ClosingSink else Ended)];
    }
  }
}
