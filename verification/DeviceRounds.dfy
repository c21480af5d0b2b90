/**
 That the signal-device channel gets anywhere: an update that changes something is sent to every connected device
 and the aggregator is free again, and a reconnecting device is brought up to date.
 */
module DeviceRounds {
  import opened Wrappers
  import opened WorkSessions
  import opened Brokers
  import opened SafetyAggregation
  import opened DeviceStream

  function Promised(c: Stream, id: SubscriptionId): seq<Message> {
    if id in c.broker.channels then c.broker.channels[id].accepted else []
  }

  predicate HasRoom(limits: Limits, c: Stream, id: SubscriptionId) {
    id in c.broker.channels && |c.broker.channels[id].queue| < limits.queueCapacity
  }

  /** A connected device with room gets the message and stays; one without room is disconnected without it. */
  ghost predicate Got(limits: Limits, c: Stream, d: Stream, id: SubscriptionId, m: Message) {
    && (id in c.broker.registered && HasRoom(limits, c, id) ==>
      id in d.broker.registered && Promised(d, id) == Promised(c, id) + [m])
    && (id in c.broker.registered && !HasRoom(limits, c, id) ==>
      id !in d.broker.registered && Promised(d, id) == Promised(c, id))
    && (id !in c.broker.registered ==> Untouched(c, d, id))
  }

  ghost predicate Untouched(c: Stream, d: Stream, id: SubscriptionId) {
    && (id in d.broker.registered <==> id in c.broker.registered)
    && (id in d.broker.channels <==> id in c.broker.channels)
    && (id in c.broker.channels ==> d.broker.channels[id] == c.broker.channels[id])
  }

  lemma OneSend(limits: Limits, c: Stream, id: SubscriptionId)
    requires BrokerInv(limits, c.broker) && c.lock.Publishing? && id in c.lock.pending
    ensures var d := Next(limits, c, SendOne(id));
      && Got(limits, c, d, id, c.lock.message) && (forall x :: x != id ==> Untouched(c, d, x))
      && d.lock == Publishing(c.lock.message, c.lock.pending - {id})
      && d.history == c.history && d.aggregator == c.aggregator && d.synced == c.synced
  {
    hide ChannelInv, OwnedBy;
  }

  /** The sends of a publish, in this order. */
  function Sent(limits: Limits, c: Stream, ids: seq<SubscriptionId>): Stream {
    if ids == [] then c
    else
      var d := Sent(limits, c, ids[..|ids| - 1]);
      if Enabled(d, SendOne(ids[|ids| - 1])) then Next(limits, d, SendOne(ids[|ids| - 1])) else d
  }

  ghost predicate SentTo(limits: Limits, c: Stream, d: Stream, ids: seq<SubscriptionId>)
    requires c.lock.Publishing?
  {
    && BrokerInv(limits, d.broker)
    && d.lock == Publishing(c.lock.message, c.lock.pending - Among(ids))
    && d.history == c.history && d.aggregator == c.aggregator && d.synced == c.synced
    && (forall id :: id in ids ==> Got(limits, c, d, id, c.lock.message))
    && (forall id :: id !in ids ==> Untouched(c, d, id))
  }

  function Among(ids: seq<SubscriptionId>): set<SubscriptionId> {
    set id | id in ids
  }

  lemma UntouchedStill(limits: Limits, c: Stream, d: Stream, e: Stream, id: SubscriptionId, m: Message)
    requires Untouched(d, e, id)
    ensures Untouched(c, d, id) ==> Untouched(c, e, id)
    ensures Got(limits, c, d, id, m) ==> Got(limits, c, e, id, m)
  {
  }

  lemma GotNow(limits: Limits, c: Stream, d: Stream, e: Stream, id: SubscriptionId, m: Message)
    requires Untouched(c, d, id) && Got(limits, d, e, id, m)
    ensures Got(limits, c, e, id, m)
  {
  }

  lemma OneMoreSent(limits: Limits, c: Stream, d: Stream, rest: seq<SubscriptionId>, id: SubscriptionId)
    requires c.lock.Publishing? && SentTo(limits, c, d, rest) && id in c.lock.pending && id !in rest
    ensures Enabled(d, SendOne(id)) && SentTo(limits, c, Next(limits, d, SendOne(id)), rest + [id])
  {
    hide BrokerInv, Got, Untouched, Next;
    var e := Next(limits, d, SendOne(id));
    OneSend(limits, d, id);
    BrokerKept(limits, d, SendOne(id));
    GotNow(limits, c, d, e, id, c.lock.message);
    assert Among(rest + [id]) == Among(rest) + {id};
    forall x | x != id ensures x in rest ==> Got(limits, c, e, x, c.lock.message)
      ensures x !in rest ==> Untouched(c, e, x)
    {
      UntouchedStill(limits, c, d, e, x, c.lock.message);
    }
  }

  lemma NothingSent(limits: Limits, c: Stream)
    requires BrokerInv(limits, c.broker) && c.lock.Publishing?
    ensures SentTo(limits, c, c, [])
  {
    assert Among([]) == {};
  }

  /** The sends reach every listed subscriber, whatever their order. */
  lemma {:induction false} SendsReach(limits: Limits, c: Stream, ids: seq<SubscriptionId>)
    requires BrokerInv(limits, c.broker) && c.lock.Publishing? && NoRepeats(ids)
    requires forall id :: id in ids ==> id in c.lock.pending
    ensures SentTo(limits, c, Sent(limits, c, ids), ids)
  {
    hide BrokerInv, SentTo, Next, Enabled;
    if ids == [] {
      NothingSent(limits, c);
    } else {
      var (rest, last) := (ids[..|ids| - 1], ids[|ids| - 1]);
      SendsReach(limits, c, rest);
      assert ids == rest + [last];
      OneMoreSent(limits, c, Sent(limits, c, rest), rest, last);
    }
  }

  /**
   A whole round: an update that changes what is in force is published to everybody connected, in whatever order
   the sends run, and leaves the aggregator free; one that changes nothing visible sends nothing.
   */
  lemma RoundReachesDevices(limits: Limits, c: Stream, source: Source, conditions: seq<SafetyCondition>, now: Time,
                            ids: seq<SubscriptionId>)
    requires BrokerInv(limits, c.broker) && c.lock.Nobody? && NoRepeats(ids)
    requires forall id :: id in ids <==> id in c.broker.registered
    ensures var d := Next(limits, c, UpdateArrives(source, conditions, now));
      && d.broker == c.broker && d.synced == c.synced
      && (d.aggregator.current == c.aggregator.current ==> d.lock.Nobody? && d.history == c.history)
      && (d.aggregator.current != c.aggregator.current ==>
        && d.aggregator.current.Some? && d.history == c.history + [d.aggregator.current.value]
        && Enabled(d, ListSubscribers)
        && var f := Sent(limits, Next(limits, d, ListSubscribers), ids);
        && Enabled(f, PublishEnds) && Next(limits, f, PublishEnds).lock.Nobody?
        && Next(limits, f, PublishEnds).aggregator == d.aggregator
        && (forall id ::
          Got(limits, c, Next(limits, f, PublishEnds), id, d.aggregator.current.value)))
  {
    hide BrokerInv, Got, Put, Calculate;
    var d := Next(limits, c, UpdateArrives(source, conditions, now));
    UpdateChanges(limits, c, source, conditions, now);
    if d.aggregator.current != c.aggregator.current {
      var e := Next(limits, d, ListSubscribers);
      SendsReach(limits, e, ids);
      var f := Sent(limits, e, ids);
      assert e.lock.pending - Among(ids) == {};
      forall id ensures Got(limits, c, Next(limits, f, PublishEnds), id, d.aggregator.current.value) {
        SameBroker(limits, c, e, f, Next(limits, f, PublishEnds), id, d.aggregator.current.value, ids);
      }
    }
  }

  lemma SameBroker(limits: Limits, c: Stream, e: Stream, f: Stream, g: Stream, id: SubscriptionId, m: Message,
                   ids: seq<SubscriptionId>)
    requires e.broker == c.broker && g.broker == f.broker && (id in ids <==> id in c.broker.registered)
    requires if id in ids then Got(limits, e, f, id, m) else Untouched(e, f, id)
    ensures Got(limits, c, g, id, m)
  {
  }

  /** An update announces its message exactly when it changes the one in force. */
  lemma UpdateChanges(limits: Limits, c: Stream, source: Source, conditions: seq<SafetyCondition>, now: Time)
    requires c.lock.Nobody?
    ensures var d := Next(limits, c, UpdateArrives(source, conditions, now));
      && d.broker == c.broker && d.synced == c.synced
      && (d.aggregator.current == c.aggregator.current ==> d.lock.Nobody? && d.history == c.history)
      && (d.aggregator.current != c.aggregator.current ==>
        && d.aggregator.current.Some? && d.lock == Announcing(d.aggregator.current.value)
        && d.history == c.history + [d.aggregator.current.value])
  {
    hide Put, Calculate;
  }

  /**
   A device that reconnects while the aggregator is free is sent the message in force, if there is one, and counts
   as synchronized from then on; the aggregator is free again.
   */
  lemma ReconnectSynchronizes(limits: Limits, c: Stream, id: SubscriptionId)
    requires BrokerInv(limits, c.broker) && c.lock.Nobody? && id in c.broker.registered && HasRoom(limits, c, id)
    ensures Enabled(c, ReconnectBegins(id))
    ensures var d := Next(limits, c, ReconnectBegins(id));
      if c.aggregator.current.None? then d == c.(synced := c.synced + {id})
      else
        && Enabled(d, ReconnectSends)
        && var e := Next(limits, d, ReconnectSends);
        && e.lock.Nobody? && id in e.synced && id in e.broker.registered
        && Promised(e, id) == Promised(c, id) + [c.aggregator.current.value]
        && e.aggregator == c.aggregator && e.history == c.history
        && forall x :: x != id ==> Untouched(c, e, x)
  {
    hide ChannelInv, OwnedBy;
  }
}
