/**
 The signal-device channel: the aggregator and its broker together. Updates and reconnect snapshots
 hold the aggregator's lock across their awaits; subscriptions, removals and writers interleave freely.
 */
module DeviceStream {
  import opened Wrappers
  import opened WorkSessions
  import opened Brokers
  import opened SafetyAggregation

  /** What holds the aggregator's lock. */
  datatype LockHolder =
    | Nobody
    | Announcing(message: Message)                                    // current replaced, publish not begun
    | Publishing(message: Message, pending: set<SubscriptionId>)      // sends still to run
    | HandingOver(id: SubscriptionId, message: Message)               // send_current before its send

  datatype Stream = Stream(
    aggregator: AggregatorState,
    broker: Broker<Message>,
    lock: LockHolder,
    history: seq<Message>,            // what has been published
    synced: set<SubscriptionId>)      // whose send_current has answered true

  datatype StreamEvent =
    | UpdateArrives(source: Source, conditions: seq<SafetyCondition>, now: Time)
    | ListSubscribers
    | SendOne(id: SubscriptionId)
    | PublishEnds
    | ReconnectBegins(id: SubscriptionId)
    | ReconnectSends
    | Network(event: BrokerEvent<Message>)

  /** Anything but a send: only the aggregator sends on this broker. */
  predicate Enabled(c: Stream, e: StreamEvent) {
    match e
    case UpdateArrives(_, _, _) => c.lock.Nobody?
    case ListSubscribers => c.lock.Announcing?
    case SendOne(id) => c.lock.Publishing? && id in c.lock.pending
    case PublishEnds => c.lock.Publishing? && c.lock.pending == {}
    case ReconnectBegins(id) => c.lock.Nobody? && id in c.broker.channels
    case ReconnectSends => c.lock.HandingOver?
    case Network(event) => !event.Offer?
  }

  function Next(limits: Limits, c: Stream, e: StreamEvent): Stream
    requires Enabled(c, e)
  {
    match e
    case UpdateArrives(source, conditions, now) =>
      var (aggregator, r) := UpdateStep(c.aggregator, source, conditions, now);
      if r.Ok? && r.value.1
      then c.(aggregator := aggregator, lock := Announcing(r.value.0), history := c.history + [r.value.0])
      else c.(aggregator := aggregator)
    case ListSubscribers => c.(lock := Publishing(c.lock.message, c.broker.registered.Keys))
    case SendOne(id) =>
      c.(broker := Offered(limits, c.broker, id, c.lock.message).0,
         lock := Publishing(c.lock.message, c.lock.pending - {id}))
    case PublishEnds => c.(lock := Nobody)
    case ReconnectBegins(id) =>
      if c.aggregator.current.None? then c.(synced := c.synced + {id})
      else c.(lock := HandingOver(id, c.aggregator.current.value))
    case ReconnectSends =>
      var (broker, outcome) := Offered(limits, c.broker, c.lock.id, c.lock.message);
      c.(broker := broker, lock := Nobody, synced := if outcome == Enqueued then c.synced + {c.lock.id} else c.synced)
    case Network(event) => c.(broker := Apply(limits, c.broker, event))
  }

  // ---------------------------------------------------------------- adjacent repetitions

  /** The sequence without immediate repetitions. */
  function Collapse(ms: seq<Message>): seq<Message> {
    if |ms| <= 1 then ms
    else
      var rest := Collapse(ms[..|ms| - 1]);
      if ms[|ms| - 1] == ms[|ms| - 2] then rest else rest + [ms[|ms| - 1]]
  }

  lemma {:induction false} CollapseLast(ms: seq<Message>)
    ensures ms != [] ==> Collapse(ms) != [] && Collapse(ms)[|Collapse(ms)| - 1] == ms[|ms| - 1]
    ensures ms == [] ==> Collapse(ms) == []
  {
    if |ms| > 1 { CollapseLast(ms[..|ms| - 1]); }
  }

  lemma CollapseAppend(ms: seq<Message>, m: Message)
    ensures Collapse(ms + [m]) ==
      if ms != [] && ms[|ms| - 1] == m then Collapse(ms) else Collapse(ms) + [m]
  {
    assert (ms + [m])[..|ms|] == ms;
  }

  lemma {:induction false} CollapsePrefix(ms: seq<Message>, longer: seq<Message>)
    requires ms <= longer
    ensures Collapse(ms) <= Collapse(longer)
    decreases |longer|
  {
    if |ms| < |longer| {
      assert ms <= longer[..|longer| - 1];
      CollapsePrefix(ms, longer[..|longer| - 1]);
    } else {
      assert ms == longer;
    }
  }

  ghost predicate IsStretch(part: seq<Message>, whole: seq<Message>, i: int) {
    0 <= i && i + |part| <= |whole| && part == whole[i..i + |part|]
  }

  ghost predicate IsSuffix(part: seq<Message>, whole: seq<Message>) {
    |part| <= |whole| && part == whole[|whole| - |part|..]
  }

  // ---------------------------------------------------------------- invariant

  /** What a subscriber can have been sent so far: everything, or all but the message being published. */
  function Visible(c: Stream, id: SubscriptionId): seq<Message> {
    if |c.history| > 0 && (c.lock.Announcing? || (c.lock.Publishing? && id in c.lock.pending))
    then c.history[..|c.history| - 1] else c.history
  }

  ghost predicate DeviceInv(c: Stream, id: SubscriptionId) {
    id in c.broker.registered && id in c.broker.channels ==>
      var accepted := c.broker.channels[id].accepted;
      && IsSuffix(Collapse(accepted), Visible(c, id))
      && (id in c.synced && Visible(c, id) != [] ==> accepted != [])
  }

  ghost predicate HistoryInv(c: Stream) {
    && AlternatesFrom(c.history)
    && c.aggregator.current == (if c.history == [] then None else Some(c.history[|c.history| - 1]))
    && (c.lock.Announcing? || c.lock.Publishing? || c.lock.HandingOver? ==>
      c.history != [] && c.lock.message == c.history[|c.history| - 1])
    && (c.lock.Publishing? ==> c.lock.pending <= c.broker.channels.Keys)
    && (c.lock.HandingOver? ==> c.lock.id in c.broker.channels)
    && c.synced <= c.broker.channels.Keys
  }

  ghost predicate StreamInv(limits: Limits, c: Stream) {
    && BrokerInv(limits, c.broker)
    && HistoryInv(c)
    && forall id :: DeviceInv(c, id)
  }

  lemma NeighboursDiffer(history: seq<Message>, n: nat)
    requires AlternatesFrom(history) && 0 < n < |history|
    ensures history[n - 1] != history[n]
  {
    assert Differ(history[n - 1], history[n]);
  }

  lemma SuffixGrows(part: seq<Message>, history: seq<Message>)
    requires history != [] && IsSuffix(part, history[..|history| - 1])
    ensures IsSuffix(part + [history[|history| - 1]], history)
  {
    var (n, k) := (|history| - 1, |history| - 1 - |part|);
    assert history[..n][k..] == history[k..n];
    assert history[k..] == history[k..n] + [history[n]];
  }

  lemma LastOfSuffix(part: seq<Message>, whole: seq<Message>)
    requires IsSuffix(part, whole) && part != []
    ensures part[|part| - 1] == whole[|whole| - 1]
  {
  }

  /** Sending the newest message extends a suffix that ends just before it. */
  lemma SuffixExtends(accepted: seq<Message>, history: seq<Message>)
    requires history != [] && AlternatesFrom(history)
    requires IsSuffix(Collapse(accepted), history[..|history| - 1])
    ensures IsSuffix(Collapse(accepted + [history[|history| - 1]]), history)
  {
    hide Collapse, IsSuffix, AlternatesFrom;
    var n := |history| - 1;
    CollapseLast(accepted);
    CollapseAppend(accepted, history[n]);
    SuffixGrows(Collapse(accepted), history);
    if accepted != [] {
      LastOfSuffix(Collapse(accepted), history[..n]);
      SuffixNotLonger(Collapse(accepted), history[..n]);
      NeighboursDiffer(history, n);
    }
  }

  lemma SuffixNotLonger(part: seq<Message>, whole: seq<Message>)
    requires IsSuffix(part, whole)
    ensures |part| <= |whole|
  {
  }

  /** Sending the newest message once more changes nothing but the repetition. */
  lemma SuffixRepeats(accepted: seq<Message>, history: seq<Message>)
    requires history != [] && IsSuffix(Collapse(accepted), history)
    ensures IsSuffix(Collapse(accepted + [history[|history| - 1]]), history)
  {
    hide Collapse, IsSuffix;
    CollapseLast(accepted);
    CollapseAppend(accepted, history[|history| - 1]);
    if accepted != [] {
      LastOfSuffix(Collapse(accepted), history);
    } else {
      LastAlone(history);
      assert [] + [history[|history| - 1]] == [history[|history| - 1]];
    }
  }

  lemma LastAlone(history: seq<Message>)
    requires history != []
    ensures IsSuffix([history[|history| - 1]], history)
  {
  }

  /** An update publishes exactly when it replaces the message in force, by one that looks different. */
  lemma PublishedDiffers(s: AggregatorState, source: Source, conditions: seq<SafetyCondition>, now: Time)
    ensures var (t, r) := UpdateStep(s, source, conditions, now);
      if r.Ok? && r.value.1
      then t.current == Some(r.value.0) && (s.current.Some? ==> Differ(s.current.value, r.value.0))
      else t.current == s.current
  {
    hide Put, Calculate;
  }

  lemma AlternatesLonger(history: seq<Message>, m: Message)
    requires AlternatesFrom(history) && (history != [] ==> Differ(history[|history| - 1], m))
    ensures AlternatesFrom(history + [m])
  {
  }

  lemma UpdateKeeps(limits: Limits, c: Stream, source: Source, conditions: seq<SafetyCondition>, now: Time,
                    id: SubscriptionId)
    requires HistoryInv(c) && DeviceInv(c, id) && c.lock.Nobody?
    ensures var d := Next(limits, c, UpdateArrives(source, conditions, now)); HistoryInv(d) && DeviceInv(d, id)
  {
    hide Collapse, IsSuffix, UpdateStep, AlternatesFrom, Differ;
    PublishedDiffers(c.aggregator, source, conditions, now);
    var r := UpdateStep(c.aggregator, source, conditions, now).1;
    if r.Ok? && r.value.1 {
      AlternatesLonger(c.history, r.value.0);
      assert (c.history + [r.value.0])[..|c.history|] == c.history;
    }
  }

  lemma SendKeeps(limits: Limits, c: Stream, target: SubscriptionId, id: SubscriptionId)
    requires BrokerInv(limits, c.broker) && HistoryInv(c) && DeviceInv(c, id)
    requires c.lock.Publishing? && target in c.lock.pending
    ensures var d := Next(limits, c, SendOne(target)); HistoryInv(d) && DeviceInv(d, id)
  {
    hide BrokerInv, Collapse, IsSuffix, AlternatesFrom;
    if id == target && id in c.broker.registered {
      SuffixExtends(c.broker.channels[id].accepted, c.history);
    }
  }

  lemma ReconnectKeeps(limits: Limits, c: Stream, id: SubscriptionId)
    requires BrokerInv(limits, c.broker) && HistoryInv(c) && DeviceInv(c, id)
    requires c.lock.HandingOver?
    ensures var d := Next(limits, c, ReconnectSends); HistoryInv(d) && DeviceInv(d, id)
  {
    hide BrokerInv, Collapse, IsSuffix, AlternatesFrom;
    if id == c.lock.id && id in c.broker.registered {
      SuffixRepeats(c.broker.channels[id].accepted, c.history);
    }
  }

  lemma NetworkKeeps(limits: Limits, c: Stream, event: BrokerEvent<Message>, id: SubscriptionId)
    requires BrokerInv(limits, c.broker) && HistoryInv(c) && DeviceInv(c, id) && !event.Offer?
    ensures var d := Next(limits, c, Network(event)); HistoryInv(d) && DeviceInv(d, id)
  {
    hide BrokerInv, AlternatesFrom, Apply;
    OnlyOffersAdd(limits, c.broker, event, id);
  }

  lemma DeviceKept(limits: Limits, c: Stream, e: StreamEvent, id: SubscriptionId)
    requires StreamInv(limits, c) && Enabled(c, e)
    ensures var d := Next(limits, c, e); HistoryInv(d) && DeviceInv(d, id)
  {
    assert DeviceInv(c, id);
    hide HistoryInv, BrokerInv, DeviceInv;
    match e
    case UpdateArrives(source, conditions, now) => UpdateKeeps(limits, c, source, conditions, now, id);
    case SendOne(target) => SendKeeps(limits, c, target, id);
    case ReconnectSends => ReconnectKeeps(limits, c, id);
    case Network(event) => NetworkKeeps(limits, c, event, id);
    case _ =>
  }

  lemma BrokerKept(limits: Limits, c: Stream, e: StreamEvent)
    requires BrokerInv(limits, c.broker) && Enabled(c, e)
    ensures BrokerInv(limits, Next(limits, c, e).broker)
  {
    match e
    case SendOne(id) => ApplyInv(limits, c.broker, Offer(id, c.lock.message));
    case ReconnectSends => ApplyInv(limits, c.broker, Offer(c.lock.id, c.lock.message));
    case Network(event) => ApplyInv(limits, c.broker, event);
    case _ =>
  }

  lemma NextKeeps(limits: Limits, c: Stream, e: StreamEvent)
    requires StreamInv(limits, c) && Enabled(c, e)
    ensures StreamInv(limits, Next(limits, c, e))
  {
    hide BrokerInv, HistoryInv, DeviceInv, Next;
    BrokerKept(limits, c, e);
    DeviceKept(limits, c, e, 0);
    forall id ensures DeviceInv(Next(limits, c, e), id) {
      DeviceKept(limits, c, e, id);
    }
  }

  // ---------------------------------------------------------------- removed devices

  /** What a subscriber was sent, registered or not, is without immediate repetitions a stretch of the history. */
  ghost predicate Stretched(c: Stream, id: SubscriptionId) {
    id in c.broker.channels ==> exists i :: IsStretch(Collapse(c.broker.channels[id].accepted), c.history, i)
  }

  lemma RegisteredIsStretched(c: Stream, id: SubscriptionId)
    requires DeviceInv(c, id) && id in c.broker.registered
    ensures Stretched(c, id)
  {
    hide Collapse;
    if id in c.broker.channels {
      var sent, seen := Collapse(c.broker.channels[id].accepted), Visible(c, id);
      assert IsStretch(sent, c.history, |seen| - |sent|);
    }
  }

  lemma StretchOfLonger(part: seq<Message>, history: seq<Message>, longer: seq<Message>, i: int)
    requires IsStretch(part, history, i) && history <= longer
    ensures IsStretch(part, longer, i)
  {
  }

  /** A subscriber that an event leaves unregistered was sent nothing by it. */
  lemma RemovedIsFrozen(limits: Limits, c: Stream, e: StreamEvent, id: SubscriptionId)
    requires Enabled(c, e)
    ensures var d := Next(limits, c, e);
      && c.history <= d.history
      && (id in d.broker.channels && id !in d.broker.registered ==>
        d.broker.channels[id].accepted == if id in c.broker.channels then c.broker.channels[id].accepted else [])
  {
    hide Calculate, Put;
    if e.Network? && id in Apply(limits, c.broker, e.event).channels {
      AcceptedStays(limits, c.broker, e.event, id);
    }
  }

  lemma StretchedNext(limits: Limits, c: Stream, e: StreamEvent, id: SubscriptionId)
    requires Enabled(c, e) && Stretched(c, id) && DeviceInv(Next(limits, c, e), id)
    ensures Stretched(Next(limits, c, e), id)
  {
    hide Next, Enabled, DeviceInv, IsStretch;
    var d := Next(limits, c, e);
    if id in d.broker.registered {
      RegisteredIsStretched(d, id);
    } else if id in d.broker.channels {
      RemovedIsFrozen(limits, c, e, id);
      if id in c.broker.channels {
        var i :| IsStretch(Collapse(c.broker.channels[id].accepted), c.history, i);
        StretchOfLonger(Collapse(c.broker.channels[id].accepted), c.history, d.history, i);
      } else {
        NothingIsStretch(d.history);
      }
    }
  }

  lemma NothingIsStretch(history: seq<Message>)
    ensures IsStretch(Collapse([]), history, 0)
  {
  }

  lemma StretchOfPrefix(got: seq<Message>, sent: seq<Message>, history: seq<Message>, i: int)
    requires got <= sent && IsStretch(sent, history, i)
    ensures IsStretch(got, history, i)
  {
  }

  lemma DeliveredStretch(limits: Limits, c: Stream, id: SubscriptionId)
    requires BrokerInv(limits, c.broker) && Stretched(c, id) && id in c.broker.channels
    ensures exists i :: IsStretch(Collapse(c.broker.channels[id].delivered), c.history, i)
  {
    hide Collapse, IsStretch;
    var ch := c.broker.channels[id];
    DeliveredIsPrefix(limits, ch);
    CollapsePrefix(ch.delivered, ch.accepted);
    var i :| IsStretch(Collapse(ch.accepted), c.history, i);
    StretchOfPrefix(Collapse(ch.delivered), Collapse(ch.accepted), c.history, i);
  }

  lemma DeliveredIsPrefix(limits: Limits, ch: Channel<Message>)
    requires ChannelInv(limits, ch)
    ensures ch.delivered <= ch.accepted
  {
    if !ch.writer.ClosingSink? && !ch.writer.Ended? {
      assert ch.accepted == ch.delivered + (ch.InFlight() + ch.queue);
    }
  }

  // ---------------------------------------------------------------- whole runs

  const START := Stream(AggregatorState([], None), Broker(false, map[], map[]), Nobody, [], {})

  datatype StreamRun = StreamRun(limits: Limits, events: seq<StreamEvent>)
  {
    /** An event that is not enabled has to wait: it does not happen here. */
    function After(n: nat): Stream
      requires n <= |events|
    {
      if n == 0 then START
      else
        var c := After(n - 1);
        if Enabled(c, events[n - 1]) then Next(limits, c, events[n - 1]) else c
    }

    lemma Beginning()
      requires limits.Valid()
      ensures StreamInv(limits, After(0))
    {
    }

    lemma InvNext(i: nat)
      requires limits.Valid() && i < |events| && StreamInv(limits, After(i))
      ensures StreamInv(limits, After(i + 1))
    {
      hide StreamInv;
      if Enabled(After(i), events[i]) {
        NextKeeps(limits, After(i), events[i]);
      }
    }

    lemma {:induction false} InvKept(n: nat)
      requires limits.Valid() && n <= |events|
      ensures StreamInv(limits, After(n))
    {
      hide *;
      if n == 0 {
        Beginning();
      } else {
        InvKept(n - 1);
        InvNext(n - 1);
      }
    }

    /**
     In every interleaving, once `send_current` has answered and while the aggregator is at rest, what
     a registered device was sent is, without immediate repetitions, a gap-free suffix of the published
     history that ends in the message in force.
     */
    lemma DeviceSeesGapFreeSuffix(n: nat, id: SubscriptionId)
      requires limits.Valid() && n <= |events|
      requires var c := After(n); c.lock.Nobody? && id in c.broker.registered && id in c.synced
      ensures id in After(n).broker.channels
      ensures var c := After(n);
        var sent := Collapse(c.broker.channels[id].accepted);
        && IsSuffix(sent, c.history)
        && (c.aggregator.current.Some? ==> sent != [] && sent[|sent| - 1] == c.aggregator.current.value)
    {
      InvKept(n);
      var c := After(n);
      assert DeviceInv(c, id);
      CollapseLast(c.broker.channels[id].accepted);
    }

    /**
     A synchronized device has everything, or, only while a publish is under way that has not reached it,
     everything but the message being published.
     */
    lemma DeviceAtMostOneBehind(n: nat, id: SubscriptionId)
      requires limits.Valid() && n <= |events|
      requires id in After(n).broker.registered && id in After(n).synced
      ensures id in After(n).broker.channels
      ensures var c := After(n);
        var sent := Collapse(c.broker.channels[id].accepted);
        || (IsSuffix(sent, c.history) && (c.history != [] ==> sent != []))
        || (&& (c.lock.Announcing? || (c.lock.Publishing? && id in c.lock.pending)) && c.history != []
            && IsSuffix(sent, c.history[..|c.history| - 1]) && (|c.history| > 1 ==> sent != []))
    {
      InvKept(n);
      assert DeviceInv(After(n), id);
      CollapseLast(After(n).broker.channels[id].accepted);
    }

    lemma {:induction false} StretchedAfter(n: nat, id: SubscriptionId)
      requires limits.Valid() && n <= |events|
      ensures Stretched(After(n), id)
    {
      if n > 0 {
        hide Stretched, Next, Enabled, StreamInv;
        StretchedAfter(n - 1, id);
        if Enabled(After(n - 1), events[n - 1]) {
          InvKept(n);
          DeviceOfInv(limits, After(n), id);
          StretchedNext(limits, After(n - 1), events[n - 1], id);
        }
      }
    }

    /**
     What has reached any device, connected or removed, is without immediate repetitions a gap-free
     stretch of the history.
     */
    lemma DeliveredIsGapFree(n: nat, id: SubscriptionId)
      requires limits.Valid() && n <= |events| && id in After(n).broker.channels
      ensures var c := After(n);
        var got := Collapse(c.broker.channels[id].delivered);
        exists i :: IsStretch(got, c.history, i)
    {
      InvKept(n);
      StretchedAfter(n, id);
      DeliveredStretch(limits, After(n), id);
    }
  }

  lemma DeviceOfInv(limits: Limits, c: Stream, id: SubscriptionId)
    requires StreamInv(limits, c)
    ensures DeviceInv(c, id)
  {
  }
}
