/** The aggregator: the latest snapshot of every source, merged into one message for the signal devices. */
module SafetyAggregation {
  import opened Wrappers
  import opened WorkSessions
  import opened Decimals
  import opened Sorting
  import opened OperatorSnapshots

  datatype Source = Source(operatorId: int, workSessionId: nat)

  datatype SafetyCondition = SafetyCondition(conditionId: string, reason: Reason, level: Level)

  datatype HardwareState = Green | Yellow | Red

  datatype Message = Message(state: HardwareState, reason: Option<Reason>, activeConditions: nat, updatedAt: Time)

  datatype UpdateError = BadOperator | TooManyConditions

  const MAX_CONDITIONS := 10000

  /** A dictionary in insertion order: an update of a known source keeps its place. */
  type Entries = seq<(Source, seq<SafetyCondition>)>

  datatype AggregatorState = AggregatorState(entries: Entries, current: Option<Message>)

  function Priority(r: Reason): nat {
    match r
    case ErgonomicRiskReason => 1
    case PpeMissing => 2
    case PersonInArea => 3
  }

  // ---------------------------------------------------------------- the dictionary

  function Without(entries: Entries, k: Source): Entries {
    if entries == [] then []
    else if entries[0].0 == k then entries[1..]
    else [entries[0]] + Without(entries[1..], k)
  }

  function WithEntry(entries: Entries, k: Source, cs: seq<SafetyCondition>): Entries {
    if entries == [] then [(k, cs)]
    else if entries[0].0 == k then [(k, cs)] + entries[1..]
    else [entries[0]] + WithEntry(entries[1..], k, cs)
  }

  /** An empty snapshot removes its source. */
  function Put(entries: Entries, k: Source, cs: seq<SafetyCondition>): Entries {
    if cs == [] then Without(entries, k) else WithEntry(entries, k, cs)
  }

  function Flatten(entries: Entries): seq<SafetyCondition> {
    if entries == [] then [] else entries[0].1 + Flatten(entries[1..])
  }

  // ---------------------------------------------------------------- the message

  function AtLevel(cs: seq<SafetyCondition>, level: Level): seq<SafetyCondition> {
    if cs == [] then []
    else if cs[0].level == level then [cs[0]] + AtLevel(cs[1..], level)
    else AtLevel(cs[1..], level)
  }

  function HighestLevel(cs: seq<SafetyCondition>): Level
    requires cs != []
  {
    if |cs| == 1 then cs[0].level
    else
      var r := HighestLevel(cs[..|cs| - 1]);
      if r == Medium && cs[|cs| - 1].level == CriticalLevel then CriticalLevel else r
  }

  predicate Outranks(a: SafetyCondition, b: SafetyCondition) {
    Priority(a.reason) > Priority(b.reason)
    || (Priority(a.reason) == Priority(b.reason) && !TextLeq(a.conditionId, b.conditionId))
  }

  /** The first of the greatest by priority and identity. */
  function Leading(cs: seq<SafetyCondition>): SafetyCondition
    requires cs != []
  {
    if |cs| == 1 then cs[0]
    else
      var r := Leading(cs[..|cs| - 1]);
      if Outranks(cs[|cs| - 1], r) then cs[|cs| - 1] else r
  }

  /** `_calculate_message`; the message schema refuses more than 10000 conditions. */
  function Calculate(entries: Entries, now: Time): Result<Message, UpdateError> {
    var cs := Flatten(entries);
    if cs == [] then Ok(Message(Green, None, 0, now))
    else
      var level := HighestLevel(cs);
      HighestLevelFacts(cs);
      AtLevelFacts(cs, level);
      var leading := Leading(AtLevel(cs, level));
      if |cs| > MAX_CONDITIONS then Err(TooManyConditions)
      else Ok(Message(if level == CriticalLevel then Red else Yellow, Some(leading.reason), |cs|, now))
  }

  predicate SameEffectiveState(a: Message, b: Message) {
    a.state == b.state && a.reason == b.reason && a.activeConditions == b.activeConditions
  }

  /** The locked part of `update`: the answer is the message in force and whether it was published. */
  function UpdateStep(s: AggregatorState, k: Source, cs: seq<SafetyCondition>, now: Time)
    : (AggregatorState, Result<(Message, bool), UpdateError>)
  {
    if k.operatorId <= 0 then (s, Err(BadOperator))
    else
      var entries := Put(s.entries, k, cs);
      match Calculate(entries, now)
      case Err(e) => (s.(entries := entries), Err(e))
      case Ok(candidate) =>
        if s.current.Some? && SameEffectiveState(candidate, s.current.value)
        then (s.(entries := entries), Ok((s.current.value, false)))
        else (AggregatorState(entries, Some(candidate)), Ok((candidate, true)))
  }

  class SafetyStateAggregator {
    var sources: Entries
    var current: Option<Message>
    var published: seq<Message>    // handed to the broker

    ghost function Model(): AggregatorState
      reads this
    {
      AggregatorState(sources, current)
    }

    constructor ()
      ensures Model() == AggregatorState([], None) && published == []
    {
      sources, current, published := [], None, [];
    }

    method Update(k: Source, conditions: seq<SafetyCondition>, now: Time)
      returns (r: Result<(Message, bool), UpdateError>)
      modifies this
      ensures (Model(), r) == UpdateStep(old(Model()), k, conditions, now)
      ensures r.Ok? ==> current == Some(r.value.0) && (r.value.1 <==> current != old(current))
      ensures published == if r.Ok? && r.value.1 then old(published) + [r.value.0] else old(published)
    {
      if k.operatorId <= 0 { return Err(BadOperator); }
      if conditions != [] {
        sources := WithEntry(sources, k, conditions);
      } else {
        sources := Without(sources, k);
      }
      var candidate := Calculate(sources, now);
      if candidate.Err? { return Err(candidate.error); }
      if current.Some? && SameEffectiveState(candidate.value, current.value) {
        return Ok((current.value, false));
      }
      current := Some(candidate.value);
      published := published + [candidate.value];
      r := Ok((candidate.value, true));
    }
  }

  // ---------------------------------------------------------------- the message does not depend on the order

  lemma {:induction false} HighestLevelFacts(cs: seq<SafetyCondition>)
    requires cs != []
    ensures HighestLevel(cs) == CriticalLevel <==> exists c :: c in cs && c.level == CriticalLevel
    ensures exists c :: c in cs && c.level == HighestLevel(cs)
  {
    var n := |cs| - 1;
    if n == 0 {
      assert cs[0] in cs;
    } else {
      HighestLevelFacts(cs[..n]);
      assert cs == cs[..n] + [cs[n]];
      assert cs[n] in cs;
    }
  }

  lemma {:induction false} AtLevelFacts(cs: seq<SafetyCondition>, level: Level)
    ensures forall c :: c in AtLevel(cs, level) <==> c in cs && c.level == level
    ensures (exists c :: c in cs && c.level == level) ==> AtLevel(cs, level) != []
  {
    if cs != [] {
      AtLevelFacts(cs[1..], level);
      assert cs == [cs[0]] + cs[1..];
    }
  }

  lemma {:induction false} LeadingFacts(cs: seq<SafetyCondition>)
    requires cs != []
    ensures Leading(cs) in cs
    ensures forall c :: c in cs ==> Priority(c.reason) <= Priority(Leading(cs).reason)
  {
    var n := |cs| - 1;
    if n > 0 {
      LeadingFacts(cs[..n]);
      assert cs == cs[..n] + [cs[n]];
    }
  }

  /** A condition of the given level and reason is active. */
  ghost predicate Has(ms: multiset<SafetyCondition>, level: Level, reason: Reason) {
    exists c :: c in ms && c.level == level && c.reason == reason
  }

  ghost function TopLevel(ms: multiset<SafetyCondition>): Level {
    if exists c :: c in ms && c.level == CriticalLevel then CriticalLevel else Medium
  }

  ghost function TopReason(ms: multiset<SafetyCondition>): Reason {
    var level := TopLevel(ms);
    if Has(ms, level, PersonInArea) then PersonInArea
    else if Has(ms, level, PpeMissing) then PpeMissing
    else ErgonomicRiskReason
  }

  /** What the message must say about the conditions that are active, however they are arranged. */
  ghost predicate Describes(m: Message, ms: multiset<SafetyCondition>) {
    && m.activeConditions == |ms|
    && (ms == multiset{} ==> m.state == Green && m.reason == None)
    && (ms != multiset{} ==>
      m.state == (if TopLevel(ms) == CriticalLevel then Red else Yellow) && m.reason == Some(TopReason(ms)))
  }

  lemma LeadingReason(cs: seq<SafetyCondition>)
    requires cs != []
    ensures var level := HighestLevel(cs);
      && level == TopLevel(multiset(cs))
      && AtLevel(cs, level) != []
      && Leading(AtLevel(cs, level)).reason == TopReason(multiset(cs))
  {
    var ms, level := multiset(cs), HighestLevel(cs);
    assert forall c :: c in ms <==> c in cs;
    HighestLevelFacts(cs);
    AtLevelFacts(cs, level);
    var top := AtLevel(cs, level);
    LeadingFacts(top);
    var r := Leading(top).reason;
    assert Has(ms, level, r);
    forall x | Has(ms, level, x) ensures Priority(x) <= Priority(r) {
      var c :| c in ms && c.level == level && c.reason == x;
      assert c in top;
    }
  }

  /** Calculating succeeds exactly up to the cap, and then describes the active conditions. */
  lemma CalculateDescribes(entries: Entries, now: Time)
    ensures var ms := multiset(Flatten(entries));
      && (Calculate(entries, now).Ok? <==> |ms| <= MAX_CONDITIONS)
      && (Calculate(entries, now).Ok? ==>
        Describes(Calculate(entries, now).value, ms) && Calculate(entries, now).value.updatedAt == now)
  {
    var cs := Flatten(entries);
    if cs != [] {
      LeadingReason(cs);
      assert cs[0] in multiset(cs);
    }
  }

  lemma DescriptionUnique(a: Message, b: Message, ms: multiset<SafetyCondition>)
    requires Describes(a, ms)
    ensures Describes(b, ms) <==> SameEffectiveState(a, b)
  {
  }

  // ---------------------------------------------------------------- the latest snapshot per source

  type Snapshots = map<Source, seq<SafetyCondition>>

  function AsMap(entries: Entries): Snapshots {
    if entries == [] then map[] else AsMap(entries[1..])[entries[0].0 := entries[0].1]
  }

  ghost predicate DictInv(entries: Entries) {
    forall i, j :: 0 <= i < j < |entries| ==> entries[i].0 != entries[j].0
  }

  function Record(m: Snapshots, k: Source, cs: seq<SafetyCondition>): Snapshots {
    if cs == [] then m - {k} else m[k := cs]
  }

  lemma {:induction false} AsMapKeys(entries: Entries, k: Source)
    ensures k in AsMap(entries) <==> exists i :: 0 <= i < |entries| && entries[i].0 == k
  {
    if entries != [] {
      AsMapKeys(entries[1..], k);
      if k in AsMap(entries[1..]) {
        var i :| 0 <= i < |entries| - 1 && entries[1..][i].0 == k;
        assert entries[i + 1].0 == k;
      }
      if i :| 0 <= i < |entries| && entries[i].0 == k {
        assert i > 0 ==> entries[1..][i - 1].0 == k;
        assert i == 0 ==> entries[0].0 == k;
      }
    }
  }

  lemma {:induction false} WithoutRecords(entries: Entries, k: Source)
    requires DictInv(entries)
    ensures DictInv(Without(entries, k)) && AsMap(Without(entries, k)) == AsMap(entries) - {k}
    ensures forall x :: x in Without(entries, k) ==> x in entries
  {
    if entries != [] {
      var rest := entries[1..];
      WithoutRecords(rest, k);
      assert forall x :: x in rest ==> x in entries;
      if entries[0].0 == k {
        AsMapKeys(rest, k);
        assert AsMap(entries) - {k} == AsMap(rest);
      } else {
        var w := Without(rest, k);
        forall j | 0 <= j < |w| ensures w[j].0 != entries[0].0 {
          assert w[j] in rest;
          var i :| 0 <= i < |rest| && rest[i] == w[j];
          assert entries[i + 1].0 != entries[0].0;
        }
        assert AsMap([entries[0]] + w) == AsMap(w)[entries[0].0 := entries[0].1] by {
          assert ([entries[0]] + w)[1..] == w;
        }
        assert (AsMap(rest) - {k})[entries[0].0 := entries[0].1] == AsMap(rest)[entries[0].0 := entries[0].1] - {k};
      }
    }
  }

  lemma AsMapCons(k: Source, cs: seq<SafetyCondition>, rest: Entries)
    ensures AsMap([(k, cs)] + rest) == AsMap(rest)[k := cs]
  {
    assert ([(k, cs)] + rest)[1..] == rest;
  }

  lemma HeadStaysAlone(entries: Entries, w: Entries, k: Source, cs: seq<SafetyCondition>)
    requires DictInv(entries) && entries != [] && entries[0].0 != k && DictInv(w)
    requires forall x :: x in w ==> x in entries[1..] || x == (k, cs)
    ensures DictInv([entries[0]] + w)
  {
    forall j | 0 <= j < |w| ensures w[j].0 != entries[0].0 {
      assert w[j] in w;
      if w[j] in entries[1..] {
        var i :| 0 <= i < |entries| - 1 && entries[1..][i] == w[j];
        assert entries[i + 1].0 != entries[0].0;
      }
    }
  }

  lemma {:induction false} WithEntryRecords(entries: Entries, k: Source, cs: seq<SafetyCondition>)
    requires DictInv(entries)
    ensures DictInv(WithEntry(entries, k, cs)) && AsMap(WithEntry(entries, k, cs)) == AsMap(entries)[k := cs]
    ensures forall x :: x in WithEntry(entries, k, cs) ==> x in entries || x == (k, cs)
  {
    if entries == [] {
      assert AsMap([(k, cs)]) == map[k := cs];
    } else {
      var rest := entries[1..];
      WithEntryRecords(rest, k, cs);
      assert forall x :: x in rest ==> x in entries;
      if entries[0].0 == k {
        AsMapCons(k, cs, rest);
        assert AsMap(rest)[k := cs] == AsMap(entries)[k := cs];
      } else {
        var w := WithEntry(rest, k, cs);
        HeadStaysAlone(entries, w, k, cs);
        AsMapCons(entries[0].0, entries[0].1, w);
        assert AsMap(rest)[k := cs][entries[0].0 := entries[0].1] == AsMap(rest)[entries[0].0 := entries[0].1][k := cs];
      }
    }
  }

  lemma PutRecords(entries: Entries, k: Source, cs: seq<SafetyCondition>)
    requires DictInv(entries)
    ensures DictInv(Put(entries, k, cs)) && AsMap(Put(entries, k, cs)) == Record(AsMap(entries), k, cs)
  {
    WithoutRecords(entries, k);
    WithEntryRecords(entries, k, cs);
  }

  /** All conditions of all sources, without any order. */
  ghost function Total(m: Snapshots): multiset<SafetyCondition> {
    if m == map[] then multiset{}
    else
      var k :| k in m;
      multiset(m[k]) + Total(m - {k})
  }

  lemma {:induction false} TotalOf(m: Snapshots, k: Source)
    requires k in m
    ensures Total(m) == multiset(m[k]) + Total(m - {k})
    decreases |m|
  {
    var x :| x in m && Total(m) == multiset(m[x]) + Total(m - {x});
    if x != k {
      assert (m - {x}).Keys == m.Keys - {x};
      TotalOf(m - {x}, k);
      assert (m - {k}).Keys == m.Keys - {k};
      TotalOf(m - {k}, x);
      assert (m - {x}) - {k} == (m - {k}) - {x};
    }
  }

  lemma {:induction false} FlattenIsTotal(entries: Entries)
    requires DictInv(entries)
    ensures multiset(Flatten(entries)) == Total(AsMap(entries))
  {
    if entries != [] {
      var rest, k := entries[1..], entries[0].0;
      FlattenIsTotal(rest);
      AsMapKeys(rest, k);
      TotalOf(AsMap(entries), k);
      assert AsMap(entries) - {k} == AsMap(rest);
    }
  }

  /** What one accepted update establishes about the message in force. */
  lemma StepDescribes(s: AggregatorState, k: Source, cs: seq<SafetyCondition>, now: Time)
    requires DictInv(s.entries) && k.operatorId > 0
    ensures var (t, r) := UpdateStep(s, k, cs, now);
      && DictInv(t.entries) && AsMap(t.entries) == Record(AsMap(s.entries), k, cs)
      && (r.Ok? <==> |Total(AsMap(t.entries))| <= MAX_CONDITIONS)
      && (r.Ok? ==> t.current.Some? && Describes(t.current.value, Total(AsMap(t.entries))))
      && (r.Ok? ==> t.current == Some(r.value.0) && (r.value.1 <==> t.current != s.current))
      && (r.Err? ==> t.current == s.current)
  {
    var entries := Put(s.entries, k, cs);
    PutRecords(s.entries, k, cs);
    FlattenIsTotal(entries);
    CalculateDescribes(entries, now);
    if Calculate(entries, now).Ok? && s.current.Some? {
      DescriptionUnique(Calculate(entries, now).value, s.current.value, Total(AsMap(entries)));
    }
  }

  // ---------------------------------------------------------------- whole runs

  datatype SourceUpdate = SourceUpdate(source: Source, conditions: seq<SafetyCondition>, now: Time)

  datatype AggregatorRun = AggregatorRun(updates: seq<SourceUpdate>)
  {
    function After(n: nat): AggregatorState
      requires n <= |updates|
    {
      if n == 0 then AggregatorState([], None)
      else var u := updates[n - 1]; UpdateStep(After(n - 1), u.source, u.conditions, u.now).0
    }

    function Published(n: nat): seq<Message>
      requires n <= |updates|
    {
      if n == 0 then []
      else
        var u := updates[n - 1];
        var r := UpdateStep(After(n - 1), u.source, u.conditions, u.now).1;
        Published(n - 1) + (if r.Ok? && r.value.1 then [r.value.0] else [])
    }

    /** The pure fold: the latest non-empty snapshot of every source. */
    function Latest(n: nat): Snapshots
      requires n <= |updates|
    {
      if n == 0 then map[]
      else
        var u := updates[n - 1];
        if u.source.operatorId <= 0 then Latest(n - 1) else Record(Latest(n - 1), u.source, u.conditions)
    }

    ghost predicate RunInv(n: nat)
      requires n <= |updates|
    {
      var s := After(n);
      && DictInv(s.entries) && AsMap(s.entries) == Latest(n)
      && AlternatesFrom(Published(n))
      && s.current == (if Published(n) == [] then None else Some(Published(n)[|Published(n)| - 1]))
    }

    lemma RunNext(i: nat)
      requires i < |updates| && RunInv(i)
      ensures RunInv(i + 1)
    {
      hide Put, AsMap, DictInv, Calculate;
      var u := updates[i];
      PutRecords(After(i).entries, u.source, u.conditions);
    }

    lemma RunStart()
      ensures RunInv(0)
    {
    }

    lemma {:induction false} RunKept(n: nat)
      requires n <= |updates|
      ensures RunInv(n)
    {
      hide *;
      if n == 0 {
        RunStart();
      } else {
        RunKept(n - 1);
        RunNext(n - 1);
      }
    }

    /**
     After any updates, right after one that was not refused for its operator, the message in force
     describes the latest snapshots of all sources exactly when they hold at most 10000 conditions.
     */
    lemma CurrentDescribesLatest(n: nat)
      requires 0 < n <= |updates| && updates[n - 1].source.operatorId > 0
      ensures After(n).current.Some? && Describes(After(n).current.value, Total(Latest(n)))
        <==> |Total(Latest(n))| <= MAX_CONDITIONS
    {
      RunKept(n - 1);
      var u := updates[n - 1];
      StepDescribes(After(n - 1), u.source, u.conditions, u.now);
      PublishedWithinCap(n - 1);
    }

    lemma {:induction false} PublishedWithinCap(n: nat)
      requires n <= |updates|
      ensures After(n).current.Some? ==> After(n).current.value.activeConditions <= MAX_CONDITIONS
    {
      if n > 0 { PublishedWithinCap(n - 1); }
    }

    /** Consecutive published messages always differ in state, reason or count, and the last is the one in force. */
    lemma PublishesOnlyChanges(n: nat)
      requires n <= |updates|
      ensures AlternatesFrom(Published(n))
      ensures After(n).current == if Published(n) == [] then None else Some(Published(n)[|Published(n)| - 1])
    {
      RunKept(n);
    }
  }

  // ---------------------------------------------------------------- the cap, in requests that are accepted

  const MAX_REPORTED := 100

  /** What the request schema lets through: a signed-in operator and at most 100 conditions under different ids. */
  ghost predicate Receivable(u: SourceUpdate) {
    && u.source.operatorId > 0 && |u.conditions| <= MAX_REPORTED
    && forall i, j :: 0 <= i < j < |u.conditions| ==> u.conditions[i].conditionId != u.conditions[j].conditionId
  }

  lemma OneSourceLess(m: Snapshots, k: Source)
    requires k in m
    ensures |m - {k}| == |m| - 1
  {
    assert (m - {k}).Keys == m.Keys - {k};
    assert |m| == |m.Keys| && |m - {k}| == |(m - {k}).Keys|;
  }

  lemma OneMoreTimes(bound: nat, n: nat)
    ensures bound * (n + 1) == bound * n + bound
  {
  }

  lemma {:induction false} TotalBounded(m: Snapshots, bound: nat)
    requires forall k :: k in m ==> |m[k]| <= bound
    ensures |Total(m)| <= bound * |m|
    decreases |m|
  {
    if m != map[] {
      var k :| k in m && Total(m) == multiset(m[k]) + Total(m - {k});
      hide Total;
      OneSourceLess(m, k);
      TotalBounded(m - {k}, bound);
      OneMoreTimes(bound, |m - {k}|);
    }
  }

  lemma {:induction false} LatestBounded(r: AggregatorRun, n: nat)
    requires n <= |r.updates| && forall i :: 0 <= i < n ==> Receivable(r.updates[i])
    ensures forall k :: k in r.Latest(n) ==> |r.Latest(n)[k]| <= MAX_REPORTED
  {
    if n > 0 {
      LatestBounded(r, n - 1);
    }
  }

  /** Up to 100 sources with open conditions, whatever they report, the message in force describes them all. */
  lemma HundredSourcesDescribed(r: AggregatorRun, n: nat)
    requires 0 < n <= |r.updates| && (forall i :: 0 <= i < n ==> Receivable(r.updates[i])) && |r.Latest(n)| <= 100
    ensures r.After(n).current.Some? && Describes(r.After(n).current.value, Total(r.Latest(n)))
  {
    LatestBounded(r, n);
    TotalBounded(r.Latest(n), MAX_REPORTED);
    r.CurrentDescribesLatest(n);
  }

  /** A full snapshot: 100 missing items. */
  function FullSnapshot(): (cs: seq<SafetyCondition>)
    ensures |cs| == MAX_REPORTED
  {
    seq(MAX_REPORTED,
        i requires 0 <= i < MAX_REPORTED => SafetyCondition("ppe:" + Decimal(i), PpeMissing, CriticalLevel))
  }

  /** Work sessions of one operator, one after the other, each reporting a full snapshot that is never cleared. */
  function Crowd(n: nat): AggregatorRun {
    AggregatorRun(seq(n, i requires 0 <= i < n => SourceUpdate(Source(1, i), FullSnapshot(), i)))
  }

  lemma CrowdIsReceivable(n: nat, i: nat)
    requires i < n
    ensures Receivable(Crowd(n).updates[i])
  {
    var cs := FullSnapshot();
    forall a, b | 0 <= a < b < |cs| ensures cs[a].conditionId != cs[b].conditionId {
      if Decimal(a) == Decimal(b) {
        DecimalInjective(a, b);
      }
      assert cs[a].conditionId[4..] == Decimal(a) && cs[b].conditionId[4..] == Decimal(b);
    }
  }

  lemma {:induction false} CrowdTotal(n: nat, i: nat)
    requires i <= n
    ensures |Total(Crowd(n).Latest(i))| == MAX_REPORTED * i
    ensures forall k :: k in Crowd(n).Latest(i) ==> k.workSessionId < i
  {
    hide FullSnapshot;
    if i > 0 {
      CrowdTotal(n, i - 1);
      var (before, k, cs) := (Crowd(n).Latest(i - 1), Source(1, i - 1), FullSnapshot());
      assert Crowd(n).Latest(i) == before[k := cs];
      TotalOf(before[k := cs], k);
      assert before[k := cs] - {k} == before;
    }
  }

  /**
   The 101st full snapshot cannot be described: the update fails, the message in force stays the one
   of the first hundred, and from then on it describes something else than what is recorded.
   */
  lemma OneSourceTooMany()
    ensures var r := Crowd(101);
      && (forall i :: 0 <= i < 101 ==> Receivable(r.updates[i]))
      && (var u := r.updates[100]; UpdateStep(r.After(100), u.source, u.conditions, u.now).1 == Err(TooManyConditions))
      && r.After(101).current.Some? && r.After(101).current == r.After(100).current
      && Describes(r.After(101).current.value, Total(r.Latest(100)))
      && !Describes(r.After(101).current.value, Total(r.Latest(101)))
  {
    var r := Crowd(101);
    forall i | 0 <= i < 101 ensures Receivable(r.updates[i]) {
      CrowdIsReceivable(101, i);
    }
    CrowdTotal(101, 100);
    CrowdTotal(101, 101);
    r.CurrentDescribesLatest(100);
    r.CurrentDescribesLatest(101);
    LastOfCrowdRefused();
  }

  lemma OnlyTooMany(entries: Entries, now: Time)
    ensures Calculate(entries, now).Err? ==> Calculate(entries, now) == Err(TooManyConditions)
  {
  }

  lemma LastOfCrowdRefused()
    ensures var (r, u) := (Crowd(101), Crowd(101).updates[100]);
      && UpdateStep(r.After(100), u.source, u.conditions, u.now).1 == Err(TooManyConditions)
      && r.After(101).current == r.After(100).current
  {
    hide Put, Calculate, FullSnapshot;
    OnlyTooMany(Put(Crowd(101).After(100).entries, Source(1, 100), FullSnapshot()), 100);
    var (r, u) := (Crowd(101), Crowd(101).updates[100]);
    r.RunKept(100);
    CrowdTotal(101, 101);
    StepDescribes(r.After(100), u.source, u.conditions, u.now);
  }

  /** The device would show something else: another state, another reason or another number of conditions. */
  predicate Differ(a: Message, b: Message) {
    a.state != b.state || a.reason != b.reason || a.activeConditions != b.activeConditions
  }

  ghost predicate AlternatesFrom(ms: seq<Message>) {
    forall i :: 0 < i < |ms| ==> Differ(ms[i - 1], ms[i])
  }

  /** Updates of different sources can be exchanged without changing what is in force afterwards. */
  lemma UpdatesCommute(s: AggregatorState, u: SourceUpdate, v: SourceUpdate)
    requires DictInv(s.entries) && u.source != v.source && u.source.operatorId > 0 && v.source.operatorId > 0
    ensures var uv := UpdateStep(UpdateStep(s, u.source, u.conditions, u.now).0, v.source, v.conditions, v.now);
      var vu := UpdateStep(UpdateStep(s, v.source, v.conditions, v.now).0, u.source, u.conditions, u.now);
      && AsMap(uv.0.entries) == AsMap(vu.0.entries)
      && (uv.1.Ok? <==> vu.1.Ok?)
      && (uv.1.Ok? ==> !Differ(uv.0.current.value, vu.0.current.value))
  {
    var a, b := UpdateStep(s, u.source, u.conditions, u.now).0, UpdateStep(s, v.source, v.conditions, v.now).0;
    StepDescribes(s, u.source, u.conditions, u.now);
    StepDescribes(s, v.source, v.conditions, v.now);
    StepDescribes(a, v.source, v.conditions, v.now);
    StepDescribes(b, u.source, u.conditions, u.now);
    var (ab, r) := UpdateStep(a, v.source, v.conditions, v.now);
    var (ba, q) := UpdateStep(b, u.source, u.conditions, u.now);
    RecordsCommute(AsMap(s.entries), u, v);
    if r.Ok? {
      DescriptionUnique(ab.current.value, ba.current.value, Total(AsMap(ab.entries)));
    }
  }

  lemma RecordsCommute(m: Snapshots, u: SourceUpdate, v: SourceUpdate)
    requires u.source != v.source
    ensures Record(Record(m, u.source, u.conditions), v.source, v.conditions)
      == Record(Record(m, v.source, v.conditions), u.source, u.conditions)
  {
  }
}
