/** Temporal stabilization of PPE observations over a bounded window of frames. */
module PpeStability {
  import opened Wrappers
  import opened WorkSessions

  datatype StabilityState = Collecting | ConfirmedPresent | ConfirmedAbsent | Unstable

  datatype Decision = Decision(
    detectionClass: string,
    state: StabilityState,
    observedFrames: nat,
    sampleCount: nat,
    presenceRatio: real)

  datatype Snapshot = Snapshot(decisions: seq<Decision>, sampleCount: nat, windowSize: nat)
  {
    function DecisionFor(c: string): Option<Decision> {
      FirstFor(decisions, c)
    }
  }

  function FirstFor(decisions: seq<Decision>, c: string): Option<Decision> {
    if decisions == [] then None
    else if decisions[0].detectionClass == c then Some(decisions[0])
    else FirstFor(decisions[1..], c)
  }

  datatype StabilityConfig = StabilityConfig(windowSize: nat, minimumSamples: nat, presentRatio: real,
                                             absentRatio: real)
  {
    predicate Valid() {
      1 <= minimumSamples <= windowSize && 0.0 <= absentRatio < presentRatio <= 1.0
    }
  }

  /** The classes seen in one frame. `serial` numbers the observed frames and takes part in no decision. */
  datatype Frame = Frame(serial: nat, classes: set<string>)

  function Count(window: seq<Frame>, c: string): (n: nat)
    ensures n <= |window|
  {
    if window == [] then 0
    else Count(window[..|window| - 1], c) + (if c in window[|window| - 1].classes then 1 else 0)
  }

  function Decide(cfg: StabilityConfig, window: seq<Frame>, c: string): Decision
    requires window != []
  {
    var observed := Count(window, c);
    var ratio := observed as real / |window| as real;
    var state :=
      if |window| < cfg.minimumSamples then Collecting
      else if ratio >= cfg.presentRatio then ConfirmedPresent
      else if ratio <= cfg.absentRatio then ConfirmedAbsent
      else Unstable;
    Decision(c, state, observed, |window|, ratio)
  }

  function Decisions(cfg: StabilityConfig, required: seq<string>, window: seq<Frame>): seq<Decision>
    requires window != []
  {
    if required == [] then [] else [Decide(cfg, window, required[0])] + Decisions(cfg, required[1..], window)
  }

  function SnapshotOf(cfg: StabilityConfig, required: seq<string>, window: seq<Frame>): Snapshot
    requires window != []
  {
    Snapshot(Decisions(cfg, required, window), |window|, cfg.windowSize)
  }

  /** Appending to a deque of bounded length drops the oldest frame when it is full. */
  function Push(capacity: nat, window: seq<Frame>, f: Frame): seq<Frame>
    requires capacity >= 1
  {
    if |window| < capacity then window + [f] else window[1..] + [f]
  }

  /** The last frames of a history, at most `capacity` of them. */
  function LastFrames(capacity: nat, history: seq<Frame>): seq<Frame> {
    if |history| <= capacity then history else history[|history| - capacity..]
  }

  lemma PushKeepsLast(capacity: nat, history: seq<Frame>, f: Frame)
    requires capacity >= 1
    ensures Push(capacity, LastFrames(capacity, history), f) == LastFrames(capacity, history + [f])
  {
  }

  /** The classes in order of first mention; refused when a name is empty. */
  function Distinct(classes: seq<string>): seq<string> {
    if classes == [] then []
    else
      var last, rest := classes[|classes| - 1], Distinct(classes[..|classes| - 1]);
      if last in rest then rest else rest + [last]
  }

  lemma {:induction false} DistinctFacts(classes: seq<string>)
    ensures NoRepeats(Distinct(classes))
    ensures forall c :: c in Distinct(classes) <==> c in classes
    ensures NoRepeats(classes) ==> Distinct(classes) == classes
  {
    if classes != [] {
      var last, rest := classes[|classes| - 1], classes[..|classes| - 1];
      DistinctFacts(rest);
      assert classes == rest + [last];
      if NoRepeats(classes) {
        assert forall i :: 0 <= i < |rest| ==> rest[i] == classes[i];
        assert last !in rest;
      }
    }
  }

  datatype StabilityError = EmptyClassName

  class PpeStabilityEngine {
    const cfg: StabilityConfig
    var requiredClasses: seq<string>
    var observations: seq<Frame>
    ghost var sinceReset: seq<Frame>

    ghost predicate Valid()
      reads this
    {
      cfg.Valid() && NoRepeats(requiredClasses) && observations == LastFrames(cfg.windowSize, sinceReset)
    }

    constructor (cfg: StabilityConfig)
      requires cfg.Valid()
      ensures Valid() && this.cfg == cfg
      ensures requiredClasses == [] && observations == [] && sinceReset == []
    {
      this.cfg := cfg;
      requiredClasses, observations, sinceReset := [], [], [];
    }

    /** Clears the evidence and replaces the class set; a refused call changes nothing. */
    method Reset(classes: seq<string>) returns (r: Result<(), StabilityError>)
      requires Valid()
      modifies this
      ensures Valid()
      ensures r.Err? <==> "" in classes
      ensures r.Ok? ==> requiredClasses == Distinct(classes) && observations == [] && sinceReset == []
      ensures r.Err? ==>
        requiredClasses == old(requiredClasses) && observations == old(observations) && sinceReset == old(sinceReset)
    {
      var normalized: seq<string> := [];
      for i := 0 to |classes|
        invariant normalized == Distinct(classes[..i])
        invariant "" !in classes[..i]
      {
        if classes[i] == "" {
          return Err(EmptyClassName);
        }
        assert classes[..i + 1][..i] == classes[..i];
        if classes[i] !in normalized {
          normalized := normalized + [classes[i]];
        }
      }
      assert classes[..|classes|] == classes;
      DistinctFacts(classes);
      requiredClasses := normalized;
      observations, sinceReset := [], [];
      r := Ok(());
    }

    /** Adds one frame and decides every required class over the window. */
    method Observe(f: Frame) returns (s: Snapshot)
      requires Valid()
      modifies this
      ensures Valid()
      ensures sinceReset == old(sinceReset) + [f] && requiredClasses == old(requiredClasses)
      ensures observations == Push(cfg.windowSize, old(observations), f)
      ensures s == SnapshotOf(cfg, requiredClasses, observations)
    {
      PushKeepsLast(cfg.windowSize, sinceReset, f);
      if |observations| == cfg.windowSize {
        observations := observations[1..];
      }
      observations := observations + [f];
      sinceReset := sinceReset + [f];
      s := SnapshotOf(cfg, requiredClasses, observations);
    }
  }

  // ---------------------------------------------------------------- what the decisions mean

  lemma {:induction false} DecisionsHave(cfg: StabilityConfig, required: seq<string>, window: seq<Frame>, c: string)
    requires window != []
    ensures FirstFor(Decisions(cfg, required, window), c)
      == if c in required then Some(Decide(cfg, window, c)) else None
  {
    if required != [] {
      DecisionsHave(cfg, required[1..], window, c);
      assert Decisions(cfg, required, window)[1..] == Decisions(cfg, required[1..], window);
    }
  }

  /** The frames of the window that show the class. */
  function Showing(window: seq<Frame>, c: string): set<nat> {
    set i: nat | i < |window| && c in window[i].classes
  }

  /** The counted frames are those that show the class. */
  lemma {:induction false} CountIsNumber(window: seq<Frame>, c: string)
    ensures Count(window, c) == |Showing(window, c)|
  {
    if window == [] {
      assert Showing(window, c) == {};
    } else {
      var n := |window| - 1;
      CountIsNumber(window[..n], c);
      assert Showing(window, c) == Showing(window[..n], c) + (if c in window[n].classes then {n} else {});
    }
  }

  /** Enough samples, and the class in at least the present ratio of them. */
  predicate MostlySeen(cfg: StabilityConfig, window: seq<Frame>, c: string) {
    cfg.minimumSamples <= |window| && Count(window, c) as real >= cfg.presentRatio * |window| as real
  }

  /** Enough samples, and the class in at most the absent ratio of them. */
  predicate RarelySeen(cfg: StabilityConfig, window: seq<Frame>, c: string) {
    cfg.minimumSamples <= |window| && Count(window, c) as real <= cfg.absentRatio * |window| as real
  }

  lemma PresentExactly(cfg: StabilityConfig, window: seq<Frame>, c: string)
    requires cfg.Valid() && window != []
    ensures Decide(cfg, window, c).state == ConfirmedPresent <==> MostlySeen(cfg, window, c)
  {
    RatioAtLeast(Count(window, c) as real, |window| as real, cfg.presentRatio);
  }

  lemma NotBoth(cfg: StabilityConfig, window: seq<Frame>, c: string)
    requires cfg.Valid() && window != []
    ensures !(MostlySeen(cfg, window, c) && RarelySeen(cfg, window, c))
  {
    var gap := cfg.presentRatio - cfg.absentRatio;
    ShareGap(cfg.presentRatio, cfg.absentRatio, |window| as real);
    assert gap * |window| as real > 0.0;
  }

  lemma AbsentExactly(cfg: StabilityConfig, window: seq<Frame>, c: string)
    requires cfg.Valid() && window != []
    ensures Decide(cfg, window, c).state == ConfirmedAbsent <==> RarelySeen(cfg, window, c)
  {
    NotBoth(cfg, window, c);
    RatioAtLeast(Count(window, c) as real, |window| as real, cfg.presentRatio);
    RatioAtMost(Count(window, c) as real, |window| as real, cfg.absentRatio);
  }

  lemma RatioBack(k: real, n: real)
    requires n > 0.0
    ensures (k / n) * n == k
  {
  }

  /** Every decision, against the frames of the window. */
  lemma DecisionsMean(cfg: StabilityConfig, required: seq<string>, window: seq<Frame>, c: string)
    requires cfg.Valid() && window != []
    ensures var (s, d) := (SnapshotOf(cfg, required, window), SnapshotOf(cfg, required, window).DecisionFor(c));
      && s.sampleCount == |window| && s.windowSize == cfg.windowSize
      && (d.Some? <==> c in required)
      && (d.Some? ==>
        && d.value.detectionClass == c && d.value.sampleCount == |window|
        && d.value.observedFrames == |Showing(window, c)|
        && d.value.presenceRatio * |window| as real == d.value.observedFrames as real
        && (d.value.state == Collecting <==> |window| < cfg.minimumSamples)
        && (d.value.state == ConfirmedPresent <==> MostlySeen(cfg, window, c))
        && (d.value.state == ConfirmedAbsent <==> RarelySeen(cfg, window, c)))
  {
    hide RarelySeen, MostlySeen, Count, Showing;
    DecisionsHave(cfg, required, window, c);
    CountIsNumber(window, c);
    PresentExactly(cfg, window, c);
    AbsentExactly(cfg, window, c);
    DecisionRatio(cfg, window, c);
  }

  lemma DecisionRatio(cfg: StabilityConfig, window: seq<Frame>, c: string)
    requires window != []
    ensures var d := Decide(cfg, window, c);
      && d.presenceRatio * |window| as real == Count(window, c) as real
      && (d.state == Collecting <==> |window| < cfg.minimumSamples)
  {
    RatioBack(Count(window, c) as real, |window| as real);
  }

  lemma ShareGap(p: real, a: real, n: real)
    ensures (p - a) * n == p * n - a * n
  {
  }

  lemma RatioAtLeast(k: real, n: real, r: real)
    requires n > 0.0
    ensures k / n >= r <==> k >= r * n
  {
    var q := k / n;
    assert q * n == k;
    if q >= r { assert (q - r) * n >= 0.0; } else { assert (r - q) * n > 0.0; }
  }

  lemma RatioAtMost(k: real, n: real, r: real)
    requires n > 0.0
    ensures k / n <= r <==> k <= r * n
  {
    var q := k / n;
    assert q * n == k;
    if q <= r { assert (r - q) * n >= 0.0; } else { assert (q - r) * n > 0.0; }
  }

  // ---------------------------------------------------------------- hysteresis

  lemma {:induction false} CountSplit(a: seq<Frame>, b: seq<Frame>, c: string)
    ensures Count(a + b, c) == Count(a, c) + Count(b, c)
  {
    if b == [] {
      assert a + b == a;
    } else {
      var rest := b[..|b| - 1];
      CountSplit(a, rest, c);
      assert (a + b)[..|a + b| - 1] == a + rest;
    }
  }

  /** While the window is full, `d` further frames change a class count by at most `d`, either way. */
  lemma CountDrift(capacity: nat, h: seq<Frame>, more: seq<Frame>, c: string)
    requires |h| >= capacity
    ensures var before, after := Count(LastFrames(capacity, h), c), Count(LastFrames(capacity, h + more), c);
      before - |more| <= after <= before + |more|
  {
    var head, head' := h[..|h| - capacity], (h + more)[..|h| + |more| - capacity];
    var w, w' := LastFrames(capacity, h), LastFrames(capacity, h + more);
    assert h == head + w && h + more == head' + w';
    CountSplit(head, w, c);
    CountSplit(head', w', c);
    CountSplit(h, more, c);
    var gone := (h + more)[|h| - capacity..|h| + |more| - capacity];
    assert head' == head + gone;
    CountSplit(head, gone, c);
  }

  /**
   Hysteresis: with a full window, a class needs at least (presentRatio - absentRatio) * windowSize
   further frames to go from confirmed present to confirmed absent, or back.
   */
  lemma Hysteresis(cfg: StabilityConfig, h: seq<Frame>, more: seq<Frame>, c: string)
    requires cfg.Valid() && |h| >= cfg.windowSize
    requires var s := Decide(cfg, LastFrames(cfg.windowSize, h), c).state;
      var t := Decide(cfg, LastFrames(cfg.windowSize, h + more), c).state;
      (s == ConfirmedPresent && t == ConfirmedAbsent) || (s == ConfirmedAbsent && t == ConfirmedPresent)
    ensures |more| as real >= (cfg.presentRatio - cfg.absentRatio) * cfg.windowSize as real
  {
    var w, w' := LastFrames(cfg.windowSize, h), LastFrames(cfg.windowSize, h + more);
    PresentExactly(cfg, w, c);
    AbsentExactly(cfg, w, c);
    PresentExactly(cfg, w', c);
    AbsentExactly(cfg, w', c);
    SharesApart(cfg, h, more, c);
  }

  lemma SharesApart(cfg: StabilityConfig, h: seq<Frame>, more: seq<Frame>, c: string)
    requires cfg.Valid() && |h| >= cfg.windowSize
    requires var w, w' := LastFrames(cfg.windowSize, h), LastFrames(cfg.windowSize, h + more);
      (MostlySeen(cfg, w, c) && RarelySeen(cfg, w', c)) || (RarelySeen(cfg, w, c) && MostlySeen(cfg, w', c))
    ensures |more| as real >= (cfg.presentRatio - cfg.absentRatio) * cfg.windowSize as real
  {
    var w, w' := LastFrames(cfg.windowSize, h), LastFrames(cfg.windowSize, h + more);
    CountDrift(cfg.windowSize, h, more, c);
    assert |w| == |w'| == cfg.windowSize;
    if MostlySeen(cfg, w, c) && RarelySeen(cfg, w', c) {
      Gap(cfg, w, w', c, |more|);
    } else {
      Gap(cfg, w', w, c, |more|);
    }
  }

  lemma Gap(cfg: StabilityConfig, high: seq<Frame>, low: seq<Frame>, c: string, d: nat)
    requires MostlySeen(cfg, high, c) && RarelySeen(cfg, low, c) && |high| == |low| == cfg.windowSize
    requires Count(high, c) - Count(low, c) <= d
    ensures d as real >= (cfg.presentRatio - cfg.absentRatio) * cfg.windowSize as real
  {
    hide Count;
    var (i, j) := (Count(high, c), Count(low, c));
    assert i as real - j as real <= d as real;
    GapOfShares(i as real, j as real, d as real, cfg.presentRatio, cfg.absentRatio, cfg.windowSize as real);
  }

  lemma GapOfShares(high: real, low: real, d: real, p: real, a: real, n: real)
    requires high >= p * n && low <= a * n && high - low <= d
    ensures d >= (p - a) * n
  {
    ShareGap(p, a, n);
  }
}
