/** The step and cadence classifier of main.js (`handleMotion`, lines 85-145):
    peak detection with a debounce interval, a three-second window of step
    timestamps, cadence as steps per minute extrapolated from the window, a
    four-state ladder and a five-band music cue. */
module StepCadence {
  import opened Motion

  const PeakThreshold: real := 1.5      // magnitude a step must exceed
  const StepIntervalMs: int := 500      // debounce between two accepted steps
  const HistorySeconds: int := 3        // length of the step window
  const HistoryMs: int := HistorySeconds * 1000
  /** Steps per minute contributed by one step in the window (60000 / 3000). */
  const CadencePerStep: int := 60000 / HistoryMs

  const StillThreshold: int := 30
  const WalkThreshold: int := 100
  const RunThreshold: int := 130

  /** The most entries a window can hold once its entries are more than
      StepIntervalMs apart and span at most HistoryMs (integer milliseconds). */
  const MaxHistory: nat := HistoryMs / (StepIntervalMs + 1) + 1

  /** 静止 / 歩行 / 早歩き / 速歩 */
  datatype LocomotionState = Still | Walking | Brisk | Running

  /** 曲① / 遷移中① / 曲② / 遷移中② / 曲③ */
  datatype MusicCue = StillSong | ToWalking | WalkingSong | ToRunning | RunningSong

  /** The `console.log` that main.js emits when the state changes. */
  datatype Transition = Transition(from: LocomotionState, to: LocomotionState)

  /** What one accepted sample produces for the display. */
  datatype TickReport = TickReport(
    cadence: int,
    state: LocomotionState,
    cue: MusicCue,
    transition: Option<Transition>)

  /** The display string main.js keeps in `currentState`. */
  function StateName(s: LocomotionState): string
  {
    match s
    case Still => "静止"
    case Walking => "歩行"
    case Brisk => "早歩き"
    case Running => "速歩"
  }

  /** Distinct states have distinct names, so the source's comparison of the
      name strings `newState !== currentState` is a comparison of states. */
  lemma StateNameInjective(a: LocomotionState, b: LocomotionState)
    ensures StateName(a) == StateName(b) <==> a == b
  {
  }

  /** Position of a state on the ladder, slowest first. */
  function Rank(s: LocomotionState): nat
  {
    match s
    case Still => 0
    case Walking => 1
    case Brisk => 2
    case Running => 3
  }

  /** Position of a cue among the bands, slowest first. */
  function CueRank(m: MusicCue): nat
  {
    match m
    case StillSong => 0
    case ToWalking => 1
    case WalkingSong => 2
    case ToRunning => 3
    case RunningSong => 4
  }

  // ---------------------------------------------------------------------------
  // Cadence, state ladder and music cue
  // ---------------------------------------------------------------------------

  /** Cadence in steps per minute of a window holding `historyLength` steps;
      60000 / 3000 divides exactly, so the product is an exact integer. */
  function Cadence(historyLength: nat): (c: nat)
    ensures c == 20 * historyLength
  {
    historyLength * CadencePerStep
  }

  /** The `if` ladder that picks `newState`. */
  function Classify(cadence: int): LocomotionState
  {
    if cadence < StillThreshold then Still
    else if cadence < WalkThreshold then Walking
    else if cadence < RunThreshold then Brisk
    else Running
  }

  /** A faster cadence never gives a slower state. */
  lemma ClassifyMonotone(c1: int, c2: int)
    requires c1 <= c2
    ensures Rank(Classify(c1)) <= Rank(Classify(c2))
  {
  }

  /** The ladder's bands in terms of the thresholds: each state owns one
      half-open interval of cadence. */
  lemma ClassifyBands(c: int)
    ensures Classify(c) == Still <==> c < 30
    ensures Classify(c) == Walking <==> 30 <= c < 100
    ensures Classify(c) == Brisk <==> 100 <= c < 130
    ensures Classify(c) == Running <==> 130 <= c
  {
  }

  /** The five-band cue chain that picks `musicLabel`. */
  function Cue(cadence: int): MusicCue
  {
    if cadence < 30 then StillSong
    else if cadence < 60 then ToWalking
    else if cadence < 100 then WalkingSong
    else if cadence < 130 then ToRunning
    else RunningSong
  }

  /** The state each cue band lies in. */
  function CueState(m: MusicCue): LocomotionState
  {
    match m
    case StillSong => Still
    case ToWalking => Walking
    case WalkingSong => Walking
    case ToRunning => Brisk
    case RunningSong => Running
  }

  /** The cue bands refine the state ladder: every band lies inside one
      state's interval, the first song plays exactly in the still state and
      the last exactly in the running state. */
  lemma CueRefinesState(c: int)
    ensures CueState(Cue(c)) == Classify(c)
    ensures Cue(c) == StillSong <==> Classify(c) == Still
    ensures Cue(c) == RunningSong <==> Classify(c) == Running
  {
  }

  /** A faster cadence never gives an earlier cue. */
  lemma CueMonotone(c1: int, c2: int)
    requires c1 <= c2
    ensures CueRank(Cue(c1)) <= CueRank(Cue(c2))
  {
  }

  // ---------------------------------------------------------------------------
  // Peak detection and the step window
  // ---------------------------------------------------------------------------

  /** The acceleration main.js reads: `event.acceleration` when present,
      otherwise `event.accelerationIncludingGravity`. */
  function SelectedAcceleration(e: MotionEvent): Option<Vector3>
  {
    if e.acceleration.Some? then e.acceleration else e.accelerationIncludingGravity
  }

  /** The squared magnitude of the sample, or None when main.js drops it
      (no acceleration at all, or a null x axis). */
  function Reading(e: MotionEvent): (r: Option<real>)
    ensures r.None? <==> SelectedAcceleration(e).None? || SelectedAcceleration(e).value.x.None?
    ensures r.Some? ==> r.value >= 0.0
  {
    match SelectedAcceleration(e)
    case None => None
    case Some(v) => if v.x.None? then None else Some(SquaredNorm(v))
  }

  /** The peak test of main.js with the magnitude squared on both sides. */
  predicate IsStep(squaredMagnitude: real, now: int, lastPeakTime: int)
  {
    squaredMagnitude > PeakThreshold * PeakThreshold && now - lastPeakTime > StepIntervalMs
  }

  /** The squared test accepts exactly the samples whose magnitude exceeds
      the threshold. */
  lemma IsStepMatchesMagnitude(sqrt: real -> real, squaredMagnitude: real, now: int, lastPeakTime: int)
    requires IsSquareRoot(sqrt) && squaredMagnitude >= 0.0
    ensures IsStep(squaredMagnitude, now, lastPeakTime)
        <==> sqrt(squaredMagnitude) > PeakThreshold && now - lastPeakTime > StepIntervalMs
  {
    MagnitudeAboveIffSquareAbove(sqrt, squaredMagnitude, PeakThreshold);
  }

  /** How many entries the `while`/`shift` loop removes: the length of the
      longest prefix whose entries are all more than HistoryMs older than
      `now`, stopping at the first entry that is not. */
  function StaleCount(h: seq<int>, now: int): (k: nat)
    ensures k <= |h|
    ensures forall i :: 0 <= i < k ==> now - h[i] > HistoryMs
    ensures k == |h| || now - h[k] <= HistoryMs
    decreases |h|
  {
    if |h| > 0 && now - h[0] > HistoryMs then 1 + StaleCount(h[1..], now) else 0
  }

  /** The history after eviction. */
  function Evict(h: seq<int>, now: int): seq<int>
  {
    h[StaleCount(h, now)..]
  }

  /** Appending a step to a history whose oldest entry (`first`, or the new
      step itself when the history is empty) is recent enough evicts nothing. */
  lemma AppendRecent(h: seq<int>, now: int, first: int)
    requires (if h == [] then now else h[0]) == first && now - first <= HistoryMs
    ensures Evict(h + [now], now) == h + [now]
  {
    assert (h + [now])[0] == first;
  }

  /** Consecutive entries are more than the debounce interval apart. */
  predicate WellSpaced(h: seq<int>)
  {
    forall i :: 0 < i < |h| ==> h[i] - h[i - 1] > StepIntervalMs
  }

  /** The whole window fits in HistoryMs. */
  predicate WithinSpan(h: seq<int>)
  {
    |h| > 0 ==> h[|h| - 1] - h[0] <= HistoryMs
  }

  predicate Increasing(h: seq<int>)
  {
    forall i, j :: 0 <= i < j < |h| ==> h[i] < h[j]
  }

  /** The invariant main.js keeps between samples: spacing, span, and the
      newest entry being the last accepted peak. */
  predicate HistoryInvariant(h: seq<int>, lastPeakTime: int)
  {
    && WellSpaced(h)
    && WithinSpan(h)
    && (|h| > 0 ==> h[|h| - 1] == lastPeakTime)
  }

  /** Gaps add up: entries j - i places apart differ by at least
      (j - i) * (StepIntervalMs + 1) milliseconds. */
  lemma {:induction false} SpacingAccumulates(h: seq<int>, i: int, j: int)
    requires WellSpaced(h) && 0 <= i <= j < |h|
    ensures h[j] - h[i] >= (j - i) * (StepIntervalMs + 1)
    decreases j - i
  {
    if i < j {
      SpacingAccumulates(h, i, j - 1);
      assert h[j] - h[j - 1] > StepIntervalMs;
    }
  }

  /** A well-spaced history is strictly increasing. */
  lemma SpacedIsIncreasing(h: seq<int>)
    requires WellSpaced(h)
    ensures Increasing(h)
  {
    forall i, j | 0 <= i < j < |h|
      ensures h[i] < h[j]
    {
      SpacingAccumulates(h, i, j);
    }
  }

  /** The window never holds more than MaxHistory (six) steps. */
  lemma HistoryLengthBound(h: seq<int>)
    requires WellSpaced(h) && WithinSpan(h)
    ensures |h| <= MaxHistory
    ensures MaxHistory == 6
  {
    if |h| > 0 {
      SpacingAccumulates(h, 0, |h| - 1);
    }
  }

  /** After eviction of an increasing history, every entry is at most
      HistoryMs older than `now`; an entry exactly HistoryMs old is kept. */
  lemma EvictWindow(h: seq<int>, now: int)
    requires Increasing(h)
    ensures forall e :: e in Evict(h, now) ==> now - e <= HistoryMs
  {
    var c := StaleCount(h, now);
    forall e | e in Evict(h, now)
      ensures now - e <= HistoryMs
    {
      var k :| c <= k < |h| && h[k] == e;
      assert h[c] <= h[k];
    }
  }

  /** Removing a prefix keeps the spacing. */
  lemma SuffixWellSpaced(h: seq<int>, k: nat)
    requires WellSpaced(h) && k <= |h|
    ensures WellSpaced(h[k..])
  {
    var s := h[k..];
    forall i | 0 < i < |s|
      ensures s[i] - s[i - 1] > StepIntervalMs
    {
      assert s[i] == h[k + i] && s[i - 1] == h[k + i - 1];
    }
  }

  /** Eviction keeps spacing and span, and removing a prefix never removes
      the newest entry unless it removes everything. */
  lemma SuffixKeepsInvariant(h: seq<int>, k: nat, lastPeakTime: int)
    requires HistoryInvariant(h, lastPeakTime) && k <= |h|
    ensures HistoryInvariant(h[k..], lastPeakTime)
  {
    SuffixWellSpaced(h, k);
    if k < |h| {
      SpacedIsIncreasing(h);
      assert h[0] <= h[k];
    }
  }

  /** One sample of main.js keeps the history invariant: an accepted step is
      appended, then the old prefix is evicted. */
  lemma TickPreservesInvariant(h: seq<int>, lastPeakTime: int, step: bool, now: int)
    requires HistoryInvariant(h, lastPeakTime)
    requires step ==> now - lastPeakTime > StepIntervalMs
    ensures HistoryInvariant(
      Evict(h + (if step then [now] else []), now),
      if step then now else lastPeakTime)
  {
    if step {
      var p := h + [now];
      assert WellSpaced(p) by {
        forall i | 0 < i < |p|
          ensures p[i] - p[i - 1] > StepIntervalMs
        {
          if i < |h| {
            assert p[i] == h[i] && p[i - 1] == h[i - 1];
          }
        }
      }
      SuffixWellSpaced(p, StaleCount(p, now));
    } else {
      assert h + [] == h;
      SuffixKeepsInvariant(h, StaleCount(h, now), lastPeakTime);
    }
  }

  /** A history that keeps the invariant and whose oldest entry is within
      HistoryMs of `now` lies wholly in the window ending at `now`, and wholly
      before `now` when the last accepted peak is. */
  lemma WindowBounds(h: seq<int>, lastPeakTime: int, now: int)
    requires HistoryInvariant(h, lastPeakTime)
    requires h == [] || now - h[0] <= HistoryMs
    ensures forall e :: e in h ==> now - e <= HistoryMs
    ensures now >= lastPeakTime ==> forall e :: e in h ==> e <= now
  {
    SpacedIsIncreasing(h);
    forall e | e in h
      ensures now - e <= HistoryMs && (now >= lastPeakTime ==> e <= now)
    {
      var k :| 0 <= k < |h| && h[k] == e;
      assert h[0] <= h[k] <= h[|h| - 1];
    }
  }

  /** With the invariant in force the cadence never exceeds 120, so neither the
      running state nor the last song is ever reached. */
  lemma NeverRunning(h: seq<int>, lastPeakTime: int)
    requires HistoryInvariant(h, lastPeakTime)
    ensures Cadence(|h|) <= 120
    ensures Classify(Cadence(|h|)) != Running
    ensures Cue(Cadence(|h|)) != RunningSong
  {
    HistoryLengthBound(h);
  }

  // ---------------------------------------------------------------------------
  // One sample, as a function of the classifier's variables
  // ---------------------------------------------------------------------------

  /** The values of main.js's module-level variables `lastPeakTime`,
      `stepHistory` and `currentState`. */
  datatype Snapshot = Snapshot(lastPeakTime: int, stepHistory: seq<int>, currentState: LocomotionState)

  /** The variables as main.js initialises them. */
  const Initial: Snapshot := Snapshot(0, [], Still)

  /** What holds between samples. */
  predicate Consistent(s: Snapshot)
  {
    && HistoryInvariant(s.stepHistory, s.lastPeakTime)
    && s.currentState == Classify(Cadence(|s.stepHistory|))
  }

  /** The effect of `handleMotion(event)` at time `now`: the new variables and,
      unless the sample is dropped, what the display shows. */
  function Next(s: Snapshot, e: MotionEvent, now: int): (Snapshot, Option<TickReport>)
  {
    match Reading(e)
    case None => (s, None)
    case Some(squaredMagnitude) =>
      var step := IsStep(squaredMagnitude, now, s.lastPeakTime);
      var last := if step then now else s.lastPeakTime;
      var history := Evict(s.stepHistory + (if step then [now] else []), now);
      var cadence := Cadence(|history|);
      var state := Classify(cadence);
      var transition := if state != s.currentState then Some(Transition(s.currentState, state)) else None;
      (Snapshot(last, history, state), Some(TickReport(cadence, state, Cue(cadence), transition)))
  }

  /** A dropped sample (no acceleration, or a null x axis) changes nothing and
      reports nothing, not even an eviction. */
  lemma DroppedSampleChangesNothing(s: Snapshot, e: MotionEvent, now: int)
    requires SelectedAcceleration(e).None? || SelectedAcceleration(e).value.x.None?
    ensures Next(s, e, now) == (s, None)
  {
  }

  lemma InitialConsistent()
    ensures Consistent(Initial)
  {
  }

  /** Every sample keeps the variables consistent, whatever `now` is. */
  lemma NextConsistent(s: Snapshot, e: MotionEvent, now: int)
    requires Consistent(s)
    ensures Consistent(Next(s, e, now).0)
  {
    match Reading(e)
    case None =>
    case Some(m) =>
      TickPreservesInvariant(s.stepHistory, s.lastPeakTime, IsStep(m, now, s.lastPeakTime), now);
  }

  /** Peak detection: a sample that passes the peak test becomes the newest
      entry and the last peak time; any other sample adds no entry and leaves
      the last peak time alone, the history only losing a stale prefix. */
  lemma NextRecordsPeak(s: Snapshot, e: MotionEvent, now: int)
    requires Consistent(s) && Reading(e).Some?
    ensures var s' := Next(s, e, now).0;
      if IsStep(Reading(e).value, now, s.lastPeakTime) then
        && s'.lastPeakTime == now
        && s'.stepHistory != [] && s'.stepHistory[|s'.stepHistory| - 1] == now
        && exists k :: 0 <= k <= |s.stepHistory| && s'.stepHistory == s.stepHistory[k..] + [now]
      else
        && s'.lastPeakTime == s.lastPeakTime
        && exists k :: 0 <= k <= |s.stepHistory| && s'.stepHistory == s.stepHistory[k..]
  {
    var step := IsStep(Reading(e).value, now, s.lastPeakTime);
    var p := s.stepHistory + (if step then [now] else []);
    var k := StaleCount(p, now);
    if step {
      assert now - p[|p| - 1] == 0;
      assert k < |p|;
      assert p[k..] == s.stepHistory[k..] + [now];
    } else {
      assert p == s.stepHistory;
    }
  }

  /** After a sample that is not dropped every entry lies in the window of
      HistoryMs ending at `now` (with a clock that does not run backwards). */
  lemma NextWindow(s: Snapshot, e: MotionEvent, now: int)
    requires Consistent(s) && Reading(e).Some?
    ensures var s' := Next(s, e, now).0;
      && (forall t :: t in s'.stepHistory ==> now - t <= HistoryMs)
      && (now >= s.lastPeakTime ==> forall t :: t in s'.stepHistory ==> t <= now)
  {
    NextConsistent(s, e, now);
    var s' := Next(s, e, now).0;
    WindowBounds(s'.stepHistory, s'.lastPeakTime, now);
  }

  /** The state is reassigned, and the transition logged, exactly when the
      newly classified state differs from the current one; the report always
      agrees with the new state. */
  lemma NextTransition(s: Snapshot, e: MotionEvent, now: int)
    requires Reading(e).Some?
    ensures var (s', r) := Next(s, e, now);
      && r.Some?
      && r.value.state == s'.currentState == Classify(r.value.cadence)
      && r.value.cadence == Cadence(|s'.stepHistory|)
      && r.value.cue == Cue(r.value.cadence)
      && (r.value.transition.Some? <==> s'.currentState != s.currentState)
      && (r.value.transition.Some? ==> r.value.transition.value == Transition(s.currentState, s'.currentState))
  {
  }

  /** In a consistent state the classifier is never running. */
  lemma ConsistentNeverRunning(s: Snapshot)
    requires Consistent(s)
    ensures s.currentState != Running
    ensures |s.stepHistory| <= MaxHistory
  {
    NeverRunning(s.stepHistory, s.lastPeakTime);
    HistoryLengthBound(s.stepHistory);
  }

  /** A sample of magnitude 2.0 along the x axis. */
  const StrongSample: MotionEvent := MotionEvent(Some(Vector3(Some(2.0), Some(0.0), Some(0.0))), None)

  /** A strong sample past the debounce interval, arriving while the oldest
      entry is still in the window, is appended and evicts nothing. */
  lemma StrongSampleAppends(s: Snapshot, now: int)
    requires now - s.lastPeakTime > StepIntervalMs
    requires s.stepHistory == [] || now - s.stepHistory[0] <= HistoryMs
    ensures var cadence := Cadence(|s.stepHistory| + 1);
      var state := Classify(cadence);
      Next(s, StrongSample, now) == (
        Snapshot(now, s.stepHistory + [now], state),
        Some(TickReport(cadence, state, Cue(cadence),
          if state != s.currentState then Some(Transition(s.currentState, state)) else None)))
  {
    assert Reading(StrongSample) == Some(4.0);
    AppendRecent(s.stepHistory, now, if s.stepHistory == [] then now else s.stepHistory[0]);
  }

  /** Four samples of magnitude 2.0, 600 ms apart, from the initial variables:
      the window holds four steps, cadence 80, state walking, cue the walking
      song, and the last sample causes no transition. */
  lemma FourStepWalk(t: int)
    requires t > StepIntervalMs
    ensures Next(Initial, StrongSample, t).0 == Snapshot(t, [t], Still)
    ensures Next(Snapshot(t, [t], Still), StrongSample, t + 600).0
      == Snapshot(t + 600, [t, t + 600], Walking)
    ensures Next(Snapshot(t + 600, [t, t + 600], Walking), StrongSample, t + 1200).0
      == Snapshot(t + 1200, [t, t + 600, t + 1200], Walking)
    ensures Next(Snapshot(t + 1200, [t, t + 600, t + 1200], Walking), StrongSample, t + 1800) == (
      Snapshot(t + 1800, [t, t + 600, t + 1200, t + 1800], Walking),
      Some(TickReport(80, Walking, WalkingSong, None)))
  {
    StrongSampleAppends(Initial, t);
    assert [] + [t] == [t];
    StrongSampleAppends(Snapshot(t, [t], Still), t + 600);
    StrongSampleAppends(Snapshot(t + 600, [t, t + 600], Walking), t + 1200);
    StrongSampleAppends(Snapshot(t + 1200, [t, t + 600, t + 1200], Walking), t + 1800);
    assert [t, t + 600, t + 1200] + [t + 1800] == [t, t + 600, t + 1200, t + 1800];
  }

  // ---------------------------------------------------------------------------
  // The classifier's mutable state
  // ---------------------------------------------------------------------------

  /** The module-level variables of main.js, updated in place by
      `handleMotion`. */
  class StepClassifier {
    var lastPeakTime: int
    var stepHistory: seq<int>
    var currentState: LocomotionState

    function Variables(): Snapshot
      reads this
    {
      Snapshot(lastPeakTime, stepHistory, currentState)
    }

    ghost predicate Valid()
      reads this
    {
      Consistent(Variables())
    }

    constructor ()
      ensures Valid() && Variables() == Initial
    {
      lastPeakTime := 0;
      stepHistory := [];
      currentState := Still;
    }

    /** The `while`/`shift` loop of `handleMotion`: drops stale entries
        from the front of `stepHistory` and touches nothing else. */
    method EvictStale(now: int)
      modifies this`stepHistory
      ensures stepHistory == Evict(old(stepHistory), now)
    {
      ghost var dropped := 0;
      while |stepHistory| > 0 && now - stepHistory[0] > HistoryMs
        invariant dropped <= StaleCount(old(stepHistory), now)
        invariant stepHistory == old(stepHistory)[dropped..]
        decreases |stepHistory|
      {
        stepHistory := stepHistory[1..];
        dropped := dropped + 1;
      }
    }

    /** `handleMotion(event)` with `Date.now()` passed in as `now`. */
    method Tick(event: MotionEvent, now: int) returns (report: Option<TickReport>)
      requires Valid()
      modifies this
      ensures Valid()
      ensures (Variables(), report) == Next(old(Variables()), event, now)
    {
      ghost var before := Variables();
      var reading := Reading(event);
      if reading.None? {
        return None;
      }
      ghost var step := IsStep(reading.value, now, lastPeakTime);
      ghost var pushed := stepHistory + (if step then [now] else []);

      // peak detection
      if reading.value > PeakThreshold * PeakThreshold && now - lastPeakTime > StepIntervalMs {
        lastPeakTime := now;
        stepHistory := stepHistory + [now];
      } else {
        assert stepHistory == stepHistory + [];
      }
      assert stepHistory == pushed;

      // eviction of stale steps
      EvictStale(now);
      assert stepHistory == Evict(pushed, now);

      // cadence, state and cue
      var cadence := Cadence(|stepHistory|);
      var newState := Classify(cadence);
      var transition: Option<Transition> := None;
      if newState != currentState {
        transition := Some(Transition(currentState, newState));
        currentState := newState;
      }
      report := Some(TickReport(cadence, newState, Cue(cadence), transition));
      ghost var after := Next(before, event, now);
      assert after.0.lastPeakTime == lastPeakTime;
      assert after.0.stepHistory == stepHistory;
      assert after.0.currentState == currentState;
      assert after.1 == report;
      NextConsistent(before, event, now);
    }
  }
}
