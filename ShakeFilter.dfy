/** The shake-intensity filter of script.js and scripts.js: a 20-sample buffer
    of gravity-inclusive magnitudes (`handleMotion`), and a per-frame `update`
    that takes the buffer's standard deviation, smooths it with an exponential
    moving average and, above a threshold, advances the panner angle. The two
    files differ only in the threshold and the angle gain, which a Variant
    selects. */
module ShakeFilter {
  import opened Motion
  import opened ShakeStats

  const BufferSize: nat := 20
  /** The coefficient of `smoothedShake += (currentShake - smoothedShake) * 0.1`. */
  const SmoothingFactor: real := 0.1
  /** The constant part of the panner angle's advance per frame. */
  const AngleStep: real := 0.05

  /** Which of the two near-identical files is meant. */
  datatype Variant = Script | Scripts

  /** `WALK_THRESHOLD` inside `update`. */
  function WalkThreshold(v: Variant): real
  {
    match v
    case Script => 0.5
    case Scripts => 0.8
  }

  /** The factor of `smoothedShake` in the panner angle's advance. */
  function AngleGain(v: Variant): real
  {
    match v
    case Script => 0.02
    case Scripts => 0.01
  }

  // ---------------------------------------------------------------------------
  // The magnitude buffer
  // ---------------------------------------------------------------------------

  function Min(a: int, b: int): int
  {
    if a <= b then a else b
  }

  /** The last min(n, |s|) elements of `s`. */
  function Newest(s: seq<real>, n: nat): (r: seq<real>)
    ensures |r| == Min(n, |s|)
  {
    s[|s| - Min(n, |s|)..]
  }

  /** `motionBuffer.push(mag)` followed by one `shift` when the buffer has
      grown past BufferSize. */
  function PushCapped(buffer: seq<real>, m: real): (r: seq<real>)
    ensures |r| > 0 && r[|r| - 1] == m
    ensures |buffer| <= BufferSize ==> r == Newest(buffer + [m], BufferSize)
    ensures |buffer| <= BufferSize ==> |r| <= BufferSize
  {
    var pushed := buffer + [m];
    if |pushed| > BufferSize then pushed[1..] else pushed
  }

  /** A run of `handleMotion` calls, oldest sample first. */
  function PushAll(buffer: seq<real>, ms: seq<real>): seq<real>
    decreases |ms|
  {
    if ms == [] then buffer else PushAll(PushCapped(buffer, ms[0]), ms[1..])
  }

  /** Keeping the newest n of the newest n and more is keeping the newest n. */
  lemma NewestOfNewest(s: seq<real>, t: seq<real>, n: nat)
    ensures Newest(Newest(s, n) + t, n) == Newest(s + t, n)
  {
    var k := |s| - Min(n, |s|);
    assert Newest(s, n) + t == (s + t)[k..];
  }

  /** The buffer always holds the newest BufferSize magnitudes received, in
      arrival order. */
  lemma {:induction false} PushAllKeepsNewest(buffer: seq<real>, ms: seq<real>)
    requires |buffer| <= BufferSize
    ensures PushAll(buffer, ms) == Newest(buffer + ms, BufferSize)
    decreases |ms|
  {
    if ms == [] {
      assert buffer + ms == buffer;
    } else {
      var m, rest := ms[0], ms[1..];
      var b' := PushCapped(buffer, m);
      calc {
        PushAll(buffer, ms);
        PushAll(b', rest);
        { PushAllKeepsNewest(b', rest); }
        Newest(b' + rest, BufferSize);
        Newest(Newest(buffer + [m], BufferSize) + rest, BufferSize);
        { NewestOfNewest(buffer + [m], rest, BufferSize); }
        Newest(buffer + [m] + rest, BufferSize);
        { assert buffer + [m] + rest == buffer + ms; }
        Newest(buffer + ms, BufferSize);
      }
    }
  }

  // ---------------------------------------------------------------------------
  // Smoothing and the panner angle
  // ---------------------------------------------------------------------------

  /** `smoothedShake += (raw - smoothedShake) * 0.1`: a convex combination of
      the old value and the raw one, lying between them. */
  function Smooth(smoothed: real, raw: real): (r: real)
    ensures r == 0.9 * smoothed + 0.1 * raw
    ensures smoothed <= raw ==> smoothed <= r <= raw
    ensures raw <= smoothed ==> raw <= r <= smoothed
    ensures raw == smoothed ==> r == smoothed
  {
    smoothed + (raw - smoothed) * SmoothingFactor
  }

  /** `Smooth` applied once per frame to a run of raw values. */
  function SmoothAll(smoothed: real, raws: seq<real>): real
    decreases |raws|
  {
    if raws == [] then smoothed else SmoothAll(Smooth(smoothed, raws[0]), raws[1..])
  }

  /** 0.9 to the power n: how much of a gap survives n frames of smoothing. */
  function Decay(n: nat): (d: real)
    ensures 0.0 < d <= 1.0
  {
    if n == 0 then 1.0 else 0.9 * Decay(n - 1)
  }

  /** Smoothing never leaves an interval that holds the starting value and
      every raw value: from 0 with non-negative raw values the result stays
      non-negative and never exceeds the largest raw value. */
  lemma {:induction false} SmoothAllBounded(smoothed: real, raws: seq<real>, lo: real, hi: real)
    requires lo <= smoothed <= hi
    requires forall i :: 0 <= i < |raws| ==> lo <= raws[i] <= hi
    ensures lo <= SmoothAll(smoothed, raws) <= hi
    decreases |raws|
  {
    if raws != [] {
      SmoothAllBounded(Smooth(smoothed, raws[0]), raws[1..], lo, hi);
    }
  }

  /** A constant raw input c is a fixed point, and n frames of it shrink the
      gap to c by the factor 0.9^n: the smoothed value converges to c from
      the side it starts on, without overshooting. */
  lemma {:induction false} SmoothAllConverges(smoothed: real, c: real, n: nat)
    ensures c - SmoothAll(smoothed, Repeat(c, n)) == Decay(n) * (c - smoothed)
    decreases n
  {
    if n > 0 {
      assert Repeat(c, n)[1..] == Repeat(c, n - 1);
      var next := Smooth(smoothed, c);
      SmoothAllConverges(next, c, n - 1);
      assert c - next == 0.9 * (c - smoothed);
      assert Decay(n - 1) * (0.9 * (c - smoothed)) == (0.9 * Decay(n - 1)) * (c - smoothed);
    }
  }

  /** The panner angle after one frame: advanced by
      AngleStep + gain * smoothed above the threshold, unchanged otherwise. */
  function Turn(angle: real, smoothed: real, v: Variant): real
  {
    if smoothed > WalkThreshold(v) then angle + AngleStep + smoothed * AngleGain(v) else angle
  }

  /** The angle never decreases, and it moves exactly when the smoothed shake
      is above the threshold, by AngleStep + gain * smoothed. */
  lemma TurnAdvances(angle: real, smoothed: real, v: Variant)
    ensures Turn(angle, smoothed, v) >= angle
    ensures Turn(angle, smoothed, v) > angle <==> smoothed > WalkThreshold(v)
    ensures smoothed > WalkThreshold(v) ==>
      Turn(angle, smoothed, v) - angle == AngleStep + AngleGain(v) * smoothed
  {
    if smoothed > WalkThreshold(v) {
      ProductPositive(smoothed, AngleGain(v));
    }
  }

  /** A gentle sway whose raw shake never exceeds 0.2 (ten magnitudes of 9.8
      and ten of 10.2) keeps the smoothed value at most 0.2 after every frame,
      below both files' thresholds, so the panner never turns. */
  lemma GentleSwayNeverTurns(raws: seq<real>, angle: real, v: Variant)
    requires forall i :: 0 <= i < |raws| ==> 0.0 <= raws[i] <= 0.2
    ensures forall k :: 0 <= k <= |raws| ==>
      0.0 <= SmoothAll(0.0, raws[..k]) <= 0.2 && Turn(angle, SmoothAll(0.0, raws[..k]), v) == angle
  {
    forall k | 0 <= k <= |raws|
      ensures 0.0 <= SmoothAll(0.0, raws[..k]) <= 0.2
    {
      SmoothAllBounded(0.0, raws[..k], 0.0, 0.2);
    }
  }

  // ---------------------------------------------------------------------------
  // The filter's mutable state
  // ---------------------------------------------------------------------------

  /** The module-level variables of script.js / scripts.js. */
  class ShakeFilter {
    const variant: Variant
    var motionBuffer: seq<real>
    var isPlaying: bool
    var currentShake: real
    var smoothedShake: real
    var pannerAngle: real

    ghost predicate Valid()
      reads this
    {
      && |motionBuffer| <= BufferSize
      && currentShake >= 0.0
      && smoothedShake >= 0.0
      && pannerAngle >= 0.0
    }

    constructor (variant: Variant)
      ensures Valid() && this.variant == variant
      ensures motionBuffer == [] && !isPlaying
      ensures currentShake == 0.0 && smoothedShake == 0.0 && pannerAngle == 0.0
    {
      this.variant := variant;
      motionBuffer := [];
      isPlaying := false;
      currentShake := 0.0;
      smoothedShake := 0.0;
      pannerAngle := 0.0;
    }

    /** `isPlaying = true` once the audio has started. */
    method Start()
      requires Valid()
      modifies this`isPlaying
      ensures Valid() && isPlaying
    {
      isPlaying := true;
    }

    /** `handleMotion(event)` with `Math.sqrt` passed in as `sqrt`. */
    method HandleMotion(event: MotionEvent, sqrt: real -> real)
      requires Valid()
      modifies this`motionBuffer
      ensures Valid()
      ensures event.accelerationIncludingGravity.None? ==> motionBuffer == old(motionBuffer)
      ensures event.accelerationIncludingGravity.Some? ==>
        motionBuffer == PushCapped(old(motionBuffer), sqrt(SquaredNorm(event.accelerationIncludingGravity.value)))
    {
      if event.accelerationIncludingGravity.None? {
        return;
      }
      var mag := sqrt(SquaredNorm(event.accelerationIncludingGravity.value));
      motionBuffer := motionBuffer + [mag];
      if |motionBuffer| > BufferSize {
        motionBuffer := motionBuffer[1..];
      }
    }

    /** One animation frame of `update()`, with `Math.sqrt` passed in. */
    method Update(sqrt: real -> real)
      requires Valid() && IsSquareRoot(sqrt)
      modifies this`currentShake, this`smoothedShake, this`pannerAngle
      ensures Valid()
      ensures !isPlaying ==>
        && currentShake == old(currentShake)
        && smoothedShake == old(smoothedShake)
        && pannerAngle == old(pannerAngle)
      ensures isPlaying ==>
        && currentShake == StandardDeviation(motionBuffer, sqrt)
        && smoothedShake == Smooth(old(smoothedShake), currentShake)
        && pannerAngle == Turn(old(pannerAngle), smoothedShake, variant)
      ensures pannerAngle >= old(pannerAngle)
    {
      if !isPlaying {
        return;
      }
      currentShake := StandardDeviation(motionBuffer, sqrt);
      smoothedShake := smoothedShake + (currentShake - smoothedShake) * SmoothingFactor;
      if smoothedShake > WalkThreshold(variant) {
        pannerAngle := pannerAngle + AngleStep + smoothedShake * AngleGain(variant);
      }
      TurnAdvances(old(pannerAngle), smoothedShake, variant);
    }
  }
}
