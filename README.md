# Walking-pace and shake-intensity pipelines

A browser app reads the phone's accelerometer through `devicemotion` events and
drives a display and an audio scene with the readings. This project models its
two signal pipelines and proves properties of them.

- **Step/cadence classifier** (`handleMotion` in main.js), in `StepCadence.dfy`.
  - **Peak test.** A sample counts as a step when its magnitude exceeds 1.5 and more than 500 ms have passed since the last step.
  - **Window.** Step timestamps are kept in a window. Entries more than 3000 ms old are dropped from the front.
  - **Cadence.** Cadence is `20 * |window|`.
  - **State.** A ladder maps cadence to 静止 / 歩行 / 早歩き / 速歩.
  - **Music cue.** A five-band chain maps cadence to the music cue.
  - **Structure.** The module-level variables form the class `StepClassifier`, whose `Tick` method is proved against the pure transition function `Next` on a `Snapshot` of the variables. The `while`/`shift` loop is the method `EvictStale`.
  - **Invariant.** The window's entries are more than 500 ms apart, span at most 3000 ms, and end with the last peak time. The state equals the classification of the cadence.
  - **Consequence.** The window never holds more than six steps. So the cadence never exceeds 120, and neither 速歩 nor 曲③ is ever reached.
- **Shake filter** (script.js and scripts.js), in `ShakeStats.dfy` and `ShakeFilter.dfy`.
  - **Buffer.** A buffer holds the newest 20 gravity-inclusive magnitudes.
  - **Update.** Every animation frame takes the buffer's population standard deviation and smooths it with `s += (raw - s) * 0.1`. Above a threshold, it advances a panner angle by `0.05 + k * s`.
  - **Variants.** The two files differ only in the threshold and `k`. The `Variant` datatype selects the pair: `Script` is 0.5 / 0.02, `Scripts` is 0.8 / 0.01.
  - **Structure.** The module-level variables form the class `ShakeFilter`.
- **Shared vocabulary.** `Motion.dfy` holds the event shape and the squared norm.

`Math.sqrt` is a parameter `sqrt`. Where a property depends on it, the
predicate `IsSquareRoot(sqrt)` requires that it return the non-negative root.
The classifier needs no root at all: it compares the squared norm with
`1.5 * 1.5`, which `IsStepMatchesMagnitude` proves equivalent to the source's
test. `Date.now()` is the parameter `now`.

What the code does, and so what the model does:
- the state has no separate enter and exit thresholds (no hysteresis);
- the state is recomputed from the cadence on every sample;
- cadence is the window length times 20, not a rate over the span of the steps;
- the thresholds are constants, and nothing validates them.

## Model

| member | source | states |
|---|---|---|
| Motion.MissingAxisIsZero | script.js:31 | a missing axis, whichever of the three it is, gives the same squared norm as an axis reading 0 |
| Motion.SquaredNorm | script.js:31 | the sum of the three axes' squares is never negative, so its root is defined |
| Motion.MagnitudeAboveIffSquareAbove | main.js:89-93 | for a true square root and a non-negative bound, the root exceeds the bound exactly when the square exceeds the bound squared |
| StepCadence.Cadence | main.js:104 | cadence is exactly 20 steps per minute per entry in the window (60000 / 3000 divides exactly) |
| StepCadence.StateNameInjective | main.js:114-116 | two states have equal name strings exactly when they are the same state, so comparing the strings compares the states |
| StepCadence.ClassifyMonotone | main.js:108-112 | a higher cadence never yields a slower state |
| StepCadence.ClassifyBands | main.js:108-112 | each state owns exactly one band: 静止 below 30, 歩行 in [30,100), 早歩き in [100,130), 速歩 from 130 |
| StepCadence.CueRefinesState | main.js:108-138 | each of the five cue bands lies inside one state band; the first song plays exactly in 静止, the last exactly in 速歩 |
| StepCadence.CueMonotone | main.js:126-138 | a higher cadence never yields an earlier cue |
| StepCadence.Reading | main.js:86-89 | a sample is dropped exactly when neither acceleration object is present or the chosen one has a null x axis; otherwise its squared magnitude is non-negative |
| StepCadence.IsStepMatchesMagnitude | main.js:89-93 | the squared peak test accepts exactly the samples with magnitude above 1.5 that arrive more than 500 ms after the last peak |
| StepCadence.StaleCount | main.js:99-101 | the loop removes the longest prefix of entries more than 3000 ms old and stops at the first entry that is not (an entry exactly 3000 ms old stays) |
| StepCadence.AppendRecent | main.js:93-101 | appending a step to a window whose oldest entry is still recent evicts nothing |
| StepCadence.SpacingAccumulates | main.js:93-96 | in a debounced window, entries j - i places apart differ by at least (j - i) * 501 ms |
| StepCadence.SpacedIsIncreasing | main.js:93-96 | a debounced window is strictly increasing |
| StepCadence.HistoryLengthBound | main.js:93-101 | a debounced window spanning at most 3000 ms holds at most six entries |
| StepCadence.EvictWindow | main.js:99-101 | after eviction every remaining entry is at most 3000 ms older than now |
| StepCadence.SuffixWellSpaced | main.js:99-101 | dropping a prefix keeps the spacing of the remaining entries |
| StepCadence.SuffixKeepsInvariant | main.js:99-101 | dropping a prefix keeps spacing, span and the newest entry being the last peak (unless everything is dropped) |
| StepCadence.TickPreservesInvariant | main.js:93-101 | appending an accepted step and then evicting keeps the window invariant |
| StepCadence.WindowBounds | main.js:93-101 | a window that keeps the invariant and whose oldest entry is recent lies within 3000 ms of now, and entirely at or before now when the last peak is |
| StepCadence.NeverRunning | main.js:93-112 | under the invariant the cadence is at most 120, so the state is never 速歩 and the cue never 曲③ |
| StepCadence.DroppedSampleChangesNothing | main.js:86-87 | a dropped sample changes no variable, evicts nothing and reports nothing |
| StepCadence.InitialConsistent | main.js:18-20 | the initial variables (0, empty window, 静止) satisfy the invariant |
| StepCadence.NextConsistent | main.js:85-117 | every sample keeps the invariant, whatever the clock reads |
| StepCadence.NextRecordsPeak | main.js:93-101 | an accepted peak becomes the last peak time and is appended to the old window less a stale prefix; any other sample leaves the last peak time and only loses a prefix of the window |
| StepCadence.NextWindow | main.js:99-101 | after a sample every entry is within 3000 ms of now, and at or before now when the clock does not run backwards |
| StepCadence.NextTransition | main.js:104-138 | the report's cadence is 20 times the window length, its state is the classified one and equals the new current state, its cue is the cue of the cadence, and a transition is logged exactly when the state changes, from the old state to the new |
| StepCadence.ConsistentNeverRunning | main.js:93-112 | a consistent classifier holds at most six steps and is never in 速歩 |
| StepCadence.StrongSampleAppends | main.js:93-104 | a magnitude-2.0 sample past the debounce interval, with the oldest entry still recent, is appended and reported with the classification of the longer window |
| StepCadence.FourStepWalk | main.js:93-138 | four magnitude-2.0 samples 600 ms apart from the initial variables give the window [t, t+600, t+1200, t+1800], cadence 80, state 歩行 and cue 曲②, with no transition on the last sample |
| StepCadence.StepClassifier.constructor | main.js:18-20 | the classifier starts at the initial variables and satisfies its invariant |
| StepCadence.StepClassifier.EvictStale | main.js:99-101 | the loop leaves exactly the window after eviction of the stale prefix and changes nothing else |
| StepCadence.StepClassifier.Tick | main.js:85-138 | one sample updates the variables and reports exactly as the transition function says, and keeps the invariant |
| ShakeStats.Variance | script.js:17-18 | the population variance is never negative |
| ShakeStats.StandardDeviation | script.js:14-20 | the empty buffer gives 0; otherwise the result is non-negative and its square is the variance |
| ShakeStats.SumSquaredDeviationsNonNegative | script.js:18 | a sum of squared deviations is never negative |
| ShakeStats.SumAppend | script.js:17 | the sum of a concatenation is the sum of the parts |
| ShakeStats.SumSquaredDeviationsAppend | script.js:18 | the squared deviations of a concatenation add up over the parts |
| ShakeStats.SumShift | script.js:17 | adding c to every element adds n * c to the sum |
| ShakeStats.SumSquaredDeviationsShift | script.js:18 | deviations from a mean shifted by the same constant are unchanged |
| ShakeStats.MeanShift | script.js:17 | adding c to every element of a non-empty buffer adds c to the mean |
| ShakeStats.VarianceShiftInvariant | script.js:17-19 | adding the same constant to every element changes neither the variance nor the standard deviation |
| ShakeStats.SumConstant | script.js:17 | a buffer of n copies of x sums to n * x |
| ShakeStats.SumSquaredDeviationsConstant | script.js:18 | a buffer of n copies of x has n * (x - m)^2 as squared deviations from m |
| ShakeStats.ConstantHasNoSpread | scripts.js:55-57 | a constant buffer, in particular a single sample, has variance and standard deviation 0 |
| ShakeStats.TwoLevelBuffer | scripts.js:55-57 | ten samples of 9.8 and ten of 10.2 have mean 10, variance 0.04 and standard deviation 0.2 |
| ShakeFilter.PushCapped | script.js:33-34 | for a buffer of at most 20, the result is the newest min(20, n + 1) of the old samples and the new one, at most 20 long, ending in the new sample |
| ShakeFilter.PushAllKeepsNewest | scripts.js:71-72 | any run of pushes leaves the newest 20 of all samples received, in arrival order |
| ShakeFilter.Smooth | script.js:77 | the smoothed value is 0.9 * old + 0.1 * raw, lies between the old and the raw value, and a raw value equal to the old one is a fixed point |
| ShakeFilter.SmoothAllBounded | scripts.js:87 | over any run of frames the smoothed value stays in any interval holding its start and every raw value: from 0 with non-negative raw values it stays non-negative and at most the largest raw value |
| ShakeFilter.SmoothAllConverges | script.js:77 | n frames of a constant raw value c shrink the distance to c by the factor 0.9^n |
| ShakeFilter.TurnAdvances | script.js:90-92 | the panner angle never decreases; it moves exactly when the smoothed shake exceeds the threshold (0.5 here, 0.8 in scripts.js:94-99), by 0.05 + k * smoothed |
| ShakeFilter.GentleSwayNeverTurns | scripts.js:87-96 | when every raw shake is at most 0.2, the smoothed value from 0 stays in [0, 0.2] after every frame and the panner never turns, in either file |
| ShakeFilter.ShakeFilter.constructor | script.js:4-9 | an empty buffer, not playing, shake and angle 0 |
| ShakeFilter.ShakeFilter.Start | script.js:140 | playing starts and the invariant holds |
| ShakeFilter.ShakeFilter.HandleMotion | scripts.js:64-73 | without a gravity-inclusive reading the buffer is unchanged; otherwise its new value is the capped push of the sample's magnitude, and it stays at most 20 long |
| ShakeFilter.ShakeFilter.Update | scripts.js:79-112 | while not playing nothing changes; while playing the shake is the buffer's standard deviation, the smoothed value is its smoothing and the angle its turn; the angle never decreases and all three stay non-negative |

## Left out

- The display is left out: text, colours, the cadence rounding for display, and the chart with its 100-point buffer. It is presentation only. The state names are kept as strings (`StateName`) because main.js compares states through them; the cue label strings and the colours chosen from them are not modelled.
- The Tone.js audio graph, the loops and the panner's `rampTo` calls are left out. They are calls into a library outside the model.
- The `sin`/`cos` panner position is left out because it is transcendental floating-point arithmetic. Only the angle is modelled.
- Sensor permission prompts, event-listener registration and `requestAnimationFrame` scheduling are left out as asynchronous I/O. `Start` stands for the moment `isPlaying` becomes true.
- `Date.now()` is the parameter `now`, and `Math.sqrt` is the parameter `sqrt` (see `IsSquareRoot`). The classifier's invariant holds for any clock. The "entries at or before now" half of `NextWindow` needs a clock that does not run backwards.
- IEEE-754 rounding is not modelled: magnitudes and shakes are exact reals. So the model cannot show `0.1` not being exact, or sums accumulating rounding error.
- JavaScript coercions are not modelled. In main.js a missing `y` or `z` counts as 0 (as `null ** 2` does), and a missing `x` drops the sample. An axis that is `undefined` rather than `null` would make the magnitude `NaN` in the source, which has no counterpart here. In the shake filter an axis of `0`, `null` or `undefined` counts as 0, as `|| 0` makes it.
- ShakeFilter.ShakeFilter.Update: in script.js `currentShake` is a local of `update`, not a module-level variable. The model keeps it as a field for both files, and script.js never reads the stored value.
- ShakeFilter.ShakeFilter.Update: `Valid` also keeps the shake values non-negative, so `Update` requires a true square root (`IsSquareRoot(sqrt)`). For an arbitrary `sqrt` the source's update is still well defined.
