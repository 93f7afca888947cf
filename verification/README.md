# Gesture lock: signal pipeline and matcher

A Dafny model of the gesture-matching core of a motion-gesture lock for an
Adafruit Circuit Playground Classic board. The user holds a button while
moving the board. The device records acceleration magnitudes into a buffer
of `MAX_SIZE` (80) samples, smooths them with a 5-sample moving average,
and stores the result in EEPROM as the reference signature. An unlock
attempt is sampled the same way, except that NaN magnitudes are dropped.
It is smoothed and compared with the reference by dynamic time warping
(DTW). The device unlocks when the distance is below `DTW_THRESHOLD` (8)
and the attempt has at least `min_SIZE` (5) samples.

Modules, one per component of `src/main.cpp`:

- `Common` (`common.dfy`): the configuration constants, `Option` (a NaN
  sample is `None`), and `Abs`/`Min`, which stand for `fabs`/`fmin`.
- `Dtw` (`dtw.dfy`): the textbook full-matrix recurrence `D`, the source's
  rolling-row `DynamicTimeWarping`, and the facts about the distance. These
  are non-negativity, zero self-distance, symmetry, the one-element cases,
  a lower bound, and the distance as the cheapest warping path.
- `Smoothing` (`smoothing.dfy`): `Smooth` on sequences, and the in-place
  `MovingAverage` proved against it.
- `Store` (`store.dfy`): the EEPROM layout. The EEPROM is a map from
  addresses to cells, one cell per `put`/`get`. The module gives the save
  and load functions and the round trip.
- `Acquisition` (`acquisition.dfy`): the two sampling loops. `Acquired` is
  their common specification, and it has an independent description
  (`AcquiredIsKeptWhileHeld`).
- `Decision` (`decision.dfy`): the unlock rule and what follows from it.
- `Lock` (`lock.dfy`): the class `GestureLock`, whose fields are the
  source's global buffers, lengths and the EEPROM, with `recordGesture`,
  `unlockGesture`, save and load.

Button polls and sensor readings enter as sequences: `held[k]` is the
button state at poll `k`, and `samples[k]` is the magnitude read at that
poll. Samples are `real`. `sizeof(int)` is 2 and `sizeof(float)` is 4, as
on the board's 8-bit AVR target.

## Model

| member | source | states |
|---|---|---|
| `Common.Abs` | src/main.cpp:194 | `fabs`: the magnitude, x or -x, never negative |
| `Common.Min` | src/main.cpp:210 | `fmin`: one of its arguments, at most both |
| `Dtw.DynamicTimeWarping` | src/main.cpp:186-218 | for m >= 1 the single rolling row ends holding D[n-1][m-1] of the full-matrix recurrence (first row prefix sums, first column running sums, otherwise min of the three neighbours plus abs difference); for n <= 1, including n <= 0, only the first loop runs and the result is the distance of [a[0]] to b |
| `Dtw.AdvanceRow` | src/main.cpp:201-213 | one pass of the outer loop, carrying the old diagonal in `prev`, turns matrix row i-1 held in the scratch row into row i |
| `Dtw.DNonNegative` | src/main.cpp:192-213 | every cell of the DTW matrix is non-negative (sums and minima of absolute differences) |
| `Dtw.DistanceNonNegative` | src/main.cpp:192-215 | the DTW distance is never negative |
| `Dtw.DDiagonalOfSelf` | src/main.cpp:192-213 | comparing a signature with itself, every diagonal cell of the matrix is 0 |
| `Dtw.DistanceToSelf` | src/main.cpp:192-215 | DTW(a, a) == 0 for every non-empty a |
| `Dtw.DSymmetric` | src/main.cpp:192-213 | cell (i, j) for (a, b) equals cell (j, i) for (b, a) |
| `Dtw.DistanceSymmetric` | src/main.cpp:192-212 | DTW(a, b) == DTW(b, a): the cost and the three-neighbour step set are symmetric |
| `Dtw.FirstRowIsRowCost` | src/main.cpp:192-199 | the first row of the matrix holds the running sums of abs(a[0] - b[j]) |
| `Dtw.DistanceFromSingleton` | src/main.cpp:192-199 | with one sample on either side the distance is the plain sum of abs differences against the other signature |
| `Dtw.DistanceOfSingletons` | src/main.cpp:192-199 | DTW([x], [y]) == abs(x - y) |
| `Dtw.DLowerBound` | src/main.cpp:192-213 | if every pair of samples differs by at least c, cell (i, j) is at least c times (i + 1) |
| `Dtw.DistanceLowerBound` | src/main.cpp:186-218 | if every pair of samples differs by at least c, the distance is at least c times the length of each signature |
| `Dtw.DBelowEveryPath` | src/main.cpp:186-218 | no warping path (diagonal, vertical, horizontal steps from (0,0)) to (i, j) costs less than D[i][j] |
| `Dtw.OptimalPath` | src/main.cpp:186-218 | some warping path to (i, j) costs exactly D[i][j] |
| `Dtw.DistanceIsCheapestAlignment` | src/main.cpp:186-218 | the result is the minimum cost over all warping paths from (0,0) to (n-1, m-1) |
| `Smoothing.Smooth` | src/main.cpp:289-297 | smoothing keeps the signature's length |
| `Smoothing.MovingAverage` | src/main.cpp:280-298 | below 5 samples it reports the error and changes nothing; otherwise positions 0..size-5 hold the means of the ORIGINAL windows, the last 4 samples and everything past `arraySize` are untouched |
| `Smoothing.WindowMeanOfFive` | src/main.cpp:289-297 | a window mean is (s[i] + ... + s[i+4]) / 5 |
| `Smoothing.WindowMeanWithin` | src/main.cpp:289-297 | a window mean lies between the smallest and the largest sample of its window |
| `Smoothing.SmoothWithinRange` | src/main.cpp:280-298 | smoothing stays within the range of the raw samples, so non-negative magnitudes stay non-negative |
| `Smoothing.SmoothConstant` | src/main.cpp:280-298 | a constant signal is left unchanged |
| `Store.ValueAddr` | src/main.cpp:224-230 | every value slot lies after the length field |
| `Store.GetInt` | src/main.cpp:239 | `EEPROM.get` of the length field: the int put there, or -1 (erased bytes) when no int was put |
| `Store.GetFloat` | src/main.cpp:243 | `EEPROM.get` of a value slot: the float put there, or 0.0 when no float was put |
| `Store.LoadedValues` | src/main.cpp:241-245 | load reads exactly n values, value k from the slot of index k |
| `Store.PutValuesEffect` | src/main.cpp:227-231 | putting the first `count` values stores value k at its address and leaves every address outside the value slots as it was |
| `Store.LoadAfterSave` | src/main.cpp:222-246 | after a save, load reads back the saved length and the same values |
| `Store.SaveFrame` | src/main.cpp:222-232 | save changes no cell outside [RECORDING_ADDR, RECORDING_ADDR + INT_SIZE + length * FLOAT_SIZE) |
| `Store.Reference` | src/main.cpp:236-246 | a bounds-checked load never yields more than MAX_SIZE values |
| `Store.ReferenceAfterSave` | src/main.cpp:222-246 | a saved signature of at most MAX_SIZE values is the reference a bounds-checked load yields |
| `Store.OversizedLengthIsStored` | src/main.cpp:236-246 | saving MAX_SIZE + 1 values stores a length above MAX_SIZE, which load trusts; a bounds-checked load reports no reference |
| `Acquisition.HeldRun` | src/main.cpp:93 | the number of leading polls with the button held: all of them held, the next one released |
| `Acquisition.Acquired` | src/main.cpp:127-145 | an acquisition loop never keeps more samples than its capacity |
| `Acquisition.AcquiredIsKeptWhileHeld` | src/main.cpp:127-145 | the buffer holds, in arrival order, the non-NaN samples taken while the button stayed held, cut off at the capacity |
| `Acquisition.RecordKeepsEverySample` | src/main.cpp:93-102 | with no NaN filtering every sample taken while the button is held is kept, up to the capacity |
| `Acquisition.AllNaNAttemptIsEmpty` | src/main.cpp:136-141 | an attempt whose magnitudes are all NaN keeps nothing (attempt length 0) |
| `Acquisition.SourceGuardOverruns` | src/main.cpp:93 | the guard `length <= MAX_SIZE` keeps MAX_SIZE + 1 samples when the button is held long enough, the last one written at index MAX_SIZE |
| `Acquisition.AcquiredStep` | src/main.cpp:127-145 | one loop iteration appends a non-NaN sample or skips a NaN one |
| `Acquisition.RecordSamples` | src/main.cpp:91-102 | the recording loop (guard `< MAX_SIZE`) fills gestureData[0..len) with the samples in order, len = min(held run, MAX_SIZE), the rest of the buffer unchanged |
| `Acquisition.AttemptSamples` | src/main.cpp:124-145 | the attempt loop (guard `< MAX_SIZE`) leaves exactly `Acquired(held, samples, MAX_SIZE)` in attemptData[0..len), the rest unchanged |
| `Decision.Unlocks` | src/main.cpp:173 | the unlock condition: DTW distance strictly below 8 and attempt length at least 5 |
| `Decision.DecisionBoundaries` | src/main.cpp:173-181 | a distance equal to 8 is rejected, a 4-sample attempt is rejected even at distance 0, distance 7 with 5 samples is accepted |
| `Decision.IdenticalAttemptUnlocks` | src/main.cpp:165-176 | an attempt equal to the reference with at least 5 samples unlocks |
| `Decision.DistantAttemptRejected` | src/main.cpp:165-181 | an attempt uniformly at least c away from the reference is rejected once its length times c reaches the threshold |
| `Decision.ExampleScenario` | src/main.cpp:165-181 | reference [1,1,1,2,2,2,1,1]: the same sequence unlocks, eight 5s are rejected, a 3-sample attempt is rejected at distance 0 |
| `Decision.StaleReferenceUnlocks` | src/main.cpp:192-199 | against a one-sample reference 0.0 a still attempt of five samples of magnitude g scores 5 abs(g), and unlocks exactly when that is below 8 |
| `Lock.GestureLock.constructor` | src/main.cpp:35-41 | power-up state: three distinct buffers of MAX_SIZE holding 0.0 in every slot, lengths 0, EEPROM as persisted |
| `Lock.GestureLock.SaveGestureToEEPROM` | src/main.cpp:222-232 | the EEPROM becomes `Saved(old EEPROM, gestureData[0..gestureLength))` |
| `Lock.GestureLock.LoadGestureFromEEPROM` | src/main.cpp:236-246 | storedGestureLength is the stored length field as read, storedGesture[0..len) the stored values, the rest unchanged; it needs the length field to be at most MAX_SIZE |
| `Lock.GestureLock.LoadGestureChecked` | src/main.cpp:236-246 | storedGesture[0..storedGestureLength) is `Reference(EEPROM)`: the stored signature, or empty if the length field is out of range; the slots past it keep their old values |
| `Lock.GestureLock.RecordGesture` | src/main.cpp:87-117 | with the corrected guard `< MAX_SIZE`, records min(held run, MAX_SIZE) samples, smooths them in place and saves the smoothed signature; the slots past the new length keep their old values |
| `Lock.GestureLock.AcquireAttempt` | src/main.cpp:120-148 | with the corrected guard `< MAX_SIZE`, attemptData[0..len) is the smoothed non-NaN samples taken while the button was held, len <= MAX_SIZE; the slots past len keep their old values |
| `Lock.GestureLock.UnlockGestureAsWritten` | src/main.cpp:158-182 | the unlock sequence as written, for a non-empty attempt: grants exactly when DTW(reference, smoothed attempt) < 8 and attempt length >= 5, where the reference is the stored values when the stored length is at least 1 and the stale [storedGesture[0]] when it is 0 or below; it leaves the loaded length field and values in storedGestureLength/storedGesture (the rest of storedGesture untouched) and the smoothed attempt in attemptData (the rest untouched) |
| `Lock.GestureLock.UnlockGesture` | src/main.cpp:158-182 | grants exactly when there is a reference, the attempt has at least 5 samples and DTW(reference, smoothed attempt) < 8; it leaves `Reference(EEPROM)` in storedGesture[0..storedGestureLength) and the smoothed attempt in attemptData, the rest of both buffers untouched |
| `Lock.EmptyRecordingSavesEmptyReference` | src/main.cpp:91-116 | a recording whose button is released before the first poll saves what `RecordGesture` saves for zero samples: stored length 0, no reference |
| `Lock.StillAttemptAcquired` | src/main.cpp:127-145 | five held polls with magnitude g, then a release, leave exactly [g, g, g, g, g] in the attempt buffer |
| `Lock.StillAttemptWithoutReference` | src/main.cpp:158-199 | as written, a freshly powered device whose EEPROM stores length 0 or below grants a still attempt of five samples of magnitude g exactly when 5 abs(g) < 8 |
| `Lock.ReplayUnlocks` | src/main.cpp:116-176 | replaying the saved signature, with 5 to MAX_SIZE samples, unlocks the device that saved it |

## Findings

| source | as written | input that shows it | evidently intended | confidence | as-written member | corrected member |
|---|---|---|---|---|---|---|
| src/main.cpp:93, src/main.cpp:127 | loop guard `gestureLength <= MAX_SIZE` (and `attemptLength <= MAX_SIZE`) | button held for 81 or more sampling periods: the 81st sample is written to `gestureData[80]`, past the end of the 80-slot array | guard `< MAX_SIZE` | high, not executed | `Acquisition.SourceGuardOverruns` | `Acquisition.RecordSamples`, `Acquisition.AttemptSamples`, `Lock.GestureLock.RecordGesture`, `Lock.GestureLock.AcquireAttempt` |
| src/main.cpp:165 | DTW is called with `storedGestureLength` and `attemptLength` unchecked | a recording released before the first poll saves length 0, and erased EEPROM reads as length -1. In both cases the first DTW loop compares the attempt with the stale `storedGesture[0]` (0.0 after power-up). A still attempt of five samples of magnitude about 0.98 (gravity alone) scores about 4.9 < 8 and unlocks a device that never recorded. An attempt whose magnitudes are all NaN has length 0 and reads `dtw[-1]` | reject when there is no reference; run DTW only on non-empty signatures | medium, not executed | `Lock.StillAttemptWithoutReference`, `Lock.GestureLock.UnlockGestureAsWritten`, `Dtw.DynamicTimeWarping`, `Decision.StaleReferenceUnlocks`, `Lock.EmptyRecordingSavesEmptyReference`, `Acquisition.AllNaNAttemptIsEmpty` | `Lock.GestureLock.UnlockGesture` |
| src/main.cpp:239-245 | the stored length is trusted | an EEPROM saved after an 81-sample recording (first finding) holds length 81, so load writes `storedGesture[80]`; an EEPROM written by another program can hold any length | treat a length outside 0..MAX_SIZE as "no reference" | high, not executed | `Lock.GestureLock.LoadGestureFromEEPROM`, `Store.OversizedLengthIsStored` | `Lock.GestureLock.LoadGestureChecked` |

`RecordGesture`, `AcquireAttempt` and `UnlockGesture` use the corrected
loops and the checked load. `UnlockGestureAsWritten` keeps the source's
unchecked DTW call and unchecked load, but it uses the corrected sampling
loop. `StillAttemptWithoutReference` runs it on a freshly powered device.

## Left out

- The sensor read (`motionX/Y/Z`) and the magnitude `sqrt(x²+y²+z²)/10`: floating-point work on a hardware driver. Each magnitude is an input value.
- IEEE float behaviour: rounding, NaN propagation through `fmin`/`fabs`, `isnan`. Samples are reals. A NaN is modelled only as a `None` attempt sample. The recording loop has no NaN check, so a NaN recorded there is not modelled.
- EEPROM hardware and the byte encoding done by `EEPROM.put/get`. Each put/get is one opaque cell.
- Store.GetFloat: reading a value slot that holds no float yields 0.0. On the device it yields whatever bytes are there (NaN on erased EEPROM).
- Store.GetInt: reading a length field that holds no int yields -1. This is what erased EEPROM bytes (0xFF) give.
- LEDs, tones, `recordingVisual`, `UnlockAttemptResult` and the `Serial` prints (including the printed DTW distance): feedback output. The decision is returned as a boolean instead.
- Smoothing.MovingAverage: the too-short error is returned as a flag instead of printed.
- `loop()` button polling with its `delay(5)` debounce, and the `delay(30)` sampling cadence: real-time polling. Button states come in as the `held` sequence.
- `new`/`delete` of the DTW row. The row is a local array of length m.
- Lock.GestureLock.UnlockGestureAsWritten: it samples with the corrected `< MAX_SIZE` guard (through `AcquireAttempt`), so the overrun at index 80 is shown by `Acquisition.SourceGuardOverruns` and not by this method. It also requires an attempt of at least one sample, because the DTW call reads `dtw[m-1]`, and a stored length of at most MAX_SIZE, as `LoadGestureFromEEPROM` does.
- Lock.GestureLock.LoadGestureFromEEPROM: it requires the length field to be at most MAX_SIZE. Past that, the source writes beyond `storedGesture` (third finding), and memory outside the buffers is not modelled.
- Dtw.DynamicTimeWarping: the inner loop over j is in its own method, `Dtw.AdvanceRow`. The arithmetic is unchanged.
- Integer widths: the lengths the program counts itself stay within 0..81, so the 16-bit `int` never overflows. The loaded `storedGestureLength` is whatever 16-bit value the EEPROM holds (-1 when erased). The model keeps it as an unbounded `int`, and `LoadGestureFromEEPROM` requires it to be at most MAX_SIZE.
