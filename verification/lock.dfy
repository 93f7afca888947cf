/**
 * The device state (the source's global buffers and the EEPROM) and the two
 * pipeline entry points: recording a reference and attempting to unlock.
 * Sensor polls reach the model as sequences: `held[k]` is the button state
 * at poll k and `samples[k]` the magnitude read at that poll.
 */
module Lock {
  import opened Common
  import opened Dtw
  import opened Smoothing
  import opened Store
  import opened Acquisition
  import opened Decision

  class GestureLock {
    var gestureData: array<real>
    var gestureLength: int
    var storedGesture: array<real>
    var storedGestureLength: int
    var attemptData: array<real>
    var eeprom: Eeprom

    ghost predicate Valid()
      reads this
    {
      gestureData.Length == MAX_SIZE && storedGesture.Length == MAX_SIZE && attemptData.Length == MAX_SIZE
      && gestureData != storedGesture && gestureData != attemptData && storedGesture != attemptData
      && 0 <= gestureLength <= MAX_SIZE
    }

    /** Power-up: zeroed buffers, and whatever the EEPROM kept from before. */
    constructor (persisted: Eeprom)
      ensures Valid() && eeprom == persisted
      ensures gestureLength == 0 && storedGestureLength == 0
      ensures fresh(gestureData) && fresh(storedGesture) && fresh(attemptData)
      ensures forall k :: 0 <= k < MAX_SIZE ==> gestureData[k] == 0.0 && storedGesture[k] == 0.0 && attemptData[k] == 0.0
    {
      gestureData := new real[MAX_SIZE](_ => 0.0);
      storedGesture := new real[MAX_SIZE](_ => 0.0);
      attemptData := new real[MAX_SIZE](_ => 0.0);
      gestureLength, storedGestureLength := 0, 0;
      eeprom := persisted;
    }

    /** Writes gestureLength, then gestureData[0 .. gestureLength), at RECORDING_ADDR. */
    method SaveGestureToEEPROM()
      requires Valid()
      modifies this`eeprom
      ensures Valid()
      ensures eeprom == Saved(old(eeprom), gestureData[..gestureLength])
    {
      var addr := RECORDING_ADDR;
      eeprom := eeprom[addr := IntCell(gestureLength)];
      addr := addr + INT_SIZE;
      var i := 0;
      while i < gestureLength
        invariant 0 <= i <= gestureLength
        invariant addr == ValueAddr(i)
        invariant eeprom == PutValues(old(eeprom)[RECORDING_ADDR := IntCell(gestureLength)], gestureData[..gestureLength], i)
      {
        eeprom := eeprom[addr := FloatCell(gestureData[i])];
        addr := addr + FLOAT_SIZE;
        i := i + 1;
      }
    }

    /**
     * Reads the length, then that many values into storedGesture. The length
     * is not checked against MAX_SIZE, so the loop stays inside the buffer
     * only when the EEPROM's length field is at most MAX_SIZE.
     */
    method LoadGestureFromEEPROM()
      requires Valid()
      requires StoredLength(eeprom) <= MAX_SIZE
      modifies this`storedGestureLength, storedGesture
      ensures Valid()
      ensures storedGestureLength == StoredLength(eeprom)
      ensures storedGestureLength >= 0 ==> storedGesture[..storedGestureLength] == LoadedValues(eeprom, storedGestureLength)
      ensures forall i :: 0 <= i < MAX_SIZE && i >= storedGestureLength ==> storedGesture[i] == old(storedGesture[i])
    {
      var addr := RECORDING_ADDR;
      storedGestureLength := GetInt(eeprom, addr);
      addr := addr + INT_SIZE;
      var i := 0;
      while i < storedGestureLength
        invariant storedGestureLength == StoredLength(eeprom) <= MAX_SIZE
        invariant 0 <= i <= MAX_SIZE && (i == 0 || i <= storedGestureLength)
        invariant addr == ValueAddr(i)
        invariant forall k :: 0 <= k < i ==> storedGesture[k] == GetFloat(eeprom, ValueAddr(k))
        invariant forall k :: i <= k < MAX_SIZE ==> storedGesture[k] == old(storedGesture[k])
      {
        storedGesture[i] := GetFloat(eeprom, addr);
        addr := addr + FLOAT_SIZE;
        i := i + 1;
      }
    }

    /**
     * Load that treats a length field outside 0 .. MAX_SIZE as "no reference"
     * (stored length 0) instead of trusting it.
     */
    method LoadGestureChecked()
      requires Valid()
      modifies this`storedGestureLength, storedGesture
      ensures Valid()
      ensures 0 <= storedGestureLength <= MAX_SIZE
      ensures storedGesture[..storedGestureLength] == Reference(eeprom)
      ensures forall k :: storedGestureLength <= k < MAX_SIZE ==> storedGesture[k] == old(storedGesture[k])
    {
      var length := GetInt(eeprom, RECORDING_ADDR);
      if 0 <= length <= MAX_SIZE {
        LoadGestureFromEEPROM();
      } else {
        storedGestureLength := 0;
      }
    }

    /**
     * Samples while the button is held (at most MAX_SIZE samples), smooths
     * them in place and saves the result as the new reference.
     */
    method RecordGesture(held: seq<bool>, samples: seq<real>)
      requires Valid() && |samples| == |held|
      modifies this`gestureLength, gestureData, this`eeprom
      ensures Valid()
      ensures gestureLength == MinNat(HeldRun(held), MAX_SIZE)
      ensures gestureData[..gestureLength] == Smooth(samples[..gestureLength])
      ensures eeprom == Saved(old(eeprom), Smooth(samples[..gestureLength]))
      ensures forall k :: gestureLength <= k < MAX_SIZE ==> gestureData[k] == old(gestureData[k])
    {
      gestureLength := RecordSamples(gestureData, held, samples);
      var tooShort := MovingAverage(gestureData, gestureLength);
      SaveGestureToEEPROM();
    }

    /** Samples an attempt (NaN magnitudes dropped, at most MAX_SIZE kept) and smooths it in place. */
    method AcquireAttempt(held: seq<bool>, samples: seq<Option<real>>) returns (attemptLength: int)
      requires Valid() && |samples| == |held|
      modifies attemptData
      ensures Valid()
      ensures 0 <= attemptLength <= MAX_SIZE
      ensures attemptData[..attemptLength] == Smooth(Acquired(held, samples, MAX_SIZE))
      ensures forall k :: attemptLength <= k < MAX_SIZE ==> attemptData[k] == old(attemptData[k])
    {
      attemptLength := AttemptSamples(attemptData, held, samples);
      var tooShort := MovingAverage(attemptData, attemptLength);
    }

    /**
     * The unlock sequence as written: load, then DTW on the stored and the
     * attempted signature, then the threshold rule. With a stored length of
     * 0 or below (an empty recording, or erased EEPROM) the matcher still
     * compares the attempt with whatever storedGesture[0] holds. The DTW
     * call needs an attempt of at least one sample, which nothing before it
     * ensures.
     */
    method UnlockGestureAsWritten(held: seq<bool>, samples: seq<Option<real>>) returns (granted: bool)
      requires Valid() && |samples| == |held|
      requires StoredLength(eeprom) <= MAX_SIZE
      requires |Acquired(held, samples, MAX_SIZE)| >= 1
      modifies attemptData, storedGesture, this`storedGestureLength
      ensures Valid()
      ensures var attempt := Smooth(Acquired(held, samples, MAX_SIZE));
        var stored := StoredLength(eeprom);
        var reference := if stored >= 1 then LoadedValues(eeprom, stored) else [old(storedGesture[0])];
        granted <==> Unlocks(Distance(reference, attempt), |attempt|)
      ensures storedGestureLength == StoredLength(eeprom)
      ensures storedGestureLength >= 0 ==> storedGesture[..storedGestureLength] == LoadedValues(eeprom, storedGestureLength)
      ensures forall k :: 0 <= k < MAX_SIZE && k >= storedGestureLength ==> storedGesture[k] == old(storedGesture[k])
      ensures var attempt := Smooth(Acquired(held, samples, MAX_SIZE));
        attemptData[..|attempt|] == attempt
        && forall k :: |attempt| <= k < MAX_SIZE ==> attemptData[k] == old(attemptData[k])
    {
      var attemptLength := AcquireAttempt(held, samples);
      LoadGestureFromEEPROM();
      var dtwDistance := DynamicTimeWarping(storedGesture, storedGestureLength, attemptData, attemptLength);
      granted := Unlocks(dtwDistance, attemptLength);
    }

    /**
     * The unlock sequence with the missing guards: the length rule is
     * checked before DTW runs, and a missing or out-of-range reference
     * rejects the attempt.
     */
    method UnlockGesture(held: seq<bool>, samples: seq<Option<real>>) returns (granted: bool)
      requires Valid() && |samples| == |held|
      modifies attemptData, storedGesture, this`storedGestureLength
      ensures Valid()
      ensures var attempt := Smooth(Acquired(held, samples, MAX_SIZE));
        var reference := Reference(eeprom);
        granted <==> |reference| >= 1 && |attempt| >= MIN_SIZE && Unlocks(Distance(reference, attempt), |attempt|)
      ensures 0 <= storedGestureLength <= MAX_SIZE && storedGesture[..storedGestureLength] == Reference(eeprom)
      ensures forall k :: storedGestureLength <= k < MAX_SIZE ==> storedGesture[k] == old(storedGesture[k])
      ensures var attempt := Smooth(Acquired(held, samples, MAX_SIZE));
        attemptData[..|attempt|] == attempt
        && forall k :: |attempt| <= k < MAX_SIZE ==> attemptData[k] == old(attemptData[k])
    {
      var attemptLength := AcquireAttempt(held, samples);
      LoadGestureChecked();
      if attemptLength >= MIN_SIZE && storedGestureLength >= 1 {
        var dtwDistance := DynamicTimeWarping(storedGesture, storedGestureLength, attemptData, attemptLength);
        granted := Unlocks(dtwDistance, attemptLength);
      } else {
        granted := false;
      }
    }
  }

  /**
   * A recording whose button is released before the first poll saves, by
   * RecordGesture's postcondition, a stored length of 0 and so no reference.
   */
  lemma EmptyRecordingSavesEmptyReference(e: Eeprom, held: seq<bool>, samples: seq<real>)
    requires |samples| == |held|
    requires |held| == 0 || !held[0]
    ensures var saved := Saved(e, Smooth(samples[..MinNat(HeldRun(held), MAX_SIZE)]));
      StoredLength(saved) == 0 && Reference(saved) == []
  {
    assert samples[..MinNat(HeldRun(held), MAX_SIZE)] == [];
    LoadAfterSave(e, []);
  }

  /** The five polls of a still attempt of magnitude g, then the release. */
  lemma StillAttemptAcquired(g: real)
    ensures Acquired([true, true, true, true, true, false], [Some(g), Some(g), Some(g), Some(g), Some(g), None], MAX_SIZE)
      == [g, g, g, g, g]
  {
    var held := [true, true, true, true, true, false];
    var samples := [Some(g), Some(g), Some(g), Some(g), Some(g), None];
    assert Acquired(held[5..], samples[5..], MAX_SIZE - 5) == [];
    assert held[4..][1..] == held[5..] && samples[4..][1..] == samples[5..];
    assert Acquired(held[4..], samples[4..], MAX_SIZE - 4) == [g];
    assert held[3..][1..] == held[4..] && samples[3..][1..] == samples[4..];
    assert Acquired(held[3..], samples[3..], MAX_SIZE - 3) == [g, g];
    assert held[2..][1..] == held[3..] && samples[2..][1..] == samples[3..];
    assert Acquired(held[2..], samples[2..], MAX_SIZE - 2) == [g, g, g];
    assert held[1..][1..] == held[2..] && samples[1..][1..] == samples[2..];
    assert Acquired(held[1..], samples[1..], MAX_SIZE - 1) == [g, g, g, g];
  }

  /**
   * The source as written, on a device with no recording (stored length 0
   * after an empty recording, -1 on erased EEPROM), just after power-up:
   * a still attempt of five samples of magnitude g is compared with the
   * zeroed storedGesture[0] and unlocks whenever 5 |g| < 8, e.g. for the
   * magnitude of gravity alone, about 0.98.
   */
  method StillAttemptWithoutReference(e: Eeprom, g: real) returns (granted: bool)
    requires StoredLength(e) <= 0
    ensures granted <==> 5.0 * Abs(g) < DTW_THRESHOLD
  {
    var device := new GestureLock(e);
    var held := [true, true, true, true, true, false];
    var samples := [Some(g), Some(g), Some(g), Some(g), Some(g), None];
    StillAttemptAcquired(g);
    SmoothConstant([g, g, g, g, g], g);
    StaleReferenceUnlocks(g);
    granted := device.UnlockGestureAsWritten(held, samples);
  }

  /** Replaying the recorded (smoothed) signature, with at least MIN_SIZE samples, unlocks the device that saved it. */
  lemma ReplayUnlocks(e: Eeprom, recorded: seq<real>)
    requires MIN_SIZE <= |recorded| <= MAX_SIZE
    ensures var reference := Reference(Saved(e, recorded));
      |reference| >= 1 && Unlocks(Distance(reference, recorded), |recorded|)
  {
    ReferenceAfterSave(e, recorded);
    IdenticalAttemptUnlocks(recorded);
  }
}
