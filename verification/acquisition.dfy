/**
 * The sampling loops of recording and of an unlock attempt. The button is
 * polled once per iteration (`held[k]`) and, while it is held and the
 * buffer has room, one magnitude `samples[k]` is taken. A recording keeps
 * every sample; an attempt drops NaN magnitudes (`None`).
 */
module Acquisition {
  import opened Common

  /** Number of polls, from the first, during which the button is held. */
  function HeldRun(held: seq<bool>): (r: nat)
    ensures r <= |held|
    ensures forall k :: 0 <= k < r ==> held[k]
    ensures r < |held| ==> !held[r]
  {
    if |held| == 0 || !held[0] then 0 else 1 + HeldRun(held[1..])
  }

  /**
   * What a loop that stops at the first release, or once `cap` samples are
   * kept, leaves in its buffer, in arrival order.
   */
  function Acquired(held: seq<bool>, samples: seq<Option<real>>, cap: nat): (r: seq<real>)
    requires |samples| == |held|
    ensures |r| <= cap
  {
    if |held| == 0 || !held[0] || cap == 0 then []
    else match samples[0]
      case Some(v) => [v] + Acquired(held[1..], samples[1..], cap - 1)
      case None => Acquired(held[1..], samples[1..], cap)
  }

  /** The non-NaN samples, in order. */
  function Kept(samples: seq<Option<real>>): seq<real>
  {
    if |samples| == 0 then []
    else (match samples[0] case Some(v) => [v] case None => []) + Kept(samples[1..])
  }

  /** Recording samples, none of which is filtered. */
  function Present(samples: seq<real>): (r: seq<Option<real>>)
    ensures |r| == |samples|
  {
    seq(|samples|, k requires 0 <= k < |samples| => Some(samples[k]))
  }

  function Take(s: seq<real>, n: nat): seq<real>
  {
    if |s| <= n then s else s[..n]
  }

  /**
   * Independent description of the loops: the buffer holds the non-NaN
   * samples taken while the button stayed held, cut off at `cap`.
   */
  lemma {:induction false} AcquiredIsKeptWhileHeld(held: seq<bool>, samples: seq<Option<real>>, cap: nat)
    requires |samples| == |held|
    ensures Acquired(held, samples, cap) == Take(Kept(samples[..HeldRun(held)]), cap)
  {
    var run := HeldRun(held);
    if |held| == 0 || !held[0] {
      assert samples[..run] == [];
    } else if cap == 0 {
    } else {
      AcquiredIsKeptWhileHeld(held[1..], samples[1..], if samples[0].Some? then cap - 1 else cap);
      assert HeldRun(held[1..]) == run - 1;
      assert samples[..run][1..] == samples[1..][..run - 1];
      assert samples[..run][0] == samples[0];
    }
  }

  /** A recording keeps every sample taken while the button is held, up to `cap`. */
  lemma {:induction false} RecordKeepsEverySample(held: seq<bool>, samples: seq<real>, cap: nat)
    requires |samples| == |held|
    ensures Acquired(held, Present(samples), cap) == samples[..MinNat(HeldRun(held), cap)]
  {
    if |held| == 0 || !held[0] || cap == 0 {
    } else {
      assert Present(samples)[1..] == Present(samples[1..]);
      RecordKeepsEverySample(held[1..], samples[1..], cap - 1);
      assert samples[..MinNat(HeldRun(held), cap)] == [samples[0]] + samples[1..][..MinNat(HeldRun(held[1..]), cap - 1)];
    }
  }

  /** An attempt during which every magnitude is NaN keeps nothing. */
  lemma {:induction false} AllNaNAttemptIsEmpty(held: seq<bool>, samples: seq<Option<real>>, cap: nat)
    requires |samples| == |held|
    requires forall k :: 0 <= k < |samples| ==> samples[k].None?
    ensures Acquired(held, samples, cap) == []
  {
    if |held| > 0 && held[0] && cap > 0 {
      AllNaNAttemptIsEmpty(held[1..], samples[1..], cap);
    }
  }

  /**
   * The source's guard `length <= MAX_SIZE` is a cap of MAX_SIZE + 1: holding
   * the button for MAX_SIZE + 1 polls makes a write at index MAX_SIZE, one
   * past the end of a MAX_SIZE-slot buffer.
   */
  lemma SourceGuardOverruns(held: seq<bool>, samples: seq<real>)
    requires |samples| == |held| && HeldRun(held) > MAX_SIZE
    ensures |Acquired(held, Present(samples), MAX_SIZE + 1)| == MAX_SIZE + 1
  {
    RecordKeepsEverySample(held, samples, MAX_SIZE + 1);
  }

  /** The recording loop, guarded by `length < MAX_SIZE`. */
  method RecordSamples(buf: array<real>, held: seq<bool>, samples: seq<real>) returns (length: nat)
    requires buf.Length == MAX_SIZE && |samples| == |held|
    modifies buf
    ensures length == MinNat(HeldRun(held), MAX_SIZE)
    ensures buf[..length] == samples[..length]
    ensures forall i :: length <= i < MAX_SIZE ==> buf[i] == old(buf[i])
  {
    length := 0;
    while length < |held| && held[length] && length < MAX_SIZE
      invariant 0 <= length <= MinNat(HeldRun(held), MAX_SIZE)
      invariant buf[..length] == samples[..length]
      invariant forall i :: length <= i < MAX_SIZE ==> buf[i] == old(buf[i])
    {
      buf[length] := samples[length];
      length := length + 1;
    }
  }

  /** One iteration of an acquisition loop keeps the loop's account of what is still to come. */
  lemma AcquiredStep(held: seq<bool>, samples: seq<Option<real>>, k: nat, kept: seq<real>, room: nat, whole: seq<real>)
    requires |samples| == |held| && k < |held| && held[k] && room > 0
    requires kept + Acquired(held[k..], samples[k..], room) == whole
    ensures samples[k].Some? ==> (kept + [samples[k].value]) + Acquired(held[k + 1..], samples[k + 1..], room - 1) == whole
    ensures samples[k].None? ==> kept + Acquired(held[k + 1..], samples[k + 1..], room) == whole
  {
    assert held[k..][1..] == held[k + 1..] && samples[k..][1..] == samples[k + 1..];
  }

  /** The attempt loop, guarded by `length < MAX_SIZE`, dropping NaN magnitudes. */
  method AttemptSamples(buf: array<real>, held: seq<bool>, samples: seq<Option<real>>) returns (length: nat)
    requires buf.Length == MAX_SIZE && |samples| == |held|
    modifies buf
    ensures length <= MAX_SIZE
    ensures buf[..length] == Acquired(held, samples, MAX_SIZE)
    ensures forall i :: length <= i < MAX_SIZE ==> buf[i] == old(buf[i])
  {
    ghost var whole := Acquired(held, samples, MAX_SIZE);
    ghost var kept: seq<real> := [];
    length := 0;
    var k := 0;
    while k < |held| && held[k] && length < MAX_SIZE
      invariant 0 <= k <= |held| && length == |kept| <= MAX_SIZE
      invariant forall i :: 0 <= i < length ==> buf[i] == kept[i]
      invariant kept + Acquired(held[k..], samples[k..], MAX_SIZE - length) == whole
      invariant forall i :: length <= i < MAX_SIZE ==> buf[i] == old(buf[i])
    {
      AcquiredStep(held, samples, k, kept, MAX_SIZE - length, whole);
      if samples[k].Some? {
        buf[length] := samples[k].value;
        kept := kept + [samples[k].value];
        length := length + 1;
      }
      k := k + 1;
    }
    assert Acquired(held[k..], samples[k..], MAX_SIZE - length) == [];
    assert buf[..length] == kept;
  }
}
