/** The unlock rule applied to the DTW distance of an attempt. */
module Decision {
  import opened Common
  import opened Dtw

  /** Unlock exactly when the distance is strictly below the threshold and the attempt is long enough. */
  predicate Unlocks(distance: real, attemptLength: int)
  {
    distance < DTW_THRESHOLD && attemptLength >= MIN_SIZE
  }

  /** A distance equal to the threshold, or a 4-sample attempt, is rejected; 7 with 5 samples is accepted. */
  lemma DecisionBoundaries(distance: real, attemptLength: int)
    ensures !Unlocks(DTW_THRESHOLD, attemptLength)
    ensures attemptLength < MIN_SIZE ==> !Unlocks(distance, attemptLength)
    ensures !Unlocks(0.0, 4) && Unlocks(7.0, 5)
  {
  }

  /** Repeating the reference exactly, with at least MIN_SIZE samples, unlocks. */
  lemma IdenticalAttemptUnlocks(reference: seq<real>)
    requires |reference| >= MIN_SIZE
    ensures Unlocks(Distance(reference, reference), |reference|)
  {
    DistanceToSelf(reference);
  }

  /** An attempt whose every sample is at least c away from every reference sample is rejected once |attempt| * c reaches the threshold. */
  lemma DistantAttemptRejected(reference: seq<real>, attempt: seq<real>, c: real)
    requires |reference| >= 1 && |attempt| >= 1
    requires c >= 0.0 && Separated(reference, attempt, c)
    requires |attempt| as real * c >= DTW_THRESHOLD
    ensures !Unlocks(Distance(reference, attempt), |attempt|)
  {
    DistanceLowerBound(reference, attempt, c);
    TimesIsProduct(|attempt|, c);
  }

  /**
   * Reference [1,1,1,2,2,2,1,1]: the same sequence unlocks, a constant 5
   * is rejected, and a 3-sample prefix is rejected although its distance
   * to itself is 0.
   */
  lemma ExampleScenario()
    ensures var reference := [1.0, 1.0, 1.0, 2.0, 2.0, 2.0, 1.0, 1.0];
      Unlocks(Distance(reference, reference), 8)
      && !Unlocks(Distance(reference, [5.0, 5.0, 5.0, 5.0, 5.0, 5.0, 5.0, 5.0]), 8)
      && Distance(reference[..3], reference[..3]) == 0.0 && !Unlocks(0.0, 3)
  {
    var reference := [1.0, 1.0, 1.0, 2.0, 2.0, 2.0, 1.0, 1.0];
    var fives := [5.0, 5.0, 5.0, 5.0, 5.0, 5.0, 5.0, 5.0];
    IdenticalAttemptUnlocks(reference);
    assert Separated(reference, fives, 3.0) by {
      forall p, q | 0 <= p < |reference| && 0 <= q < |fives|
        ensures Abs(reference[p] - fives[q]) >= 3.0
      {
        assert reference[p] <= 2.0 && fives[q] == 5.0;
      }
    }
    DistantAttemptRejected(reference, fives, 3.0);
    DistanceToSelf(reference[..3]);
  }

  /**
   * A stale one-sample reference 0.0 (what the matcher compares with when
   * the stored length is 0 or below) against a still attempt of five
   * samples of magnitude g: the distance is 5 |g|, so the attempt unlocks
   * exactly when 5 |g| is below the threshold.
   */
  lemma StaleReferenceUnlocks(g: real)
    ensures Distance([0.0], [g, g, g, g, g]) == 5.0 * Abs(g)
    ensures Unlocks(Distance([0.0], [g, g, g, g, g]), 5) <==> 5.0 * Abs(g) < DTW_THRESHOLD
  {
    var still := [g, g, g, g, g];
    DistanceFromSingleton(0.0, still);
    assert still[..4][..3] == still[..3] && still[..3][..2] == still[..2] && still[..2][..1] == still[..1];
    assert RowCost(0.0, still[..1]) == Abs(g) by {
      assert still[..1][..0] == [];
    }
    assert RowCost(0.0, still) == RowCost(0.0, still[..4]) + Abs(g);
  }
}
