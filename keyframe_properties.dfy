/**
 * What the keyframe builder promises: three keyframes per segment, a
 * guarantee step on the first one only, percentages clamped to [0, 1],
 * strengths that follow the segments, boundaries that line up and never
 * move backwards, and an anchor at 1.0 with the last strength.
 */
module KeyframeProperties {
  import opened Wrappers
  import opened Schedule
  import opened Keyframes

  /** No group exactly when there is no segment, or when no positive step
      count is given and the durations do not add up to a positive total. */
  lemma NoGroupCases(segments: seq<Segment>, totalSteps: int)
    ensures StepwiseKeyframes(segments, totalSteps).None?
        <==> segments == [] || (totalSteps <= 0 && SumDurations(segments, |segments|) <= 0.0)
  {
  }

  /** A positive step count is used as the total whatever the durations. */
  lemma AbsoluteStepsBuild(segments: seq<Segment>, totalSteps: int)
    requires segments != [] && totalSteps > 0
    ensures StepwiseKeyframes(segments, totalSteps).Some?
    ensures Denominator(segments, totalSteps) == totalSteps as real
  {
  }

  /** Every schedule the parser returns gives a group, whatever the step count. */
  lemma ParsedScheduleBuilds(input: Option<string>, jsonLoads: JsonDecoder, parseFloat: FloatParser,
                             segments: seq<Segment>, totalSteps: int)
    requires ParseSchedule(input, jsonLoads, parseFloat) == Some(segments)
    ensures StepwiseKeyframes(segments, totalSteps).Some?
  {
  }

  /** Three keyframes per segment; only the first carries a guarantee step;
      every percentage lies in [0, 1]; the first starts at 0 and the last is
      the anchor at 1.0 with the last segment's strength. */
  lemma KeyframeShape(segments: seq<Segment>, totalSteps: int, kf: seq<HookKeyframe>)
    requires StepwiseKeyframes(segments, totalSteps) == Some(kf)
    ensures |kf| == 3 * |segments|
    ensures forall j :: 0 <= j < |kf| ==> kf[j].guaranteeSteps == (if j == 0 then 1 else 0)
    ensures forall j :: 0 <= j < |kf| ==> 0.0 <= kf[j].startPercent <= 1.0
    ensures kf[0].startPercent == 0.0
    ensures kf[|kf| - 1] == HookKeyframe(segments[|segments| - 1].strength, 1.0, 0)
  {
    var n := |segments|;
    SlotOf(n - 1, 2);
  }

  /** Segment i owns keyframes 3i (its start) and 3i+1 (its hold), both
      with its strength, at the clamped fractions of the run before and
      after it; keyframe 3i+2 jumps to the next strength just after the
      hold, except after the last segment, where it is the anchor. */
  lemma SegmentKeyframes(segments: seq<Segment>, totalSteps: int, kf: seq<HookKeyframe>, i: nat)
    requires StepwiseKeyframes(segments, totalSteps) == Some(kf)
    requires i < |segments|
    ensures var total := Denominator(segments, totalSteps);
            total > 0.0
            && kf[3 * i] == HookKeyframe(segments[i].strength,
                                         Clamp01(SumDurations(segments, i) / total), if i == 0 then 1 else 0)
            && kf[3 * i + 1] == HookKeyframe(segments[i].strength,
                                             Clamp01(SumDurations(segments, i + 1) / total), 0)
    ensures i < |segments| - 1 ==>
              kf[3 * i + 2] == HookKeyframe(segments[i + 1].strength, Min(1.0, kf[3 * i + 1].startPercent + Eps), 0)
  {
    SlotOf(i, 0);
    SlotOf(i, 1);
    SlotOf(i, 2);
  }

  /** Each segment starts where the previous one was held to. */
  lemma Continuity(segments: seq<Segment>, totalSteps: int, kf: seq<HookKeyframe>, i: nat)
    requires StepwiseKeyframes(segments, totalSteps) == Some(kf)
    requires i + 1 < |segments|
    ensures kf[3 * (i + 1)].startPercent == kf[3 * i + 1].startPercent
  {
    SegmentKeyframes(segments, totalSteps, kf, i);
    SegmentKeyframes(segments, totalSteps, kf, i + 1);
  }

  /** The jump comes before the next segment's start in emission order but
      sits after it on the time axis (whenever the boundary is below 1), so
      the emitted percentages are not monotone. */
  lemma JumpAfterNextStart(segments: seq<Segment>, totalSteps: int, kf: seq<HookKeyframe>, i: nat)
    requires StepwiseKeyframes(segments, totalSteps) == Some(kf)
    requires i + 1 < |segments| && kf[3 * i + 1].startPercent < 1.0
    ensures kf[3 * i + 2].startPercent > kf[3 * (i + 1)].startPercent
  {
    SegmentKeyframes(segments, totalSteps, kf, i);
    Continuity(segments, totalSteps, kf, i);
  }

  predicate NonNegativeDurations(segments: seq<Segment>) {
    forall k :: 0 <= k < |segments| ==> segments[k].duration >= 0.0
  }

  lemma {:induction false} SumDurationsMonotone(segments: seq<Segment>, a: nat, b: nat)
    requires a <= b <= |segments| && NonNegativeDurations(segments)
    ensures SumDurations(segments, a) <= SumDurations(segments, b)
  {
    if a < b {
      SumDurationsMonotone(segments, a, b - 1);
    }
  }

  lemma ClampedFractionMonotone(x: real, y: real, total: real)
    requires x <= y && total > 0.0
    ensures Clamp01(x / total) <= Clamp01(y / total)
  {
    assert x / total <= y / total by {
      assert y / total - x / total == (y - x) / total;
    }
  }

  /** With durations that are never negative (the parser only returns
      positive ones), later boundaries are never earlier, and every segment
      is held at or after its start. */
  lemma BoundariesNondecreasing(segments: seq<Segment>, totalSteps: int, kf: seq<HookKeyframe>, i: nat, i': nat)
    requires StepwiseKeyframes(segments, totalSteps) == Some(kf)
    requires NonNegativeDurations(segments)
    requires i <= i' < |segments|
    ensures kf[3 * i].startPercent <= kf[3 * i + 1].startPercent
    ensures kf[3 * i + 1].startPercent <= kf[3 * i' + 1].startPercent
  {
    var total := Denominator(segments, totalSteps);
    SegmentKeyframes(segments, totalSteps, kf, i);
    SegmentKeyframes(segments, totalSteps, kf, i');
    SumDurationsMonotone(segments, i, i + 1);
    ClampedFractionMonotone(SumDurations(segments, i), SumDurations(segments, i + 1), total);
    SumDurationsMonotone(segments, i + 1, i' + 1);
    ClampedFractionMonotone(SumDurations(segments, i + 1), SumDurations(segments, i' + 1), total);
  }

  /** Without a step count the percentages are relative to the whole
      schedule: the last segment is held until 1.0. */
  lemma RelativeModeEndsAtOne(segments: seq<Segment>, totalSteps: int, kf: seq<HookKeyframe>)
    requires StepwiseKeyframes(segments, totalSteps) == Some(kf)
    requires totalSteps <= 0
    ensures kf[3 * |segments| - 2].startPercent == 1.0
  {
    var n := |segments|;
    var total := Denominator(segments, totalSteps);
    SegmentKeyframes(segments, totalSteps, kf, n - 1);
    assert total == SumDurations(segments, n);
    WholeFraction(total);
  }

  lemma WholeFraction(x: real)
    requires x > 0.0
    ensures x / x == 1.0
  {
  }

  /** With a step count, segment boundaries are step counts over the total,
      clamped: a schedule longer than the run is cut at 1.0. */
  lemma AbsoluteModeClampsAtOne(segments: seq<Segment>, totalSteps: int, kf: seq<HookKeyframe>, i: nat)
    requires StepwiseKeyframes(segments, totalSteps) == Some(kf)
    requires totalSteps > 0 && i < |segments|
    requires SumDurations(segments, i + 1) >= totalSteps as real
    ensures kf[3 * i + 1].startPercent == 1.0
  {
    SegmentKeyframes(segments, totalSteps, kf, i);
    assert SumDurations(segments, i + 1) / (totalSteps as real) >= 1.0;
  }
}
