/**
 * `_create_stepwise_keyframes_from_durations`: a schedule of segments
 * becomes a group of hook keyframes that hold each segment's strength over
 * its share of the sampling run and then step to the next one.
 *
 * For segment i the builder emits a start keyframe, a hold keyframe at the
 * segment's end boundary and, unless i is the last segment, a jump keyframe
 * just after that boundary that already carries the next strength; a final
 * anchor at 1.0 repeats the last strength. Keyframe number j of the result
 * therefore has role j % 3 for segment j / 3, and the last role-2 slot is
 * the anchor.
 *
 * Percentages are reals: IEEE-754 rounding is not modelled.
 */
module Keyframes {
  import opened Wrappers
  import opened Schedule

  /** `comfy.hooks.HookKeyframe(strength, start_percent, guarantee_steps)`. */
  datatype HookKeyframe = HookKeyframe(strength: real, startPercent: real, guaranteeSteps: nat)

  /** `comfy.hooks.HookKeyframeGroup`: `add` appends a keyframe. */
  class HookKeyframeGroup {
    var keyframes: seq<HookKeyframe>

    constructor()
      ensures keyframes == []
    {
      keyframes := [];
    }

    method Add(keyframe: HookKeyframe)
      modifies this
      ensures keyframes == old(keyframes) + [keyframe]
    {
      keyframes := keyframes + [keyframe];
    }
  }

  /** The gap between a hold keyframe and the jump after it. */
  const Eps: real := 0.000001

  function Min(a: real, b: real): real {
    if a <= b then a else b
  }

  function Max(a: real, b: real): real {
    if a >= b then a else b
  }

  /** `max(0.0, min(1.0, x))`. */
  function Clamp01(x: real): (r: real)
    ensures 0.0 <= r <= 1.0
    ensures 0.0 <= x <= 1.0 ==> r == x
  {
    Max(0.0, Min(1.0, x))
  }

  /** The durations of the first `k` segments added up from 0, in order,
      as `sum` and the running `current` do. */
  function SumDurations(segments: seq<Segment>, k: nat): real
    requires k <= |segments|
  {
    if k == 0 then 0.0 else SumDurations(segments, k - 1) + segments[k - 1].duration
  }

  /** Positive durations add up to a positive total. */
  lemma {:induction false} SumDurationsPositive(segments: seq<Segment>, k: nat)
    requires 0 < k <= |segments| && PositiveDurations(segments)
    ensures SumDurations(segments, k) > 0.0
  {
    if k > 1 {
      SumDurationsPositive(segments, k - 1);
    }
  }

  /** `total`: the step count when it is positive (absolute steps), otherwise
      the sum of all durations (relative to the whole schedule). */
  function Denominator(segments: seq<Segment>, totalSteps: int): (r: real)
    ensures segments != [] && PositiveDurations(segments) ==> r > 0.0
  {
    if totalSteps > 0 then totalSteps as real
    else
      var sum := SumDurations(segments, |segments|);
      if segments != [] && PositiveDurations(segments) then SumDurationsPositive(segments, |segments|); sum
      else sum
  }

  /** The clamped fraction of the run that has passed when segment `k` starts. */
  function Boundary(segments: seq<Segment>, total: real, k: nat): (r: real)
    requires k <= |segments| && total > 0.0
    ensures 0.0 <= r <= 1.0
  {
    Clamp01(SumDurations(segments, k) / total)
  }

  /** Keyframe number `j` of the group built for `segments`. */
  function KeyframeAt(segments: seq<Segment>, total: real, j: nat): (kf: HookKeyframe)
    requires j < 3 * |segments| && total > 0.0
    ensures 0.0 <= kf.startPercent <= 1.0
    ensures kf.guaranteeSteps == (if j == 0 then 1 else 0)
  {
    var i := j / 3;
    if j % 3 == 0 then
      HookKeyframe(segments[i].strength, Boundary(segments, total, i), if i == 0 then 1 else 0)
    else if j % 3 == 1 then
      HookKeyframe(segments[i].strength, Boundary(segments, total, i + 1), 0)
    else if i < |segments| - 1 then
      HookKeyframe(segments[i + 1].strength, Min(1.0, Boundary(segments, total, i + 1) + Eps), 0)
    else
      HookKeyframe(segments[|segments| - 1].strength, 1.0, 0)
  }

  /** What the builder returns: no group for an empty schedule or a
      non-positive total, otherwise the keyframes in emission order. */
  function StepwiseKeyframes(segments: seq<Segment>, totalSteps: int): (r: Option<seq<HookKeyframe>>)
    ensures r.Some? ==> |r.value| == 3 * |segments|
    ensures r.Some? ==> forall j :: 0 <= j < |r.value| ==> 0.0 <= r.value[j].startPercent <= 1.0
  {
    if segments == [] then None
    else
      var total := Denominator(segments, totalSteps);
      if total <= 0.0 then None
      else Some(seq(3 * |segments|, j requires 0 <= j < 3 * |segments| => KeyframeAt(segments, total, j)))
  }

  /** How many keyframes the loop has added before segment `idx`. */
  function Emitted(n: nat, idx: nat): nat
    requires n > 0
  {
    if idx < n then 3 * idx else 3 * n - 1
  }

  lemma SlotOf(i: nat, r: nat)
    requires r < 3
    ensures (3 * i + r) / 3 == i && (3 * i + r) % 3 == r
  {
  }

  /** The builder as the source runs it: a running `current`, three `add`
      calls per segment (two for the last) and the anchor. */
  method CreateStepwiseKeyframes(segments: seq<Segment>, totalSteps: int) returns (group: HookKeyframeGroup?)
    ensures StepwiseKeyframes(segments, totalSteps).None? ==> group == null
    ensures StepwiseKeyframes(segments, totalSteps).Some? ==>
              group != null && fresh(group) && group.keyframes == StepwiseKeyframes(segments, totalSteps).value
  {
    if segments == [] {
      return null;
    }
    var n := |segments|;
    var sumDurations := SumDurations(segments, n);
    var total := if totalSteps > 0 then totalSteps as real else sumDurations;
    if total <= 0.0 {
      return null;
    }
    var eps := Eps;
    group := new HookKeyframeGroup();
    var current := 0.0;
    for idx := 0 to n
      invariant current == SumDurations(segments, idx)
      invariant fresh(group)
      invariant |group.keyframes| == Emitted(n, idx)
      invariant forall j :: 0 <= j < |group.keyframes| ==> group.keyframes[j] == KeyframeAt(segments, total, j)
    {
      var segment := segments[idx];
      var startPercent := Max(0.0, Min(1.0, current / total));
      var guaranteeSteps := if idx == 0 then 1 else 0;
      SlotOf(idx, 0);
      group.Add(HookKeyframe(segment.strength, startPercent, guaranteeSteps));

      current := current + segment.duration;
      var boundary := Max(0.0, Min(1.0, current / total));
      SlotOf(idx, 1);
      group.Add(HookKeyframe(segment.strength, boundary, 0));

      if idx < n - 1 {
        var nextStrength := segments[idx + 1].strength;
        SlotOf(idx, 2);
        group.Add(HookKeyframe(nextStrength, Min(1.0, boundary + eps), 0));
      }
    }
    SlotOf(n - 1, 2);
    group.Add(HookKeyframe(segments[n - 1].strength, 1.0, 0));
    assert group.keyframes == StepwiseKeyframes(segments, totalSteps).value;
  }
}
