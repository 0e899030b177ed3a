# LoRA strength schedules as hook keyframes

This project models the part of `lora_loader_custom_stackable.py` that turns
a LoRA strength schedule into hook keyframes and attaches hooks to a
conditioning list. There are three pieces:

- **The schedule parser** (`_parse_duration_schedule`). A user string
  becomes a list of `(duration, strength)` segments, or "no schedule".
  - Input that opens with `[` or `{` is first tried as JSON. Two forms are
    read: a list of `{"duration", "strength"}` objects, and a list of
    `[duration, strength]` lists.
  - Otherwise, or when JSON yields nothing, text mode reads the input. It
    cuts each line at its first `#`, drops blank lines, joins the rest with
    commas, and reads each comma-separated token as
    `DURATION : STRENGTH`.
  - A lone number is a constant strength, not a schedule.
  - Only segments with a positive duration are kept.
- **The keyframe builder** (`_create_stepwise_keyframes_from_durations`).
  - For each segment it emits a start keyframe, a hold keyframe at the
    clamped boundary and, except after the last segment, a jump keyframe
    at `min(1.0, boundary + 1e-6)` that already carries the next strength
    (on the hold itself when the boundary is already clamped to 1.0).
  - A final anchor at 1.0 repeats the last strength.
  - Percentages are fractions of `total_steps` when that is positive, and of
    the sum of the durations otherwise.
- **Hook flattening and attaching** (`_hooks_to_tuple`, `_merge_hooks`,
  `append_hooks_to_conditioning`).
  - A hooks value (nothing, a list, a tuple, a group or a single hook)
    becomes a tuple of hooks without `None`.
  - Every `(cond, options)` pair whose options are a dictionary gets a new
    hook group: the hooks it already had, then the added ones.

Modules:

- `Wrappers`: `Option` and a generic filter-map with its laws.
- `PyStrings`: Python's `str.strip`, `str.split`, `str.split(sep, 1)`,
  `str.splitlines` and `str.join`.
- `Schedule`: the parser. It has specification functions and the imperative
  `ParseDurationSchedule` with its loops.
- `ScheduleProperties`: what the parser promises.
- `Keyframes`: `HookKeyframe`, the `HookKeyframeGroup` class, the closed-form
  specification `StepwiseKeyframes`, and the loop `CreateStepwiseKeyframes`
  proved against it.
- `KeyframeProperties`: what the builder promises.
- `Hooks`: flattening, merging and `AppendHooksToConditioning`.

The foreign calls are parameters:

- `float()` on a string (`_try_parse_float`) is `parseFloat: string -> Option<real>`.
  `None` stands for the exception.
- `json.loads` is `jsonLoads: string -> Option<Json>`. `None` stands for
  `JSONDecodeError`; other exceptions of `json.loads` are left out.

`float()` on an already decoded JSON value is written out:

- a number gives itself (integers beyond the double range are left out);
- `true` and `false` give 1 and 0;
- a string goes to `parseFloat`;
- `null`, a list and an object give `None`.

Arithmetic is on reals.

## Model

| member | source | states |
|---|---|---|
| Schedule.ParseSchedule | lora_loader_custom_stackable.py:43-120 | whatever the parser returns as a schedule is non-empty and every segment has a duration strictly greater than 0 |
| Schedule.ParseDurationSchedule | lora_loader_custom_stackable.py:43-120 | the parser as written (early returns, JSON attempt, text fallback) returns exactly `ParseSchedule` of its input |
| Schedule.FloatOf | lora_loader_custom_stackable.py:68-73 | `_try_parse_float` of a decoded JSON value: only a bool, a number or a string can convert, and a number converts to itself |
| Schedule.Get | lora_loader_custom_stackable.py:68-69 | `item.get(key)`: the value under the key when present, JSON null otherwise |
| Schedule.JsonItemSegment | lora_loader_custom_stackable.py:64-76 | a JSON item (object with "duration"/"strength", or list of at least two) yields a segment only with a positive duration; `ScheduleProperties.JsonItemParses` states that an item whose values convert reads back as its segment |
| Schedule.JsonSegments | lora_loader_custom_stackable.py:63-76 | the segments the item loop keeps, in item order; no contract of its own: `Schedule.JsonSegmentsPositive` and `Schedule.JsonModeSegments` state its properties |
| Schedule.JsonSegmentsPositive | lora_loader_custom_stackable.py:75-76 | every segment collected in JSON mode has a positive duration |
| Schedule.JsonModeSegments | lora_loader_custom_stackable.py:62-76 | the JSON loop appends exactly the segments of the decoded list, in order; non-lists give none |
| Schedule.JsonAttempt | lora_loader_custom_stackable.py:59-81 | JSON mode only ever produces positive-duration segments; when it yields nothing is stated by `ScheduleProperties.JsonAttemptEmpty` |
| Schedule.BeforeComment | lora_loader_custom_stackable.py:88-89 | the kept part of a line holds no `#` |
| Schedule.CleanLine | lora_loader_custom_stackable.py:88-90 | a line cut at its first `#` and stripped holds no `#` and is empty or trimmed |
| Schedule.CleanedLine | lora_loader_custom_stackable.py:88-92 | a line is kept only as a non-empty, trimmed, comment-free text |
| Schedule.CleanLines | lora_loader_custom_stackable.py:85-92 | `clean_lines` has at most one entry per line, each non-empty, trimmed and free of `#` |
| Schedule.CollectCleanLines | lora_loader_custom_stackable.py:85-92 | the line loop keeps exactly the non-blank, comment-cut, stripped lines, in order |
| Schedule.StrippedToken | lora_loader_custom_stackable.py:100 | a kept token is non-empty and has no surrounding whitespace |
| Schedule.StrippedTokensTrimmed | lora_loader_custom_stackable.py:100 | every token of the comprehension is non-empty and trimmed |
| Schedule.StrippedTokens | lora_loader_custom_stackable.py:100 | the comprehension `[t.strip() for t in ... if t.strip()]`; no contract of its own: `Schedule.StrippedTokensTrimmed` states its property |
| Schedule.Tokens | lora_loader_custom_stackable.py:85-100 | every token of text mode is non-empty and trimmed |
| Schedule.TokenSegment | lora_loader_custom_stackable.py:104-118 | a token gives a segment only if it contains `:` and the duration is positive; `ScheduleProperties.SkippedToken` and `ScheduleProperties.RenderedTokenParses` state which tokens are skipped and which read back |
| Schedule.TextSegments | lora_loader_custom_stackable.py:102-118 | the token loop adds at most one segment per token |
| Schedule.IsConstant | lora_loader_custom_stackable.py:104-107 | a lone colon-free token that parses as a number; such a token gives no segment either, so the early return yields the same `None` as falling through to `segments or None` would |
| Schedule.TextSegmentsPositive | lora_loader_custom_stackable.py:117-118 | every segment collected in text mode has a positive duration |
| Schedule.TokenSchedule | lora_loader_custom_stackable.py:102-120 | text mode's result is either no schedule or a non-empty list of positive-duration segments |
| Schedule.TextSchedule | lora_loader_custom_stackable.py:85-120 | text mode returns either no schedule or a non-empty list of positive-duration segments |
| Schedule.ParseTokens | lora_loader_custom_stackable.py:102-120 | the token loop, with its early return for a lone number, returns exactly `TokenSchedule` |
| Schedule.TextModeSchedule | lora_loader_custom_stackable.py:85-120 | text mode as written (clean lines, join, split, token loop) returns exactly `TextSchedule` |
| ScheduleProperties.BlankInputIsNoSchedule | lora_loader_custom_stackable.py:51-56 | `None` input, and input that is empty or only whitespace, is no schedule |
| ScheduleProperties.JsonAttemptEmpty | lora_loader_custom_stackable.py:59-81 | JSON mode yields nothing exactly when the text does not open with `[`/`{`, does not decode, or decodes to no usable segment |
| ScheduleProperties.JsonFallsBackToText | lora_loader_custom_stackable.py:77-85 | when JSON mode yields nothing, the result is that of text mode on the stripped input |
| ScheduleProperties.JsonListAttempt | lora_loader_custom_stackable.py:59-78 | text that opens with `[` and decodes to a list is read item by item in JSON mode |
| ScheduleProperties.JsonWins | lora_loader_custom_stackable.py:77-78 | when JSON mode finds segments, they are returned and text mode is not consulted |
| ScheduleProperties.UnbracketedIsText | lora_loader_custom_stackable.py:59 | an already-stripped, non-empty input not opening with `[` or `{` is decided by its text tokens alone |
| ScheduleProperties.LeadingSpaceAddsNoToken | lora_loader_custom_stackable.py:100 | whitespace before a comma-separated text changes none of its tokens |
| ScheduleProperties.TrailingSpaceAddsNoToken | lora_loader_custom_stackable.py:100 | whitespace after a comma-separated text changes none of its tokens |
| ScheduleProperties.LStripAddsNoToken | lora_loader_custom_stackable.py:90 | left-stripping a line before splitting it changes none of its tokens |
| ScheduleProperties.RStripAddsNoToken | lora_loader_custom_stackable.py:90 | right-stripping a line before splitting it changes none of its tokens |
| ScheduleProperties.StripAddsNoToken | lora_loader_custom_stackable.py:90 | stripping a line before splitting it changes none of its tokens |
| ScheduleProperties.SameStripSameTokens | lora_loader_custom_stackable.py:100 | two parts with the same stripped text give the same tokens |
| ScheduleProperties.BlankPieceNoToken | lora_loader_custom_stackable.py:100 | an empty text gives no token |
| ScheduleProperties.CommaJoinTokens | lora_loader_custom_stackable.py:95-100 | joining lines with commas and splitting again gives each line's tokens in turn |
| ScheduleProperties.CleanLineTokens | lora_loader_custom_stackable.py:86-92 | cleaning one line (cut at `#`, strip, drop if blank) keeps exactly its tokens |
| ScheduleProperties.CleanLinesTokens | lora_loader_custom_stackable.py:85-92 | cleaning all lines keeps, line by line, exactly the tokens each gives, in order |
| ScheduleProperties.TokensByLine | lora_loader_custom_stackable.py:85-100 | the tokens of an input are those of its lines in turn, each line cut at its first `#` (blank lines give none) |
| ScheduleProperties.CommentIgnored | lora_loader_custom_stackable.py:88-89 | whatever follows the first `#` on a line does not affect its tokens |
| ScheduleProperties.PlainJoin | lora_loader_custom_stackable.py:95 | joining pieces free of line breaks and `#` with commas gives one comment-free line |
| ScheduleProperties.CommentFreeLines | lora_loader_custom_stackable.py:88-89 | lines without `#` give the same tokens as the lines themselves |
| ScheduleProperties.NewlineJoinLines | lora_loader_custom_stackable.py:86 | the lines of a newline-join of break-free pieces give the pieces' tokens |
| ScheduleProperties.NewlineTextTokens | lora_loader_custom_stackable.py:85-100 | pieces written one per line give each piece's tokens in order |
| ScheduleProperties.CommaTextTokens | lora_loader_custom_stackable.py:85-100 | pieces written on one line with commas give each piece's tokens in order |
| ScheduleProperties.OneLineTokens | lora_loader_custom_stackable.py:85-100 | a one-line, comment-free text gives the tokens of its comma-separated parts |
| ScheduleProperties.NewlinesActAsCommas | lora_loader_custom_stackable.py:94-100 | writing pieces one per line or separated by commas gives the same tokens in the same order, hence the same segments |
| ScheduleProperties.SingleTokenText | lora_loader_custom_stackable.py:100 | a trimmed text with no comma, `#` or line break is its own only token |
| ScheduleProperties.ConstantTokenIsNoSchedule | lora_loader_custom_stackable.py:104-107 | whenever cleaning leaves exactly one token, colon-free and parsing as a number (`0.8 # constant`, `0.8,`, blank lines around it), the input gives no schedule |
| ScheduleProperties.ConstantIsNoSchedule | lora_loader_custom_stackable.py:104-107 | the special case of a text that is the trimmed number itself: it gives no schedule |
| ScheduleProperties.SkippedToken | lora_loader_custom_stackable.py:104-118 | a token without a colon, or whose parts do not both parse or whose duration is not positive, adds no segment and leaves the other tokens' segments as they are |
| ScheduleProperties.RenderedTokenParses | lora_loader_custom_stackable.py:110-118 | a segment written as `d:s` with numbers `float()` reads back parses to that segment |
| ScheduleProperties.RenderedSegmentsParse | lora_loader_custom_stackable.py:102-118 | a list of such tokens parses to exactly those segments, in order |
| ScheduleProperties.RenderedItemsPlain | lora_loader_custom_stackable.py:100 | rendered tokens are trimmed and free of commas, `#` and line breaks |
| ScheduleProperties.RenderedTokens | lora_loader_custom_stackable.py:54-100 | the comma form of a schedule is already stripped and its tokens are exactly the rendered segments |
| ScheduleProperties.RenderedSchedule | lora_loader_custom_stackable.py:102-120 | the token loop turns the rendered segments back into the schedule |
| ScheduleProperties.TextRoundTrip | lora_loader_custom_stackable.py:43-120 | a non-empty positive schedule written in the comma form parses back to exactly itself |
| ScheduleProperties.JsonItemParses | lora_loader_custom_stackable.py:64-76 | a segment written as a JSON object or pair is read back as that segment |
| ScheduleProperties.JsonItemsParse | lora_loader_custom_stackable.py:63-76 | a JSON list of such items gives exactly the schedule |
| ScheduleProperties.JsonRoundTrip | lora_loader_custom_stackable.py:58-78 | a non-empty positive schedule written as JSON (objects or pairs) and decoded parses back to exactly itself |
| PyStrings.IsSpace | lora_loader_custom_stackable.py:54 | the `str.isspace` set that every `strip()` removes; no contract of its own: `PyStrings.LStrip`, `PyStrings.RStrip` and `PyStrings.StripBlank` state what stripping keeps |
| PyStrings.LStrip | lora_loader_custom_stackable.py:54 | `lstrip` removes a whitespace-only prefix and leaves a text that is empty or opens with a non-space |
| PyStrings.RStrip | lora_loader_custom_stackable.py:54 | `rstrip` removes a whitespace-only suffix and leaves a text that is empty or ends with a non-space |
| PyStrings.Strip | lora_loader_custom_stackable.py:54 | `strip` gives a text no longer than the input that neither starts nor ends with whitespace |
| PyStrings.StripKeepsChar | lora_loader_custom_stackable.py:90 | `strip()` only removes characters: every character it keeps was in the input |
| PyStrings.StripBlank | lora_loader_custom_stackable.py:55 | a stripped text is empty exactly when the input is all whitespace |
| PyStrings.StripIgnoresLeadingSpace | lora_loader_custom_stackable.py:90 | leading whitespace does not change the stripped text |
| PyStrings.LStripIgnoresLeadingSpace | lora_loader_custom_stackable.py:90 | leading whitespace does not change the left-stripped text |
| PyStrings.StripIgnoresTrailingSpace | lora_loader_custom_stackable.py:90 | trailing whitespace does not change the stripped text |
| PyStrings.RStripIgnoresTrailingSpace | lora_loader_custom_stackable.py:90 | trailing whitespace does not change the right-stripped text |
| PyStrings.LStripKeepsTail | lora_loader_custom_stackable.py:90 | left-stripping a text that is not blank keeps everything after its first non-space |
| PyStrings.StripKeepsTrimmed | lora_loader_custom_stackable.py:114-115 | a text without surrounding whitespace is its own strip |
| PyStrings.Join | lora_loader_custom_stackable.py:95 | `",".join(parts)` holds the separator whenever there are two or more parts |
| PyStrings.SplitOnce | lora_loader_custom_stackable.py:89-110 | `split(sep, 1)` gives the text itself when the separator is absent, else the part before the first separator and the rest |
| PyStrings.SplitOnceAfter | lora_loader_custom_stackable.py:110 | splitting once at a separator the prefix lacks gives the prefix and the rest |
| PyStrings.Split | lora_loader_custom_stackable.py:100 | `split(sep)` always gives at least one part |
| PyStrings.SplitPartsLackSeparator | lora_loader_custom_stackable.py:100 | no part of a split holds the separator |
| PyStrings.JoinSplit | lora_loader_custom_stackable.py:95-100 | joining the parts of a split gives back the text |
| PyStrings.SplitJoin | lora_loader_custom_stackable.py:95-100 | splitting a join of separator-free parts gives back the parts |
| PyStrings.SplitWithoutSeparator | lora_loader_custom_stackable.py:100 | a text without the separator splits into itself |
| PyStrings.SplitAtSeparator | lora_loader_custom_stackable.py:100 | splitting at a separator splits each side independently |
| PyStrings.SplitAfterPrefix | lora_loader_custom_stackable.py:100 | a separator-free prefix is glued to the first part |
| PyStrings.SplitBeforeSuffix | lora_loader_custom_stackable.py:100 | a separator-free suffix is glued to the last part |
| PyStrings.LineEnd | lora_loader_custom_stackable.py:86 | a line runs up to the first line boundary |
| PyStrings.IsLineBreak | lora_loader_custom_stackable.py:86 | the line boundaries of `splitlines`; no contract of its own: `PyStrings.LineEnd`, `PyStrings.SplitLines` and `PyStrings.NewlineEndsLine` state how they cut a text |
| PyStrings.SplitLines | lora_loader_custom_stackable.py:86 | `splitlines` gives no line for an empty text, at least one otherwise, and no line holds a boundary |
| PyStrings.OneLine | lora_loader_custom_stackable.py:86 | a non-empty text without line breaks is one line |
| PyStrings.NewlineEndsLine | lora_loader_custom_stackable.py:86 | a `\n` ends a line and the rest is split on its own |
| Keyframes.HookKeyframeGroup.constructor | lora_loader_custom_stackable.py:141 | a new keyframe group is empty |
| Keyframes.HookKeyframeGroup.Add | lora_loader_custom_stackable.py:149 | `add` appends the keyframe and changes nothing else |
| Keyframes.Clamp01 | lora_loader_custom_stackable.py:145-152 | `max(0, min(1, x))` lies in [0, 1] and is `x` whenever `x` already does |
| Keyframes.SumDurations | lora_loader_custom_stackable.py:131-151 | the sum of the first k durations, both `sum(d for d, _ in segments)` and the running `current`; no contract of its own: `Keyframes.SumDurationsPositive` and `KeyframeProperties.SumDurationsMonotone` state its properties |
| Keyframes.SumDurationsPositive | lora_loader_custom_stackable.py:131-151 | the running sum of positive durations (`sum_durations`, `current`) is positive |
| Keyframes.Denominator | lora_loader_custom_stackable.py:131-135 | for a non-empty schedule with positive durations `total` is positive; `KeyframeProperties.AbsoluteStepsBuild` states that a positive `total_steps` is the denominator |
| Keyframes.Boundary | lora_loader_custom_stackable.py:145-152 | a clamped boundary `max(0, min(1, current / total))` lies in [0, 1] |
| Keyframes.KeyframeAt | lora_loader_custom_stackable.py:144-172 | keyframe j has a percentage in [0, 1] and only keyframe 0 has a guarantee step; `KeyframeProperties.SegmentKeyframes` and `KeyframeProperties.KeyframeShape` state what each slot carries |
| Keyframes.StepwiseKeyframes | lora_loader_custom_stackable.py:127-173 | a built group holds 3n keyframes, each with a percentage in [0, 1]; when no group is built is stated by `KeyframeProperties.NoGroupCases` |
| Keyframes.CreateStepwiseKeyframes | lora_loader_custom_stackable.py:127-173 | the builder returns no group exactly when the specification has none, and otherwise a fresh group whose keyframes are exactly `StepwiseKeyframes`: start, hold and jump per segment, then the anchor |
| KeyframeProperties.NoGroupCases | lora_loader_custom_stackable.py:128-138 | no group exactly when there are no segments, or when the step count is not positive and the durations do not add up to a positive total |
| KeyframeProperties.AbsoluteStepsBuild | lora_loader_custom_stackable.py:135 | a positive step count is the denominator and always gives a group |
| KeyframeProperties.ParsedScheduleBuilds | lora_loader_custom_stackable.py:120-137 | every schedule the parser returns gives a group, whatever the step count |
| KeyframeProperties.KeyframeShape | lora_loader_custom_stackable.py:144-172 | exactly 3n keyframes; only the first has a guarantee step; every percentage is in [0, 1]; the first starts at 0; the last is the anchor at 1.0 with the last strength |
| KeyframeProperties.SegmentKeyframes | lora_loader_custom_stackable.py:144-166 | segment i's start and hold carry its strength at the clamped fractions of the run before and after it; its jump carries the next strength at `min(1, hold + eps)` |
| KeyframeProperties.Continuity | lora_loader_custom_stackable.py:145-152 | each segment starts where the previous one was held to |
| KeyframeProperties.JumpAfterNextStart | lora_loader_custom_stackable.py:158-166 | a jump sits after the next start on the time axis while being emitted before it, so the emitted percentages are not monotone |
| KeyframeProperties.SumDurationsMonotone | lora_loader_custom_stackable.py:131-151 | with durations that are never negative, the running sum `current` never decreases as segments are added |
| KeyframeProperties.BoundariesNondecreasing | lora_loader_custom_stackable.py:145-155 | with non-negative durations each hold is at or after its start and later holds are never earlier |
| KeyframeProperties.RelativeModeEndsAtOne | lora_loader_custom_stackable.py:135-152 | without a step count the last segment is held until 1.0 |
| KeyframeProperties.AbsoluteModeClampsAtOne | lora_loader_custom_stackable.py:135-152 | with a step count, a boundary at or past the step count is clamped to 1.0 |
| Hooks.HooksToTuple | lora_loader_custom_stackable.py:176-181 | `_hooks_to_tuple`: every hook in the tuple is one the value carries |
| Hooks.MergeHooks | lora_loader_custom_stackable.py:183-184 | `_merge_hooks(a, b)`: the hooks of `a` first, then those of `b`, nothing else |
| Hooks.Present | lora_loader_custom_stackable.py:178-180 | the generator filters `if x is not None`; no contract of its own: `Hooks.PresentSound`, `Hooks.PresentMembers`, `Hooks.PresentAppend`, `Hooks.PresentSingle` and `Hooks.PresentLift` state its properties |
| Hooks.PresentSound | lora_loader_custom_stackable.py:178-180 | every hook the None-filter keeps is an element of the input |
| Hooks.PresentMembers | lora_loader_custom_stackable.py:178-180 | the None-filter keeps exactly the elements that are not `None` |
| Hooks.PresentAppend | lora_loader_custom_stackable.py:178-180 | the None-filter works part by part, keeping the order |
| Hooks.PresentSingle | lora_loader_custom_stackable.py:178-180 | a `None` element disappears and a hook stays |
| Hooks.PresentLift | lora_loader_custom_stackable.py:178-180 | a list without `None` passes the filter unchanged |
| Hooks.HooksToTupleMembers | lora_loader_custom_stackable.py:176-181 | `_hooks_to_tuple` holds exactly the hooks the value carries: none for `None`, the non-`None` elements of a list, tuple or group, the value itself otherwise |
| Hooks.HooksToTupleIdempotent | lora_loader_custom_stackable.py:176-181 | flattening a flattened value again, as a tuple, list or group, changes nothing |
| Hooks.MergeWithNothing | lora_loader_custom_stackable.py:183-184 | merging with `None` on either side is flattening |
| Hooks.MergeAssociative | lora_loader_custom_stackable.py:183-184 | stacking three hook sources gives the same tuple whichever pair is merged first |
| Hooks.MergeMembers | lora_loader_custom_stackable.py:183-184 | a merged tuple holds a hook exactly when one of the two sources does |
| Hooks.ExistingElements | lora_loader_custom_stackable.py:210-217 | what the add loops take from an existing hooks value flattens to `_hooks_to_tuple` of it |
| Hooks.NewGroup | lora_loader_custom_stackable.py:208-222 | the new `HookGroup` flattens to the existing hooks followed by the added ones |
| Hooks.RewriteItem | lora_loader_custom_stackable.py:197-231 | one entry: a non-pair or a pair with non-dict options is kept as is; a dict pair keeps its cond and other options and its hooks become a group of old plus new |
| Hooks.AppendHooks | lora_loader_custom_stackable.py:191-232 | `append_hooks_to_conditioning`: the output has one entry per input entry |
| Hooks.BuildHookGroup | lora_loader_custom_stackable.py:208-222 | the new group holds the existing elements then the added hooks, and flattens to the existing hooks followed by the added ones |
| Hooks.AppendHooksToConditioning | lora_loader_custom_stackable.py:191-232 | the function as written (early return, one pass) returns exactly `AppendHooks` |
| Hooks.NothingToAppend | lora_loader_custom_stackable.py:192-194 | with no hooks to add, the conditioning comes back as it is |
| Hooks.AppendKeepsWellFormed | lora_loader_custom_stackable.py:222-228 | when no options dictionary holds "hooks" among its other entries, none does after the rewrite: the new dict's "hooks" replaces the old one |
| Hooks.OtherEntriesUnchanged | lora_loader_custom_stackable.py:197-231 | entries that do not unpack into two parts, and pairs whose options are not a dictionary, pass through unchanged |
| Hooks.PairGetsMergedHooks | lora_loader_custom_stackable.py:204-228 | a pair with a dictionary keeps its condition and other options, stays a tuple or becomes a list, and its hooks flatten to the merge of its old hooks and the added ones |
| Hooks.AppendStacks | lora_loader_custom_stackable.py:191-232 | attaching two hook sources in turn leaves each dictionary pair with its old hooks, then the first source's, then the second's |

## Left out

- `LoRALoaderCustomStackable.apply` and `ApplyHooksToConditioning.apply` are not modelled. They do file lookup, weight loading, model cloning and hook registration in the host.
- `INPUT_TYPES`, `NODE_CLASS_MAPPINGS` and the display-name tables are UI registration only.
- `json.loads` is a parameter. Its parsing rules are not modelled.
- `jsonLoads` stands only for a decoded value or `JSONDecodeError`. Other exceptions that escape `json.loads`, such as the `RecursionError` of very deeply nested brackets, propagate out of `_parse_duration_schedule` in the source; the model has no such outcome.
- Schedule.FloatOf does not model the `OverflowError` of `float()` on a decoded JSON integer outside the double range: the source skips such an item, the model converts it to its exact value and keeps it.
- Python's `float()` on strings (`_try_parse_float`) is a parameter. Its accepted spellings (`nan`, `inf`, exponents, underscores) are not modelled.
- Floating point is modelled with reals. The IEEE-754 rounding of `sum`, `current += dur`, `current / total` and `boundary + eps` is not modelled.
- `HookKeyframeGroup.add` and `HookGroup.add` are modelled as appending. Any sorting or deduplication the host does inside them is not modelled.
- `print` logging is left out.
- `str(schedule_input)` of a non-string input is not modelled. The input is `None` or a string.
- Hooks.ExistingElements does not model Python truthiness beyond emptiness: a single hook object that is falsy would add nothing in the source, but here it is always added.
- An options dictionary without a "hooks" key and one whose "hooks" is `None` are the same value here. `dict.get` reads both as `None`.
- Hooks.AppendHooksToConditioning only models the exception that comes from an entry that does not unpack into two parts. Other exceptions raised inside the `try` (in `dict(opts)` or in the host's `HookGroup`) are not modelled.
- The guard `len(parts) != 2` in the token loop can never fire, because a token that reaches it holds a colon and `split(":", 1)` then gives two parts. The model keeps the branch (in `Schedule.TokenSegment` and `Schedule.ParseTokens`); the contract of `PyStrings.SplitOnce` shows that it is dead.
- Hooks.AppendHooksToConditioning returns the same list object when there is nothing to add. Object identity and aliasing are not modelled, only equal contents.
