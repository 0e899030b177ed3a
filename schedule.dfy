/**
 * `_parse_duration_schedule`: the strength text a user types into the LoRA
 * loader node, read either as a JSON list or as `DURATION : STRENGTH`
 * tokens separated by commas or lines, becomes a list of segments, or
 * "no schedule" (None) when the text is blank, a single number, or yields
 * no usable segment.
 *
 * `float()` on a string (`_try_parse_float`) and `json.loads` are
 * parameters: `parseFloat` returns None where Python raises, and
 * `jsonLoads` returns None where Python raises `JSONDecodeError`.
 */
module Schedule {
  import opened Wrappers
  import opened PyStrings

  /** One `(duration, strength)` pair. */
  datatype Segment = Segment(duration: real, strength: real)

  /** A value as `json.loads` returns it. */
  datatype Json =
    | JNull
    | JBool(b: bool)
    | JNumber(n: real)
    | JString(s: string)
    | JArray(items: seq<Json>)
    | JObject(fields: map<string, Json>)

  type FloatParser = string -> Option<real>
  type JsonDecoder = string -> Option<Json>

  /** Every segment lasts a positive time. */
  predicate PositiveDurations(segments: seq<Segment>) {
    forall k :: 0 <= k < |segments| ==> segments[k].duration > 0.0
  }

  // ---------------------------------------------------------------------
  // JSON mode
  // ---------------------------------------------------------------------

  /** `_try_parse_float(v)` for a decoded JSON value: Python's `float(v)`,
      with None where `float` raises. */
  function FloatOf(v: Json, parseFloat: FloatParser): (r: Option<real>)
    ensures r.Some? ==> v.JBool? || v.JNumber? || v.JString?
    ensures v.JNumber? ==> r == Some(v.n)
  {
    match v
    case JNull => None
    case JBool(b) => Some(if b then 1.0 else 0.0)
    case JNumber(n) => Some(n)
    case JString(s) => parseFloat(s)
    case JArray(_) => None
    case JObject(_) => None
  }

  /** `d.get(key)`: JSON null when the key is absent. */
  function Get(fields: map<string, Json>, key: string): (r: Json)
    ensures key in fields ==> r == fields[key]
    ensures key !in fields ==> r == JNull
  {
    if key in fields then fields[key] else JNull
  }

  /** The segment one element of the decoded list contributes, if any: an
      object with "duration" and "strength", or a list of at least two
      elements, whose duration is positive. */
  function JsonItemSegment(item: Json, parseFloat: FloatParser): (r: Option<Segment>)
    ensures r.Some? ==> r.value.duration > 0.0
  {
    var dur := match item
      case JObject(f) => FloatOf(Get(f, "duration"), parseFloat)
      case JArray(xs) => if |xs| >= 2 then FloatOf(xs[0], parseFloat) else None
      case _ => None;
    var strength := match item
      case JObject(f) => FloatOf(Get(f, "strength"), parseFloat)
      case JArray(xs) => if |xs| >= 2 then FloatOf(xs[1], parseFloat) else None
      case _ => None;
    if dur.Some? && strength.Some? && dur.value > 0.0
    then Some(Segment(dur.value, strength.value))
    else None
  }

  /** The segments of a decoded JSON list, in list order. */
  function JsonSegments(items: seq<Json>, parseFloat: FloatParser): seq<Segment> {
    FilterMap(items, item => JsonItemSegment(item, parseFloat))
  }

  lemma JsonSegmentsPositive(items: seq<Json>, parseFloat: FloatParser)
    ensures PositiveDurations(JsonSegments(items, parseFloat))
  {
    FilterMapAll(items, item => JsonItemSegment(item, parseFloat), (seg: Segment) => seg.duration > 0.0);
  }

  /** What JSON mode finds in a decoded value: only a list has segments. */
  function JsonSchedule(data: Json, parseFloat: FloatParser): seq<Segment> {
    if data.JArray? then JsonSegments(data.items, parseFloat) else []
  }

  // ---------------------------------------------------------------------
  // Text mode
  // ---------------------------------------------------------------------

  /** A line with everything from its first `#` on removed. */
  function BeforeComment(line: string): (r: string)
    ensures '#' !in r
  {
    if '#' in line then SplitOnce(line, '#')[0] else line
  }

  /** A line without its comment and surrounding whitespace. */
  function CleanLine(line: string): (r: string)
    ensures '#' !in r
    ensures r == [] || Trimmed(r)
  {
    var b := BeforeComment(line);
    StripKeepsChar(b, '#');
    Strip(b)
  }

  /** A cleaned line, unless it is blank. */
  function CleanedLine(line: string): (r: Option<string>)
    ensures r.Some? ==> Trimmed(r.value) && '#' !in r.value
  {
    var c := CleanLine(line);
    if c != [] then Some(c) else None
  }

  /** `clean_lines`: the cleaned lines that are not blank, in order. */
  function CleanLines(lines: seq<string>): (r: seq<string>)
    ensures |r| <= |lines|
    ensures forall k :: 0 <= k < |r| ==> Trimmed(r[k]) && '#' !in r[k]
  {
    FilterMapAll(lines, CleanedLine, (l: string) => Trimmed(l) && '#' !in l);
    FilterMap(lines, CleanedLine)
  }

  /** Not blank, and neither starting nor ending with whitespace. */
  predicate Trimmed(t: string) {
    t != [] && !IsSpace(t[0]) && !IsSpace(t[|t| - 1])
  }

  /** A stripped piece, unless it is blank. */
  function StrippedToken(part: string): (r: Option<string>)
    ensures r.Some? ==> Trimmed(r.value)
  {
    var t := Strip(part);
    if t != [] then Some(t) else None
  }

  /** `[t.strip() for t in parts if t.strip()]`. */
  function StrippedTokens(parts: seq<string>): seq<string> {
    FilterMap(parts, StrippedToken)
  }

  lemma StrippedTokensTrimmed(parts: seq<string>)
    ensures forall k :: 0 <= k < |StrippedTokens(parts)| ==> Trimmed(StrippedTokens(parts)[k])
  {
    FilterMapAll(parts, StrippedToken, Trimmed);
  }

  /** The tokens of text mode: the clean lines joined with commas, split at
      commas, stripped, blanks dropped. */
  function Tokens(s: string): (r: seq<string>)
    ensures forall k :: 0 <= k < |r| ==> Trimmed(r[k])
  {
    var parts := Split(Join(CleanLines(SplitLines(s)), ','), ',');
    StrippedTokensTrimmed(parts);
    StrippedTokens(parts)
  }

  /** The segment a `DURATION : STRENGTH` token gives: split at its first
      colon, both sides parse, and the duration is positive. */
  function TokenSegment(token: string, parseFloat: FloatParser): (r: Option<Segment>)
    ensures r.Some? ==> ':' in token && r.value.duration > 0.0
  {
    if ':' !in token then None
    else
      var parts := SplitOnce(token, ':');
      if |parts| != 2 then None
      else
        var dur := parseFloat(Strip(parts[0]));
        var strength := parseFloat(Strip(parts[1]));
        if dur.Some? && strength.Some? && dur.value > 0.0
        then Some(Segment(dur.value, strength.value))
        else None
  }

  /** The segments of a token list, in token order. */
  function TextSegments(tokens: seq<string>, parseFloat: FloatParser): (r: seq<Segment>)
    ensures |r| <= |tokens|
  {
    FilterMap(tokens, token => TokenSegment(token, parseFloat))
  }

  lemma TextSegmentsPositive(tokens: seq<string>, parseFloat: FloatParser)
    ensures PositiveDurations(TextSegments(tokens, parseFloat))
  {
    FilterMapAll(tokens, token => TokenSegment(token, parseFloat), (seg: Segment) => seg.duration > 0.0);
  }

  /** The whole input is one number: a constant strength, not a schedule.
      Such a token gives no segment either, so the early return yields the
      same None as falling through would. */
  predicate IsConstant(tokens: seq<string>, parseFloat: FloatParser)
    ensures IsConstant(tokens, parseFloat) ==> TextSegments(tokens, parseFloat) == []
  {
    if |tokens| == 1 then
      assert tokens == [tokens[0]];
      FilterMapSingle(tokens[0], token => TokenSegment(token, parseFloat));
      ':' !in tokens[0] && parseFloat(tokens[0]).Some?
    else false
  }

  /** What the token loop returns: None for a lone number or when no token
      gives a segment, otherwise the segments in token order. */
  function TokenSchedule(tokens: seq<string>, parseFloat: FloatParser): (r: Option<seq<Segment>>)
    ensures r.Some? ==> r.value != [] && PositiveDurations(r.value)
  {
    if IsConstant(tokens, parseFloat) then None
    else
      var segments := TextSegments(tokens, parseFloat);
      TextSegmentsPositive(tokens, parseFloat);
      if segments == [] then None else Some(segments)
  }

  /** Text mode on the stripped input. */
  function TextSchedule(s: string, parseFloat: FloatParser): (r: Option<seq<Segment>>)
    ensures r.Some? ==> r.value != [] && PositiveDurations(r.value)
  {
    TokenSchedule(Tokens(s), parseFloat)
  }

  // ---------------------------------------------------------------------
  // The whole parser
  // ---------------------------------------------------------------------

  /** What JSON mode finds in the stripped input: the segments of the
      decoded value when the text opens a list or an object and decodes,
      and none otherwise. */
  function JsonAttempt(s: string, jsonLoads: JsonDecoder, parseFloat: FloatParser): (r: seq<Segment>)
    requires s != []
    ensures PositiveDurations(r)
  {
    if (s[0] == '[' || s[0] == '{') && jsonLoads(s).Some? then
      var data := jsonLoads(s).value;
      if data.JArray? then JsonSegmentsPositive(data.items, parseFloat); JsonSchedule(data, parseFloat)
      else []
    else []
  }

  /** `_parse_duration_schedule(schedule_input)`: a schedule is never empty
      and all its durations are positive. */
  function ParseSchedule(input: Option<string>, jsonLoads: JsonDecoder, parseFloat: FloatParser)
    : (r: Option<seq<Segment>>)
    ensures r.Some? ==> r.value != [] && PositiveDurations(r.value)
  {
    if input.None? then None
    else
      var s := Strip(input.value);
      if s == [] then None
      else
        var json := JsonAttempt(s, jsonLoads, parseFloat);
        if json != [] then Some(json) else TextSchedule(s, parseFloat)
  }

  /** The parser as the source runs it, with early returns. */
  method ParseDurationSchedule(input: Option<string>, jsonLoads: JsonDecoder, parseFloat: FloatParser)
    returns (r: Option<seq<Segment>>)
    ensures r == ParseSchedule(input, jsonLoads, parseFloat)
  {
    if input.None? {
      return None;
    }
    var s := Strip(input.value);
    if s == [] {
      return None;
    }
    if s[0] == '[' || s[0] == '{' {
      var decoded := jsonLoads(s);
      if decoded.Some? {
        var segments := JsonModeSegments(decoded.value, parseFloat);
        if segments != [] {
          return Some(segments);
        }
      }
    }
    r := TextModeSchedule(s, parseFloat);
  }

  /** JSON mode's loop over the decoded list, appending each usable element. */
  method JsonModeSegments(data: Json, parseFloat: FloatParser) returns (segments: seq<Segment>)
    ensures segments == JsonSchedule(data, parseFloat)
  {
    segments := [];
    if data.JArray? {
      for k := 0 to |data.items|
        invariant segments == JsonSegments(data.items[..k], parseFloat)
      {
        var item := data.items[k];
        var dur: Option<real>, strength: Option<real> := None, None;
        if item.JObject? {
          dur := FloatOf(Get(item.fields, "duration"), parseFloat);
          strength := FloatOf(Get(item.fields, "strength"), parseFloat);
        } else if item.JArray? && |item.items| >= 2 {
          dur := FloatOf(item.items[0], parseFloat);
          strength := FloatOf(item.items[1], parseFloat);
        }
        FilterMapPrefix(data.items, k, item => JsonItemSegment(item, parseFloat));
        assert JsonItemSegment(item, parseFloat)
            == if dur.Some? && strength.Some? && dur.value > 0.0 then Some(Segment(dur.value, strength.value)) else None;
        if dur.Some? && strength.Some? && dur.value > 0.0 {
          segments := segments + [Segment(dur.value, strength.value)];
        }
      }
      assert data.items[..|data.items|] == data.items;
    }
  }

  /** Text mode: comments and blank lines go, the remaining lines are joined
      with commas and split into tokens. */
  method TextModeSchedule(s: string, parseFloat: FloatParser) returns (r: Option<seq<Segment>>)
    ensures r == TextSchedule(s, parseFloat)
  {
    var cleanLines := CollectCleanLines(SplitLines(s));
    var unified := Join(cleanLines, ',');
    var tokens := StrippedTokens(Split(unified, ','));
    r := ParseTokens(tokens, parseFloat);
  }

  /** The loop that builds `clean_lines`. */
  method CollectCleanLines(lines: seq<string>) returns (cleanLines: seq<string>)
    ensures cleanLines == CleanLines(lines)
  {
    cleanLines := [];
    for k := 0 to |lines|
      invariant cleanLines == CleanLines(lines[..k])
    {
      var line := lines[k];
      if '#' in line {
        line := SplitOnce(line, '#')[0];
      }
      line := Strip(line);
      assert line == CleanLine(lines[k]);
      FilterMapPrefix(lines, k, CleanedLine);
      if line != [] {
        cleanLines := cleanLines + [line];
      }
    }
    assert lines[..|lines|] == lines;
  }

  /** The loop over the tokens, which returns early for a lone number. */
  method ParseTokens(tokens: seq<string>, parseFloat: FloatParser) returns (r: Option<seq<Segment>>)
    ensures r == TokenSchedule(tokens, parseFloat)
  {
    var segments: seq<Segment> := [];
    for k := 0 to |tokens|
      invariant segments == TextSegments(tokens[..k], parseFloat)
      invariant k > 0 ==> !IsConstant(tokens, parseFloat)
    {
      var token := tokens[k];
      FilterMapPrefix(tokens, k, token => TokenSegment(token, parseFloat));
      if ':' !in token {
        if |tokens| == 1 && parseFloat(token).Some? {
          return None;
        }
        continue;
      }
      var parts := SplitOnce(token, ':');
      if |parts| != 2 {
        continue;
      }
      var dur := parseFloat(Strip(parts[0]));
      var strength := parseFloat(Strip(parts[1]));
      if dur.Some? && strength.Some? && dur.value > 0.0 {
        segments := segments + [Segment(dur.value, strength.value)];
      }
    }
    assert tokens[..|tokens|] == tokens;
    if segments != [] {
      return Some(segments);
    }
    return None;
  }
}
