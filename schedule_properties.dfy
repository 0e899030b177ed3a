/**
 * What the schedule parser promises: blank input and a lone number are "no
 * schedule"; text mode reads line by line, ignores comments, and treats line
 * breaks like commas; well-formed text and JSON schedules parse back to the
 * segments they were written from.
 */
module ScheduleProperties {
  import opened Wrappers
  import opened PyStrings
  import opened Schedule

  /** No input, or input that is only whitespace, is no schedule. */
  lemma BlankInputIsNoSchedule(input: Option<string>, jsonLoads: JsonDecoder, parseFloat: FloatParser)
    requires input.None? || AllSpace(input.value)
    ensures ParseSchedule(input, jsonLoads, parseFloat) == None
  {
    if input.Some? {
      StripBlank(input.value);
    }
  }

  /** JSON mode finds nothing exactly when the text does not open a list
      or an object, does not decode, or decodes to something without a
      usable segment. */
  lemma JsonAttemptEmpty(s: string, jsonLoads: JsonDecoder, parseFloat: FloatParser)
    requires s != []
    ensures JsonAttempt(s, jsonLoads, parseFloat) == []
        <==> (s[0] != '[' && s[0] != '{') || jsonLoads(s).None?
             || JsonSchedule(jsonLoads(s).value, parseFloat) == []
  {
  }

  /** When JSON mode finds nothing, the text parser decides. */
  lemma JsonFallsBackToText(text: string, jsonLoads: JsonDecoder, parseFloat: FloatParser)
    requires Strip(text) != []
    requires JsonAttempt(Strip(text), jsonLoads, parseFloat) == []
    ensures ParseSchedule(Some(text), jsonLoads, parseFloat) == TextSchedule(Strip(text), parseFloat)
  {
  }

  /** Text that does not open with `[` or `{` is read by text mode alone. */
  lemma UnbracketedIsText(text: string, jsonLoads: JsonDecoder, parseFloat: FloatParser)
    requires Strip(text) == text && text != []
    requires text[0] != '[' && text[0] != '{'
    ensures ParseSchedule(Some(text), jsonLoads, parseFloat) == TokenSchedule(Tokens(text), parseFloat)
  {
    JsonAttemptEmpty(text, jsonLoads, parseFloat);
    JsonFallsBackToText(text, jsonLoads, parseFloat);
  }

  // ---------------------------------------------------------------------
  // Text mode, line by line
  // ---------------------------------------------------------------------

  /** The comma-separated tokens of a comment-free piece. */
  function PieceTokens(piece: string): seq<string> {
    StrippedTokens(Split(piece, ','))
  }

  /** The tokens one line contributes: its comment cut off, split at commas,
      each piece stripped, blank pieces dropped. */
  function LineTokens(line: string): seq<string> {
    PieceTokens(BeforeComment(line))
  }

  /** The tokens of several lines, line after line. */
  function LinesTokens(lines: seq<string>): seq<string> {
    FlatMap(lines, LineTokens)
  }

  /** The comma-separated tokens of several comment-free pieces, piece after piece. */
  function PiecesTokens(pieces: seq<string>): seq<string> {
    FlatMap(pieces, PieceTokens)
  }

  /** A piece's tokens are those of its first part followed by those of the rest. */
  lemma FirstPartTokens(parts: seq<string>)
    requires |parts| >= 1
    ensures StrippedTokens([parts[0]]) + StrippedTokens(parts[1..]) == StrippedTokens(parts)
  {
    FilterMapAppend([parts[0]], parts[1..], StrippedToken);
    assert [parts[0]] + parts[1..] == parts;
  }

  /** A piece's tokens are those of all but its last part followed by those of the last. */
  lemma LastPartTokens(parts: seq<string>)
    requires |parts| >= 1
    ensures StrippedTokens(parts[..|parts| - 1]) + StrippedTokens([parts[|parts| - 1]]) == StrippedTokens(parts)
  {
    var init, last := parts[..|parts| - 1], parts[|parts| - 1];
    assert init + [last] == parts;
    FilterMapAppend(init, [last], StrippedToken);
  }

  /** Pieces with the same stripped text give the same tokens. */
  lemma SameStripSameTokens(x: string, y: string)
    requires Strip(x) == Strip(y)
    ensures StrippedTokens([x]) == StrippedTokens([y])
  {
    FilterMapSingle(x, StrippedToken);
    FilterMapSingle(y, StrippedToken);
  }

  lemma SplitAfterSpace(w: string, p: string)
    requires AllSpace(w)
    ensures Split(w + p, ',') == [w + Split(p, ',')[0]] + Split(p, ',')[1..]
  {
    assert !IsSpace(',');
    SplitAfterPrefix(w, p, ',');
  }

  lemma SplitBeforeSpace(p: string, w: string)
    requires AllSpace(w)
    ensures var parts := Split(p, ',');
            Split(p + w, ',') == parts[..|parts| - 1] + [parts[|parts| - 1] + w]
  {
    assert !IsSpace(',');
    SplitBeforeSuffix(p, w, ',');
  }

  /** Whitespace before a piece changes none of its comma-separated tokens. */
  lemma LeadingSpaceAddsNoToken(w: string, p: string)
    requires AllSpace(w)
    ensures PieceTokens(w + p) == PieceTokens(p)
  {
    var parts := Split(p, ',');
    SplitAfterSpace(w, p);
    FilterMapAppend([w + parts[0]], parts[1..], StrippedToken);
    StripIgnoresLeadingSpace(w, parts[0]);
    SameStripSameTokens(w + parts[0], parts[0]);
    FirstPartTokens(parts);
  }

  /** Whitespace after a piece changes none of its comma-separated tokens. */
  lemma TrailingSpaceAddsNoToken(p: string, w: string)
    requires AllSpace(w)
    ensures PieceTokens(p + w) == PieceTokens(p)
  {
    var parts := Split(p, ',');
    var n := |parts|;
    SplitBeforeSpace(p, w);
    FilterMapAppend(parts[..n - 1], [parts[n - 1] + w], StrippedToken);
    StripIgnoresTrailingSpace(parts[n - 1], w);
    SameStripSameTokens(parts[n - 1] + w, parts[n - 1]);
    LastPartTokens(parts);
  }

  lemma LStripAddsNoToken(x: string)
    ensures PieceTokens(LStrip(x)) == PieceTokens(x)
  {
    var l := LStrip(x);
    var lead := x[..|x| - |l|];
    assert x == lead + l;
    LeadingSpaceAddsNoToken(lead, l);
  }

  lemma RStripAddsNoToken(x: string)
    ensures PieceTokens(RStrip(x)) == PieceTokens(x)
  {
    var r := RStrip(x);
    var trail := x[|r|..];
    assert x == r + trail;
    TrailingSpaceAddsNoToken(r, trail);
  }

  /** Stripping a piece before splitting it changes none of its tokens. */
  lemma StripAddsNoToken(x: string)
    ensures PieceTokens(Strip(x)) == PieceTokens(x)
  {
    LStripAddsNoToken(x);
    RStripAddsNoToken(LStrip(x));
  }

  /** A blank piece gives no token. */
  lemma BlankPieceNoToken()
    ensures PieceTokens([]) == []
  {
    var blank: string := [];
    assert Split(blank, ',') == [blank] by {
      SplitWithoutSeparator(blank, ',');
    }
    assert StrippedToken(blank) == None by {
      assert |Strip(blank)| == 0;
    }
    FilterMapSingle(blank, StrippedToken);
  }

  /** Joining pieces with commas and splitting again gives each piece's tokens in turn. */
  lemma {:induction false} CommaJoinTokens(pieces: seq<string>)
    ensures PieceTokens(Join(pieces, ',')) == PiecesTokens(pieces)
  {
    if |pieces| == 0 {
    } else if |pieces| == 1 {
      assert PiecesTokens(pieces[1..]) == [];
    } else {
      SplitAtSeparator(pieces[0], Join(pieces[1..], ','), ',');
      FilterMapAppend(Split(pieces[0], ','), Split(Join(pieces[1..], ','), ','), StrippedToken);
      CommaJoinTokens(pieces[1..]);
    }
  }

  /** One line's cleaned text has exactly the tokens of the line. */
  lemma CleanLineTokens(line: string)
    ensures PiecesTokens(CleanLines([line])) == LineTokens(line)
  {
    FilterMapSingle(line, CleanedLine);
    StripAddsNoToken(BeforeComment(line));
    var c := CleanLine(line);
    if c == [] {
      BlankPieceNoToken();
    } else {
      FlatMapSingle(c, PieceTokens);
    }
  }

  /** Cleaning the lines keeps, line by line, exactly the tokens each line gives. */
  lemma {:induction false} CleanLinesTokens(lines: seq<string>)
    ensures PiecesTokens(CleanLines(lines)) == LinesTokens(lines)
  {
    if lines != [] {
      var first, rest := lines[0], lines[1..];
      assert lines == [first] + rest;
      FilterMapAppend([first], rest, CleanedLine);
      FlatMapAppend(CleanLines([first]), CleanLines(rest), PieceTokens);
      FlatMapAppend([first], rest, LineTokens);
      FlatMapSingle(first, LineTokens);
      CleanLinesTokens(rest);
      CleanLineTokens(first);
    }
  }

  /** Text mode reads the input line by line: its tokens are the tokens of
      each line in turn, each line cut at its first `#`. */
  lemma TokensByLine(s: string)
    ensures Tokens(s) == LinesTokens(SplitLines(s))
  {
    CommaJoinTokens(CleanLines(SplitLines(s)));
    CleanLinesTokens(SplitLines(s));
  }

  /** Everything from the first `#` of a line on is a comment. */
  lemma CommentIgnored(line: string, comment: string)
    requires '#' !in line
    ensures LineTokens(line + "#" + comment) == LineTokens(line)
  {
    SplitOnceAfter(line, comment, '#');
    assert BeforeComment(line + "#" + comment) == line == BeforeComment(line);
  }

  // ---------------------------------------------------------------------
  // Line breaks act as commas
  // ---------------------------------------------------------------------

  lemma {:induction false} JoinChars(parts: seq<string>, sep: char, c: char)
    requires c in Join(parts, sep)
    ensures c == sep || exists k :: 0 <= k < |parts| && c in parts[k]
  {
    if |parts| > 1 {
      var rest := Join(parts[1..], sep);
      if c !in parts[0] && c != sep {
        assert c in rest;
        JoinChars(parts[1..], sep, c);
        var k :| 0 <= k < |parts| - 1 && c in parts[1..][k];
        assert c in parts[k + 1];
      }
    }
  }

  /** Pieces free of line breaks and of `#` give a text line free of both. */
  lemma PlainJoin(pieces: seq<string>)
    requires forall k :: 0 <= k < |pieces| ==> NoLineBreak(pieces[k]) && '#' !in pieces[k]
    ensures NoLineBreak(Join(pieces, ',')) && '#' !in Join(pieces, ',')
  {
    var j := Join(pieces, ',');
    forall i | 0 <= i < |j|
      ensures !IsLineBreak(j[i]) && j[i] != '#'
    {
      JoinChars(pieces, ',', j[i]);
      if j[i] != ',' {
        var k :| 0 <= k < |pieces| && j[i] in pieces[k];
        var m :| 0 <= m < |pieces[k]| && pieces[k][m] == j[i];
      }
    }
    if '#' in j {
      JoinChars(pieces, ',', '#');
    }
  }

  lemma {:induction false} CommentFreeLines(pieces: seq<string>)
    requires forall k :: 0 <= k < |pieces| ==> '#' !in pieces[k]
    ensures LinesTokens(pieces) == PiecesTokens(pieces)
  {
    if pieces != [] {
      CommentFreeLines(pieces[1..]);
      assert BeforeComment(pieces[0]) == pieces[0];
    }
  }

  /** One piece without line breaks is, as far as its tokens go, its own lines. */
  lemma NewlineJoinSingle(p: string)
    requires NoLineBreak(p)
    ensures LinesTokens(SplitLines(p)) == LinesTokens([p])
  {
    FlatMapSingle(p, LineTokens);
    if p == [] {
      assert SplitLines(p) == [];
      BlankPieceNoToken();
    } else {
      OneLine(p);
    }
  }

  /** A first piece and a "\n" in front of the rest add that piece's line. */
  lemma NewlineJoinCons(first: string, rest: string, restPieces: seq<string>)
    requires NoLineBreak(first)
    requires LinesTokens(SplitLines(rest)) == LinesTokens(restPieces)
    ensures LinesTokens(SplitLines(first + "\n" + rest)) == LinesTokens([first] + restPieces)
  {
    NewlineEndsLine(first, rest);
    FlatMapAppend([first], SplitLines(rest), LineTokens);
    FlatMapAppend([first], restPieces, LineTokens);
  }

  /** The lines of a "\n"-join, as far as their tokens go, are the pieces joined. */
  lemma {:induction false} NewlineJoinLines(pieces: seq<string>)
    requires forall k :: 0 <= k < |pieces| ==> NoLineBreak(pieces[k])
    ensures LinesTokens(SplitLines(Join(pieces, '\n'))) == LinesTokens(pieces)
  {
    if |pieces| == 1 {
      assert pieces == [pieces[0]];
      NewlineJoinSingle(pieces[0]);
    } else if |pieces| > 1 {
      var first, tail := pieces[0], pieces[1..];
      var rest := Join(tail, '\n');
      assert Join(pieces, '\n') == first + "\n" + rest;
      assert [first] + tail == pieces;
      assert LinesTokens(SplitLines(rest)) == LinesTokens(tail) by {
        NewlineJoinLines(tail);
      }
      NewlineJoinCons(first, rest, tail);
    }
  }

  /** Pieces written one per line give each piece's tokens in turn. */
  lemma NewlineTextTokens(pieces: seq<string>)
    requires forall k :: 0 <= k < |pieces| ==> NoLineBreak(pieces[k]) && '#' !in pieces[k]
    ensures Tokens(Join(pieces, '\n')) == PiecesTokens(pieces)
  {
    var text := Join(pieces, '\n');
    TokensByLine(text);
    assert Tokens(text) == LinesTokens(SplitLines(text));
    NewlineJoinLines(pieces);
    assert LinesTokens(SplitLines(text)) == LinesTokens(pieces);
    CommentFreeLines(pieces);
  }

  /** Pieces written on one line, separated by commas, give each piece's
      tokens in turn. */
  lemma CommaTextTokens(pieces: seq<string>)
    requires forall k :: 0 <= k < |pieces| ==> NoLineBreak(pieces[k]) && '#' !in pieces[k]
    ensures Tokens(Join(pieces, ',')) == PiecesTokens(pieces)
  {
    var text := Join(pieces, ',');
    CommaJoinTokens(pieces);
    PlainJoin(pieces);
    OneLineTokens(text);
  }

  /** A text of one line without comment gives the tokens of its comma-separated pieces. */
  lemma OneLineTokens(text: string)
    requires NoLineBreak(text) && '#' !in text
    ensures Tokens(text) == PieceTokens(text)
  {
    TokensByLine(text);
    if text == [] {
      assert SplitLines(text) == [];
      assert LinesTokens([]) == [];
      BlankPieceNoToken();
    } else {
      OneLine(text);
      assert LinesTokens(SplitLines(text)) == LineTokens(text) + LinesTokens([]);
      assert BeforeComment(text) == text;
    }
  }

  /** Writing the pieces of a schedule one per line or separated by commas
      gives the same tokens, in the same order. */
  lemma NewlinesActAsCommas(pieces: seq<string>)
    requires forall k :: 0 <= k < |pieces| ==> NoLineBreak(pieces[k]) && '#' !in pieces[k]
    ensures Tokens(Join(pieces, '\n')) == Tokens(Join(pieces, ','))
  {
    NewlineTextTokens(pieces);
    CommaTextTokens(pieces);
  }

  // ---------------------------------------------------------------------
  // Lone numbers and skipped tokens
  // ---------------------------------------------------------------------

  /** A token `format` may print for a number: not blank, no whitespace at
      either end, no separator, colon, comment sign or line break, and not
      the opening of a JSON list or object. */
  predicate NumberText(t: string) {
    Trimmed(t) && t[0] != '[' && t[0] != '{'
    && forall i :: 0 <= i < |t| ==> t[i] != ',' && t[i] != ':' && t[i] != '#' && !IsLineBreak(t[i])
  }

  /** A text that is one line, one token: its only token is itself. */
  lemma {:induction false} SingleTokenText(t: string)
    requires Trimmed(t)
    requires forall i :: 0 <= i < |t| ==> t[i] != ',' && t[i] != '#' && !IsLineBreak(t[i])
    ensures Tokens(t) == [t]
  {
    OneLine(t);
    StripKeepsTrimmed(t);
    FilterMapSingle(t, CleanedLine);
    SplitWithoutSeparator(t, ',');
    FilterMapSingle(t, StrippedToken);
  }

  /** Whenever cleaning leaves one colon-free token that parses as a number,
      the input is a constant strength, not a schedule: comments, a stray
      comma or surrounding blank lines do not change that. */
  lemma ConstantTokenIsNoSchedule(text: string, t: string, jsonLoads: JsonDecoder, parseFloat: FloatParser)
    requires Strip(text) != [] && JsonAttempt(Strip(text), jsonLoads, parseFloat) == []
    requires Tokens(Strip(text)) == [t] && ':' !in t && parseFloat(t).Some?
    ensures ParseSchedule(Some(text), jsonLoads, parseFloat) == None
  {
    JsonFallsBackToText(text, jsonLoads, parseFloat);
    assert IsConstant([t], parseFloat);
  }

  /** The special case of a text that is the number itself. */
  lemma ConstantIsNoSchedule(t: string, jsonLoads: JsonDecoder, parseFloat: FloatParser)
    requires NumberText(t) && parseFloat(t).Some?
    ensures ParseSchedule(Some(t), jsonLoads, parseFloat) == None
  {
    StripKeepsTrimmed(t);
    SingleTokenText(t);
    UnbracketedIsText(t, jsonLoads, parseFloat);
    assert IsConstant([t], parseFloat);
  }

  /** A token without a colon, or whose sides do not both parse, or whose
      duration is not positive, adds nothing: the segments around it are
      those of the other tokens. */
  lemma SkippedToken(before: seq<string>, t: string, after: seq<string>, parseFloat: FloatParser)
    requires ':' !in t
      || parseFloat(Strip(SplitOnce(t, ':')[0])).None?
      || parseFloat(Strip(SplitOnce(t, ':')[1])).None?
      || parseFloat(Strip(SplitOnce(t, ':')[0])).value <= 0.0
    ensures TextSegments(before + [t] + after, parseFloat)
         == TextSegments(before, parseFloat) + TextSegments(after, parseFloat)
  {
    assert TokenSegment(t, parseFloat).None?;
    FilterMapSnoc(before, t, token => TokenSegment(token, parseFloat));
    assert TextSegments(before + [t], parseFloat) == TextSegments(before, parseFloat);
    FilterMapAppend(before + [t], after, token => TokenSegment(token, parseFloat));
  }

  // ---------------------------------------------------------------------
  // Round trips
  // ---------------------------------------------------------------------

  /** `DURATION:STRENGTH` with both numbers printed by `format`. */
  function RenderSegment(seg: Segment, format: real -> string): string {
    format(seg.duration) + ":" + format(seg.strength)
  }

  function RenderItems(segments: seq<Segment>, format: real -> string): seq<string> {
    seq(|segments|, k requires 0 <= k < |segments| => RenderSegment(segments[k], format))
  }

  /** A schedule written in the comma form `d1:s1,d2:s2,...`. */
  function Render(segments: seq<Segment>, format: real -> string): string {
    Join(RenderItems(segments, format), ',')
  }

  /** `format` prints every number of the schedule as text that `float()` reads back. */
  predicate Prints(segments: seq<Segment>, format: real -> string, parseFloat: FloatParser) {
    forall k :: 0 <= k < |segments| ==>
      NumberText(format(segments[k].duration)) && NumberText(format(segments[k].strength))
      && parseFloat(format(segments[k].duration)) == Some(segments[k].duration)
      && parseFloat(format(segments[k].strength)) == Some(segments[k].strength)
  }

  lemma RenderedTokenParses(seg: Segment, format: real -> string, parseFloat: FloatParser)
    requires seg.duration > 0.0
    requires NumberText(format(seg.duration)) && NumberText(format(seg.strength))
    requires parseFloat(format(seg.duration)) == Some(seg.duration)
    requires parseFloat(format(seg.strength)) == Some(seg.strength)
    ensures Trimmed(RenderSegment(seg, format))
    ensures TokenSegment(RenderSegment(seg, format), parseFloat) == Some(seg)
  {
    var a, b := format(seg.duration), format(seg.strength);
    assert ':' !in a;
    assert a + ":" + b == a + [':'] + b;
    SplitOnceAfter(a, b, ':');
    StripKeepsTrimmed(a);
    StripKeepsTrimmed(b);
    assert (a + ":" + b)[0] == a[0];
  }

  lemma {:induction false} RenderedSegmentsParse(segments: seq<Segment>, format: real -> string, parseFloat: FloatParser)
    requires PositiveDurations(segments) && Prints(segments, format, parseFloat)
    ensures TextSegments(RenderItems(segments, format), parseFloat) == segments
  {
    var items := RenderItems(segments, format);
    forall k | 0 <= k < |items|
      ensures TokenSegment(items[k], parseFloat) == Some(segments[k])
    {
      RenderedTokenParses(segments[k], format, parseFloat);
    }
    FilterMapTotal(items, token => TokenSegment(token, parseFloat));
  }

  lemma {:induction false} JoinEnds(parts: seq<string>, sep: char)
    requires |parts| >= 1
    requires forall k :: 0 <= k < |parts| ==> parts[k] != []
    ensures var j := Join(parts, sep);
            |j| > 0 && j[0] == parts[0][0] && j[|j| - 1] == parts[|parts| - 1][|parts[|parts| - 1]| - 1]
  {
    if |parts| > 1 {
      var rest := Join(parts[1..], sep);
      assert Join(parts, sep) == parts[0] + [sep] + rest;
      JoinEnds(parts[1..], sep);
      assert parts[1..][|parts| - 2] == parts[|parts| - 1];
    }
  }

  /** Each rendered token is trimmed and free of commas, comment signs and
      line breaks. */
  lemma RenderedItemsPlain(segments: seq<Segment>, format: real -> string, parseFloat: FloatParser)
    requires PositiveDurations(segments) && Prints(segments, format, parseFloat)
    ensures var items := RenderItems(segments, format);
            forall k :: 0 <= k < |items| ==>
              Trimmed(items[k]) && NoLineBreak(items[k]) && '#' !in items[k] && ',' !in items[k]
  {
    var items := RenderItems(segments, format);
    forall k | 0 <= k < |items|
      ensures Trimmed(items[k]) && NoLineBreak(items[k]) && '#' !in items[k] && ',' !in items[k]
    {
      RenderedTokenParses(segments[k], format, parseFloat);
      var a, b := format(segments[k].duration), format(segments[k].strength);
      assert items[k] == a + [':'] + b;
      forall i | 0 <= i < |items[k]|
        ensures items[k][i] != ',' && items[k][i] != '#' && !IsLineBreak(items[k][i])
      {
        if i < |a| {
          assert items[k][i] == a[i];
        } else if i > |a| {
          assert items[k][i] == b[i - |a| - 1];
        }
      }
    }
  }

  /** The comma form of a schedule has exactly the rendered segments as tokens. */
  lemma RenderedTokens(segments: seq<Segment>, format: real -> string, parseFloat: FloatParser)
    requires segments != [] && PositiveDurations(segments)
    requires Prints(segments, format, parseFloat)
    ensures Strip(Render(segments, format)) == Render(segments, format)
    ensures Tokens(Render(segments, format)) == RenderItems(segments, format)
  {
    var items := RenderItems(segments, format);
    var text := Join(items, ',');
    RenderedItemsPlain(segments, format, parseFloat);
    JoinEnds(items, ',');
    StripKeepsTrimmed(text);
    PlainJoin(items);
    OneLineTokens(text);
    SplitJoin(items, ',');
    assert Split(text, ',') == items;
    StrippedTokensOfTrimmed(items);
  }

  /** A non-empty schedule with positive durations, written in the comma form
      with numbers `float()` reads back, parses to exactly that schedule. */
  lemma TextRoundTrip(segments: seq<Segment>, format: real -> string,
                      jsonLoads: JsonDecoder, parseFloat: FloatParser)
    requires segments != [] && PositiveDurations(segments)
    requires Prints(segments, format, parseFloat)
    ensures ParseSchedule(Some(Render(segments, format)), jsonLoads, parseFloat) == Some(segments)
  {
    var items := RenderItems(segments, format);
    var text := Render(segments, format);
    var a := format(segments[0].duration);
    assert NumberText(a);
    RenderedFirstChar(segments[0], format);
    assert items[0][0] == a[0];
    RenderedItemsPlain(segments, format, parseFloat);
    JoinEnds(items, ',');
    assert text[0] == a[0];
    assert text[0] != '[' && text[0] != '{';
    RenderedTokens(segments, format, parseFloat);
    UnbracketedIsText(text, jsonLoads, parseFloat);
    RenderedSchedule(segments, format, parseFloat);
  }

  lemma RenderedFirstChar(seg: Segment, format: real -> string)
    requires format(seg.duration) != []
    ensures RenderSegment(seg, format)[0] == format(seg.duration)[0]
  {
  }

  lemma RenderedSchedule(segments: seq<Segment>, format: real -> string, parseFloat: FloatParser)
    requires segments != [] && PositiveDurations(segments)
    requires Prints(segments, format, parseFloat)
    ensures TokenSchedule(RenderItems(segments, format), parseFloat) == Some(segments)
  {
    var items := RenderItems(segments, format);
    RenderedSegmentsParse(segments, format, parseFloat);
    var a := format(segments[0].duration);
    assert items[0] == a + ":" + format(segments[0].strength);
    assert items[0][|a|] == ':';
    assert !IsConstant(items, parseFloat);
  }

  lemma StrippedTokensOfTrimmed(tokens: seq<string>)
    requires forall k :: 0 <= k < |tokens| ==> Trimmed(tokens[k])
    ensures StrippedTokens(tokens) == tokens
  {
    forall k | 0 <= k < |tokens|
      ensures StrippedToken(tokens[k]) == Some(tokens[k])
    {
      StripKeepsTrimmed(tokens[k]);
    }
    FilterMapTotal(tokens, StrippedToken);
  }

  /** The decoded JSON a schedule is written as: a list of `[duration,
      strength]` pairs, or of `{"duration": .., "strength": ..}` objects. */
  function JsonItem(seg: Segment, asObject: bool): Json {
    if asObject
    then JObject(map["duration" := JNumber(seg.duration), "strength" := JNumber(seg.strength)])
    else JArray([JNumber(seg.duration), JNumber(seg.strength)])
  }

  function JsonItems(segments: seq<Segment>, asObject: bool): seq<Json> {
    seq(|segments|, k requires 0 <= k < |segments| => JsonItem(segments[k], asObject))
  }

  lemma JsonItemParses(seg: Segment, asObject: bool, parseFloat: FloatParser)
    requires seg.duration > 0.0
    ensures JsonItemSegment(JsonItem(seg, asObject), parseFloat) == Some(seg)
  {
    if asObject {
      var fields := map["duration" := JNumber(seg.duration), "strength" := JNumber(seg.strength)];
      assert Get(fields, "duration") == JNumber(seg.duration);
      assert Get(fields, "strength") == JNumber(seg.strength);
    }
  }

  lemma JsonItemsParse(segments: seq<Segment>, asObject: bool, parseFloat: FloatParser)
    requires PositiveDurations(segments)
    ensures JsonSegments(JsonItems(segments, asObject), parseFloat) == segments
  {
    var items := JsonItems(segments, asObject);
    forall k | 0 <= k < |items|
      ensures JsonItemSegment(items[k], parseFloat) == Some(segments[k])
    {
      JsonItemParses(segments[k], asObject, parseFloat);
    }
    FilterMapTotal(items, item => JsonItemSegment(item, parseFloat));
  }

  /** JSON mode on a text that opens a list and decodes to one reads the
      segments of that list. */
  lemma JsonListAttempt(s: string, items: seq<Json>, jsonLoads: JsonDecoder, parseFloat: FloatParser)
    requires s != [] && s[0] == '['
    requires jsonLoads(s) == Some(JArray(items))
    ensures JsonAttempt(s, jsonLoads, parseFloat) == JsonSegments(items, parseFloat)
  {
  }

  /** When JSON mode finds segments, they are the result. */
  lemma JsonWins(text: string, jsonLoads: JsonDecoder, parseFloat: FloatParser)
    requires Strip(text) != []
    requires JsonAttempt(Strip(text), jsonLoads, parseFloat) != []
    ensures ParseSchedule(Some(text), jsonLoads, parseFloat) == Some(JsonAttempt(Strip(text), jsonLoads, parseFloat))
  {
  }

  /** Text that decodes to a JSON list of pairs or of objects holding a
      non-empty schedule with positive durations parses to that schedule. */
  lemma JsonRoundTrip(text: string, body: string, segments: seq<Segment>, asObject: bool,
                      jsonLoads: JsonDecoder, parseFloat: FloatParser)
    requires segments != [] && PositiveDurations(segments)
    requires Strip(text) == "[" + body
    requires jsonLoads(Strip(text)) == Some(JArray(JsonItems(segments, asObject)))
    ensures ParseSchedule(Some(text), jsonLoads, parseFloat) == Some(segments)
  {
    var s := Strip(text);
    assert s[0] == '[';
    JsonListAttempt(s, JsonItems(segments, asObject), jsonLoads, parseFloat);
    JsonItemsParse(segments, asObject, parseFloat);
    JsonWins(text, jsonLoads, parseFloat);
  }
}
