/**
 Server-sent-event framing: the resumable C++ scanner (packages/sdk-cpp/src/sse_parser.cpp),
 the scan-from-zero reader of the TypeScript SDK (packages/sdk/src/sse.ts) and the frame
 parser both share (packages/sdk/src/events.ts).
 */
module SseFraming {
  import opened Common

  type Text = seq<char>

  const MAX_BUFFER: nat := 1024 * 1024

  // ------------------------------------------------------------------
  // Delimiters
  // ------------------------------------------------------------------

  /** The four strings the pattern /\r?\n\r?\n/ matches. */
  predicate IsDelimiter(d: Text) {
    d == ['\n', '\n'] || d == ['\r', '\n', '\n'] || d == ['\n', '\r', '\n'] || d == ['\r', '\n', '\r', '\n']
  }

  predicate DelimiterAt(buffer: Text, start: nat, end: nat) {
    start <= end <= |buffer| && IsDelimiter(buffer[start..end])
  }

  /** The end of the line ending that begins at `i`, a return only counting before a newline, or 0. */
  function LineEndAt(buffer: Text, i: nat): nat
    requires i < |buffer|
  {
    if buffer[i] == '\r' then (if i + 1 < |buffer| && buffer[i + 1] == '\n' then i + 2 else 0)
    else if buffer[i] == '\n' then i + 1
    else 0
  }

  /** A delimiter is two line endings in a row. */
  lemma TwoLineEnds(buffer: Text, i: nat, e: nat)
    requires i < |buffer|
    ensures
      var j := LineEndAt(buffer, i);
      DelimiterAt(buffer, i, e) <==> j != 0 && j < |buffer| && e != 0 && LineEndAt(buffer, j) == e
  {
    if i <= e <= |buffer| {
      var d := buffer[i..e];
      assert forall k :: 0 <= k < e - i ==> d[k] == buffer[i + k];
      assert |d| == 2 ==> d == [buffer[i], buffer[i + 1]];
      assert |d| == 3 ==> d == [buffer[i], buffer[i + 1], buffer[i + 2]];
      assert |d| == 4 ==> d == [buffer[i], buffer[i + 1], buffer[i + 2], buffer[i + 3]];
    }
  }

  lemma EveryTwoLineEnds(buffer: Text, i: nat)
    requires i < |buffer|
    ensures
      var j := LineEndAt(buffer, i);
      forall e: nat :: DelimiterAt(buffer, i, e) <==> j != 0 && j < |buffer| && e != 0 && LineEndAt(buffer, j) == e
  {
    forall e: nat
      ensures
        var j := LineEndAt(buffer, i);
        DelimiterAt(buffer, i, e) <==> j != 0 && j < |buffer| && e != 0 && LineEndAt(buffer, j) == e
    {
      TwoLineEnds(buffer, i, e);
    }
  }

  /** `end` of the delimiter that begins at `i`, or 0. */
  function MatchDelimiterAt(buffer: Text, i: nat): (end: nat)
    requires i < |buffer|
    ensures end != 0 ==> DelimiterAt(buffer, i, end)
    ensures forall e: nat :: DelimiterAt(buffer, i, e) ==> e == end
  {
    EveryTwoLineEnds(buffer, i);
    var j := LineEndAt(buffer, i);
    if j == 0 || |buffer| <= j then 0 else LineEndAt(buffer, j)
  }

  ghost predicate NoDelimiterIn(buffer: Text, from: nat, to: nat) {
    forall start: nat, end: nat :: from <= start < to ==> !DelimiterAt(buffer, start, end)
  }

  // ------------------------------------------------------------------
  // The simple form: rescan from zero after every match
  // ------------------------------------------------------------------

  /** The first delimiter that begins at or after `from`. */
  function FirstDelimiter(buffer: Text, from: nat): (found: Option<(nat, nat)>)
    requires from <= |buffer|
    ensures found.Some? ==> from <= found.value.0 < found.value.1 <= |buffer|
    ensures found.Some? ==> DelimiterAt(buffer, found.value.0, found.value.1) && NoDelimiterIn(buffer, from, found.value.0)
    ensures found.None? ==> NoDelimiterIn(buffer, from, |buffer| + 1)
    decreases |buffer| - from
  {
    if from == |buffer| then None
    else if MatchDelimiterAt(buffer, from) != 0 then Some((from, MatchDelimiterAt(buffer, from)))
    else FirstDelimiter(buffer, from + 1)
  }

  datatype Split = Split(blocks: seq<Text>, rest: Text)

  /** The blocks before each delimiter of `buffer`, and what follows the last one. */
  function Extract(buffer: Text): (s: Split)
    ensures |s.rest| <= |buffer|
    decreases |buffer|
  {
    match FirstDelimiter(buffer, 0)
    case None => Split([], buffer)
    case Some((start, end)) =>
      var more := Extract(buffer[end..]);
      Split([buffer[..start]] + more.blocks, more.rest)
  }

  /** Longer input never moves a delimiter that is already there. */
  lemma FirstDelimiterIsStable(a: Text, b: Text)
    requires FirstDelimiter(a, 0).Some?
    ensures FirstDelimiter(a + b, 0) == FirstDelimiter(a, 0)
  {
    var (start, end) := FirstDelimiter(a, 0).value;
    assert (a + b)[start..end] == a[start..end];
    assert DelimiterAt(a + b, start, end);
    var (s, e) := FirstDelimiter(a + b, 0).value;
    if s < start {
      EarlierDelimiterIsInside(a, b, s, e, start, end);
    }
    assert MatchDelimiterAt(a + b, start) == end;
  }

  lemma SliceOfSlice(text: Text, s: nat, e: nat, i: nat, j: nat)
    requires s <= e <= |text| && i <= j <= e - s
    ensures text[s..e][i..j] == text[s + i..s + j]
  {
    var inner, direct := text[s..e][i..j], text[s + i..s + j];
    forall k | 0 <= k < j - i
      ensures inner[k] == direct[k]
    {
      assert inner[k] == text[s..e][i + k] == text[s + (i + k)];
    }
    assert inner == direct;
  }

  /** A delimiter that begins before another one cannot end after it. */
  lemma EarlierDelimiterIsInside(a: Text, b: Text, s: nat, e: nat, start: nat, end: nat)
    requires s < start && DelimiterAt(a, start, end) && DelimiterAt(a + b, s, e)
    ensures DelimiterAt(a, s, e)
  {
    var d := (a + b)[s..e];
    if |a| < e {
      assert (a + b)[start..end] == a[start..end];
      SliceOfSlice(a + b, s, e, start - s, end - s);
      NoInnerDelimiter(d, start - s, end - s);
    } else {
      assert d == a[s..e];
    }
  }

  lemma NoInnerDelimiter(d: Text, i: nat, j: nat)
    requires IsDelimiter(d) && 0 < i <= j < |d|
    ensures !IsDelimiter(d[i..j])
  {
    var w := d[i..j];
    if 2 <= |w| {
      assert w[0] == d[i] && w[1] == d[i + 1] && w[|w| - 1] == d[j - 1];
    }
  }

  lemma ExtractStep(buffer: Text, start: nat, end: nat)
    requires FirstDelimiter(buffer, 0) == Some((start, end))
    ensures Extract(buffer) == Prepend([buffer[..start]], Extract(buffer[end..]))
    ensures Extract(buffer).blocks == [buffer[..start]] + Extract(buffer[end..]).blocks
    ensures Extract(buffer).rest == Extract(buffer[end..]).rest
  {
  }

  /** Carrying the blocks found so far into a later extraction. */
  function Prepend(blocks: seq<Text>, later: Split): Split {
    Split(blocks + later.blocks, later.rest)
  }

  /** Extraction can be resumed from the retained text alone. */
  lemma {:induction false} ExtractAppend(a: Text, b: Text)
    ensures Extract(a + b) == Prepend(Extract(a).blocks, Extract(Extract(a).rest + b))
    decreases |a|
  {
    var found := FirstDelimiter(a, 0);
    hide *;
    if found == None {
      ExtractNothing(a);
      assert Prepend([], Extract(a + b)) == Extract(a + b) by {
        PrependNothing(Extract(a + b));
      }
    } else {
      var (start, end) := found.value;
      FirstDelimiterIsStable(a, b);
      ExtractStep(a, start, end);
      ExtractStep(a + b, start, end);
      assert (a + b)[..start] == a[..start] && (a + b)[end..] == a[end..] + b;
      ExtractAppend(a[end..], b);
      PrependTwice([a[..start]], Extract(a[end..]).blocks, Extract(Extract(a[end..]).rest + b));
    }
  }

  lemma ExtractNothing(buffer: Text)
    requires FirstDelimiter(buffer, 0) == None
    ensures Extract(buffer) == Split([], buffer)
  {
  }

  lemma PrependNothing(later: Split)
    ensures Prepend([], later) == later
  {
    assert [] + later.blocks == later.blocks;
  }

  lemma PrependTwice(first: seq<Text>, second: seq<Text>, later: Split)
    ensures Prepend(first, Prepend(second, later)) == Prepend(first + second, later)
  {
    assert first + (second + later.blocks) == first + second + later.blocks;
  }

  lemma {:induction false} RestHasNoDelimiter(buffer: Text)
    ensures FirstDelimiter(Extract(buffer).rest, 0) == None
    decreases |buffer|
  {
    if FirstDelimiter(buffer, 0).Some? {
      RestHasNoDelimiter(buffer[FirstDelimiter(buffer, 0).value.1..]);
    }
  }

  // ------------------------------------------------------------------
  // Frames
  // ------------------------------------------------------------------

  datatype Frame = Frame(event: Option<Text>, data: Option<Text>, id: Option<Text>)

  const EMPTY_FRAME := Frame(None, None, None)

  function StartsWith(line: Text, prefix: Text): bool {
    prefix <= line
  }

  /** The text cut at every newline; always at least one line. */
  function Lines(block: Text): (lines: seq<Text>)
    ensures lines != []
  {
    if block == [] then [[]]
    else if block[0] == '\n' then [[]] + Lines(block[1..])
    else var rest := Lines(block[1..]); [[block[0]] + rest[0]] + rest[1..]
  }

  function StripReturn(line: Text): Text {
    if line != [] && line[|line| - 1] == '\r' then line[..|line| - 1] else line
  }

  predicate IsContent(line: Text) {
    line != [] && line[0] != ':'
  }

  /** One content line read into the frame: a repeated field is replaced, except that data lines join. */
  function ReadLine(frame: Frame, line: Text): Frame {
    if StartsWith(line, "event: ") then frame.(event := Some(line[7..]))
    else if StartsWith(line, "data: ") then
      frame.(data := Some(if frame.data.Some? then frame.data.value + ['\n'] + line[6..] else line[6..]))
    else if StartsWith(line, "id: ") then frame.(id := Some(line[4..]))
    else frame
  }

  function ReadLines(lines: seq<Text>): Frame {
    if lines == [] then EMPTY_FRAME
    else
      var line := StripReturn(lines[|lines| - 1]);
      if IsContent(line) then ReadLine(ReadLines(lines[..|lines| - 1]), line) else ReadLines(lines[..|lines| - 1])
  }

  predicate HasContent(lines: seq<Text>) {
    exists line :: line in lines && IsContent(StripReturn(line))
  }

  function ParseFrame(block: Text): Option<Frame> {
    if HasContent(Lines(block)) then Some(ReadLines(Lines(block))) else None
  }

  /** The frames of the blocks that hold any content line, in order. */
  function ParseFrames(blocks: seq<Text>): seq<Frame> {
    if blocks == [] then []
    else
      var init := ParseFrames(blocks[..|blocks| - 1]);
      match ParseFrame(blocks[|blocks| - 1])
      case None => init
      case Some(frame) => init + [frame]
  }

  lemma {:induction false} ParseFramesAppend(a: seq<Text>, b: seq<Text>)
    ensures ParseFrames(a + b) == ParseFrames(a) + ParseFrames(b)
  {
    if b == [] {
      assert a + b == a;
    } else {
      assert (a + b)[..|a + b| - 1] == a + b[..|b| - 1];
      ParseFramesAppend(a, b[..|b| - 1]);
    }
  }

  /** The index of the first newline, or the length when there is none. */
  method FindNewline(text: Text) returns (newline: nat)
    ensures newline <= |text| && '\n' !in text[..newline]
    ensures newline < |text| ==> text[newline] == '\n'
  {
    newline := 0;
    while newline < |text| && text[newline] != '\n'
      invariant newline <= |text|
      invariant '\n' !in text[..newline]
    {
      newline := newline + 1;
    }
  }

  lemma OneMoreLine(lines: seq<Text>, raw: Text)
    ensures HasContent(lines + [raw]) <==> HasContent(lines) || IsContent(StripReturn(raw))
    ensures ReadLines(lines + [raw])
         == if IsContent(StripReturn(raw)) then ReadLine(ReadLines(lines), StripReturn(raw)) else ReadLines(lines)
  {
    assert (lines + [raw])[..|lines + [raw]| - 1] == lines;
    if IsContent(StripReturn(raw)) {
      assert raw in lines + [raw];
    } else if HasContent(lines) {
      var line :| line in lines && IsContent(StripReturn(line));
      assert line in lines + [raw];
    }
  }

  /** The C++ loop has read the lines `done` of `block` and `remaining` is left. */
  ghost predicate ReadSoFar(block: Text, done: seq<Text>, remaining: Text, result: Frame, sawNonComment: bool) {
    && Lines(block) == done + Lines(remaining)
    && result == ReadLines(done)
    && (sawNonComment <==> HasContent(done))
  }

  lemma ReadStart(block: Text)
    ensures ReadSoFar(block, [], block, EMPTY_FRAME, false)
  {
    assert Lines(block) == [] + Lines(block);
  }

  lemma ReadOne(block: Text, done: seq<Text>, remaining: Text, result: Frame, saw: bool, newline: nat, result': Frame, saw': bool)
    requires ReadSoFar(block, done, remaining, result, saw)
    requires newline <= |remaining| && '\n' !in remaining[..newline]
    requires newline < |remaining| ==> remaining[newline] == '\n'
    requires var line := StripReturn(remaining[..newline]);
             if IsContent(line) then saw' && result' == ReadLine(result, line) else saw' == saw && result' == result
    ensures newline < |remaining| ==> ReadSoFar(block, done + [remaining[..newline]], remaining[newline + 1..], result', saw')
    ensures newline == |remaining| ==> ParseFrame(block) == if saw' then Some(result') else None
  {
    var raw := remaining[..newline];
    hide Lines, ReadLines, HasContent, ReadLine, IsContent, StripReturn;
    LinesStep(remaining, newline);
    OneMoreLine(done, raw);
    if newline < |remaining| {
      assert done + ([raw] + Lines(remaining[newline + 1..])) == (done + [raw]) + Lines(remaining[newline + 1..]);
    } else {
      assert raw == remaining;
    }
  }

  /** The C++ form: finds each newline in what is left of the block. */
  method ParseSseFrame(block: Text) returns (frame: Option<Frame>)
    ensures frame == ParseFrame(block)
  {
    hide *;
    var result := EMPTY_FRAME;
    var sawNonComment := false;
    var remaining := block;
    ghost var done: seq<Text> := [];
    ReadStart(block);
    while true
      invariant ReadSoFar(block, done, remaining, result, sawNonComment)
      decreases |remaining|
    {
      var newline := FindNewline(remaining);
      var line := StripReturn(remaining[..newline]);
      ghost var was, had := result, sawNonComment;
      if IsContent(line) {
        sawNonComment := true;
        result := ReadLine(result, line);
      }
      ReadOne(block, done, remaining, was, had, newline, result, sawNonComment);
      if newline == |remaining| {
        break;
      }
      done := done + [remaining[..newline]];
      remaining := remaining[newline + 1..];
    }
    frame := if sawNonComment then Some(result) else None;
  }

  lemma {:induction false} LinesStep(block: Text, newline: nat)
    requires newline <= |block| && '\n' !in block[..newline]
    requires newline < |block| ==> block[newline] == '\n'
    ensures newline == |block| ==> Lines(block) == [block]
    ensures newline < |block| ==> Lines(block) == [block[..newline]] + Lines(block[newline + 1..])
  {
    if 0 < newline {
      assert block[0] in block[..newline];
      assert block[1..][..newline - 1] == block[1..newline];
      LinesStep(block[1..], newline - 1);
      assert newline == |block| ==> [block[0]] + block[1..] == block;
      assert newline < |block| ==> [block[0]] + block[1..newline] == block[..newline] && block[1..][newline..] == block[newline + 1..];
    }
  }

  /** The TypeScript form: splits first, then loops over the raw lines. */
  method ParseSSEFrame(block: Text) returns (frame: Option<Frame>)
    ensures frame == ParseFrame(block)
  {
    var result := EMPTY_FRAME;
    var sawNonComment := false;
    var lines := Lines(block);
    for i := 0 to |lines|
      invariant result == ReadLines(lines[..i])
      invariant sawNonComment <==> HasContent(lines[..i])
    {
      assert lines[..i + 1] == lines[..i] + [lines[i]];
      OneMoreLine(lines[..i], lines[i]);
      var line := StripReturn(lines[i]);
      if StartsWith(line, ":") || |line| == 0 {
        continue;
      }
      sawNonComment := true;
      result := ReadLine(result, line);
    }
    assert lines[..|lines|] == lines;
    frame := if sawNonComment then Some(result) else None;
  }

  // ------------------------------------------------------------------
  // The resumable scanner
  // ------------------------------------------------------------------

  /** Under no continuation of the stream does a delimiter begin in `buffer` before `from`. */
  ghost predicate NothingBefore(buffer: Text, from: nat) {
    forall more: Text, start: nat, end: nat :: start < from ==> !DelimiterAt(buffer + more, start, end)
  }

  datatype FeedStatus = Fed | Overflow

  class SseParser {
    var buffer: Text
    var scanFrom: nat
    var overflowed: bool

    ghost predicate Valid()
      reads this
    {
      && |buffer| <= MAX_BUFFER
      && scanFrom <= |buffer|
      && NothingBefore(buffer, scanFrom)
      && FirstDelimiter(buffer, 0) == None
      && (overflowed ==> buffer == [])
    }

    constructor ()
      ensures Valid() && buffer == [] && !overflowed
    {
      buffer, scanFrom, overflowed := [], 0, false;
    }

    method Feed(chunk: Text) returns (status: FeedStatus, frames: seq<Frame>)
      requires Valid()
      modifies this
      ensures Valid()
      ensures status == Overflow <==> old(overflowed) || MAX_BUFFER < |old(buffer)| + |chunk|
      ensures overflowed == (status == Overflow)
      ensures status == Overflow ==> frames == []
      ensures status == Fed ==> frames == ParseFrames(Extract(old(buffer) + chunk).blocks)
      ensures status == Fed ==> buffer == Extract(old(buffer) + chunk).rest
    {
      frames := [];
      if overflowed {
        return Overflow, [];
      }
      buffer := buffer + chunk;
      if MAX_BUFFER < |buffer| {
        overflowed := true;
        buffer := [];
        scanFrom := 0;
        return Overflow, [];
      }
      ghost var input := buffer;
      ghost var blocks: seq<Text> := [];
      var search: nat := scanFrom;
      StartScan(old(buffer), chunk, scanFrom);
      PrependNothing(Extract(input));
      while search < |buffer|
        invariant search <= |buffer| <= MAX_BUFFER
        invariant !overflowed
        invariant NoDelimiterIn(buffer, 0, search)
        invariant Extract(input) == Prepend(blocks, Extract(buffer)) && frames == ParseFrames(blocks)
        decreases |buffer|, |buffer| - search
      {
        hide *;
        var end := MatchDelimiterAt(buffer, search);
        ScanOne(buffer, search, end);
        if end == 0 {
          search := search + 1;
          continue;
        }
        var frame := ParseSseFrame(buffer[..search]);
        PrependTwice(blocks, [buffer[..search]], Extract(buffer[end..]));
        ParseOneMore(blocks, buffer[..search]);
        blocks := blocks + [buffer[..search]];
        if frame.Some? {
          frames := frames + [frame.value];
        }
        buffer := buffer[end..];
        search := 0;
      }
      scanFrom := if 3 <= |buffer| then |buffer| - 3 else 0;
      DelimitersAreShort(buffer);
      hide Extract, NoDelimiterIn, NothingBefore, FirstDelimiter, ParseFrames;
      assert blocks + [] == blocks;
      status := Fed;
    }
  }

  lemma StartScan(buffer: Text, chunk: Text, scanFrom: nat)
    requires NothingBefore(buffer, scanFrom)
    ensures NoDelimiterIn(buffer + chunk, 0, scanFrom)
  {
  }

  lemma ParseOneMore(blocks: seq<Text>, block: Text)
    ensures ParseFrames(blocks + [block])
         == ParseFrames(blocks) + (match ParseFrame(block) case None => [] case Some(frame) => [frame])
  {
    assert (blocks + [block])[..|blocks|] == blocks;
  }

  /** One position looked at: it either moves the search on or completes a block. */
  lemma ScanOne(buffer: Text, search: nat, end: nat)
    requires search < |buffer| && NoDelimiterIn(buffer, 0, search)
    requires end == MatchDelimiterAt(buffer, search)
    ensures end == 0 ==> NoDelimiterIn(buffer, 0, search + 1)
    ensures end != 0 ==> end <= |buffer| && NoDelimiterIn(buffer[end..], 0, 0) && search < end
    ensures end != 0 ==> Extract(buffer) == Prepend([buffer[..search]], Extract(buffer[end..]))
  {
    if end != 0 {
      FirstIsHere(buffer, search, end);
    }
  }

  lemma FirstIsHere(buffer: Text, start: nat, end: nat)
    requires start < |buffer| && NoDelimiterIn(buffer, 0, start)
    requires end == MatchDelimiterAt(buffer, start) && end != 0
    ensures FirstDelimiter(buffer, 0) == Some((start, end))
    ensures Extract(buffer) == Prepend([buffer[..start]], Extract(buffer[end..]))
  {
    assert DelimiterAt(buffer, start, end);
  }

  /** A delimiter holds at most four characters, so one that is still incomplete begins in the last three. */
  lemma DelimitersAreShort(buffer: Text)
    requires NoDelimiterIn(buffer, 0, |buffer|)
    ensures NothingBefore(buffer, if 3 <= |buffer| then |buffer| - 3 else 0)
    ensures FirstDelimiter(buffer, 0) == None && Extract(buffer) == Split([], buffer)
  {
    forall more: Text, start: nat, end: nat | start < |buffer| - 3 ensures !DelimiterAt(buffer + more, start, end) {
      if DelimiterAt(buffer + more, start, end) {
        DelimiterEndsWithin(buffer, more, start, end);
      }
    }
  }

  lemma DelimiterEndsWithin(buffer: Text, more: Text, start: nat, end: nat)
    requires start + 3 < |buffer| && DelimiterAt(buffer + more, start, end)
    ensures DelimiterAt(buffer, start, end)
  {
    assert |(buffer + more)[start..end]| <= 4;
    assert (buffer + more)[start..end] == buffer[start..end];
  }

  // ------------------------------------------------------------------
  // Whole streams
  // ------------------------------------------------------------------

  function FramesOf(stream: Text): seq<Frame> {
    ParseFrames(Extract(stream).blocks)
  }

  datatype Outcome = Outcome(overflow: bool, frames: seq<Frame>)

  /** One more read after `stream`: a read that takes the retained text past the cap ends it all. */
  function ReadChunk(before: Outcome, stream: Text, chunk: Text): Outcome {
    if before.overflow then before
    else if MAX_BUFFER < |Extract(stream).rest| + |chunk| then Outcome(true, before.frames)
    else Outcome(false, FramesOf(stream + chunk))
  }

  /** Reading `chunks` in order. */
  function Reading(chunks: seq<Text>): Outcome {
    if chunks == [] then Outcome(false, [])
    else
      var init := chunks[..|chunks| - 1];
      ReadChunk(Reading(init), Flatten(init), chunks[|chunks| - 1])
  }

  lemma FramesAppend(a: Text, b: Text)
    ensures FramesOf(a + b) == FramesOf(a) + ParseFrames(Extract(Extract(a).rest + b).blocks)
  {
    ExtractAppend(a, b);
    ParseFramesAppend(Extract(a).blocks, Extract(Extract(a).rest + b).blocks);
  }

  lemma ReadingStep(chunks: seq<Text>, i: nat)
    requires i < |chunks|
    ensures Flatten(chunks[..i + 1]) == Flatten(chunks[..i]) + chunks[i]
    ensures Reading(chunks[..i + 1]) == ReadChunk(Reading(chunks[..i]), Flatten(chunks[..i]), chunks[i])
  {
    assert chunks[..i + 1][..i] == chunks[..i];
  }

  lemma {:induction false} ReadingIsFraming(chunks: seq<Text>)
    ensures !Reading(chunks).overflow ==> Reading(chunks).frames == FramesOf(Flatten(chunks))
  {
    if chunks != [] {
      ReadingIsFraming(chunks[..|chunks| - 1]);
    } else {
      assert Extract([]) == Split([], []);
    }
  }

  /** How a stream is cut into reads never changes its frames. */
  lemma ChunkingIsIrrelevant(chunks: seq<Text>, other: seq<Text>)
    requires Flatten(chunks) == Flatten(other)
    requires !Reading(chunks).overflow && !Reading(other).overflow
    ensures Reading(chunks) == Reading(other)
  {
    ReadingIsFraming(chunks);
    ReadingIsFraming(other);
  }

  /** A fresh C++ parser fed every chunk. */
  method FeedAll(chunks: seq<Text>) returns (outcome: Outcome, retained: Text)
    ensures outcome == Reading(chunks)
    ensures !outcome.overflow ==> retained == Extract(Flatten(chunks)).rest
  {
    var parser := new SseParser();
    outcome := Outcome(false, []);
    assert Extract([]) == Split([], []);
    for i := 0 to |chunks|
      invariant fresh(parser) && parser.Valid()
      invariant outcome == Reading(chunks[..i]) && parser.overflowed == outcome.overflow
      invariant !outcome.overflow ==> parser.buffer == Extract(Flatten(chunks[..i])).rest
    {
      ReadingStep(chunks, i);
      ReadingIsFraming(chunks[..i]);
      ExtractAppend(Flatten(chunks[..i]), chunks[i]);
      FramesAppend(Flatten(chunks[..i]), chunks[i]);
      hide Reading, Extract, Flatten, FramesOf, ParseFrames;
      var status, frames := parser.Feed(chunks[i]);
      outcome := Outcome(status == Overflow, outcome.frames + frames);
      assert outcome.overflow ==> frames == [] && outcome.frames == Reading(chunks[..i]).frames;
    }
    assert chunks[..|chunks|] == chunks;
    retained := parser.buffer;
  }

  datatype Ending = BodyEnded | ConsumerClosed | StreamOverflow

  /**
   The TypeScript reader over a body that delivers `chunks`. The consumer closes from inside
   the handler of its `closeAfter`-th frame, or never.
   */
  method ReadSSEFrames(chunks: seq<Text>, closeAfter: Option<nat>) returns (ending: Ending, frames: seq<Frame>)
    ensures ending == BodyEnded ==> Reading(chunks) == Outcome(false, frames)
    ensures ending == StreamOverflow ==> Reading(chunks) == Outcome(true, frames)
    ensures ending == ConsumerClosed ==> closeAfter == Some(|frames|) && frames <= FramesOf(Flatten(chunks))
    ensures closeAfter.Some? ==> |frames| <= closeAfter.value
  {
    hide Reading, Extract, Flatten, FramesOf, ParseFrames;
    frames := [];
    var buffer: Text := [];
    ReaderStart(chunks);
    for i := 0 to |chunks|
      invariant buffer == Extract(Flatten(chunks[..i])).rest
      invariant Reading(chunks[..i]) == Outcome(false, frames) && frames == FramesOf(Flatten(chunks[..i]))
      invariant closeAfter.Some? ==> |frames| <= closeAfter.value
    {
      if closeAfter == Some(|frames|) {
        FramesOfPrefix(chunks, i);
        return ConsumerClosed, frames;
      }
      ReaderStep(chunks, i, buffer, frames);
      if MAX_BUFFER < |buffer| + |chunks[i]| {
        return StreamOverflow, frames;
      }
      var closed;
      buffer, frames, closed := DrainBuffer(buffer + chunks[i], frames, closeAfter);
      if closed {
        FramesOfPrefix(chunks, i + 1);
        return ConsumerClosed, frames;
      }
    }
    assert chunks[..|chunks|] == chunks;
    return BodyEnded, frames;
  }

  lemma ReaderStart(chunks: seq<Text>)
    ensures Extract(Flatten(chunks[..0])).rest == [] && Reading(chunks[..0]) == Outcome(false, [])
    ensures FramesOf(Flatten(chunks[..0])) == []
  {
    assert chunks[..0] == [];
    assert Extract([]) == Split([], []);
  }

  /** One chunk read with room for it adds the frames of its complete blocks; without room it ends the reading. */
  lemma ReaderStep(chunks: seq<Text>, i: nat, buffer: Text, frames: seq<Frame>)
    requires i < |chunks| && buffer == Extract(Flatten(chunks[..i])).rest
    requires Reading(chunks[..i]) == Outcome(false, frames) && frames == FramesOf(Flatten(chunks[..i]))
    ensures
      var split := Extract(buffer + chunks[i]);
      if MAX_BUFFER < |buffer| + |chunks[i]| then Reading(chunks) == Outcome(true, frames)
      else
        && Reading(chunks[..i + 1]) == Outcome(false, frames + ParseFrames(split.blocks))
        && FramesOf(Flatten(chunks[..i + 1])) == frames + ParseFrames(split.blocks)
        && Extract(Flatten(chunks[..i + 1])).rest == split.rest
  {
    ReadingStep(chunks, i);
    var before := Flatten(chunks[..i]);
    assert chunks[..i + 1][..i] == chunks[..i];
    ExtractAppend(before, chunks[i]);
    FramesAppend(before, chunks[i]);
    if MAX_BUFFER < |buffer| + |chunks[i]| {
      OverflowIsFinal(chunks, i + 1);
    }
  }

  /** The inner loop: every complete block of the buffer, until the consumer closes. */
  method DrainBuffer(input: Text, had: seq<Frame>, closeAfter: Option<nat>)
    returns (buffer: Text, frames: seq<Frame>, closed: bool)
    requires closeAfter.Some? ==> |had| < closeAfter.value
    ensures !closed ==> buffer == Extract(input).rest && frames == had + ParseFrames(Extract(input).blocks)
    ensures closed ==> closeAfter == Some(|frames|) && frames <= had + ParseFrames(Extract(input).blocks)
    ensures closeAfter.Some? ==> |frames| <= closeAfter.value && (!closed ==> |frames| < closeAfter.value)
  {
    hide *;
    buffer, frames, closed := input, had, false;
    ghost var blocks: seq<Text> := [];
    DrainNone(input, had);
    while FirstDelimiter(buffer, 0) != None
      invariant Extract(input) == Prepend(blocks, Extract(buffer)) && frames == had + ParseFrames(blocks)
      invariant closeAfter.Some? ==> |frames| < closeAfter.value
      decreases |buffer|
    {
      var (start, end) := FirstDelimiter(buffer, 0).value;
      var frame := ParseSSEFrame(buffer[..start]);
      DrainOne(input, had, blocks, buffer, start, end);
      blocks := blocks + [buffer[..start]];
      buffer := buffer[end..];
      if frame.Some? {
        frames := frames + [frame.value];
        if closeAfter == Some(|frames|) {
          return buffer, frames, true;
        }
      }
    }
    DrainAll(input, blocks, buffer);
  }

  lemma DrainNone(input: Text, had: seq<Frame>)
    ensures Extract(input) == Prepend([], Extract(input)) && had == had + ParseFrames([])
  {
    PrependNothing(Extract(input));
  }

  lemma DrainAll(input: Text, blocks: seq<Text>, buffer: Text)
    requires Extract(input) == Prepend(blocks, Extract(buffer)) && FirstDelimiter(buffer, 0) == None
    ensures Extract(input) == Split(blocks, buffer)
  {
    ExtractNothing(buffer);
    assert blocks + [] == blocks;
  }

  lemma DrainOne(input: Text, had: seq<Frame>, blocks: seq<Text>, buffer: Text, start: nat, end: nat)
    requires Extract(input) == Prepend(blocks, Extract(buffer))
    requires FirstDelimiter(buffer, 0) == Some((start, end))
    ensures Extract(input) == Prepend(blocks + [buffer[..start]], Extract(buffer[end..]))
    ensures had + ParseFrames(blocks + [buffer[..start]])
         == had + ParseFrames(blocks) + (match ParseFrame(buffer[..start]) case None => [] case Some(frame) => [frame])
    ensures had + ParseFrames(blocks + [buffer[..start]]) <= had + ParseFrames(Extract(input).blocks)
  {
    hide *;
    var block := buffer[..start];
    ExtractStep(buffer, start, end);
    PrependTwice(blocks, [block], Extract(buffer[end..]));
    ParseOneMore(blocks, block);
    ParsePrefix(blocks + [block], Extract(buffer[end..]));
  }

  lemma ParsePrefix(blocks: seq<Text>, later: Split)
    ensures ParseFrames(blocks) <= ParseFrames(Prepend(blocks, later).blocks)
  {
    ParseFramesAppend(blocks, later.blocks);
  }

  lemma {:induction false} FramesOfPrefix(chunks: seq<Text>, i: nat)
    requires i <= |chunks|
    ensures FramesOf(Flatten(chunks[..i])) <= FramesOf(Flatten(chunks))
    decreases |chunks| - i
  {
    if i < |chunks| {
      FramesOfPrefix(chunks, i + 1);
      assert chunks[..i + 1][..i] == chunks[..i];
      FramesAppend(Flatten(chunks[..i]), chunks[i]);
    } else {
      assert chunks[..i] == chunks;
    }
  }

  lemma {:induction false} OverflowIsFinal(chunks: seq<Text>, i: nat)
    requires i <= |chunks| && Reading(chunks[..i]).overflow
    ensures Reading(chunks) == Reading(chunks[..i])
    decreases |chunks| - i
  {
    if i < |chunks| {
      ReadingStep(chunks, i);
      OverflowIsFinal(chunks, i + 1);
    } else {
      assert chunks[..i] == chunks;
    }
  }

  // ------------------------------------------------------------------
  // Printing and reading back
  // ------------------------------------------------------------------

  function Eol(crlf: bool): Text {
    if crlf then ['\r', '\n'] else ['\n']
  }

  function Join(lines: seq<Text>, eol: Text): Text
    requires lines != []
  {
    if |lines| == 1 then lines[0] else lines[0] + eol + Join(lines[1..], eol)
  }

  function Prefixed(prefix: Text, lines: seq<Text>): (out: seq<Text>)
    ensures |out| == |lines|
    ensures forall i :: 0 <= i < |lines| ==> out[i] == prefix + lines[i]
  {
    seq(|lines|, i requires 0 <= i < |lines| => prefix + lines[i])
  }

  function FrameLines(frame: Frame): seq<Text> {
    (if frame.event.Some? then ["event: " + frame.event.value] else [])
    + (if frame.data.Some? then Prefixed("data: ", Lines(frame.data.value)) else [])
    + (if frame.id.Some? then ["id: " + frame.id.value] else [])
  }

  function PrintFrame(frame: Frame, crlf: bool): Text
    requires frame != EMPTY_FRAME
  {
    FrameLinesExist(frame);
    Join(FrameLines(frame), Eol(crlf)) + Eol(crlf) + Eol(crlf)
  }

  lemma FrameLinesExist(frame: Frame)
    requires frame != EMPTY_FRAME
    ensures FrameLines(frame) != []
  {
  }

  predicate SingleLine(text: Text) {
    '\n' !in text && (text != [] ==> text[|text| - 1] != '\r')
  }

  /** No field holds a newline, except that data may hold several lines; no line ends in a return. */
  predicate Printable(frame: Frame) {
    && frame != EMPTY_FRAME
    && (frame.event.Some? ==> SingleLine(frame.event.value))
    && (frame.id.Some? ==> SingleLine(frame.id.value))
    && (frame.data.Some? ==> forall line :: line in Lines(frame.data.value) ==> SingleLine(line))
  }

  /** A printed field line: it starts a field name and holds no line ending. */
  ghost predicate FieldLine(line: Text) {
    line != [] && line[0] in ['e', 'd', 'i'] && SingleLine(line)
  }

  lemma DelimiterBehind(front: Text, more: Text, start: nat, end: nat)
    requires |front| <= start && DelimiterAt(front + more, start, end)
    ensures DelimiterAt(more, start - |front|, end - |front|)
  {
    assert (front + more)[start..end] == more[start - |front|..end - |front|];
  }

  lemma {:induction false} NoDelimiterInside(lines: seq<Text>, crlf: bool, start: nat, end: nat)
    requires lines != [] && forall line :: line in lines ==> FieldLine(line)
    requires start < |Join(lines, Eol(crlf))|
    ensures !DelimiterAt(Join(lines, Eol(crlf)) + Eol(crlf) + Eol(crlf), start, end)
  {
    var eol := Eol(crlf);
    var text := Join(lines, eol) + eol + eol;
    var line := lines[0];
    assert line in lines;
    if |lines| == 1 {
      assert text == line + (eol + eol);
      NoDelimiterInLine(line, eol + eol, start, end);
    } else {
      var more := Join(lines[1..], eol) + eol + eol;
      assert lines[1] in lines && lines[1..][0] == lines[1] && more[0] == lines[1][0];
      assert text == line + (eol + more) && text == line + eol + more;
      if start < |line| {
        NoDelimiterInLine(line, eol + more, start, end);
      } else if start < |line| + |eol| {
        NoDelimiterInEol(line, crlf, more, start, end);
      } else {
        if DelimiterAt(text, start, end) {
          var skip := |line + eol|;
          DelimiterBehind(line + eol, more, start, end);
          NoDelimiterInside(lines[1..], crlf, start - skip, end - skip);
        }
      }
    }
  }

  lemma NoDelimiterInEol(line: Text, crlf: bool, more: Text, start: nat, end: nat)
    requires more != [] && more[0] != '\r' && more[0] != '\n'
    requires |line| <= start < |line + Eol(crlf)|
    ensures !DelimiterAt(line + Eol(crlf) + more, start, end)
  {
    var text, p := line + Eol(crlf) + more, |line + Eol(crlf)|;
    assert text[p] == more[0];
    if start <= end <= |text| {
      var d := text[start..end];
      assert p < end ==> d[p - start] == more[0];
      assert end <= p ==> d == Eol(crlf)[start - |line|..end - |line|];
    }
  }

  lemma NoDelimiterInLine(line: Text, after: Text, start: nat, end: nat)
    requires SingleLine(line) && start < |line|
    ensures !DelimiterAt(line + after, start, end)
  {
    var text := line + after;
    assert text[start] == line[start] && line[start] in line;
    if start + 1 < |line| {
      assert text[start + 1] == line[start + 1] && line[start + 1] in line;
    }
    if start + 2 <= end <= |text| {
      assert text[start..end][0] == text[start] && text[start..end][1] == text[start + 1];
    }
  }

  /** The lines of a joined text, each with what its ending leaves in front of the newline. */
  lemma {:induction false} LinesOfJoin(lines: seq<Text>, crlf: bool)
    requires lines != [] && forall line :: line in lines ==> FieldLine(line)
    ensures |Lines(Join(lines, Eol(crlf)))| == |lines|
    ensures forall i :: 0 <= i < |lines| ==> StripReturn(Lines(Join(lines, Eol(crlf)))[i]) == lines[i]
  {
    hide Lines;
    var text, line := Join(lines, Eol(crlf)), lines[0];
    assert line in lines;
    if |lines| == 1 {
      LinesStep(text, |text|);
      assert text[..|text|] == text;
    } else {
      var raw := if crlf then line + ['\r'] else line;
      var more := Join(lines[1..], Eol(crlf));
      assert text == raw + (['\n'] + more);
      assert text[..|raw|] == raw && text[|raw| + 1..] == more;
      LinesStep(text, |raw|);
      LinesOfJoin(lines[1..], crlf);
      assert StripReturn(raw) == line;
      assert Lines(text) == [raw] + Lines(more);
      forall i | 1 <= i < |lines|
        ensures StripReturn(Lines(text)[i]) == lines[i]
      {
        assert Lines(text)[i] == Lines(more)[i - 1] && lines[i] == lines[1..][i - 1];
      }
    }
  }

  function ReadAll(frame: Frame, lines: seq<Text>): Frame {
    if lines == [] then frame else ReadLine(ReadAll(frame, lines[..|lines| - 1]), lines[|lines| - 1])
  }

  lemma {:induction false} ReadLinesOfFields(raw: seq<Text>, lines: seq<Text>)
    requires |raw| == |lines| && forall i :: 0 <= i < |raw| ==> StripReturn(raw[i]) == lines[i] && FieldLine(lines[i])
    ensures ReadLines(raw) == ReadAll(EMPTY_FRAME, lines)
  {
    if raw != [] {
      ReadLinesOfFields(raw[..|raw| - 1], lines[..|lines| - 1]);
    }
  }

  lemma {:induction false} ReadAllAppend(frame: Frame, a: seq<Text>, b: seq<Text>)
    ensures ReadAll(frame, a + b) == ReadAll(ReadAll(frame, a), b)
  {
    if b == [] {
      assert a + b == a;
    } else {
      assert (a + b)[..|a + b| - 1] == a + b[..|b| - 1];
      ReadAllAppend(frame, a, b[..|b| - 1]);
    }
  }

  lemma ReadPrintedLine(frame: Frame, text: Text)
    ensures ReadLine(frame, "event: " + text) == frame.(event := Some(text))
    ensures ReadLine(frame, "id: " + text) == frame.(id := Some(text))
    ensures ReadLine(frame, "data: " + text)
         == frame.(data := Some(if frame.data.Some? then frame.data.value + ['\n'] + text else text))
  {
    assert ("event: " + text)[7..] == text && ("data: " + text)[6..] == text && ("id: " + text)[4..] == text;
    assert ("data: " + text)[0] == 'd' && ("id: " + text)[0] == 'i';
    assert !StartsWith("data: " + text, "event: ") && !StartsWith("id: " + text, "event: ") && !StartsWith("id: " + text, "data: ");
  }

  lemma ReadAllOne(frame: Frame, line: Text)
    ensures ReadAll(frame, [line]) == ReadLine(frame, line)
  {
    assert [line][..0] == [];
  }

  /** Data lines read back join to the text they were cut from. */
  lemma {:induction false} DataLinesReadBack(frame: Frame, data: Text)
    requires frame.data == None
    ensures ReadAll(frame, Prefixed("data: ", Lines(data))) == frame.(data := Some(data))
  {
    var lines := Lines(data);
    JoinOfLines(data);
    DataLinesJoin(frame, lines);
  }

  lemma {:induction false} DataLinesJoin(frame: Frame, lines: seq<Text>)
    requires frame.data == None && lines != []
    ensures ReadAll(frame, Prefixed("data: ", lines)) == frame.(data := Some(Join(lines, ['\n'])))
  {
    var printed := Prefixed("data: ", lines);
    var init, last := lines[..|lines| - 1], lines[|lines| - 1];
    assert printed[..|printed| - 1] == Prefixed("data: ", init);
    ReadPrintedLine(ReadAll(frame, Prefixed("data: ", init)), last);
    if init == [] {
      assert ReadAll(frame, Prefixed("data: ", init)) == frame;
    } else {
      DataLinesJoin(frame, init);
      JoinLast(lines);
    }
  }

  lemma {:induction false} JoinLast(lines: seq<Text>)
    requires 2 <= |lines|
    ensures Join(lines, ['\n']) == Join(lines[..|lines| - 1], ['\n']) + ['\n'] + lines[|lines| - 1]
  {
    if 2 < |lines| {
      JoinLast(lines[1..]);
      assert lines[1..][..|lines| - 2] == lines[..|lines| - 1][1..];
    }
  }

  lemma {:induction false} JoinOfLines(text: Text)
    ensures Join(Lines(text), ['\n']) == text
  {
    if text != [] {
      JoinOfLines(text[1..]);
      var rest := Lines(text[1..]);
      if text[0] == '\n' {
        assert Lines(text)[1..] == rest;
      } else {
        assert Lines(text)[1..] == rest[1..];
      }
    }
  }

  lemma PrintedLinesAreFields(frame: Frame)
    requires Printable(frame)
    ensures forall line :: line in FrameLines(frame) ==> FieldLine(line)
  {
    if frame.data.Some? {
      var lines := Lines(frame.data.value);
      forall i | 0 <= i < |lines| ensures FieldLine(Prefixed("data: ", lines)[i]) {
        assert lines[i] in lines;
      }
    }
  }

  lemma FieldsReadBack(frame: Frame)
    ensures ReadAll(EMPTY_FRAME, FrameLines(frame)) == frame
  {
    var first := if frame.event.Some? then ["event: " + frame.event.value] else [];
    var middle := if frame.data.Some? then Prefixed("data: ", Lines(frame.data.value)) else [];
    var last := if frame.id.Some? then ["id: " + frame.id.value] else [];
    ReadAllAppend(EMPTY_FRAME, first + middle, last);
    ReadAllAppend(EMPTY_FRAME, first, middle);
    var afterEvent := EMPTY_FRAME.(event := frame.event);
    if frame.event.Some? {
      ReadPrintedLine(EMPTY_FRAME, frame.event.value);
      ReadAllOne(EMPTY_FRAME, first[0]);
    }
    if frame.data.Some? {
      DataLinesReadBack(afterEvent, frame.data.value);
    }
    var afterData := afterEvent.(data := frame.data);
    assert ReadAll(afterEvent, middle) == afterData;
    if frame.id.Some? {
      ReadPrintedLine(afterData, frame.id.value);
      ReadAllOne(afterData, last[0]);
    }
  }

  /** A printed frame, fed back in one read or in any pieces below the cap, is that frame. */
  lemma PrintedFrameReadsBack(frame: Frame, crlf: bool)
    requires Printable(frame)
    ensures FramesOf(PrintFrame(frame, crlf)) == [frame]
    ensures Extract(PrintFrame(frame, crlf)).rest == []
  {
    var lines, eol := FrameLines(frame), Eol(crlf);
    FrameLinesExist(frame);
    PrintedLinesAreFields(frame);
    var block := Join(lines, eol);
    var text := PrintFrame(frame, crlf);
    BlockIsFirst(lines, crlf);
    ExtractStep(text, |block|, |text|);
    assert text[..|block|] == block && text[|text|..] == [];
    ExtractNothing([]);
    assert [block] + [] == [block];
    LinesOfJoin(lines, crlf);
    forall i | 0 <= i < |lines| ensures FieldLine(lines[i]) {
      assert lines[i] in lines;
    }
    ReadLinesOfFields(Lines(block), lines);
    FieldsReadBack(frame);
    assert Lines(block)[0] in Lines(block) && IsContent(StripReturn(Lines(block)[0]));
    assert ParseFrame(block) == Some(frame);
    assert ParseFrames([block]) == ParseFrames([]) + [frame];
  }

  lemma BlockIsFirst(lines: seq<Text>, crlf: bool)
    requires lines != [] && forall line :: line in lines ==> FieldLine(line)
    ensures var text := Join(lines, Eol(crlf)) + Eol(crlf) + Eol(crlf);
            FirstDelimiter(text, 0) == Some((|Join(lines, Eol(crlf))|, |text|))
  {
    var block := Join(lines, Eol(crlf));
    var text := block + Eol(crlf) + Eol(crlf);
    forall start: nat, end: nat | start < |block| ensures !DelimiterAt(text, start, end) {
      NoDelimiterInside(lines, crlf, start, end);
    }
    assert text[|block|..|text|] == Eol(crlf) + Eol(crlf);
    assert DelimiterAt(text, |block|, |text|);
    FirstIsHere(text, |block|, |text|);
  }

  function PrintAll(frames: seq<Frame>, crlf: bool): Text
    requires forall i :: 0 <= i < |frames| ==> frames[i] != EMPTY_FRAME
  {
    if frames == [] then [] else PrintAll(frames[..|frames| - 1], crlf) + PrintFrame(frames[|frames| - 1], crlf)
  }

  /** A stream of printed frames reads back as those frames, in order, with nothing left over. */
  lemma {:induction false} PrintedStreamReadsBack(frames: seq<Frame>, crlf: bool)
    requires forall i :: 0 <= i < |frames| ==> frames[i] != EMPTY_FRAME && Printable(frames[i])
    ensures FramesOf(PrintAll(frames, crlf)) == frames
    ensures Extract(PrintAll(frames, crlf)).rest == []
  {
    if frames == [] {
      ExtractNothing([]);
    } else {
      var init, last := frames[..|frames| - 1], frames[|frames| - 1];
      assert frames == init + [last];
      hide Printable;
      PrintedStreamReadsBack(init, crlf);
      PrintedFrameReadsBack(last, crlf);
      hide Extract, FramesOf;
      ExtractAppend(PrintAll(init, crlf), PrintFrame(last, crlf));
      FramesAppend(PrintAll(init, crlf), PrintFrame(last, crlf));
      assert [] + PrintFrame(last, crlf) == PrintFrame(last, crlf);
      assert ParseFrames(Extract(PrintFrame(last, crlf)).blocks) == [last];
    }
  }
}
