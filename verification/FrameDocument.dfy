/** The rewrite of a document's calendar frames (app/netex_calendar.py): any
    division into chunks, any limit of memory from the tail kept on, and the
    conversions themselves. */
module FrameDocument {
  import opened Bytes
  import opened CalendarSpec
  import opened CalendarMotis
  import opened CalendarConvert
  import opened FrameStream
  import opened FrameRewriter
  import opened FrameEdit
  import opened FrameReading
  import opened FramePieces
  import opened FrameConvert
  import opened FrameRender

  // ----- what is written for one frame

  /** The libraries, the parser (None for a frame it refuses), the wrapping
      element and the sizes of memory and chunks. */
  datatype Settings = Settings(
    lib: Library, parse: (Text, Text) -> Option<seq<Part>>, wrap: Text, wrapEnd: Text, inMemory: nat, chunk: nat)

  /** A frame stays as it is, or has a plan written into it; it then becomes
      what its parts mean, if it was held in memory or listed in order. */
  ghost predicate IsWrittenFor(c: Settings, frame: Text, prefix: Text, written: Text) {
    var t, read := TagsFor(c.lib, prefix), c.parse(frame, prefix);
    |EndOfFrame(t)| <= |frame|
    && if read.None? || !NeedsConversion(read.value) || NoSpanIn(t, frame) then written == frame
       else
         && IsPlanWritten(c, frame, prefix, written)
         && (IsFrameOf(t, frame, read.value) && (|frame| <= c.inMemory || InSchemaOrder(read.value)) ==>
               Becomes(t, read.value, written))
  }

  ghost predicate IsPlanWritten(c: Settings, frame: Text, prefix: Text, written: Text)
    requires |EndOfFrame(TagsFor(c.lib, prefix))| <= |frame|
  {
    exists plan :: Some(written) == WithPlan(TagsFor(c.lib, prefix), ShowFor(c.lib, prefix), frame, plan)
  }

  /** Definitions before assignments, and every day type listed in order. */
  ghost predicate InSchemaOrder(parts: seq<Part>) {
    DefinitionsFirst(parts) && forall dt :: ListedInOrder(Assigned(parts), dt)
  }

  ghost function Writing(c: Settings): Outcome {
    (frame: Text, prefix: Text, written: Text) => IsWrittenFor(c, frame, prefix, written)
  }

  /** Every tag looked for fits in the bytes kept between chunks. */
  ghost predicate AllShort(doc: Text) { forall prefix :: IsPrefix(prefix) ==> ShortTags(doc, prefix, NAMES) }

  lemma {:induction false} ShortWithin(doc: Text, a: nat, b: nat, prefix: Text)
    requires AllShort(doc) && IsPrefix(prefix) && a <= b <= |doc|
    ensures ShortTags(doc[a..b], prefix, NAMES)
  {
    hide MatchAt;
    assert ShortTags(doc, prefix, NAMES);
    ShortSlice(BlockOpen(prefix, NAMES), doc, a, b);
    ShortSlice(BlockClose(prefix, NAMES), doc, a, b);
    ShortSlice(PeriodsClose(prefix, NAMES), doc, a, b);
  }

  lemma {:induction false} ShortSlice(p: Pattern, doc: Text, a: nat, b: nat)
    requires ShortMatches(p, doc) && a <= b <= |doc|
    ensures ShortMatches(p, doc[a..b])
  {
    hide MatchAt;
    forall i: nat | MatchAt(p, doc[a..b], i).Some? ensures MatchAt(p, doc[a..b], i).value.end - i <= TAIL_KEEP {
      MatchSliced(p, doc, a, b, i);
      var j := a + i;
      assert MatchAt(p, doc, j).Some?;
    }
  }

  /** The prefix of a frame is one. */
  lemma {:induction false} HeadPrefix(text: Text, at: nat, name: Text)
    ensures HeadAt(text, at, name).Some? ==> IsPrefix(HeadAt(text, at, name).value.prefix)
  {
    if Prefixed(text, at, name).Some? {
      var r := NameEnd(text, at + 1);
      var prefix := text[at + 1..r];
      forall b | b in prefix ensures IsNameByte(b) {
        var k :| 0 <= k < |prefix| && prefix[k] == b;
        assert text[at + 1 + k] == b;
      }
    }
  }

  /** `_write_frame`. */
  method WriteFrame(frame: Text, prefix: Text, c: Settings) returns (written: Text)
    requires IsLibrary(c.lib) && IsPrefix(prefix) && c.chunk > 0
    requires |EndTag(prefix, FRAME)| <= |frame| && ShortTags(frame, prefix, NAMES)
    ensures IsWrittenFor(c, frame, prefix, written)
  {
    hide IsLibrary, IsPrefix, ShortTags, Becomes, IsFrameOf, NeedsConversion, InSchemaOrder, WithPlan, EndTag, AreTags,
      GoodShow, Span;
    var t, show := TagsFor(c.lib, prefix), ShowFor(c.lib, prefix);
    RenderIsGood(c.lib, prefix);
    ghost var plan;
    var result;
    result, plan := ConvertFrame(frame, c.parse(frame, prefix), t, show, c.chunk);
    written := if result.Some? then result.value else frame;
  }

  /** A frame of the temporary file. */
  method WriteSpooled(frame: Text, prefix: Text, c: Settings) returns (written: Text)
    requires IsLibrary(c.lib) && IsPrefix(prefix) && c.chunk > 0 && |frame| > c.inMemory
    requires |EndTag(prefix, FRAME)| <= |frame| && ShortTags(frame, prefix, NAMES)
    ensures IsWrittenFor(c, frame, prefix, written)
  {
    hide IsLibrary, IsPrefix, ShortTags, Becomes, IsFrameOf, NeedsConversion, WithPlan, EndTag, AreTags, GoodShow, Span,
      DefinitionsFirst, ListedInOrder, Assigned;
    var t, show := TagsFor(c.lib, prefix), ShowFor(c.lib, prefix);
    RenderIsGood(c.lib, prefix);
    var spool := c.wrap + (frame + c.wrapEnd);
    Sliced(c.wrap, frame + c.wrapEnd, |frame|);
    assert (frame + c.wrapEnd)[..|frame|] == frame;
    ghost var plan;
    var changed, outOfOrder;
    written, changed, outOfOrder, plan :=
      ConvertSpooled(spool, |c.wrap|, |c.wrap| + |frame|, c.parse(frame, prefix), t, show, c.chunk);
  }

  // ----- the stream

  lemma {:induction false} FrameOfDoc(doc: Text, gone: Text, buf: Text, rest: Text, name: Text)
    requires doc == gone + (buf + rest) && CompleteFrame(buf, name).Some?
    ensures var f := CompleteFrame(buf, name).value;
      && |EndTag(f.prefix, name)| <= f.end - f.start && IsPrefix(f.prefix)
      && |gone| + f.end <= |doc| && doc[|gone| + f.start..|gone| + f.end] == buf[f.start..f.end]
  {
    hide IsPrefix, HeadAt;
    HeadPrefix(buf, FirstHead(buf, 0, name).value, name);
    var f := CompleteFrame(buf, name).value;
    assert doc[|gone|..|gone| + |buf|] == buf;
    InRange(doc, |gone|, |gone| + |buf|, |gone| + f.start, |gone| + f.end);
  }

  /** A frame cut out of the bytes from its start on, larger than the memory. */
  lemma {:induction false} SpooledOfDoc(
    doc: Text, gone: Text, buf: Text, rest: Text, name: Text, frame: Text, left: Text, inMemory: nat)
    requires doc == gone + (buf + rest) && CompleteFrame(buf, name).None? && FirstHead(buf, 0, name).Some?
    requires |buf| - FirstHead(buf, 0, name).value > inMemory
    requires var s := FirstHead(buf, 0, name).value;
      CutAfter(buf[s..] + rest, EndTag(HeadAt(buf, s, name).value.prefix, name), Some(frame), left)
    ensures var s := FirstHead(buf, 0, name).value;
      var prefix := HeadAt(buf, s, name).value.prefix;
      && |EndTag(prefix, name)| <= |frame| && |frame| > inMemory && IsPrefix(prefix)
      && |gone| + s + |frame| <= |doc| && doc[|gone| + s..|gone| + s + |frame|] == frame
  {
    hide FirstHead, HeadAt, IsPrefix, At, EndTag;
    var s := FirstHead(buf, 0, name).value;
    var prefix := HeadAt(buf, s, name).value.prefix;
    var tag, from := EndTag(prefix, name), buf[s..] + rest;
    HeadPrefix(buf, s, name);
    FrameCut(from, tag, frame, left);
    if |frame| <= |buf| - s {
      var q: nat := |frame| - |tag|;
      AtExtended(buf[s..], rest, q, tag);
      assert buf == buf[..s] + buf[s..];
      AtShifted(buf[..s], buf[s..], q, tag);
      assert false;
    }
    assert doc == (gone + buf[..s]) + from;
    Sliced(gone + buf[..s], from, |frame|);
  }

  lemma {:induction false} FrameBytes(doc: Text, a: nat, b: nat, frame: Text, prefix: Text)
    requires AllShort(doc) && IsPrefix(prefix) && a <= b <= |doc| && doc[a..b] == frame
    ensures ShortTags(frame, prefix, NAMES)
  {
    ShortWithin(doc, a, b, prefix);
  }

  /** A frame complete in what has been read: what is written, and what is
      left. */
  method TakeFrame(buf: Text, c: Settings, ghost doc: Text, ghost gone: Text, ghost out: Text, ghost rest: Text)
    returns (text: Text, left: Text)
    requires IsLibrary(c.lib) && c.chunk > 0 && AllShort(doc) && CompleteFrame(buf, FRAME).Some?
    requires Midway(doc, FRAME, Writing(c), gone, out, buf + rest)
    ensures |left| < |buf| && Midway(doc, FRAME, Writing(c), gone + buf[..|buf| - |left|], out + text, left + rest)
  {
    hide Midway, CompleteFrame, AllShort, ShortTags, IsLibrary, IsPrefix, IsWrittenFor, EndTag, IsName;
    var f := CompleteFrame(buf, FRAME).value;
    FrameName();
    MidwayIs(doc, FRAME, Writing(c), gone, out, buf, rest);
    assert gone + (buf + rest) == gone + buf + rest;
    FrameOfDoc(doc, gone, buf, rest, FRAME);
    FrameBytes(doc, |gone| + f.start, |gone| + f.end, buf[f.start..f.end], f.prefix);
    var written := WriteFrame(buf[f.start..f.end], f.prefix, c);
    FoundStep(doc, FRAME, Writing(c), gone, out, buf, rest, written);
    text, left := buf[..f.start] + written, buf[f.end..];
  }

  /** A frame too large for memory, through a temporary file. `done` when the
      document ends within it. */
  method TakeLarge(
    buf: Text, coming: seq<Text>, c: Settings, ghost doc: Text, ghost gone: Text, ghost out: Text)
    returns (text: Text, left: Text, more: seq<Text>, ghost past: Text)
    requires IsLibrary(c.lib) && c.chunk > 0 && c.inMemory >= 256 && AllShort(doc) && HeadsShort(doc, FRAME)
    requires CompleteFrame(buf, FRAME).None? && FirstHead(buf, 0, FRAME).Some?
    requires |buf| - FirstHead(buf, 0, FRAME).value > c.inMemory && forall x <- coming :: x != []
    requires Midway(doc, FRAME, Writing(c), gone, out, buf + Concat(coming))
    ensures Midway(doc, FRAME, Writing(c), past, out + text, left + Concat(more)) && forall x <- more :: x != []
    ensures |left + Concat(more)| < |buf + Concat(coming)|
  {
    hide Midway, CompleteFrame, AllShort, ShortTags, IsLibrary, IsPrefix, IsWrittenFor, EndTag, IsName, FirstHead,
      HeadAt, HeadsShort, CutAfter, Concat;
    ghost var rest := Concat(coming);
    var start := FirstHead(buf, 0, FRAME).value;
    var prefix := HeadAt(buf, start, FRAME).value.prefix;
    FrameName();
    TagNotEmpty(prefix, FRAME);
    var frame;
    frame, left, more := SpoolFrame(buf[start..], coming, EndTag(prefix, FRAME));
    if frame.None? {
      ConcatNone();
      assert left + [] == left;
      SpoolEnds(doc, FRAME, Writing(c), gone, out, buf, rest, left);
      text, left, past := buf[..start] + left, [], doc;
      assert [] + Concat(more) == [];
    } else {
      MidwayIs(doc, FRAME, Writing(c), gone, out, buf, rest);
      assert gone + (buf + rest) == gone + buf + rest;
      SpooledOfDoc(doc, gone, buf, rest, FRAME, frame.value, left + Concat(more), c.inMemory);
      FrameBytes(doc, |gone| + start, |gone| + start + |frame.value|, frame.value, prefix);
      var written := WriteSpooled(frame.value, prefix, c);
      SpoolStep(doc, FRAME, Writing(c), gone, out, buf, rest, frame.value, left + Concat(more), written);
      text, past := buf[..start] + written, gone + buf[..start] + frame.value;
    }
  }

  /** `_rewrite_stream`: every complete frame is written as its conversion, or
      as it is; every other byte is copied once and in order. */
  method RewriteStream(chunks: seq<Text>, c: Settings) returns (out: Text)
    requires IsLibrary(c.lib) && c.chunk > 0 && c.inMemory >= 256
    requires (forall x <- chunks :: x != []) && HeadsShort(Concat(chunks), FRAME) && AllShort(Concat(chunks))
    ensures Rewrites(Concat(chunks), FRAME, Writing(c), out)
  {
    hide Midway, Rewrites, HeadsShort, HeadAt, Concat, IsName, FirstHead, CompleteFrame, AllShort, IsLibrary, Writing;
    out := [];
    var buf, eof, coming := [], false, chunks;
    ghost var doc, gone := Concat(chunks), [];
    FrameName();
    StartMidway(doc, FRAME, Writing(c));
    assert [] + doc == doc;
    while true
      invariant Midway(doc, FRAME, Writing(c), gone, out, buf + Concat(coming)) && (eof ==> coming == [])
      invariant forall x <- coming :: x != []
      decreases |buf + Concat(coming)|, |coming|, !eof
    {
      ghost var rest := Concat(coming);
      if CompleteFrame(buf, FRAME).Some? {
        ghost var was := buf;
        var text;
        text, buf := TakeFrame(buf, c, doc, gone, out, rest);
        out, gone := out + text, gone + was[..|was| - |buf|];
        continue;
      }
      if eof {
        ConcatNone();
        assert buf + [] == buf;
        LastStep(doc, FRAME, Writing(c), gone, out, buf);
        out := out + buf;
        return;
      }
      var start := FirstHead(buf, 0, FRAME);
      if start.None? {
        var keep := Min(|buf|, TAIL_KEEP);
        FlushStep(doc, FRAME, Writing(c), gone, out, buf, rest, |buf| - keep);
        out, gone := out + buf[..|buf| - keep], gone + buf[..|buf| - keep];
        buf := buf[|buf| - keep..];
      } else if |buf| - start.value > c.inMemory {
        var text;
        text, buf, coming, gone := TakeLarge(buf, coming, c, doc, gone, out);
        out := out + text;
        continue;
      }
      if coming == [] {
        eof := true;
      } else {
        ConcatSome(coming);
        assert forall x <- coming[1..] :: x in coming;
        assert buf + Concat(coming) == buf + coming[0] + Concat(coming[1..]);
        buf, coming := buf + coming[0], coming[1..];
      }
    }
  }

  lemma {:induction false} TagNotEmpty(prefix: Text, name: Text)
    ensures |EndTag(prefix, name)| > 0
  {
  }
}
