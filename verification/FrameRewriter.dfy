/** The steps of the streaming rewrite of calendar frames
    (app/netex_calendar.py), for any division of the document into chunks. */
module FrameRewriter {
  import opened Bytes
  import opened FrameStream

  /** Where the bytes `text` are cut: after the first `tag`. */
  ghost predicate CutAfter(text: Text, tag: Text, frame: Option<Text>, left: Text) {
    var q := Find(text, tag, 0, |text|);
    && (q.None? ==> frame.None? && left == text)
    && (q.Some? ==> frame == Some(text[..q.value + |tag|]) && left == text[q.value + |tag|..])
  }

  /** `_spool_frame`: the first bytes of a frame and the chunks to come, cut
      after the end tag. Without one, `left` is all the bytes. */
  method SpoolFrame(head: Text, chunks: seq<Text>, tag: Text)
    returns (frame: Option<Text>, left: Text, coming: seq<Text>)
    requires |tag| > 0 && forall c <- chunks :: c != []
    ensures CutAfter(head + Concat(chunks), tag, frame, left + Concat(coming)) && (frame.None? ==> coming == [])
    ensures forall c <- coming :: c != []
  {
    hide Find, CutAfter, Concat, At;
    var spool, pending := [], head;
    coming := chunks;
    ghost var text := head + Concat(chunks);
    assert [] + head == head;
    while Find(pending, tag, 0, |pending|).None?
      invariant text == spool + (pending + Concat(coming))
      invariant forall i: nat :: i < |spool| ==> !At(text, i, tag)
      invariant forall c <- coming :: c != []
      decreases |coming|
    {
      if coming == [] {
        ConcatNone();
        assert pending + [] == pending && spool + pending + [] == spool + pending;
        NoneInSpooled(spool, pending, tag);
        return None, spool + pending, [];
      }
      var cut := Max(0, |pending| - (|tag| - 1));
      NoneInCut(text, spool, pending, Concat(coming), tag, cut);
      ChunkMoved(spool, pending, coming, cut);
      assert forall c <- coming[1..] :: c in coming;
      spool, pending, coming := spool + pending[..cut], pending[cut..] + coming[0], coming[1..];
    }
    var q := Find(pending, tag, 0, |pending|).value;
    FoundInSpooled(text, spool, pending, Concat(coming), tag);
    frame, left := Some(spool + pending[..q + |tag|]), pending[q + |tag|..];
  }

  lemma {:induction false} ConcatNone()
    ensures Concat([]) == []
  {
  }

  lemma {:induction false} ConcatSome(chunks: seq<Text>)
    requires chunks != []
    ensures Concat(chunks) == chunks[0] + Concat(chunks[1..])
  {
  }

  lemma {:induction false} ChunkMoved(spool: Text, pending: Text, coming: seq<Text>, cut: nat)
    requires coming != [] && cut <= |pending|
    ensures spool + pending[..cut] + (pending[cut..] + coming[0] + Concat(coming[1..])) ==
      spool + (pending + Concat(coming))
  {
    hide Concat;
    ConcatSome(coming);
    assert pending == pending[..cut] + pending[cut..];
  }

  lemma {:induction false} NoneInSpooled(spool: Text, pending: Text, tag: Text)
    requires Find(pending, tag, 0, |pending|).None?
    requires forall i: nat :: i < |spool| ==> !At(spool + pending, i, tag)
    ensures CutAfter(spool + pending, tag, None, spool + pending)
  {
    hide At, Find;
    var text := spool + pending;
    var found := Find(text, tag, 0, |text|);
    if found.Some? {
      var i: nat := found.value - |spool|;
      AtShifted(spool, pending, i, tag);
      assert false;
    }
  }

  lemma {:induction false} NoneInCut(text: Text, spool: Text, pending: Text, rest: Text, tag: Text, cut: nat)
    requires Find(pending, tag, 0, |pending|).None? && |tag| > 0 && cut == Max(0, |pending| - (|tag| - 1))
    requires text == spool + (pending + rest) && forall i: nat :: i < |spool| ==> !At(text, i, tag)
    ensures forall i: nat :: i < |spool + pending[..cut]| ==> !At(text, i, tag)
  {
    hide At;
    forall i: nat | i < |spool + pending[..cut]| ensures !At(text, i, tag) {
      if i >= |spool| {
        var k: nat := i - |spool|;
        AtShifted(spool, pending + rest, k, tag);
        AtExtended(pending, rest, k, tag);
      }
    }
  }

  lemma {:induction false} FirstInSpooled(spool: Text, pending: Text, rest: Text, tag: Text)
    requires Find(pending, tag, 0, |pending|).Some?
    requires forall i: nat :: i < |spool| ==> !At(spool + (pending + rest), i, tag)
    ensures var text := spool + (pending + rest);
      Find(text, tag, 0, |text|) == Some(|spool| + Find(pending, tag, 0, |pending|).value)
  {
    hide At, Find;
    var text, q := spool + (pending + rest), Find(pending, tag, 0, |pending|).value;
    AtShifted(spool, pending + rest, q, tag);
    AtExtended(pending, rest, q, tag);
    forall i: nat | i < |spool| + q ensures !At(text, i, tag) {
      if i >= |spool| {
        var k: nat := i - |spool|;
        AtShifted(spool, pending + rest, k, tag);
        AtExtended(pending, rest, k, tag);
      }
    }
    FindIs(text, tag, 0, |spool| + q);
  }

  lemma {:induction false} FoundInSpooled(text: Text, spool: Text, pending: Text, rest: Text, tag: Text)
    requires text == spool + (pending + rest) && Find(pending, tag, 0, |pending|).Some?
    requires forall i: nat :: i < |spool| ==> !At(text, i, tag)
    ensures var q := Find(pending, tag, 0, |pending|).value;
      CutAfter(text, tag, Some(spool + pending[..q + |tag|]), pending[q + |tag|..] + rest)
  {
    hide *;
    var q := Find(pending, tag, 0, |pending|).value;
    FirstInSpooled(spool, pending, rest, tag);
    CutThere(text, tag, |spool| + q);
    CutInMiddle(text, spool, pending, rest, |spool| + q + |tag|);
    assert |spool| + q + |tag| - |spool| == q + |tag|;
  }

  lemma {:induction false} CutThere(text: Text, tag: Text, at: nat)
    requires Find(text, tag, 0, |text|) == Some(at)
    ensures at + |tag| <= |text| && CutAfter(text, tag, Some(text[..at + |tag|]), text[at + |tag|..])
  {
    hide At, Find;
  }

  lemma {:induction false} CutInMiddle(text: Text, a: Text, b: Text, c: Text, n: nat)
    requires text == a + (b + c) && |a| <= n <= |a| + |b|
    ensures text[..n] == a + b[..n - |a|] && text[n..] == b[n - |a|..] + c
  {
  }

  /** Where a frame too large for memory ends in the document. */
  lemma {:induction false} SpooledComplete(text: Text, rest: Text, name: Text)
    requires IsName(name) && ShortIn(text, name) && ShortIn(text + rest, name)
    requires FirstHead(text, 0, name).Some? && |text| - FirstHead(text, 0, name).value > TAIL_KEEP
    ensures
      var s := FirstHead(text, 0, name).value;
      var prefix := HeadAt(text, s, name).value.prefix;
      var from := text[s..] + rest;
      var q := Find(from, EndTag(prefix, name), 0, |from|);
      CompleteFrame(text + rest, name) ==
        if q.None? then None else Some(Frame(s, s + q.value + |EndTag(prefix, name)|, prefix))
  {
    hide HeadAt, FirstHead, Find, EndTag;
    var s := FirstHead(text, 0, name).value;
    FirstHeadSettled(text, rest, name, s + TAIL_KEEP);
    var prefix := HeadAt(text, s, name).value.prefix;
    assert text + rest == text[..s] + (text[s..] + rest);
    FindShifted(text[..s], text[s..] + rest, EndTag(prefix, name), 0);
  }

  lemma {:induction false} Sliced(a: Text, b: Text, n: nat)
    requires n <= |b|
    ensures (a + b)[..|a|] == a && (a + b)[|a|..|a| + n] == b[..n] && (a + b)[|a| + n..] == b[n..]
  {
  }

  /** What has been written, followed by a rewriting of what is still to come,
      is a rewriting of the document. */
  ghost predicate Midway(doc: Text, name: Text, outcome: Outcome, gone: Text, out: Text, ahead: Text) {
    gone + ahead == doc && forall more :: Rewrites(ahead, name, outcome, more) ==>
      Rewrites(doc, name, outcome, out + more)
  }

  lemma {:induction false} MidwayOn(
    doc: Text, name: Text, outcome: Outcome, gone: Text, out: Text, ahead: Text, cut: Text, written: Text, left: Text)
    requires Midway(doc, name, outcome, gone, out, ahead) && ahead == cut + left
    requires forall more :: Rewrites(left, name, outcome, more) ==> Rewrites(ahead, name, outcome, written + more)
    ensures Midway(doc, name, outcome, gone + cut, out + written, left)
  {
    hide Rewrites;
    forall more | Rewrites(left, name, outcome, more) ensures Rewrites(doc, name, outcome, out + written + more) {
      assert out + written + more == out + (written + more);
    }
    assert gone + cut + left == gone + (cut + left);
  }

  lemma {:induction false} FrameWritten(text: Text, name: Text, outcome: Outcome, f: Frame, written: Text, more: Text)
    requires CompleteFrame(text, name) == Some(f) && outcome(text[f.start..f.end], f.prefix, written)
    requires Rewrites(text[f.end..], name, outcome, more)
    ensures Rewrites(text, name, outcome, text[..f.start] + written + more)
  {
    hide Rewrites, CompleteFrame;
    RewriteAt(text, name, outcome, f, written, more);
  }

  lemma {:induction false} FoundStep(
    doc: Text, name: Text, outcome: Outcome, gone: Text, out: Text, buf: Text, rest: Text, written: Text)
    requires IsName(name) && Midway(doc, name, outcome, gone, out, buf + rest) && CompleteFrame(buf, name).Some?
    requires var f := CompleteFrame(buf, name).value; outcome(buf[f.start..f.end], f.prefix, written)
    ensures var f := CompleteFrame(buf, name).value;
      Midway(doc, name, outcome, gone + buf[..f.end], out + (buf[..f.start] + written), buf[f.end..] + rest)
  {
    hide CompleteFrame, Rewrites, Midway;
    FrameSettled(buf, rest, name);
    var f, all := CompleteFrame(buf, name).value, buf + rest;
    assert all[..f.start] == buf[..f.start] && all[f.start..f.end] == buf[f.start..f.end];
    assert all[f.end..] == buf[f.end..] + rest;
    assert all == buf[..f.end] + (buf[f.end..] + rest);
    forall more | Rewrites(buf[f.end..] + rest, name, outcome, more)
      ensures Rewrites(all, name, outcome, buf[..f.start] + written + more)
    {
      FrameWritten(all, name, outcome, f, written, more);
    }
    MidwayOn(doc, name, outcome, gone, out, all, buf[..f.end], buf[..f.start] + written, buf[f.end..] + rest);
  }

  lemma {:induction false} FlushStep(
    doc: Text, name: Text, outcome: Outcome, gone: Text, out: Text, buf: Text, rest: Text, n: nat)
    requires IsName(name) && HeadsShort(doc, name) && Midway(doc, name, outcome, gone, out, buf + rest)
    requires FirstHead(buf, 0, name).None? && n == |buf| - Min(|buf|, TAIL_KEEP)
    ensures Midway(doc, name, outcome, gone + buf[..n], out + buf[..n], buf[n..] + rest)
  {
    hide FirstHead, HeadsShort, ShortIn, Rewrites;
    assert gone + buf + rest == doc;
    ShortHere(gone, buf, rest, name);
    forall more | Rewrites(buf[n..] + rest, name, outcome, more)
      ensures Rewrites(buf + rest, name, outcome, buf[..n] + more)
    {
      FlushedIsCopied(buf, rest, name, Min(|buf|, TAIL_KEEP), outcome, more);
    }
    assert buf + rest == buf[..n] + (buf[n..] + rest);
    MidwayOn(doc, name, outcome, gone, out, buf + rest, buf[..n], buf[..n], buf[n..] + rest);
  }

  /** A frame too large for memory, cut out of the bytes from its start on. */
  lemma {:induction false} SpoolStep(
    doc: Text, name: Text, outcome: Outcome, gone: Text, out: Text, buf: Text, rest: Text, frame: Text, left: Text,
    written: Text)
    requires IsName(name) && HeadsShort(doc, name) && Midway(doc, name, outcome, gone, out, buf + rest)
    requires FirstHead(buf, 0, name).Some? && |buf| - FirstHead(buf, 0, name).value > TAIL_KEEP
    requires var s := FirstHead(buf, 0, name).value;
      var prefix := HeadAt(buf, s, name).value.prefix;
      CutAfter(buf[s..] + rest, EndTag(prefix, name), Some(frame), left) && outcome(frame, prefix, written)
    ensures var s := FirstHead(buf, 0, name).value;
      && Midway(doc, name, outcome, gone + buf[..s] + frame, out + (buf[..s] + written), left)
      && |left| < |buf + rest|
  {
    hide FirstHead, HeadAt, HeadsShort, ShortIn, Rewrites, Find, CompleteFrame, Midway, EndTag;
    assert gone + buf + rest == doc by { MidwayIs(doc, name, outcome, gone, out, buf, rest); }
    ShortHere(gone, buf, rest, name);
    SpooledComplete(buf, rest, name);
    var s := FirstHead(buf, 0, name).value;
    var prefix := HeadAt(buf, s, name).value.prefix;
    var from := buf[s..] + rest;
    FrameCut(from, EndTag(prefix, name), frame, left);
    assert buf + rest == buf[..s] + from;
    Sliced(buf[..s], from, |frame|);
    forall more | Rewrites(left, name, outcome, more)
      ensures Rewrites(buf + rest, name, outcome, buf[..s] + written + more)
    {
      FrameWritten(buf + rest, name, outcome, Frame(s, s + |frame|, prefix), written, more);
    }
    assert buf + rest == buf[..s] + frame + left;
    MidwayOn(doc, name, outcome, gone, out, buf + rest, buf[..s] + frame, buf[..s] + written, left);
    assert gone + (buf[..s] + frame) == gone + buf[..s] + frame;
  }

  lemma {:induction false} MidwayIs(
    doc: Text, name: Text, outcome: Outcome, gone: Text, out: Text, buf: Text, rest: Text)
    requires Midway(doc, name, outcome, gone, out, buf + rest)
    ensures gone + buf + rest == doc
  {
    assert gone + buf + rest == gone + (buf + rest);
  }

  lemma {:induction false} FrameCut(from: Text, tag: Text, frame: Text, left: Text)
    requires CutAfter(from, tag, Some(frame), left) && |tag| > 0
    ensures var q := Find(from, tag, 0, |from|);
      q.Some? && |frame| == q.value + |tag| && 0 < |frame| <= |from| && from[..|frame|] == frame
        && from[|frame|..] == left
    ensures from == frame + left
  {
  }

  /** A document that ends within a frame too large for memory. */
  lemma {:induction false} SpoolEnds(
    doc: Text, name: Text, outcome: Outcome, gone: Text, out: Text, buf: Text, rest: Text, left: Text)
    requires IsName(name) && HeadsShort(doc, name) && Midway(doc, name, outcome, gone, out, buf + rest)
    requires FirstHead(buf, 0, name).Some? && |buf| - FirstHead(buf, 0, name).value > TAIL_KEEP
    requires var s := FirstHead(buf, 0, name).value;
      CutAfter(buf[s..] + rest, EndTag(HeadAt(buf, s, name).value.prefix, name), None, left)
    ensures var s := FirstHead(buf, 0, name).value; Midway(doc, name, outcome, doc, out + (buf[..s] + left), [])
  {
    hide FirstHead, HeadAt, HeadsShort, ShortIn, Rewrites, Find, CompleteFrame, Midway, EndTag;
    MidwayIs(doc, name, outcome, gone, out, buf, rest);
    ShortHere(gone, buf, rest, name);
    SpooledComplete(buf, rest, name);
    var s := FirstHead(buf, 0, name).value;
    assert buf + rest == buf[..s] + left;
    forall more | Rewrites([], name, outcome, more)
      ensures Rewrites(buf + rest, name, outcome, buf[..s] + left + more)
    {
      NoFrames(name, outcome, more);
      NoFrame(buf + rest, name, outcome);
      assert buf[..s] + left + [] == buf[..s] + left;
    }
    assert buf + rest == buf + rest + [];
    MidwayOn(doc, name, outcome, gone, out, buf + rest, buf + rest, buf[..s] + left, []);
    assert gone + (buf + rest) == gone + buf + rest;
  }

  lemma {:induction false} NoFrames(name: Text, outcome: Outcome, more: Text)
    requires Rewrites([], name, outcome, more)
    ensures more == []
  {
  }

  lemma {:induction false} NoFrame(text: Text, name: Text, outcome: Outcome)
    requires CompleteFrame(text, name).None?
    ensures Rewrites(text, name, outcome, text)
  {
  }

  lemma {:induction false} LastStep(doc: Text, name: Text, outcome: Outcome, gone: Text, out: Text, buf: Text)
    requires Midway(doc, name, outcome, gone, out, buf) && CompleteFrame(buf, name).None?
    ensures Rewrites(doc, name, outcome, out + buf)
  {
    hide Rewrites, CompleteFrame;
    NoFrame(buf, name, outcome);
  }

  lemma {:induction false} StartMidway(doc: Text, name: Text, outcome: Outcome)
    ensures Midway(doc, name, outcome, [], [], doc)
  {
    hide Rewrites;
    assert [] + doc == doc;
    forall more | Rewrites(doc, name, outcome, more) ensures Rewrites(doc, name, outcome, [] + more) {
      assert [] + more == more;
    }
  }
}
