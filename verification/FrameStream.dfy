/** Calendar frames in a byte stream (app/netex_calendar.py): where a frame
    starts and ends, and the document with every frame converted. */
module FrameStream {
  import opened Bytes

  const TAIL_KEEP := 256
  const UNDERSCORE: byte := 0x5F
  const DOT: byte := 0x2E

  predicate IsLetter(b: byte) { 0x41 <= b <= 0x5A || 0x61 <= b <= 0x7A }

  predicate IsWord(b: byte) { IsLetter(b) || 0x30 <= b <= 0x39 || b == UNDERSCORE }

  predicate IsNameStart(b: byte) { IsLetter(b) || b == UNDERSCORE }

  predicate IsNameByte(b: byte) { IsWord(b) || b == DOT || b == DASH }

  /** An element name such as ServiceCalendarFrame: word bytes only. */
  ghost predicate IsName(name: Text) {
    name != [] && forall b <- name :: IsWord(b)
  }

  /** Where the name bytes from `at` on end. */
  function NameEnd(text: Text, at: nat): (r: nat)
    requires at <= |text|
    ensures at <= r <= |text| && (forall k :: at <= k < r ==> IsNameByte(text[k]))
      && (r < |text| ==> !IsNameByte(text[r]))
    decreases |text| - at
  {
    if at == |text| || !IsNameByte(text[at]) then at else NameEnd(text, at + 1)
  }

  /** A word ends here; the end of what has been read counts. */
  predicate Boundary(text: Text, at: nat) { at == |text| || (at < |text| && !IsWord(text[at])) }

  datatype Head = Head(prefix: Text, end: nat)

  /** `<prefix:name\b` at `at`. */
  function Prefixed(text: Text, at: nat, name: Text): Option<Head> {
    if at + 1 < |text| && text[at] == LT && IsNameStart(text[at + 1]) then
      var r := NameEnd(text, at + 1);
      if r < |text| && text[r] == COLON && At(text, r + 1, name) && Boundary(text, r + 1 + |name|)
      then Some(Head(text[at + 1..r], r + 1 + |name|)) else None
    else None
  }

  /** `<name\b` at `at`. */
  function Bare(text: Text, at: nat, name: Text): Option<Head> {
    if at < |text| && text[at] == LT && At(text, at + 1, name) && Boundary(text, at + 1 + |name|)
    then Some(Head([], at + 1 + |name|)) else None
  }

  /** The start of a frame at `at`: the prefix is tried first. */
  function HeadAt(text: Text, at: nat, name: Text): Option<Head> {
    var prefixed := Prefixed(text, at, name);
    if prefixed.Some? then prefixed else Bare(text, at, name)
  }

  /** The leftmost start of a frame at or after `from`. */
  function FirstHead(text: Text, from: nat, name: Text): (r: Option<nat>)
    ensures r.Some? ==> from <= r.value < |text| && HeadAt(text, r.value, name).Some?
    ensures forall i: nat :: from <= i < (if r.Some? then r.value else |text|) ==> HeadAt(text, i, name).None?
    decreases |text| - from
  {
    if from >= |text| then None
    else if HeadAt(text, from, name).Some? then Some(from)
    else FirstHead(text, from + 1, name)
  }

  function EndTag(prefix: Text, name: Text): (tag: Text)
    ensures |tag| >= 3 && tag[0] == LT && tag[1] == SLASH
  {
    [LT, SLASH] + (if prefix == [] then [] else prefix + [COLON]) + name + [GT]
  }

  datatype Frame = Frame(start: nat, end: nat, prefix: Text)

  /** `_complete_frame`: the first start of a frame, up to its end tag. */
  function CompleteFrame(text: Text, name: Text): (r: Option<Frame>)
    ensures r.Some? ==> r.value.start < r.value.end <= |text|
  {
    var start := FirstHead(text, 0, name);
    if start.None? then None
    else
      var prefix := HeadAt(text, start.value, name).value.prefix;
      var end := Find(text, EndTag(prefix, name), start.value, |text|);
      if end.None? then None else Some(Frame(start.value, end.value + |EndTag(prefix, name)|, prefix))
  }

  /** A frame, its prefix, and what may be written for it. */
  type Outcome = (Text, Text, Text) -> bool

  /** The document with each complete frame converted, all else as it is; a
      frame without its end leaves the rest of the document as it is. */
  ghost predicate Rewrites(doc: Text, name: Text, outcome: Outcome, out: Text)
    decreases |doc|
  {
    var frame := CompleteFrame(doc, name);
    if frame.None? then out == doc
    else
      exists written, rest ::
        && outcome(doc[frame.value.start..frame.value.end], frame.value.prefix, written)
        && Rewrites(doc[frame.value.end..], name, outcome, rest)
        && out == doc[..frame.value.start] + written + rest
  }

  // ----- a start of a frame in what has been read so far

  /** A head holds no other tag. */
  lemma {:induction false} HeadIsOneName(text: Text, at: nat, name: Text, k: nat)
    requires IsName(name)
    ensures HeadAt(text, at, name).Some? && at < k < HeadAt(text, at, name).value.end ==> k < |text| && text[k] != LT
    ensures HeadAt(text, at, name).Some? ==> at < HeadAt(text, at, name).value.end <= |text| && text[at] == LT
  {
    if Prefixed(text, at, name).Some? {
      var r := NameEnd(text, at + 1);
      if r < k < r + 1 + |name| {
        AtByte(text, r + 1, name, k - r - 1);
        assert text[k] == name[k - r - 1] && IsWord(name[k - r - 1]);
      }
    } else if Bare(text, at, name).Some? {
      if at < k < at + 1 + |name| {
        AtByte(text, at + 1, name, k - at - 1);
        assert text[k] == name[k - at - 1] && IsWord(name[k - at - 1]);
      }
    }
  }

  lemma {:induction false} NameEndExtended(text: Text, rest: Text, at: nat)
    requires at <= |text|
    ensures NameEnd(text, at) < |text| ==> NameEnd(text + rest, at) == NameEnd(text, at)
    ensures NameEnd(text + rest, at) < |text| ==> NameEnd(text, at) == NameEnd(text + rest, at)
  {
    var r, s := NameEnd(text, at), NameEnd(text + rest, at);
    if r < |text| {
      assert (text + rest)[r] == text[r];
      assert s <= r;
    }
    if s < |text| { assert (text + rest)[s] == text[s]; }
  }

  lemma {:induction false} BoundaryExtended(text: Text, rest: Text, at: nat)
    ensures at < |text| ==> Boundary(text + rest, at) == Boundary(text, at)
  {
  }

  /** A head that ends before the last byte read is one in the document, and
      the other way round. */
  lemma {:induction false} PrefixedExtended(text: Text, rest: Text, at: nat, name: Text)
    ensures Prefixed(text, at, name).Some? && Prefixed(text, at, name).value.end < |text| ==>
      Prefixed(text + rest, at, name) == Prefixed(text, at, name)
    ensures Prefixed(text + rest, at, name).Some? && Prefixed(text + rest, at, name).value.end < |text| ==>
      Prefixed(text, at, name) == Prefixed(text + rest, at, name)
  {
    if at + 1 < |text| {
      NameEndExtended(text, rest, at + 1);
      var r := NameEnd(text, at + 1);
      AtExtended(text, rest, r + 1, name);
      BoundaryExtended(text, rest, r + 1 + |name|);
      if r < |text| { assert (text + rest)[at + 1..r] == text[at + 1..r]; }
    }
  }

  lemma {:induction false} BareExtended(text: Text, rest: Text, at: nat, name: Text)
    ensures Bare(text, at, name).Some? && Bare(text, at, name).value.end < |text| ==>
      Bare(text + rest, at, name) == Bare(text, at, name)
    ensures Bare(text + rest, at, name).Some? && Bare(text + rest, at, name).value.end < |text| ==>
      Bare(text, at, name) == Bare(text + rest, at, name)
  {
    AtExtended(text, rest, at + 1, name);
    BoundaryExtended(text, rest, at + 1 + |name|);
  }

  predicate EndsBy(head: Option<Head>, q: nat) { head.Some? ==> head.value.end <= q }

  lemma {:induction false} HeadExtended(text: Text, rest: Text, at: nat, name: Text, q: nat)
    requires q < |text| && EndsBy(HeadAt(text, at, name), q) && EndsBy(HeadAt(text + rest, at, name), q)
    ensures HeadAt(text + rest, at, name) == HeadAt(text, at, name)
  {
    PrefixedExtended(text, rest, at, name);
    BareExtended(text, rest, at, name);
  }

  /** A later `<` settles whether a frame starts at `at`. */
  lemma {:induction false} HeadSettled(text: Text, rest: Text, at: nat, name: Text, q: nat)
    requires IsName(name) && at < q < |text| && text[q] == LT
    ensures HeadAt(text + rest, at, name) == HeadAt(text, at, name)
  {
    HeadIsOneName(text, at, name, q);
    HeadIsOneName(text + rest, at, name, q);
    assert (text + rest)[q] == LT;
    HeadExtended(text, rest, at, name, q);
  }

  // ----- the same at a later place of the document

  lemma {:induction false} NameEndShifted(gone: Text, text: Text, at: nat)
    requires at <= |text|
    ensures NameEnd(gone + text, |gone| + at) == |gone| + NameEnd(text, at)
    decreases |text| - at
  {
    if at < |text| {
      assert (gone + text)[|gone| + at] == text[at];
      NameEndShifted(gone, text, at + 1);
    }
  }

  lemma {:induction false} AtShifted(gone: Text, text: Text, at: nat, word: Text)
    ensures At(gone + text, |gone| + at, word) == At(text, at, word)
  {
    if At(gone + text, |gone| + at, word) {
      forall k | 0 <= k < |word| ensures text[at + k] == word[k] { assert (gone + text)[|gone| + at + k] == word[k]; }
    }
    if At(text, at, word) {
      forall k | 0 <= k < |word| ensures (gone + text)[|gone| + at + k] == word[k] { assert text[at + k] == word[k]; }
    }
  }

  function Moved(head: Option<Head>, n: nat): Option<Head> {
    if head.None? then None else Some(Head(head.value.prefix, n + head.value.end))
  }

  lemma {:induction false} PrefixedShifted(gone: Text, text: Text, at: nat, name: Text)
    ensures Prefixed(gone + text, |gone| + at, name) == Moved(Prefixed(text, at, name), |gone|)
  {
    hide At, NameEnd;
    var doc := gone + text;
    if at + 1 < |text| {
      assert doc[|gone| + at] == text[at] && doc[|gone| + at + 1] == text[at + 1];
      NameEndShifted(gone, text, at + 1);
      var r := NameEnd(text, at + 1);
      AtShifted(gone, text, r + 1, name);
      BoundaryShifted(gone, text, r + 1 + |name|);
      assert doc[|gone| + at + 1..|gone| + r] == text[at + 1..r];
      if r < |text| { assert doc[|gone| + r] == text[r]; }
    }
  }

  lemma {:induction false} BoundaryShifted(gone: Text, text: Text, at: nat)
    ensures Boundary(gone + text, |gone| + at) == Boundary(text, at)
  {
  }

  lemma {:induction false} BareShifted(gone: Text, text: Text, at: nat, name: Text)
    ensures Bare(gone + text, |gone| + at, name) == Moved(Bare(text, at, name), |gone|)
  {
    hide At;
    AtShifted(gone, text, at + 1, name);
    BoundaryShifted(gone, text, at + 1 + |name|);
    if at < |text| { assert (gone + text)[|gone| + at] == text[at]; }
  }

  lemma {:induction false} HeadShifted(gone: Text, text: Text, at: nat, name: Text)
    ensures HeadAt(gone + text, |gone| + at, name) == Moved(HeadAt(text, at, name), |gone|)
  {
    PrefixedShifted(gone, text, at, name);
    BareShifted(gone, text, at, name);
  }

  // ----- what the bytes still to come cannot change

  lemma {:induction false} FirstHeadIs(text: Text, name: Text, s: nat)
    requires HeadAt(text, s, name).Some? && s < |text| && forall i: nat :: i < s ==> HeadAt(text, i, name).None?
    ensures FirstHead(text, 0, name) == Some(s)
  {
  }

  lemma {:induction false} FindIs(text: Text, word: Text, from: nat, q: nat)
    requires from <= q && q + |word| <= |text| && At(text, q, word)
    requires forall i: nat :: from <= i < q ==> !At(text, i, word)
    ensures Find(text, word, from, |text|) == Some(q)
  {
  }

  lemma {:induction false} FindExtended(text: Text, rest: Text, word: Text, from: nat)
    ensures Find(text, word, from, |text|).Some? ==>
      Find(text + rest, word, from, |text + rest|) == Find(text, word, from, |text|)
  {
    var q := Find(text, word, from, |text|);
    if q.Some? {
      AtExtended(text, rest, q.value, word);
      forall i: nat | from <= i < q.value ensures !At(text + rest, i, word) { AtExtended(text, rest, i, word); }
      FindIs(text + rest, word, from, q.value);
    }
  }

  /** The end tag of a frame comes after its start. */
  lemma {:induction false} EndTagAfterHead(text: Text, s: nat, name: Text, prefix: Text, q: nat)
    requires IsName(name) && HeadAt(text, s, name).Some? && At(text, q, EndTag(prefix, name)) && s <= q
    ensures s < q < |text| && text[q] == LT
  {
    var tag := EndTag(prefix, name);
    AtByte(text, q, tag, 0);
    AtByte(text, q, tag, 1);
    if Prefixed(text, s, name).Some? {
      assert text[s + 1] != SLASH;
    } else {
      AtByte(text, s + 1, name, 0);
      assert IsWord(name[0]);
    }
  }

  lemma {:induction false} HeadsBefore(text: Text, rest: Text, s: nat, name: Text, i: nat)
    requires IsName(name) && HeadAt(text, s, name).Some? && i < s
    ensures HeadAt(text + rest, i, name) == HeadAt(text, i, name)
  {
    HeadIsOneName(text, s, name, s + 1);
    HeadSettled(text, rest, i, name, s);
  }

  /** The first start of a frame, once its head is whole, stays the first. */
  lemma {:induction false} FirstHeadSettled(text: Text, rest: Text, name: Text, q: nat)
    requires IsName(name) && FirstHead(text, 0, name).Some? && q < |text|
    requires var s := FirstHead(text, 0, name).value;
      EndsBy(HeadAt(text, s, name), q) && EndsBy(HeadAt(text + rest, s, name), q)
    ensures FirstHead(text + rest, 0, name) == FirstHead(text, 0, name)
    ensures var s := FirstHead(text, 0, name).value; HeadAt(text + rest, s, name) == HeadAt(text, s, name)
  {
    var s := FirstHead(text, 0, name).value;
    HeadExtended(text, rest, s, name, q);
    forall i: nat | i < s ensures HeadAt(text + rest, i, name).None? { HeadsBefore(text, rest, s, name, i); }
    FirstHeadIs(text + rest, name, s);
  }

  /** A frame complete in what has been read is the document's first. */
  lemma {:induction false} FrameSettled(text: Text, rest: Text, name: Text)
    requires IsName(name) && CompleteFrame(text, name).Some?
    ensures CompleteFrame(text + rest, name) == CompleteFrame(text, name)
  {
    hide HeadAt;
    var s := FirstHead(text, 0, name).value;
    var tag := EndTag(HeadAt(text, s, name).value.prefix, name);
    var q := Find(text, tag, s, |text|).value;
    EndTagAfterHead(text, s, name, HeadAt(text, s, name).value.prefix, q);
    HeadIsOneName(text, s, name, q);
    HeadSettled(text, rest, s, name, q);
    FirstHeadSettled(text, rest, name, q);
    FindExtended(text, rest, tag, s);
  }

  // ----- bytes in which no frame starts

  lemma {:induction false} FirstHeadShifted(gone: Text, text: Text, name: Text)
    requires forall i: nat :: i < |gone| ==> HeadAt(gone + text, i, name).None?
    ensures var r := FirstHead(text, 0, name);
      FirstHead(gone + text, 0, name) == if r.None? then None else Some(|gone| + r.value)
  {
    hide HeadAt;
    var r := FirstHead(text, 0, name);
    forall i: nat ensures HeadAt(gone + text, |gone| + i, name).Some? == HeadAt(text, i, name).Some? {
      HeadShifted(gone, text, i, name);
    }
    var whole := FirstHead(gone + text, 0, name);
    if whole.Some? && r.None? {
      var i: nat := whole.value - |gone|;
      HeadShifted(gone, text, i, name);
      assert false;
    }
    if r.Some? {
      forall i: nat | i < |gone| + r.value ensures HeadAt(gone + text, i, name).None? {
        if i >= |gone| { assert HeadAt(text, i - |gone|, name).None? && i == |gone| + (i - |gone|); }
      }
      FirstHeadIs(gone + text, name, |gone| + r.value);
    }
  }

  lemma {:induction false} FindShifted(gone: Text, text: Text, word: Text, from: nat)
    ensures var r := Find(text, word, from, |text|);
      Find(gone + text, word, |gone| + from, |gone + text|) == if r.None? then None else Some(|gone| + r.value)
  {
    hide At;
    var r := Find(text, word, from, |text|);
    forall i: nat ensures At(gone + text, |gone| + i, word) == At(text, i, word) { AtShifted(gone, text, i, word); }
    var whole := Find(gone + text, word, |gone| + from, |gone + text|);
    if whole.Some? && r.None? {
      var i: nat := whole.value - |gone|;
      AtShifted(gone, text, i, word);
      assert false;
    }
    if r.Some? {
      forall i: nat | |gone| + from <= i < |gone| + r.value ensures !At(gone + text, i, word) {
        assert !At(text, i - |gone|, word) && i == |gone| + (i - |gone|);
      }
      FindIs(gone + text, word, |gone| + from, |gone| + r.value);
    }
  }

  /** Bytes in which no frame starts are copied. */
  lemma {:induction false} CopiedBefore(gone: Text, text: Text, name: Text, outcome: Outcome, out: Text)
    requires forall i: nat :: i < |gone| ==> HeadAt(gone + text, i, name).None?
    requires Rewrites(text, name, outcome, out)
    ensures Rewrites(gone + text, name, outcome, gone + out)
  {
    hide HeadAt, CompleteFrame, Rewrites;
    CompleteShifted(gone, text, name);
    RewriteShifted(gone, text, name, outcome, out);
  }

  lemma {:induction false} CompleteShifted(gone: Text, text: Text, name: Text)
    requires forall i: nat :: i < |gone| ==> HeadAt(gone + text, i, name).None?
    ensures CompleteFrame(gone + text, name) == MovedFrame(CompleteFrame(text, name), |gone|)
  {
    hide HeadAt, FirstHead, Find, EndTag;
    FirstHeadShifted(gone, text, name);
    var s := FirstHead(text, 0, name);
    if s.Some? {
      HeadShifted(gone, text, s.value, name);
      var prefix := HeadAt(text, s.value, name).value.prefix;
      FindShifted(gone, text, EndTag(prefix, name), s.value);
    }
  }

  function MovedFrame(frame: Option<Frame>, n: nat): Option<Frame> {
    if frame.None? then None else Some(Frame(n + frame.value.start, n + frame.value.end, frame.value.prefix))
  }

  lemma {:induction false} SlicedAfter(gone: Text, text: Text, s: nat, e: nat)
    requires s <= e <= |text|
    ensures (gone + text)[..|gone| + s] == gone + text[..s]
    ensures (gone + text)[|gone| + s..|gone| + e] == text[s..e] && (gone + text)[|gone| + e..] == text[e..]
  {
  }

  lemma {:induction false} RewriteAt(doc: Text, name: Text, outcome: Outcome, f: Frame, written: Text, rest: Text)
    requires CompleteFrame(doc, name) == Some(f) && outcome(doc[f.start..f.end], f.prefix, written)
    requires Rewrites(doc[f.end..], name, outcome, rest)
    ensures Rewrites(doc, name, outcome, doc[..f.start] + written + rest)
  {
  }

  /** What was written for the first frame, and after it. */
  lemma {:induction false} FirstWritten(doc: Text, name: Text, outcome: Outcome, f: Frame, out: Text)
    returns (written: Text, rest: Text)
    requires CompleteFrame(doc, name) == Some(f) && Rewrites(doc, name, outcome, out)
    ensures outcome(doc[f.start..f.end], f.prefix, written) && Rewrites(doc[f.end..], name, outcome, rest)
    ensures out == doc[..f.start] + written + rest
  {
    hide CompleteFrame;
    written, rest :| outcome(doc[f.start..f.end], f.prefix, written) && Rewrites(doc[f.end..], name, outcome, rest)
      && out == doc[..f.start] + written + rest;
  }

  lemma {:induction false} RewriteShifted(gone: Text, text: Text, name: Text, outcome: Outcome, out: Text)
    requires CompleteFrame(gone + text, name) == MovedFrame(CompleteFrame(text, name), |gone|)
    requires Rewrites(text, name, outcome, out)
    ensures Rewrites(gone + text, name, outcome, gone + out)
  {
    hide CompleteFrame;
    var frame := CompleteFrame(text, name);
    if frame.Some? { FrameShifted(gone, text, name, outcome, frame.value, out); }
  }

  lemma {:induction false} FrameShifted(gone: Text, text: Text, name: Text, outcome: Outcome, f: Frame, out: Text)
    requires CompleteFrame(text, name) == Some(f) && Rewrites(text, name, outcome, out)
    requires CompleteFrame(gone + text, name) == MovedFrame(Some(f), |gone|)
    ensures Rewrites(gone + text, name, outcome, gone + out)
  {
    hide CompleteFrame, Rewrites;
    var written, rest := FirstWritten(text, name, outcome, f, out);
    SlicedAfter(gone, text, f.start, f.end);
    RewriteAt(gone + text, name, outcome, Frame(|gone| + f.start, |gone| + f.end, f.prefix), written, rest);
    JoinedAfter(gone, text[..f.start], written, rest);
  }

  lemma {:induction false} JoinedAfter(gone: Text, a: Text, b: Text, c: Text)
    ensures gone + a + b + c == gone + (a + b + c)
  {
  }

  // ----- starts of frames no longer than the tail kept

  ghost predicate ShortIn(text: Text, name: Text) {
    forall i: nat :: EndsBy(HeadAt(text, i, name), i + 256)
  }

  /** No start of a frame, as far as it has been read at any moment, is longer
      than the tail kept. */
  ghost predicate HeadsShort(doc: Text, name: Text) {
    forall n: nat :: n <= |doc| ==> ShortIn(doc[..n], name)
  }

  lemma {:induction false} ShortHere(gone: Text, text: Text, rest: Text, name: Text)
    requires HeadsShort(gone + text + rest, name)
    ensures ShortIn(text, name) && ShortIn(text + rest, name)
  {
    var doc := gone + text + rest;
    forall i: nat ensures EndsBy(HeadAt(text, i, name), i + TAIL_KEEP) {
      assert doc[..|gone| + |text|] == gone + text;
      HeadShifted(gone, text, i, name);
      assert EndsBy(HeadAt(gone + text, |gone| + i, name), |gone| + i + TAIL_KEEP);
    }
    forall i: nat ensures EndsBy(HeadAt(text + rest, i, name), i + TAIL_KEEP) {
      assert doc[..|doc|] == gone + (text + rest);
      HeadShifted(gone, text + rest, i, name);
      assert EndsBy(HeadAt(gone + (text + rest), |gone| + i, name), |gone| + i + TAIL_KEEP);
    }
  }

  /** What is written while no frame has started can hold no start. */
  lemma {:induction false} NoHeadInFlushed(text: Text, rest: Text, name: Text, i: nat)
    requires ShortIn(text, name) && ShortIn(text + rest, name)
    requires FirstHead(text, 0, name).None? && i + TAIL_KEEP < |text|
    ensures HeadAt(text + rest, i, name).None?
  {
    HeadExtended(text, rest, i, name, i + TAIL_KEEP);
  }

  lemma {:induction false} FlushedIsCopied(
    text: Text, rest: Text, name: Text, keep: nat, outcome: Outcome, out: Text)
    requires ShortIn(text, name) && ShortIn(text + rest, name) && FirstHead(text, 0, name).None?
    requires keep == Min(|text|, TAIL_KEEP) && Rewrites(text[|text| - keep..] + rest, name, outcome, out)
    ensures Rewrites(text + rest, name, outcome, text[..|text| - keep] + out)
  {
    hide HeadAt, Rewrites;
    var gone, kept := text[..|text| - keep], text[|text| - keep..];
    assert text + rest == gone + (kept + rest);
    forall i: nat | i < |gone| ensures HeadAt(gone + (kept + rest), i, name).None? {
      NoHeadInFlushed(text, rest, name, i);
    }
    CopiedBefore(gone, kept + rest, name, outcome, out);
  }
}
