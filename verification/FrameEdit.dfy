/** Tags found in a frame read in chunks, and the frame written with edits
    (app/netex_calendar.py). */
module FrameEdit {
  import opened Bytes
  import FrameStream

  // ----- the expressions

  /** `<name\b[^>]*?(/?)>` and `</name\s*>`. */
  datatype Pattern = Opening(name: Text) | Closing(name: Text)

  /** A match: where it ends, and whether the tag closes itself. */
  datatype Hit = Hit(end: nat, slash: bool)

  /** A qualified name, which ends as a word. */
  ghost predicate IsTagName(name: Text) {
    name != [] && FrameStream.IsWord(name[|name| - 1]) && forall b <- name :: FrameStream.IsNameByte(b) || b == COLON
  }

  predicate IsSpace(b: byte) { b == SPACE || TAB <= b <= CR }

  function Lead(p: Pattern): (r: Text)
    ensures |r| > |p.name| && r[0] == LT
  {
    match p
    case Opening(name) => [LT] + name
    case Closing(name) => [LT, SLASH] + name
  }

  /** The `>` that ends the tag, after spaces only or after anything. */
  function TagEnd(text: Text, from: nat, onlySpaces: bool): (r: Option<nat>)
    ensures r.Some? ==> from <= r.value < |text| && text[r.value] == GT && forall k :: from <= k < r.value ==>
      text[k] != GT
    decreases |text| - from
  {
    if from >= |text| then None
    else if text[from] == GT then Some(from)
    else if onlySpaces && !IsSpace(text[from]) then None
    else TagEnd(text, from + 1, onlySpaces)
  }

  /** The tag's name stands here, and ends. */
  predicate StartsAt(p: Pattern, text: Text, at: nat) {
    var from := at + |Lead(p)|;
    At(text, at, Lead(p)) && from < |text| && (p.Opening? ==> !FrameStream.IsWord(text[from]))
  }

  /** The match that starts at `at`. */
  function MatchAt(p: Pattern, text: Text, at: nat): (r: Option<Hit>)
    ensures r.Some? ==> at + |p.name| + 1 < r.value.end <= |text|
  {
    if !StartsAt(p, text, at) then None
    else
      var end := TagEnd(text, at + |Lead(p)|, p.Closing?);
      if end.None? then None
      else Some(Hit(end.value + 1, p.Opening? && end.value > at + |Lead(p)| && text[end.value - 1] == SLASH))
  }

  datatype Found = Found(at: nat, hit: Hit)

  /** The leftmost match at or after `from`. */
  function SearchFrom(p: Pattern, text: Text, from: nat): (r: Option<Found>)
    ensures r.Some? ==> from <= r.value.at < |text| && MatchAt(p, text, r.value.at) == Some(r.value.hit)
    ensures forall i: nat :: from <= i < (if r.Some? then r.value.at else |text|) ==> MatchAt(p, text, i).None?
    decreases |text| - from
  {
    if from >= |text| then None
    else if MatchAt(p, text, from).Some? then Some(Found(from, MatchAt(p, text, from).value))
    else SearchFrom(p, text, from + 1)
  }

  function Search(p: Pattern, text: Text): Option<Found> { SearchFrom(p, text, 0) }

  function MovedHit(hit: Option<Hit>, n: nat): Option<Hit> {
    if hit.None? then None else Some(Hit(n + hit.value.end, hit.value.slash))
  }

  function MovedFound(found: Option<Found>, n: nat): Option<Found> {
    if found.None? then None else Some(Found(n + found.value.at, Hit(n + found.value.hit.end, found.value.hit.slash)))
  }

  lemma {:induction false} SearchIs(p: Pattern, text: Text, at: nat)
    requires at < |text| && MatchAt(p, text, at).Some? && forall i: nat :: i < at ==> MatchAt(p, text, i).None?
    ensures Search(p, text) == Some(Found(at, MatchAt(p, text, at).value))
  {
  }

  // ----- a match depends on its own bytes

  lemma {:induction false} AtSliced(text: Text, a: nat, b: nat, i: nat, word: Text)
    requires a <= b <= |text|
    ensures At(text[a..b], i, word) <==> At(text, a + i, word) && a + i + |word| <= b
  {
    if At(text, a + i, word) && a + i + |word| <= b {
      forall k | 0 <= k < |word| ensures text[a..b][i + k] == word[k] { assert text[a + i + k] == word[k]; }
    }
    if At(text[a..b], i, word) {
      forall k | 0 <= k < |word| ensures text[a + i + k] == word[k] { assert text[a..b][i + k] == word[k]; }
    }
  }

  lemma {:induction false} TagEndSliced(text: Text, a: nat, b: nat, from: nat, onlySpaces: bool)
    requires a <= b <= |text|
    ensures var here, whole := TagEnd(text[a..b], from, onlySpaces), TagEnd(text, a + from, onlySpaces);
      && (here.Some? ==> whole == Some(a + here.value))
      && (whole.Some? && whole.value < b ==> here == Some(whole.value - a))
    decreases b - a - from
  {
    if from < b - a {
      assert text[a..b][from] == text[a + from];
      TagEndSliced(text, a, b, from + 1, onlySpaces);
    }
  }

  /** A slice has the matches that end within it. */
  lemma {:induction false} MatchSliced(p: Pattern, text: Text, a: nat, b: nat, i: nat)
    requires a <= b <= |text|
    ensures var here, whole := MatchAt(p, text[a..b], i), MatchAt(p, text, a + i);
      && (here.Some? ==> whole == MovedHit(here, a) && whole.value.end <= b)
      && (whole.Some? && whole.value.end <= b ==> whole == MovedHit(here, a))
  {
    hide StartsAt, TagEnd, Lead;
    var from := i + |Lead(p)|;
    StartsSliced(p, text, a, b, i);
    TagEndSliced(text, a, b, from, p.Closing?);
    var whole := TagEnd(text, a + from, p.Closing?);
    if whole.Some? && a + from < whole.value < b { assert text[a..b][whole.value - 1 - a] == text[whole.value - 1]; }
  }

  lemma {:induction false} StartsSliced(p: Pattern, text: Text, a: nat, b: nat, i: nat)
    requires a <= b <= |text|
    ensures StartsAt(p, text[a..b], i) <==> StartsAt(p, text, a + i) && a + i + |Lead(p)| < b
  {
    hide At, Lead, FrameStream.IsWord;
    var from := i + |Lead(p)|;
    AtSliced(text, a, b, i, Lead(p));
    if from < b - a { assert text[a..b][from] == text[a + from]; }
  }

  /** Of two matches the earlier does not end later. */
  lemma {:induction false} EndsInOrder(p: Pattern, text: Text, i: nat, j: nat)
    requires IsTagName(p.name) && i < j && MatchAt(p, text, i).Some? && MatchAt(p, text, j).Some?
    ensures MatchAt(p, text, i).value.end <= MatchAt(p, text, j).value.end
  {
    var n := |Lead(p)|;
    AtByte(text, j, Lead(p), 0);
    if j < i + n {
      AtByte(text, i, Lead(p), j - i);
      LeadByte(p, j - i);
    }
  }

  /** The name holds no markup. */
  lemma {:induction false} LeadByte(p: Pattern, k: nat)
    requires IsTagName(p.name) && 0 < k < |Lead(p)|
    ensures Lead(p)[k] != LT && Lead(p)[k] != GT
  {
    if p.Opening? {
      assert Lead(p)[k] == p.name[k - 1] && p.name[k - 1] in p.name;
    } else if k > 1 {
      assert Lead(p)[k] == p.name[k - 2] && p.name[k - 2] in p.name;
    }
  }

  // ----- the search in chunks

  predicate IsShort(found: Option<Found>) {
    found.Some? ==> found.value.hit.end - found.value.at <= 256
  }

  /** The first match ends by `q`. */
  predicate DoneBy(found: Option<Found>, q: nat) { found.Some? && found.value.hit.end <= q }

  /** With the last bytes kept, the next chunk shows the first match as soon as
      it is complete. */
  lemma {:induction false} FindStep(p: Pattern, text: Text, base: nat, pos: nat, q: nat)
    requires IsTagName(p.name) && base <= pos <= q <= |text| && base <= Max(0, pos - FrameStream.TAIL_KEEP)
    requires IsShort(Search(p, text)) && !DoneBy(Search(p, text), pos)
    ensures MovedFound(Search(p, text[base..q]), base) == if DoneBy(Search(p, text), q) then Search(p, text) else None
  {
    hide MatchAt;
    var first, buf := Search(p, text), text[base..q];
    if DoneBy(first, q) {
      var at := first.value.at;
      MatchSliced(p, text, base, q, at - base);
      forall i: nat | i < at - base ensures MatchAt(p, buf, i).None? { MatchSliced(p, text, base, q, i); }
      SearchIs(p, buf, at - base);
    } else {
      var here := Search(p, buf);
      if here.Some? { NotInSlice(p, text, base, q, here.value.at); }
    }
  }

  lemma {:induction false} NotInSlice(p: Pattern, text: Text, base: nat, q: nat, i: nat)
    requires IsTagName(p.name) && base <= q <= |text| && !DoneBy(Search(p, text), q)
    ensures MatchAt(p, text[base..q], i).None?
  {
    hide MatchAt;
    MatchSliced(p, text, base, q, i);
    var first := Search(p, text);
    if MatchAt(p, text[base..q], i).Some? && first.Some? && first.value.at < base + i {
      EndsInOrder(p, text, first.value.at, base + i);
    }
  }

  /** `_find`: the first match in the bytes [start, end), read in chunks. */
  method FindTag(src: Text, start: nat, end: nat, p: Pattern, chunk: nat) returns (r: Option<Found>)
    requires IsTagName(p.name) && start <= end <= |src| && chunk > 0 && IsShort(Search(p, src[start..end]))
    ensures r == MovedFound(Search(p, src[start..end]), start)
  {
    hide Search, IsTagName, IsShort;
    ghost var text := src[start..end];
    var pos, carry := start, [];
    NothingRead(p, text);
    while pos < end
      invariant start <= pos <= end && |carry| <= pos - start
        && (|carry| >= FrameStream.TAIL_KEEP || |carry| == pos - start)
      invariant carry == src[pos - |carry|..pos] && !DoneBy(Search(p, text), pos - start)
    {
      var n := Min(chunk, end - pos);
      var buf, base := carry + src[pos..pos + n], pos - |carry|;
      ChunkStep(p, src, start, end, base, pos, n);
      pos := pos + n;
      var m := Search(p, buf);
      if m.Some? { return MovedFound(m, base); }
      var cut := Max(0, |buf| - FrameStream.TAIL_KEEP);
      InRange(src, base, pos, base + cut, pos);
      carry := buf[cut..];
    }
    AllRead(p, text);
    r := None;
  }

  lemma {:induction false} ChunkStep(p: Pattern, src: Text, start: nat, end: nat, base: nat, pos: nat, n: nat)
    requires IsTagName(p.name) && start <= base <= pos <= pos + n <= end <= |src|
      && base - start <= Max(0, pos - start - FrameStream.TAIL_KEEP)
    requires var first := Search(p, src[start..end]); IsShort(first) && !DoneBy(first, pos - start)
    ensures src[base..pos] + src[pos..pos + n] == src[base..pos + n]
    ensures var first := Search(p, src[start..end]);
      MovedFound(Search(p, src[base..pos + n]), base) ==
        if DoneBy(first, pos + n - start) then MovedFound(first, start) else None
  {
    hide Search, IsTagName, DoneBy, IsShort;
    SliceMore(src, base, pos, n);
    InRange(src, start, end, base, pos + n);
    FindStep(p, src[start..end], base - start, pos - start, pos + n - start);
  }

  lemma {:induction false} InRange(src: Text, start: nat, end: nat, a: nat, b: nat)
    requires start <= a <= b <= end <= |src|
    ensures src[start..end][a - start..b - start] == src[a..b]
  {
    var range, n := src[start..end], a - start;
    assert |range[n..b - start]| == |src[a..b]|;
    forall k | 0 <= k < b - a ensures range[n..b - start][k] == src[a..b][k] {
      assert range[n + k] == src[start + (n + k)];
    }
  }

  lemma {:induction false} NothingRead(p: Pattern, text: Text)
    ensures !DoneBy(Search(p, text), 0)
  {
  }

  lemma {:induction false} AllRead(p: Pattern, text: Text)
    ensures Search(p, text).Some? ==> DoneBy(Search(p, text), |text|)
  {
  }

  // ----- the edits

  datatype Edit = Edit(a: nat, b: nat, text: Text)

  function Slice(src: Text, a: nat, b: nat): Text
    requires b <= |src|
  {
    if a < b then src[a..b] else []
  }

  /** The bytes from `pos` to `end` with each edit's bytes replaced. */
  function Edited(src: Text, pos: nat, end: nat, edits: seq<Edit>): Text
    requires end <= |src| && forall e <- edits :: e.a <= end
    decreases |edits|
  {
    if edits == [] then Slice(src, pos, end)
    else
      assert edits[0] in edits;
      Slice(src, pos, edits[0].a) + edits[0].text + Edited(src, edits[0].b, end, edits[1..])
  }

  /** `_copy_range`. */
  method CopyRange(src: Text, start: nat, end: nat, chunk: nat, dst: Text) returns (out: Text)
    requires end <= |src| && chunk > 0
    ensures out == dst + Slice(src, start, end)
  {
    out := dst;
    if start >= end { return; }
    var left := end - start;
    ghost var copied := [];
    while left > 0
      invariant 0 <= left <= end - start && copied == src[start..end - left] && out == dst + copied
    {
      var at, n := end - left, Min(chunk, left);
      SliceMore(src, start, at, n);
      copied := copied + src[at..at + n];
      out := out + src[at..at + n];
      left := left - n;
    }
  }

  lemma {:induction false} SliceMore(src: Text, start: nat, at: nat, n: nat)
    requires start <= at && at + n <= |src|
    ensures src[start..at] + src[at..at + n] == src[start..at + n]
  {
  }

  /** `_copy_edited`. */
  method CopyEdited(src: Text, start: nat, end: nat, edits: seq<Edit>, chunk: nat) returns (out: Text)
    requires end <= |src| && chunk > 0 && forall e <- edits :: e.a <= end
    ensures out == Edited(src, start, end, edits)
  {
    hide Edited, Slice;
    out := [];
    var pos := start;
    assert edits[0..] == edits;
    for i := 0 to |edits|
      invariant Edited(src, start, end, edits) == out + Edited(src, pos, end, edits[i..])
    {
      EditedStep(src, pos, end, edits, i, out);
      assert edits[i] in edits;
      out := CopyRange(src, pos, edits[i].a, chunk, out);
      out, pos := out + edits[i].text, edits[i].b;
    }
    EditedNone(src, pos, end);
    assert edits[|edits|..] == [];
    out := CopyRange(src, pos, end, chunk, out);
  }

  lemma {:induction false} EditedStep(src: Text, pos: nat, end: nat, edits: seq<Edit>, i: nat, out: Text)
    requires end <= |src| && i < |edits| && forall e <- edits :: e.a <= end
    ensures edits[i].a <= end
    ensures out + Edited(src, pos, end, edits[i..]) ==
      out + Slice(src, pos, edits[i].a) + edits[i].text + Edited(src, edits[i].b, end, edits[i + 1..])
  {
    hide Slice;
    var rest := edits[i..];
    assert rest[0] == edits[i] && rest[1..] == edits[i + 1..] && edits[i] in edits;
    var a, b, c := Slice(src, pos, edits[i].a), edits[i].text, Edited(src, edits[i].b, end, edits[i + 1..]);
    assert out + (a + b + c) == out + a + b + c;
  }

  lemma {:induction false} EditedNone(src: Text, pos: nat, end: nat)
    requires end <= |src|
    ensures Edited(src, pos, end, []) == Slice(src, pos, end)
  {
  }

  // ----- the frame rewritten

  /** The elements looked for, without their prefix. */
  datatype Names = Names(frame: Text, block: Text, periods: Text)

  ghost predicate AreNames(names: Names) {
    && FrameStream.IsName(names.frame) && FrameStream.IsName(names.block) && FrameStream.IsName(names.periods)
    && names.frame != names.periods && names.block != names.periods && names.block != names.frame
  }

  ghost predicate IsPrefix(prefix: Text) { forall b <- prefix :: FrameStream.IsNameByte(b) }

  function Qualified(prefix: Text, name: Text): Text { if prefix == [] then name else prefix + [COLON] + name }

  lemma {:induction false} QualifiedIsTagName(prefix: Text, name: Text)
    requires IsPrefix(prefix) && FrameStream.IsName(name)
    ensures IsTagName(Qualified(prefix, name))
  {
    var q := Qualified(prefix, name);
    assert q[|q| - 1] == name[|name| - 1] && name[|name| - 1] in name;
    forall b | b in q ensures FrameStream.IsNameByte(b) || b == COLON { assert b in prefix || b == COLON || b in name; }
  }

  function BlockOpen(prefix: Text, names: Names): Pattern { Opening(Qualified(prefix, names.block)) }

  function BlockClose(prefix: Text, names: Names): Pattern { Closing(Qualified(prefix, names.block)) }

  function PeriodsClose(prefix: Text, names: Names): Pattern { Closing(Qualified(prefix, names.periods)) }

  /** What is replaced: the first block, or nothing just before the end tag.
      None for a block that does not end. */
  function Span(frame: Text, prefix: Text, names: Names): (r: Option<(nat, nat)>)
    requires |FrameStream.EndTag(prefix, names.frame)| <= |frame|
    ensures r.Some? ==> r.value.0 <= r.value.1 <= |frame|
  {
    var block := Search(BlockOpen(prefix, names), frame);
    if block.None? then
      var close := |frame| - |FrameStream.EndTag(prefix, names.frame)|;
      Some((close, close))
    else if block.value.hit.slash then Some((block.value.at, block.value.hit.end))
    else
      var close := Search(BlockClose(prefix, names), frame[block.value.hit.end..]);
      if close.None? then None else Some((block.value.at, block.value.hit.end + close.value.hit.end))
  }

  /** The periods in a container of their own. */
  function InContainer(periods: Text, prefix: Text, names: Names): Text {
    var tag := Qualified(prefix, names.periods);
    [LT] + tag + [GT] + periods + [LT, SLASH] + tag + [GT]
  }

  predicate Precedes(x: Text, y: Text) {
    if x == [] || y == [] then x == [] && y != []
    else x[0] < y[0] || (x[0] == y[0] && Precedes(x[1..], y[1..]))
  }

  predicate ComesFirst(x: Edit, y: Edit) {
    x.a < y.a || (x.a == y.a && (x.b < y.b || (x.b == y.b && Precedes(x.text, y.text))))
  }

  function SortedEdits(x: Edit, y: Edit): seq<Edit> { if ComesFirst(y, x) then [y, x] else [x, y] }

  function Edits(
    frame: Text, prefix: Text, names: Names, span: (nat, nat), periods: Text, assignments: Text): seq<Edit> {
    var end := Search(PeriodsClose(prefix, names), frame);
    if end.None? then [Edit(span.0, span.1, InContainer(periods, prefix, names) + assignments)]
    else SortedEdits(Edit(end.value.at, end.value.at, periods), Edit(span.0, span.1, assignments))
  }

  /** The frame with the periods and the assignments written in; None when its
      block does not end. */
  function Converted(frame: Text, prefix: Text, names: Names, periods: Text, assignments: Text): Option<Text>
    requires |FrameStream.EndTag(prefix, names.frame)| <= |frame|
  {
    var span := Span(frame, prefix, names);
    if span.None? then None
    else Some(Edited(frame, 0, |frame|, Edits(frame, prefix, names, span.value, periods, assignments)))
  }

  function MovedEdit(e: Edit, n: nat): Edit { Edit(n + e.a, n + e.b, e.text) }

  function MovedEdits(edits: seq<Edit>, n: nat): (r: seq<Edit>)
    ensures |r| == |edits| && forall i :: 0 <= i < |r| ==> r[i] == MovedEdit(edits[i], n)
  {
    seq(|edits|, i requires 0 <= i < |edits| => MovedEdit(edits[i], n))
  }

  lemma {:induction false} EditedInRange(src: Text, start: nat, end: nat, pos: nat, edits: seq<Edit>)
    requires start <= end <= |src| && forall e <- edits :: e.a <= end - start
    ensures forall e <- MovedEdits(edits, start) :: e.a <= end
    ensures Edited(src, start + pos, end, MovedEdits(edits, start)) == Edited(src[start..end], pos, end - start, edits)
    decreases |edits|
  {
    hide Slice, Edited;
    var moved, frame := MovedEdits(edits, start), src[start..end];
    if edits != [] {
      assert edits[0] in edits;
      assert moved[1..] == MovedEdits(edits[1..], start);
      SliceInRange(src, start, end, pos, edits[0].a);
      EditedInRange(src, start, end, edits[0].b, edits[1..]);
      assert edits[0..] == edits && moved[0..] == moved;
      EditedStep(src, start + pos, end, moved, 0, []);
      EditedStep(frame, pos, end - start, edits, 0, []);
      NothingBefore(Edited(src, start + pos, end, moved));
      NothingBefore(Edited(frame, pos, end - start, edits));
    } else {
      SliceInRange(src, start, end, pos, end - start);
      EditedNone(src, start + pos, end);
      EditedNone(frame, pos, end - start);
    }
  }

  lemma {:induction false} NothingBefore(text: Text)
    ensures [] + text == text
  {
  }

  lemma {:induction false} SliceInRange(src: Text, start: nat, end: nat, a: nat, b: nat)
    requires start <= end <= |src| && b <= end - start
    ensures Slice(src, start + a, start + b) == Slice(src[start..end], a, b)
  {
    if a < b { InRange(src, start, end, start + a, start + b); }
  }

  /** Every tag looked for fits in the bytes kept between chunks. */
  ghost predicate ShortTags(frame: Text, prefix: Text, names: Names) {
    && ShortMatches(BlockOpen(prefix, names), frame) && ShortMatches(BlockClose(prefix, names), frame)
    && ShortMatches(PeriodsClose(prefix, names), frame)
  }

  ghost predicate ShortMatches(p: Pattern, text: Text) {
    forall i: nat :: MatchAt(p, text, i).Some? ==> MatchAt(p, text, i).value.end - i <= 256
  }

  lemma {:induction false} ShortSearch(p: Pattern, text: Text, from: nat)
    requires ShortMatches(p, text) && from <= |text|
    ensures IsShort(Search(p, text[from..]))
  {
    hide MatchAt;
    var r := Search(p, text[from..]);
    assert text[from..|text|] == text[from..];
    if r.Some? { MatchSliced(p, text, from, |text|, r.value.at); }
  }

  method FindSpan(
    src: Text, start: nat, end: nat, prefix: Text, names: Names, chunk: nat)
    returns (r: Option<(nat, nat)>)
    requires start <= end <= |src| && chunk > 0 && IsPrefix(prefix) && AreNames(names)
    requires |FrameStream.EndTag(prefix, names.frame)| <= end - start && ShortTags(src[start..end], prefix, names)
    ensures var span := Span(src[start..end], prefix, names);
      r == if span.None? then None else Some((start + span.value.0, start + span.value.1))
  {
    hide Search, IsTagName, MatchAt, ShortMatches, IsPrefix, FrameStream.EndTag, FrameStream.IsName, Qualified;
    ghost var frame := src[start..end];
    QualifiedIsTagName(prefix, names.block);
    assert frame[0..] == frame;
    ShortSearch(BlockOpen(prefix, names), frame, 0);
    var block := FindTag(src, start, end, BlockOpen(prefix, names), chunk);
    if block.None? {
      var close := end - |FrameStream.EndTag(prefix, names.frame)|;
      return Some((close, close));
    }
    if block.value.hit.slash { return Some((block.value.at, block.value.hit.end)); }
    var from := block.value.hit.end;
    SearchInRange(BlockOpen(prefix, names), frame);
    assert src[from..end] == frame[from - start..];
    ShortSearch(BlockClose(prefix, names), frame, from - start);
    var close := FindTag(src, from, end, BlockClose(prefix, names), chunk);
    if close.None? { return None; }
    return Some((block.value.at, close.value.hit.end));
  }

  /** `_write_converted`. */
  method WriteConverted(
    src: Text, start: nat, end: nat, prefix: Text, names: Names, periods: Text, assignments: Text, chunk: nat)
    returns (out: Option<Text>)
    requires start <= end <= |src| && chunk > 0 && IsPrefix(prefix) && AreNames(names)
    requires |FrameStream.EndTag(prefix, names.frame)| <= end - start && ShortTags(src[start..end], prefix, names)
    ensures out == Converted(src[start..end], prefix, names, periods, assignments)
  {
    hide Search, IsTagName, MatchAt, ShortMatches, IsPrefix, Edited, FrameStream.EndTag, FrameStream.IsName, Qualified,
      Span, ComesFirst, InContainer, SortedEdits;
    ghost var frame := src[start..end];
    var span := FindSpan(src, start, end, prefix, names, chunk);
    if span.None? { return None; }
    var (a, b) := span.value;
    QualifiedIsTagName(prefix, names.periods);
    assert frame[0..] == frame;
    ShortSearch(PeriodsClose(prefix, names), frame, 0);
    var close := FindTag(src, start, end, PeriodsClose(prefix, names), chunk);
    SearchInRange(PeriodsClose(prefix, names), frame);
    var edits := if close.None? then [Edit(a, b, InContainer(periods, prefix, names) + assignments)]
      else SortedEdits(Edit(close.value.at, close.value.at, periods), Edit(a, b, assignments));
    ghost var theirs := Edits(frame, prefix, names, (a - start, b - start), periods, assignments);
    if close.Some? {
      SortedEditsMove(
        Edit(close.value.at - start, close.value.at - start, periods), Edit(a - start, b - start, assignments), start);
    }
    assert edits == MovedEdits(theirs, start);
    EditedInRange(src, start, end, 0, theirs);
    var text := CopyEdited(src, start, end, edits, chunk);
    return Some(text);
  }

  lemma {:induction false} SortedEditsMove(x: Edit, y: Edit, n: nat)
    ensures SortedEdits(MovedEdit(x, n), MovedEdit(y, n)) == MovedEdits(SortedEdits(x, y), n)
    ensures forall e <- SortedEdits(x, y) :: e == x || e == y
  {
  }

  lemma {:induction false} SearchInRange(p: Pattern, text: Text)
    ensures Search(p, text).Some? ==> Search(p, text).value.at < Search(p, text).value.hit.end <= |text|
  {
  }
}
