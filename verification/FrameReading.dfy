/** The parts read out of a frame's bytes (app/netex_calendar.py): the elements
    the calendar uses, one after the other. What a single element says is read
    by functions given. */
module FrameReading {
  import opened Bytes
  import opened CalendarSpec
  import opened FrameEdit
  import opened FrameTags
  import FrameStream

  /** The names of the definitions and of an assignment, and how the bytes of
      one such element are read. */
  datatype Reading = Reading(
    definitions: seq<Text>, assignment: Text, toDefinition: Text -> Definition, toAssignment: Text -> Assignment)

  /** A prefix, the names of the elements, and their reading. */
  datatype Tags = Tags(prefix: Text, names: Names, reading: Reading)

  ghost predicate IsOther(names: Names, name: Text) {
    FrameStream.IsName(name) && name != names.block && name != names.periods && name != names.frame
  }

  ghost predicate AreElements(names: Names, reading: Reading) {
    && AreNames(names) && IsOther(names, reading.assignment)
    && forall name <- reading.definitions :: IsOther(names, name)
  }

  ghost predicate AreTags(t: Tags) { IsPrefix(t.prefix) && AreElements(t.names, t.reading) }

  function BlockName(t: Tags): Text { Qualified(t.prefix, t.names.block) }

  function Open(t: Tags): Pattern { BlockOpen(t.prefix, t.names) }

  function Close(t: Tags): Pattern { BlockClose(t.prefix, t.names) }

  function PeriodsTag(t: Tags): Pattern { PeriodsClose(t.prefix, t.names) }

  function EndOfFrame(t: Tags): Text { FrameStream.EndTag(t.prefix, t.names.frame) }

  // ----- elements

  /** Where the element that begins the text ends. */
  function ElementEnd(name: Text, text: Text): (r: Option<nat>)
    ensures r.Some? ==> 0 < r.value <= |text|
  {
    var open := MatchAt(Opening(name), text, 0);
    if open.None? then None
    else if open.value.slash then Some(open.value.end)
    else
      var close := Search(Closing(name), text[open.value.end..]);
      if close.None? then None else Some(open.value.end + close.value.hit.end)
  }

  /** An element from its first byte to its last. */
  ghost predicate IsElement(name: Text, s: Text) { Whole(s) && ElementEnd(name, s) == Some(|s|) }

  /** The element of the first of the names that begins the text. */
  function AnyEnd(prefix: Text, names: seq<Text>, text: Text): (r: Option<nat>)
    ensures r.Some? ==> 0 < r.value <= |text|
  {
    if names == [] then None
    else
      var end := ElementEnd(Qualified(prefix, names[0]), text);
      if end.Some? then end else AnyEnd(prefix, names[1..], text)
  }

  // ----- the parts of a frame

  /** The assignments of a block, in order. */
  function AssignmentsRead(t: Tags, text: Text): seq<Assignment>
    decreases |text|
  {
    if text == [] then []
    else
      var end := ElementEnd(Qualified(t.prefix, t.reading.assignment), text);
      if end.None? then AssignmentsRead(t, text[1..])
      else [t.reading.toAssignment(text[..end.value])] + AssignmentsRead(t, text[end.value..])
  }

  /** The part that begins the text, and where it ends. */
  function PartAt(t: Tags, text: Text): (r: Option<(Part, nat)>)
    ensures r.Some? ==> 0 < r.value.1 <= |text|
  {
    var block := ElementEnd(BlockName(t), text);
    if block.Some? then Some((Block(AssignmentsRead(t, text[..block.value])), block.value))
    else
      var def := AnyEnd(t.prefix, t.reading.definitions, text);
      if def.Some? then Some((Def(t.reading.toDefinition(text[..def.value])), def.value))
      else
        var end := MatchAt(PeriodsTag(t), text, 0);
        if end.Some? then Some((PeriodsEnd, end.value.end)) else None
  }

  /** The parts, in order. */
  function PartsRead(t: Tags, text: Text): seq<Part>
    decreases |text|
  {
    if text == [] then []
    else
      var part := PartAt(t, text);
      if part.None? then PartsRead(t, text[1..]) else [part.value.0] + PartsRead(t, text[part.value.1..])
  }

  // ----- bytes in which nothing is read

  ghost predicate NoDefinition(t: Tags, s: Text) {
    forall name <- t.reading.definitions :: Free(Opening(Qualified(t.prefix, name)), s)
  }

  /** No block begins and no container of periods ends here. */
  ghost predicate Quiet(t: Tags, s: Text) { Free(Open(t), s) && Free(PeriodsTag(t), s) }

  /** Nor does a definition begin. */
  ghost predicate Silent(t: Tags, s: Text) { Quiet(t, s) && NoDefinition(t, s) }

  lemma {:induction false} FreeFrom(p: Pattern, s: Text)
    requires Free(p, s) && s != []
    ensures Free(p, s[1..])
  {
    hide MatchAt;
    WholeFrom(s, 1);
    forall i: nat | i < |s[1..]| ensures MatchAt(p, s[1..], i).None? {
      assert s == [s[0]] + s[1..];
      var k := 1 + i;
      MatchShifted(p, [s[0]], s[1..], i);
    }
  }

  lemma {:induction false} WholeFrom(s: Text, n: nat)
    requires Whole(s) && n <= |s|
    ensures Whole(s[n..])
  {
    forall i | 0 <= i < |s[n..]| && s[n..][i] == LT ensures ClosedAfter(s[n..], i) {
      assert s[n + i] == LT && ClosedAfter(s, n + i);
      var j :| n + i < j < |s| && s[j] == GT;
      assert s[n..][j - n] == GT;
    }
  }

  lemma {:induction false} FreeAtStart(p: Pattern, s: Text, rest: Text)
    requires IsTagName(p.name) && Free(p, s) && s != []
    ensures MatchAt(p, s + rest, 0).None?
  {
    hide MatchAt, IsTagName, Whole;
    MatchInWhole(p, s, rest, 0);
  }

  lemma {:induction false} SilentFrom(t: Tags, s: Text)
    requires Silent(t, s) && s != []
    ensures Silent(t, s[1..])
  {
    hide Free;
    FreeFrom(Open(t), s);
    FreeFrom(PeriodsTag(t), s);
    forall name | name in t.reading.definitions ensures Free(Opening(Qualified(t.prefix, name)), s[1..]) {
      FreeFrom(Opening(Qualified(t.prefix, name)), s);
    }
  }

  lemma {:induction false} TagsAreNames(t: Tags)
    requires AreTags(t)
    ensures IsTagName(Open(t).name) && IsTagName(Close(t).name) && IsTagName(PeriodsTag(t).name)
    ensures IsTagName(Qualified(t.prefix, t.names.frame)) && IsTagName(Qualified(t.prefix, t.reading.assignment))
    ensures forall name <- t.reading.definitions :: IsTagName(Qualified(t.prefix, name))
  {
    hide IsPrefix, FrameStream.IsName, IsTagName, Qualified;
    QualifiedIsTagName(t.prefix, t.names.block);
    QualifiedIsTagName(t.prefix, t.names.periods);
    QualifiedIsTagName(t.prefix, t.names.frame);
    QualifiedIsTagName(t.prefix, t.reading.assignment);
    forall name | name in t.reading.definitions ensures IsTagName(Qualified(t.prefix, name)) {
      QualifiedIsTagName(t.prefix, name);
    }
  }

  lemma {:induction false} NoneBegins(prefix: Text, names: seq<Text>, text: Text)
    requires forall name <- names :: MatchAt(Opening(Qualified(prefix, name)), text, 0).None?
    ensures AnyEnd(prefix, names, text).None?
  {
    hide MatchAt, Qualified;
    if names != [] {
      assert names[0] in names;
      NoneBegins(prefix, names[1..], text);
    }
  }

  lemma {:induction false} NoPartAt(t: Tags, s: Text, rest: Text)
    requires AreTags(t) && Silent(t, s) && s != []
    ensures PartAt(t, s + rest).None?
  {
    hide MatchAt, IsTagName, AreTags, Free, Qualified;
    TagsAreNames(t);
    FreeAtStart(Open(t), s, rest);
    FreeAtStart(PeriodsTag(t), s, rest);
    forall name | name in t.reading.definitions ensures MatchAt(Opening(Qualified(t.prefix, name)), s + rest, 0).None? {
      FreeAtStart(Opening(Qualified(t.prefix, name)), s, rest);
    }
    NoneBegins(t.prefix, t.reading.definitions, s + rest);
  }

  lemma {:induction false} SilentSkipped(t: Tags, s: Text, rest: Text)
    requires AreTags(t) && Silent(t, s)
    ensures PartsRead(t, s + rest) == PartsRead(t, rest)
    decreases |s|
  {
    hide AreTags, Silent, PartAt;
    if s == [] {
      assert s + rest == rest;
    } else {
      NoPartAt(t, s, rest);
      SilentFrom(t, s);
      SilentSkipped(t, s[1..], rest);
      assert (s + rest)[1..] == s[1..] + rest;
    }
  }

  lemma {:induction false} OthersSkipped(t: Tags, s: Text, rest: Text)
    requires IsTagName(Qualified(t.prefix, t.reading.assignment))
    requires Free(Opening(Qualified(t.prefix, t.reading.assignment)), s)
    ensures AssignmentsRead(t, s + rest) == AssignmentsRead(t, rest)
    decreases |s|
  {
    hide IsTagName, MatchAt, Free, Qualified;
    var p := Opening(Qualified(t.prefix, t.reading.assignment));
    if s == [] {
      assert s + rest == rest;
    } else {
      FreeAtStart(p, s, rest);
      FreeFrom(p, s);
      OthersSkipped(t, s[1..], rest);
      assert (s + rest)[1..] == s[1..] + rest;
    }
  }

  // ----- bytes read as one part

  /** An element is read the same whatever follows. */
  lemma {:induction false} ElementStays(name: Text, s: Text, rest: Text)
    requires IsTagName(name) && IsElement(name, s)
    ensures ElementEnd(name, s + rest) == Some(|s|)
  {
    hide IsTagName, MatchAt, Whole, Search;
    MatchInWhole(Opening(name), s, rest, 0);
    var open := MatchAt(Opening(name), s, 0).value;
    HitInText(Opening(name), s);
    if !open.slash {
      WholeFrom(s, open.end);
      assert (s + rest)[open.end..] == s[open.end..] + rest;
      SearchHere(Closing(name), s[open.end..], rest);
    }
  }

  lemma {:induction false} HitInText(p: Pattern, text: Text)
    ensures MatchAt(p, text, 0).Some? ==> 0 < MatchAt(p, text, 0).value.end <= |text|
  {
  }

  /** A tag has one name. */
  lemma {:induction false} OneName(name: Text, other: Text, text: Text)
    requires Differs(name, other) && Differs(other, name)
    ensures MatchAt(Opening(name), text, 0).None? || MatchAt(Opening(other), text, 0).None?
  {
    hide TagEnd;
    if |name| <= |other| {
      ShorterName(name, other, text);
    } else {
      ShorterName(other, name, text);
    }
  }

  lemma {:induction false} ShorterName(name: Text, other: Text, text: Text)
    requires Differs(name, other) && |name| <= |other|
    ensures !(StartsAt(Opening(name), text, 0) && StartsAt(Opening(other), text, 0))
  {
    hide At;
    assert other[..|other|] == other;
    if At(text, 0, [LT] + name) && At(text, 0, [LT] + other) && 1 + |name| < |text| {
      forall k | 0 <= k < |name| ensures other[k] == name[k] {
        AtByte(text, 0, [LT] + name, 1 + k);
        AtByte(text, 0, [LT] + other, 1 + k);
      }
      assert other[..|name|] == name;
      if |name| < |other| {
        AtByte(text, 0, [LT] + other, 1 + |name|);
        assert text[1 + |name|] == other[|name|];
      }
    }
  }
}
