/** The elements `render` writes (app/netex_calendar.py), as bytes: the tags of
    the source, around what the libraries quote and format. */
module FrameRender {
  import opened Bytes
  import opened CalendarSpec
  import opened CalendarMotis
  import opened FrameEdit
  import opened FrameTags
  import opened FrameReading
  import opened FramePieces
  import FrameStream

  // ----- the names

  const FRAME: Text := [
    0x53, 0x65, 0x72, 0x76, 0x69, 0x63, 0x65, 0x43, 0x61, 0x6C, 0x65, 0x6E, 0x64, 0x61, 0x72, 0x46, 0x72, 0x61, 0x6D,
      0x65]
  const BLOCK: Text := [
    0x64, 0x61, 0x79, 0x54, 0x79, 0x70, 0x65, 0x41, 0x73, 0x73, 0x69, 0x67, 0x6E, 0x6D, 0x65, 0x6E, 0x74, 0x73]
  const PERIODS: Text := [
    0x6F, 0x70, 0x65, 0x72, 0x61, 0x74, 0x69, 0x6E, 0x67, 0x50, 0x65, 0x72, 0x69, 0x6F, 0x64, 0x73]
  const OPERATING_DAY: Text := [0x4F, 0x70, 0x65, 0x72, 0x61, 0x74, 0x69, 0x6E, 0x67, 0x44, 0x61, 0x79]
  const OPERATING_PERIOD: Text := [
    0x4F, 0x70, 0x65, 0x72, 0x61, 0x74, 0x69, 0x6E, 0x67, 0x50, 0x65, 0x72, 0x69, 0x6F, 0x64]
  const UIC_PERIOD: Text := [
    0x55, 0x69, 0x63, 0x4F, 0x70, 0x65, 0x72, 0x61, 0x74, 0x69, 0x6E, 0x67, 0x50, 0x65, 0x72, 0x69, 0x6F, 0x64]
  const DAY_TYPE: Text := [0x44, 0x61, 0x79, 0x54, 0x79, 0x70, 0x65]
  const ASSIGNMENT: Text := [
    0x44, 0x61, 0x79, 0x54, 0x79, 0x70, 0x65, 0x41, 0x73, 0x73, 0x69, 0x67, 0x6E, 0x6D, 0x65, 0x6E, 0x74]
  const FROM_DATE: Text := [0x46, 0x72, 0x6F, 0x6D, 0x44, 0x61, 0x74, 0x65]
  const TO_DATE: Text := [0x54, 0x6F, 0x44, 0x61, 0x74, 0x65]
  const DAY_BITS: Text := [0x56, 0x61, 0x6C, 0x69, 0x64, 0x44, 0x61, 0x79, 0x42, 0x69, 0x74, 0x73]
  const PERIOD_REF: Text := [
    0x4F, 0x70, 0x65, 0x72, 0x61, 0x74, 0x69, 0x6E, 0x67, 0x50, 0x65, 0x72, 0x69, 0x6F, 0x64, 0x52, 0x65, 0x66]
  const DAY_TYPE_REF: Text := [0x44, 0x61, 0x79, 0x54, 0x79, 0x70, 0x65, 0x52, 0x65, 0x66]

  const NAMES: Names := Names(FRAME, BLOCK, PERIODS)
  const DEFINITIONS: seq<Text> := [OPERATING_DAY, OPERATING_PERIOD, UIC_PERIOD, DAY_TYPE]

  /** ` version="1" id=`, ` order="1"`, ` ref=` and the end of a midnight. */
  const VERSION_AND_ID: Text := [
    0x76, 0x65, 0x72, 0x73, 0x69, 0x6F, 0x6E, 0x3D, 0x22, 0x31, 0x22, 0x20, 0x69, 0x64, 0x3D]
  const ORDER: Text := [0x20, 0x6F, 0x72, 0x64, 0x65, 0x72, 0x3D, 0x22, 0x31, 0x22]
  const REF: Text := [0x72, 0x65, 0x66, 0x3D]
  const MIDNIGHT: Text := [0x54, 0x30, 0x30, 0x3A, 0x30, 0x30, 0x3A, 0x30, 0x30]

  // ----- the libraries

  /** `quoteattr`, the ISO form of a date, and how the parser reads an element
      of the calendar. */
  datatype Library = Library(
    quoted: string -> Text, iso: int -> Text, toDefinition: Text -> Definition, toAssignment: Text -> Assignment)

  /** No tag begins here. */
  ghost predicate IsPlain(s: Text) { forall b <- s :: b != LT }

  /** A quoted value is in its quotes, and has no markup. */
  ghost predicate IsValue(s: Text) {
    s != [] && (s[|s| - 1] == DQUOTE || s[|s| - 1] == SQUOTE) && forall b <- s :: b != LT && b != GT
  }

  function TagsFor(lib: Library, prefix: Text): Tags {
    Tags(prefix, NAMES, Reading(DEFINITIONS, ASSIGNMENT, lib.toDefinition, lib.toAssignment))
  }

  // ----- the elements

  function StartTag(name: Text, attributes: Text): Text { [LT] + name + [SPACE] + attributes + [GT] }

  function EmptyTag(name: Text, attributes: Text): Text { [LT] + name + [SPACE] + attributes + [SLASH, GT] }

  function Child(name: Text, text: Text): Text { OpenTag(name) + (text + CloseTag(name)) }

  function BitsText(bits: string): (r: Text)
    ensures |r| == |bits| && IsPlain(r)
  {
    seq(|bits|, i requires 0 <= i < |bits| => if bits[i] == '0' then 0x30 else 0x31)
  }

  function PeriodInner(lib: Library, prefix: Text, p: Period): Text
    requires p.start.Some? && p.end.Some?
  {
    Child(Qualified(prefix, FROM_DATE), lib.iso(p.start.value) + MIDNIGHT)
    + (Child(Qualified(prefix, TO_DATE), lib.iso(p.end.value) + MIDNIGHT)
       + Child(Qualified(prefix, DAY_BITS), BitsText(p.bits)))
  }

  function PeriodXml(lib: Library, prefix: Text, d: Definition): Text {
    if IsWritten(d) then
      var name := Qualified(prefix, UIC_PERIOD);
      StartTag(name, VERSION_AND_ID + lib.quoted(d.id)) + (PeriodInner(lib, prefix, d.period) + CloseTag(name))
    else []
  }

  const ASSIGNMENT_PREFIX := "VIATOR:DayTypeAssignment:"

  function AssignmentInner(lib: Library, prefix: Text, a: Assignment): Text {
    EmptyTag(Qualified(prefix, PERIOD_REF), REF + lib.quoted(a.period))
    + EmptyTag(Qualified(prefix, DAY_TYPE_REF), REF + lib.quoted(a.dayType))
  }

  function AssignmentXml(lib: Library, prefix: Text, a: Assignment): Text {
    var name := Qualified(prefix, ASSIGNMENT);
    StartTag(name, VERSION_AND_ID + lib.quoted(ASSIGNMENT_PREFIX + a.dayType) + ORDER)
    + (AssignmentInner(lib, prefix, a) + CloseTag(name))
  }

  function ShowFor(lib: Library, prefix: Text): Show {
    Show((d: Definition) => PeriodXml(lib, prefix, d), (a: Assignment) => AssignmentXml(lib, prefix, a))
  }

  /** What the libraries are relied on for: values without markup, and a parser
      that reads the elements written as what they were written for. */
  ghost predicate IsLibrary(lib: Library) {
    && (forall s :: IsValue(lib.quoted(s)))
    && (forall n :: IsPlain(lib.iso(n)))
    && (forall prefix, d :: IsPrefix(prefix) && IsWritten(d) ==> lib.toDefinition(PeriodXml(lib, prefix, d)) == d)
    && (forall prefix, dt :: IsPrefix(prefix) ==>
          lib.toAssignment(AssignmentXml(lib, prefix, NewAssignment(dt))) == NewAssignment(dt))
  }

  // ----- the names differ

  lemma FrameName()
    ensures FrameStream.IsName(FRAME)
  {
  }

  lemma ContainerNames()
    ensures FrameStream.IsName(BLOCK) && FrameStream.IsName(PERIODS)
  {
  }

  lemma WrittenNames()
    ensures FrameStream.IsName(ASSIGNMENT) && FrameStream.IsName(UIC_PERIOD)
  {
  }

  lemma NamesAreNames()
    ensures FrameStream.IsName(FRAME) && FrameStream.IsName(BLOCK) && FrameStream.IsName(PERIODS)
    ensures FrameStream.IsName(ASSIGNMENT) && FrameStream.IsName(UIC_PERIOD)
  {
    hide *;
    FrameName();
    ContainerNames();
    WrittenNames();
  }

  lemma DefinitionNames()
    ensures FrameStream.IsName(OPERATING_DAY) && FrameStream.IsName(OPERATING_PERIOD)
    ensures FrameStream.IsName(UIC_PERIOD) && FrameStream.IsName(DAY_TYPE)
  {
  }

  lemma DateNames()
    ensures FrameStream.IsName(FROM_DATE) && FrameStream.IsName(TO_DATE)
  {
  }

  lemma BitsName()
    ensures FrameStream.IsName(DAY_BITS)
  {
  }

  lemma ReferenceNames()
    ensures FrameStream.IsName(PERIOD_REF) && FrameStream.IsName(DAY_TYPE_REF)
  {
  }

  lemma ChildNames()
    ensures FrameStream.IsName(FROM_DATE) && FrameStream.IsName(TO_DATE) && FrameStream.IsName(DAY_BITS)
    ensures FrameStream.IsName(PERIOD_REF) && FrameStream.IsName(DAY_TYPE_REF)
  {
    hide *;
    DateNames();
    BitsName();
    ReferenceNames();
  }

  lemma {:induction false} TagsForAreTags(lib: Library, prefix: Text)
    requires IsPrefix(prefix)
    ensures AreTags(TagsFor(lib, prefix))
  {
    hide FrameStream.IsName;
    NamesAreNames();
    DefinitionNames();
    assert FRAME[0] == 0x53 && BLOCK[0] == 0x64 && PERIODS[0] == 0x6F && ASSIGNMENT[0] == 0x44;
    assert OPERATING_DAY[0] == 0x4F && OPERATING_PERIOD[0] == 0x4F && UIC_PERIOD[0] == 0x55 && DAY_TYPE[0] == 0x44;
  }

  // ----- single tags

  lemma {:induction false} PlainFree(p: Pattern, s: Text)
    requires IsPlain(s)
    ensures Free(p, s)
  {
    forall i: nat ensures i < |s| ==> s[i] != LT && MatchAt(p, s, i).None? {
      if i < |s| {
        assert s[i] in s;
        AtByte(s, i, Lead(p), 0);
      }
    }
  }

  ghost predicate IsTail(s: Text) {
    |s| >= 2 && s[0] == SPACE && s[|s| - 1] == GT && forall k :: 0 <= k < |s| - 1 ==> s[k] != LT && s[k] != GT
  }

  /** A start tag with attributes is found only at its start. */
  lemma {:induction false} TailTag(p: Pattern, name: Text, tail: Text)
    requires IsTagName(name) && IsTail(tail)
    ensures Whole([LT] + name + tail)
    ensures MatchAt(p, [LT] + name + tail, 0).None? ==> Free(p, [LT] + name + tail)
  {
    hide TagEnd;
    var s := [LT] + name + tail;
    forall i | 0 < i < |s| ensures s[i] != LT {
      if i <= |name| {
        assert s[i] == name[i - 1] && name[i - 1] in name;
      } else {
        var k := i - 1 - |name|;
        assert s[i] == tail[k];
      }
    }
    assert s[|s| - 1] == tail[|tail| - 1] == GT;
    assert ClosedAfter(s, 0);
    forall i: nat | 0 < i < |s| ensures MatchAt(p, s, i).None? { AtByte(s, i, Lead(p), 0); }
  }

  lemma {:induction false} OtherTag(p: Pattern, name: Text, tail: Text)
    requires IsTagName(p.name) && IsTagName(name) && IsTail(tail) && (p.Opening? ==> Differs(p.name, name))
    ensures Free(p, [LT] + name + tail)
  {
    hide Free, MatchAt;
    TailTag(p, name, tail);
    var s := [LT] + name + tail;
    if p.Closing? {
      assert s[1] == name[0] && name[0] in name;
      SecondByteDiffers(p, s);
    } else {
      NotNamed(p.name, name, tail);
    }
  }

  lemma {:induction false} NotNamed(own: Text, name: Text, tail: Text)
    requires IsTagName(own) && IsTagName(name) && IsTail(tail) && Differs(own, name)
    ensures MatchAt(Opening(own), [LT] + name + tail, 0).None?
  {
    hide TagEnd;
    if StartsAt(Opening(own), [LT] + name + tail, 0) {
      NameBegins(own, name, tail);
      if |own| > |name| { IsMember(own, |name|); }
    }
  }

  lemma {:induction false} IsMember(own: Text, k: nat)
    requires k < |own|
    ensures own[k] in own
  {
  }

  lemma {:induction false} NameBegins(own: Text, name: Text, tail: Text)
    requires StartsAt(Opening(own), [LT] + name + tail, 0) && tail != []
    ensures |own| > |name| ==> own[|name|] == tail[0]
    ensures |own| <= |name| ==> name[..|own|] == own && (|own| == |name| ==> name == own)
    ensures |own| < |name| ==> !FrameStream.IsWord(name[|own|])
  {
    hide StartsAt, FrameStream.IsWord;
    var s := [LT] + name + tail;
    NameBytes(own, s);
    if |own| > |name| {
      assert s[1 + |name|] == tail[0];
    } else {
      forall k | 0 <= k < |own| ensures name[k] == own[k] { assert s[1 + k] == name[k]; }
      assert name[..|own|] == own && name[..|name|] == name;
      if |own| < |name| { assert s[1 + |own|] == name[|own|]; }
    }
  }

  lemma {:induction false} NameBytes(own: Text, s: Text)
    requires StartsAt(Opening(own), s, 0)
    ensures 1 + |own| < |s| && !FrameStream.IsWord(s[1 + |own|])
    ensures forall k :: 0 <= k < |own| ==> s[1 + k] == own[k]
  {
    hide FrameStream.IsWord;
    forall k | 0 <= k < |own| ensures s[1 + k] == own[k] { AtByte(s, 0, [LT] + own, 1 + k); }
  }

  /** A start tag is found as the start of its element. */
  lemma {:induction false} StartFound(name: Text, tail: Text)
    requires IsTagName(name) && IsTail(tail) && tail[|tail| - 2] != SLASH
    ensures MatchAt(Opening(name), [LT] + name + tail, 0) == Some(Hit(1 + |name| + |tail|, false))
  {
    var s, from := [LT] + name + tail, 1 + |name|;
    AtStart(s, [LT] + name);
    assert s[from] == tail[0];
    forall k | from <= k < |s| - 1 ensures s[k] != GT {
      assert s[k] == tail[k - from];
    }
    assert s[|s| - 1] == tail[|tail| - 1] && s[|s| - 2] == tail[|tail| - 2];
    EndsThere(s, from, |s| - 1);
  }

  lemma {:induction false} EndsThere(s: Text, from: nat, end: nat)
    requires from <= end < |s| && s[end] == GT && forall k :: from <= k < end ==> s[k] != GT
    ensures TagEnd(s, from, false) == Some(end)
    decreases end - from
  {
    if from < end { EndsThere(s, from + 1, end); }
  }

  /** Attributes written, and the end of the tag. */
  lemma {:induction false} TailIs(attributes: Text, end: Text)
    requires (forall b <- attributes :: b != LT && b != GT) && (end == [GT] || end == [SLASH, GT])
    ensures IsTail([SPACE] + attributes + end)
    ensures attributes != [] && end == [GT] ==>
      ([SPACE] + attributes + end)[|attributes|] == attributes[|attributes| - 1]
  {
    var s := [SPACE] + attributes + end;
    forall k | 0 < k < |s| - 1 ensures s[k] != LT && s[k] != GT {
      if k <= |attributes| { assert s[k] == attributes[k - 1] && attributes[k - 1] in attributes; }
    }
  }

  // ----- what is found in the elements written

  /** The expression for one name finds no tag of another. */
  lemma {:induction false} WordApart(p: Pattern, prefix: Text, own: Text, word: Text)
    requires IsPrefix(prefix) && FrameStream.IsName(own) && FrameStream.IsName(word) && own != word
    requires p.name == Qualified(prefix, own)
    ensures IsTagName(p.name) && IsTagName(Qualified(prefix, word))
    ensures Free(p, OpenTag(Qualified(prefix, word))) && Free(p, CloseTag(Qualified(prefix, word)))
    ensures forall tail :: IsTail(tail) ==> Free(p, [LT] + Qualified(prefix, word) + tail)
  {
    hide Free, IsTagName, FrameStream.IsName, IsPrefix, IsTail, Qualified;
    var name := Qualified(prefix, word);
    QualifiedIsTagName(prefix, own);
    QualifiedIsTagName(prefix, word);
    QualifiedDiffer(prefix, own, word);
    OtherName(p.name, name);
    OtherKind(p.name, name);
    assert p == Opening(p.name) || p == Closing(p.name);
    forall tail | IsTail(tail) ensures Free(p, [LT] + name + tail) { OtherTag(p, name, tail); }
  }

  lemma {:induction false} ChildApart(p: Pattern, prefix: Text, own: Text, word: Text, text: Text)
    requires IsPrefix(prefix) && FrameStream.IsName(own) && FrameStream.IsName(word) && own != word
    requires p.name == Qualified(prefix, own) && IsPlain(text)
    ensures Free(p, Child(Qualified(prefix, word), text))
  {
    hide Free, IsTagName, FrameStream.IsName, IsPrefix, IsPlain, Qualified, OpenTag, CloseTag;
    var name := Qualified(prefix, word);
    WordApart(p, prefix, own, word);
    PlainFree(p, text);
    FreeTogether(p, text, CloseTag(name));
    FreeTogether(p, OpenTag(name), text + CloseTag(name));
  }

  lemma {:induction false} DateIsPlain(lib: Library, n: int)
    requires IsLibrary(lib)
    ensures IsPlain(lib.iso(n) + MIDNIGHT)
  {
    forall b | b in lib.iso(n) + MIDNIGHT ensures b != LT { assert b in lib.iso(n) || b in MIDNIGHT; }
  }

  predicate IsPeriodWord(word: Text) { word == FROM_DATE || word == TO_DATE || word == DAY_BITS }

  lemma {:induction false} PeriodInnerApart(p: Pattern, lib: Library, prefix: Text, own: Text, period: Period)
    requires IsLibrary(lib) && IsPrefix(prefix) && FrameStream.IsName(own) && !IsPeriodWord(own)
    requires p.name == Qualified(prefix, own) && period.start.Some? && period.end.Some?
    ensures Free(p, PeriodInner(lib, prefix, period))
  {
    hide Free, IsTagName, FrameStream.IsName, IsPrefix, IsPlain, Qualified, IsLibrary, Child;
    ChildNames();
    QualifiedIsTagName(prefix, own);
    DateIsPlain(lib, period.start.value);
    DateIsPlain(lib, period.end.value);
    ChildApart(p, prefix, own, FROM_DATE, lib.iso(period.start.value) + MIDNIGHT);
    ChildApart(p, prefix, own, TO_DATE, lib.iso(period.end.value) + MIDNIGHT);
    ChildApart(p, prefix, own, DAY_BITS, BitsText(period.bits));
    FreeTogether(
      p, Child(Qualified(prefix, TO_DATE), lib.iso(period.end.value) + MIDNIGHT),
      Child(Qualified(prefix, DAY_BITS), BitsText(period.bits)));
    FreeTogether(
      p, Child(Qualified(prefix, FROM_DATE), lib.iso(period.start.value) + MIDNIGHT),
      Child(Qualified(prefix, TO_DATE), lib.iso(period.end.value) + MIDNIGHT)
      + Child(Qualified(prefix, DAY_BITS), BitsText(period.bits)));
  }

  /** The attributes of an element written. */
  lemma {:induction false} AttributesTail(lead: Text, value: Text, more: Text, end: Text)
    requires (forall b <- lead :: b != LT && b != GT) && IsValue(value) && (forall b <- more :: b != LT && b != GT)
    requires end == [GT] || end == [SLASH, GT]
    ensures IsTail([SPACE] + (lead + value + more) + end)
    ensures (more == [] || more[|more| - 1] == DQUOTE) && end == [GT] ==>
      var tail := [SPACE] + (lead + value + more) + end; tail[|tail| - 2] != SLASH
  {
    var attributes := lead + value + more;
    forall b | b in attributes ensures b != LT && b != GT { assert b in lead || b in value || b in more; }
    TailIs(attributes, end);
    assert more == [] ==> attributes[|attributes| - 1] == value[|value| - 1];
    assert more != [] ==> attributes[|attributes| - 1] == more[|more| - 1];
  }

  lemma StartTagIs(name: Text, attributes: Text)
    ensures StartTag(name, attributes) == [LT] + name + ([SPACE] + attributes + [GT])
    ensures EmptyTag(name, attributes) == [LT] + name + ([SPACE] + attributes + [SLASH, GT])
  {
  }

  /** A start tag with a quoted value: found as the start of its element, and
      by no expression for another name. */
  lemma {:induction false} StartTagFound(prefix: Text, word: Text, lead: Text, value: Text, more: Text)
    requires IsPrefix(prefix) && FrameStream.IsName(word) && IsValue(value)
    requires (forall b <- lead :: b != LT && b != GT) && (forall b <- more :: b != LT && b != GT)
    requires more == [] || more[|more| - 1] == DQUOTE
    ensures var s := StartTag(Qualified(prefix, word), lead + value + more);
      Whole(s) && MatchAt(Opening(Qualified(prefix, word)), s, 0) == Some(Hit(|s|, false))
  {
    hide MatchAt, Whole, IsTagName, IsPrefix, FrameStream.IsName, Qualified;
    var name, tail := Qualified(prefix, word), [SPACE] + (lead + value + more) + [GT];
    StartTagIs(name, lead + value + more);
    AttributesTail(lead, value, more, [GT]);
    QualifiedIsTagName(prefix, word);
    TailTag(Opening(name), name, tail);
    StartFound(name, tail);
  }

  lemma {:induction false} StartTagApart(
    p: Pattern, prefix: Text, own: Text, word: Text, lead: Text, value: Text, more: Text)
    requires IsPrefix(prefix) && FrameStream.IsName(own) && FrameStream.IsName(word) && own != word && IsValue(value)
    requires (forall b <- lead :: b != LT && b != GT) && (forall b <- more :: b != LT && b != GT)
    requires p.name == Qualified(prefix, own)
    ensures Free(p, StartTag(Qualified(prefix, word), lead + value + more))
    ensures Free(p, EmptyTag(Qualified(prefix, word), lead + value + more))
  {
    hide Free, IsTagName, IsPrefix, FrameStream.IsName, Qualified;
    StartTagIs(Qualified(prefix, word), lead + value + more);
    AttributesTail(lead, value, more, [GT]);
    AttributesTail(lead, value, more, [SLASH, GT]);
    WordApart(p, prefix, own, word);
  }

  /** A period as written is one element, and no tag of the calendar besides. */
  lemma {:induction false} PeriodStands(lib: Library, prefix: Text, d: Definition)
    requires IsLibrary(lib) && IsPrefix(prefix) && IsWritten(d)
    ensures Stands(TagsFor(lib, prefix), Def(d), PeriodXml(lib, prefix, d))
  {
    hide Free, IsTagName, IsPrefix, FrameStream.IsName, Qualified, IsElement, PeriodInner, StartTag, CloseTag;
    var t, name, s := TagsFor(lib, prefix), Qualified(prefix, UIC_PERIOD), PeriodXml(lib, prefix, d);
    NamesAreNames();
    PeriodIsElement(lib, prefix, d);
    assert UIC_PERIOD in t.reading.definitions by { assert DEFINITIONS[2] == UIC_PERIOD; }
    assert BLOCK[0] != UIC_PERIOD[0] && PERIODS[0] != UIC_PERIOD[0];
    PeriodApart(Open(t), lib, prefix, BLOCK, d);
    PeriodApart(PeriodsTag(t), lib, prefix, PERIODS, d);
  }

  lemma {:induction false} PeriodIsElement(lib: Library, prefix: Text, d: Definition)
    requires IsLibrary(lib) && IsPrefix(prefix) && IsWritten(d)
    ensures IsElement(Qualified(prefix, UIC_PERIOD), PeriodXml(lib, prefix, d))
  {
    hide Free, IsTagName, IsPrefix, FrameStream.IsName, Qualified, MatchAt, IsElement, PeriodInner, StartTag, CloseTag,
      Whole;
    var name := Qualified(prefix, UIC_PERIOD);
    NamesAreNames();
    QualifiedIsTagName(prefix, UIC_PERIOD);
    assert VERSION_AND_ID + lib.quoted(d.id) + [] == VERSION_AND_ID + lib.quoted(d.id);
    StartTagFound(prefix, UIC_PERIOD, VERSION_AND_ID, lib.quoted(d.id), []);
    assert UIC_PERIOD[0] != FROM_DATE[0] && UIC_PERIOD[0] != TO_DATE[0] && UIC_PERIOD[0] != DAY_BITS[0];
    PeriodInnerApart(Closing(name), lib, prefix, UIC_PERIOD, d.period);
    ElementMade(name, StartTag(name, VERSION_AND_ID + lib.quoted(d.id)), PeriodInner(lib, prefix, d.period));
  }

  lemma {:induction false} PeriodApart(p: Pattern, lib: Library, prefix: Text, own: Text, d: Definition)
    requires IsLibrary(lib) && IsPrefix(prefix) && IsWritten(d)
    requires FrameStream.IsName(own) && own != UIC_PERIOD && !IsPeriodWord(own) && p.name == Qualified(prefix, own)
    ensures Free(p, PeriodXml(lib, prefix, d))
  {
    hide Free, IsTagName, IsPrefix, FrameStream.IsName, Qualified, PeriodInner, StartTag, CloseTag;
    var name, inner := Qualified(prefix, UIC_PERIOD), PeriodInner(lib, prefix, d.period);
    NamesAreNames();
    assert VERSION_AND_ID + lib.quoted(d.id) + [] == VERSION_AND_ID + lib.quoted(d.id);
    StartTagApart(p, prefix, own, UIC_PERIOD, VERSION_AND_ID, lib.quoted(d.id), []);
    WordApart(p, prefix, own, UIC_PERIOD);
    PeriodInnerApart(p, lib, prefix, own, d.period);
    FreeTogether(p, inner, CloseTag(name));
    FreeTogether(p, StartTag(name, VERSION_AND_ID + lib.quoted(d.id)), inner + CloseTag(name));
  }

  // ----- assignments

  lemma {:induction false} AssignmentInnerApart(p: Pattern, lib: Library, prefix: Text, own: Text, a: Assignment)
    requires IsLibrary(lib) && IsPrefix(prefix) && FrameStream.IsName(own) && own != PERIOD_REF && own != DAY_TYPE_REF
    requires p.name == Qualified(prefix, own)
    ensures Free(p, AssignmentInner(lib, prefix, a))
  {
    hide Free, IsTagName, IsPrefix, FrameStream.IsName, Qualified, EmptyTag;
    ChildNames();
    QualifiedIsTagName(prefix, own);
    assert REF + lib.quoted(a.period) + [] == REF + lib.quoted(a.period);
    assert REF + lib.quoted(a.dayType) + [] == REF + lib.quoted(a.dayType);
    StartTagApart(p, prefix, own, PERIOD_REF, REF, lib.quoted(a.period), []);
    StartTagApart(p, prefix, own, DAY_TYPE_REF, REF, lib.quoted(a.dayType), []);
    FreeTogether(
      p, EmptyTag(Qualified(prefix, PERIOD_REF), REF + lib.quoted(a.period)),
      EmptyTag(Qualified(prefix, DAY_TYPE_REF), REF + lib.quoted(a.dayType)));
  }

  lemma {:induction false} AssignmentApart(p: Pattern, lib: Library, prefix: Text, own: Text, a: Assignment)
    requires IsLibrary(lib) && IsPrefix(prefix) && FrameStream.IsName(own) && own != ASSIGNMENT
    requires own != PERIOD_REF && own != DAY_TYPE_REF && p.name == Qualified(prefix, own)
    ensures Free(p, AssignmentXml(lib, prefix, a))
  {
    hide Free, IsTagName, IsPrefix, FrameStream.IsName, Qualified, AssignmentInner, StartTag, CloseTag;
    var name, inner := Qualified(prefix, ASSIGNMENT), AssignmentInner(lib, prefix, a);
    NamesAreNames();
    StartTagApart(p, prefix, own, ASSIGNMENT, VERSION_AND_ID, lib.quoted(ASSIGNMENT_PREFIX + a.dayType), ORDER);
    WordApart(p, prefix, own, ASSIGNMENT);
    AssignmentInnerApart(p, lib, prefix, own, a);
    FreeTogether(p, inner, CloseTag(name));
    FreeTogether(
      p, StartTag(name, VERSION_AND_ID + lib.quoted(ASSIGNMENT_PREFIX + a.dayType) + ORDER), inner + CloseTag(name));
  }

  lemma {:induction false} AssignmentIsElement(lib: Library, prefix: Text, a: Assignment)
    requires IsLibrary(lib) && IsPrefix(prefix)
    ensures IsElement(Qualified(prefix, ASSIGNMENT), AssignmentXml(lib, prefix, a))
  {
    hide Free, IsTagName, IsPrefix, FrameStream.IsName, Qualified, MatchAt, IsElement, AssignmentInner, StartTag,
      CloseTag, Whole;
    var name := Qualified(prefix, ASSIGNMENT);
    NamesAreNames();
    QualifiedIsTagName(prefix, ASSIGNMENT);
    StartTagFound(prefix, ASSIGNMENT, VERSION_AND_ID, lib.quoted(ASSIGNMENT_PREFIX + a.dayType), ORDER);
    assert ASSIGNMENT[0] != PERIOD_REF[0] && |ASSIGNMENT| != |DAY_TYPE_REF|;
    AssignmentInnerApart(Closing(name), lib, prefix, ASSIGNMENT, a);
    ElementMade(
      name, StartTag(name, VERSION_AND_ID + lib.quoted(ASSIGNMENT_PREFIX + a.dayType) + ORDER),
      AssignmentInner(lib, prefix, a));
  }

  lemma {:induction false} AssignmentStands(lib: Library, prefix: Text, dayType: Id)
    requires IsLibrary(lib) && IsPrefix(prefix)
    ensures AssignmentShown(TagsFor(lib, prefix), ShowFor(lib, prefix), NewAssignment(dayType))
  {
    hide Free, IsTagName, IsPrefix, FrameStream.IsName, Qualified, IsElement, AssignmentXml;
    var t, a := TagsFor(lib, prefix), NewAssignment(dayType);
    NamesAreNames();
    AssignmentIsElement(lib, prefix, a);
    assert BLOCK[0] == 0x64 && PERIODS[0] == 0x6F;
    assert ASSIGNMENT[0] == 0x44 && PERIOD_REF[0] == 0x4F && DAY_TYPE_REF[0] == 0x44;
    AssignmentApart(PeriodsTag(t), lib, prefix, PERIODS, a);
    AssignmentApart(Close(t), lib, prefix, BLOCK, a);
  }

  /** What `render` writes is read again as what it was written for. */
  lemma {:induction false} RenderIsGood(lib: Library, prefix: Text)
    requires IsLibrary(lib) && IsPrefix(prefix)
    ensures AreTags(TagsFor(lib, prefix)) && GoodShow(TagsFor(lib, prefix), ShowFor(lib, prefix))
  {
    hide IsLibrary, IsPrefix, AreTags, Stands, AssignmentShown, PeriodXml, AssignmentXml;
    TagsForAreTags(lib, prefix);
    forall d | IsWritten(d) ensures Stands(TagsFor(lib, prefix), Def(d), ShowFor(lib, prefix).period(d)) {
      PeriodStands(lib, prefix, d);
    }
    forall dt ensures AssignmentShown(TagsFor(lib, prefix), ShowFor(lib, prefix), NewAssignment(dt)) {
      AssignmentStands(lib, prefix, dt);
    }
  }
}
