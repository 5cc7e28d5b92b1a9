/** What the expressions of the calendar rewrite match, byte by byte
    (app/netex_calendar.py). */
module FrameMeaning {
  import opened Bytes
  import opened FrameStream
  import opened CalendarSpec
  import opened CalendarMotis
  import opened FrameEdit
  import opened FrameReading
  import opened FrameRender

  /** A letter, a digit or `_`. */
  ghost predicate IsWordByte(b: byte) {
    0x41 <= b <= 0x5A || 0x61 <= b <= 0x7A || 0x30 <= b <= 0x39 || b == 0x5F
  }

  /** The word stands at `at`. */
  ghost predicate Reads(text: Text, at: nat, word: Text) { at + |word| <= |text| && text[at..at + |word|] == word }

  lemma ReadsIs(text: Text, at: nat, word: Text)
    ensures At(text, at, word) <==> Reads(text, at, word)
  {
    if At(text, at, word) { AtSlice(text, at, word); }
    if Reads(text, at, word) {
      forall k | 0 <= k < |word| ensures text[at + k] == word[k] { assert text[at..at + |word|][k] == word[k]; }
    }
  }

  // ----- tags of a block and of a container

  /** `</name`, blanks, `>`. */
  lemma {:induction false} ClosingIs(name: Text, text: Text, at: nat, end: nat)
    ensures MatchAt(Closing(name), text, at) == Some(Hit(end, false)) <==>
      && Reads(text, at, [0x3C, 0x2F] + name) && at + 2 + |name| < end <= |text| && text[end - 1] == 0x3E
      && forall k :: at + 2 + |name| <= k < end - 1 ==> text[k] == 0x20 || 0x09 <= text[k] <= 0x0D
  {
    var from := at + 2 + |name|;
    ReadsIs(text, at, [0x3C, 0x2F] + name);
    if from < end <= |text| { BlankEnd(text, from, end - 1); }
    var r := TagEnd(text, from, true);
    if r.Some? { BlankEnd(text, from, r.value); }
  }

  lemma {:induction false} BlankEnd(text: Text, from: nat, end: nat)
    requires from <= end < |text|
    ensures TagEnd(text, from, true) == Some(end) <==>
      text[end] == 0x3E && forall k :: from <= k < end ==> text[k] == 0x20 || 0x09 <= text[k] <= 0x0D
    decreases end - from
  {
    if from < end {
      BlankEnd(text, from + 1, end);
    }
  }

  /** `<name`, not followed by a word byte, up to the next `>`; whether a `/`
      stands before that. */
  lemma {:induction false} OpeningIs(name: Text, text: Text, at: nat, end: nat, slash: bool)
    ensures MatchAt(Opening(name), text, at) == Some(Hit(end, slash)) <==>
      var from := at + 1 + |name|;
      && Reads(text, at, [0x3C] + name) && from < end <= |text| && !IsWordByte(text[from]) && text[end - 1] == 0x3E
      && (forall k :: from <= k < end - 1 ==> text[k] != 0x3E)
      && (slash <==> end - 2 >= from && text[end - 2] == 0x2F)
  {
    var from := at + 1 + |name|;
    ReadsIs(text, at, [0x3C] + name);
    if from < end <= |text| { FirstEnd(text, from, end - 1); }
    var r := TagEnd(text, from, false);
    if r.Some? { FirstEnd(text, from, r.value); }
  }

  lemma {:induction false} FirstEnd(text: Text, from: nat, end: nat)
    requires from <= end < |text|
    ensures TagEnd(text, from, false) == Some(end) <==>
      text[end] == 0x3E && forall k :: from <= k < end ==> text[k] != 0x3E
    decreases end - from
  {
    if from < end { FirstEnd(text, from + 1, end); }
  }

  // ----- the start of a frame

  /** A letter or `_`, then word bytes, `.` and `-`. */
  ghost predicate IsPrefixText(prefix: Text) {
    && prefix != [] && (0x41 <= prefix[0] <= 0x5A || 0x61 <= prefix[0] <= 0x7A || prefix[0] == 0x5F)
    && forall k :: 0 <= k < |prefix| ==> IsWordByte(prefix[k]) || prefix[k] == 0x2E || prefix[k] == 0x2D
  }

  /** A word ends here, or the text does. */
  ghost predicate EndsWord(text: Text, at: nat) { at == |text| || (at < |text| && !IsWordByte(text[at])) }

  ghost predicate StandsHere(text: Text, at: nat, name: Text, prefix: Text, end: nat) {
    && IsPrefixText(prefix) && Reads(text, at, [0x3C] + prefix + [0x3A] + name)
    && end == at + 2 + |prefix| + |name| && EndsWord(text, end)
  }

  /** `<prefix:name`, up to the end of a word. */
  lemma {:induction false} PrefixedIs(text: Text, at: nat, name: Text, prefix: Text, end: nat)
    ensures Prefixed(text, at, name) == Some(Head(prefix, end)) <==>
      && IsPrefixText(prefix) && Reads(text, at, [0x3C] + prefix + [0x3A] + name)
      && end == at + 2 + |prefix| + |name| && EndsWord(text, end)
  {
    hide Prefixed, Reads, EndsWord, IsPrefixText;
    if Prefixed(text, at, name) == Some(Head(prefix, end)) { FoundStands(text, at, name, prefix, end); }
    if StandsHere(text, at, name, prefix, end) { StandsFound(text, at, name, prefix, end); }
  }

  lemma {:induction false} FoundStands(text: Text, at: nat, name: Text, prefix: Text, end: nat)
    requires Prefixed(text, at, name) == Some(Head(prefix, end))
    ensures StandsHere(text, at, name, prefix, end)
  {
    hide Reads;
    var r := NameEnd(text, at + 1);
    ReadsIs(text, r + 1, name);
    assert prefix == text[at + 1..r];
    forall k | 0 <= k < |prefix| ensures IsWordByte(prefix[k]) || prefix[k] == 0x2E || prefix[k] == 0x2D {
      assert prefix[k] == text[at + 1 + k];
    }
    Joined(text, at, prefix, name);
  }

  lemma {:induction false} Joined(text: Text, at: nat, prefix: Text, name: Text)
    requires at + 2 + |prefix| + |name| <= |text| && text[at] == 0x3C && text[at + 1..at + 1 + |prefix|] == prefix
    requires text[at + 1 + |prefix|] == 0x3A && Reads(text, at + 2 + |prefix|, name)
    ensures Reads(text, at, [0x3C] + prefix + [0x3A] + name)
  {
    PartsStand(text, at, prefix, name);
  }

  lemma {:induction false} Parted(text: Text, at: nat, prefix: Text, name: Text)
    requires Reads(text, at, [0x3C] + prefix + [0x3A] + name)
    ensures at + 2 + |prefix| + |name| <= |text| && text[at] == 0x3C && text[at + 1..at + 1 + |prefix|] == prefix
    ensures text[at + 1 + |prefix|] == 0x3A && Reads(text, at + 2 + |prefix|, name)
  {
    PartsStand(text, at, prefix, name);
  }

  /** The four parts of a prefixed start stand one behind the other. */
  lemma PartsStand(text: Text, at: nat, prefix: Text, name: Text)
    ensures Reads(text, at, [0x3C] + prefix + [0x3A] + name) <==>
      && At(text, at, [0x3C]) && Reads(text, at + 1, prefix) && At(text, at + 1 + |prefix|, [0x3A])
      && Reads(text, at + 2 + |prefix|, name)
  {
    hide At, Reads;
    ReadsIs(text, at, [0x3C] + prefix + [0x3A] + name);
    ReadsIs(text, at + 1, prefix);
    ReadsIs(text, at + 2 + |prefix|, name);
    AtSplit(text, at, [0x3C] + prefix + [0x3A], name);
    AtSplit(text, at, [0x3C] + prefix, [0x3A]);
    AtSplit(text, at, [0x3C], prefix);
  }

  lemma {:induction false} StandsFound(text: Text, at: nat, name: Text, prefix: Text, end: nat)
    requires StandsHere(text, at, name, prefix, end)
    ensures Prefixed(text, at, name) == Some(Head(prefix, end))
  {
    hide Reads;
    var r := at + 1 + |prefix|;
    Parted(text, at, prefix, name);
    forall k | at + 1 <= k < r ensures IsNameByte(text[k]) { assert text[k] == prefix[k - at - 1]; }
    assert text[at + 1] == prefix[0];
    NameEndIs(text, at + 1, r);
    ReadsIs(text, r + 1, name);
  }

  lemma {:induction false} NameEndIs(text: Text, at: nat, end: nat)
    requires at <= end < |text| && !IsNameByte(text[end]) && forall k :: at <= k < end ==> IsNameByte(text[k])
    ensures NameEnd(text, at) == end
    decreases end - at
  {
    if at < end { NameEndIs(text, at + 1, end); }
  }

  lemma {:induction false} BareIs(text: Text, at: nat, name: Text, end: nat)
    ensures Bare(text, at, name) == Some(Head([], end)) <==>
      Reads(text, at, [0x3C] + name) && end == at + 1 + |name| && EndsWord(text, end)
    ensures Bare(text, at, name).Some? ==> Bare(text, at, name).value.prefix == []
  {
    ReadsIs(text, at + 1, name);
    if at < |text| && at + 1 + |name| <= |text| {
      assert text[at..at + 1 + |name|] == [text[at]] + text[at + 1..at + 1 + |name|];
      if Reads(text, at, [0x3C] + name) {
        assert ([0x3C] + name)[0] == 0x3C && ([0x3C] + name)[1..] == name;
        assert text[at..at + 1 + |name|][1..] == text[at + 1..at + 1 + |name|];
        assert text[at] == text[at..at + 1 + |name|][0];
      }
    }
  }

  /** A frame starts with a prefix if it can, else without. */
  lemma {:induction false} HeadIs(text: Text, at: nat, name: Text)
    ensures HeadAt(text, at, name) ==
      if Prefixed(text, at, name).Some? then Prefixed(text, at, name) else Bare(text, at, name)
  {
  }

  /** A frame is complete from its first start up to the first end tag of that
      prefix behind it. */
  lemma {:induction false} CompleteIs(text: Text, name: Text, f: Frame)
    ensures CompleteFrame(text, name) == Some(f) <==>
      var tag := [0x3C, 0x2F] + (if f.prefix == [] then [] else f.prefix + [0x3A]) + name + [0x3E];
      && f.start < |text| && HeadAt(text, f.start, name).Some? && HeadAt(text, f.start, name).value.prefix == f.prefix
      && (forall i: nat :: i < f.start ==> HeadAt(text, i, name).None?)
      && f.start + |tag| <= f.end && Reads(text, f.end - |tag|, tag)
      && forall i: nat :: f.start <= i < f.end - |tag| ==> !Reads(text, i, tag)
  {
    hide HeadAt, Reads;
    var tag := [0x3C, 0x2F] + (if f.prefix == [] then [] else f.prefix + [0x3A]) + name + [0x3E];
    assert EndTag(f.prefix, name) == tag;
    forall i: nat ensures At(text, i, tag) <==> Reads(text, i, tag) { ReadsIs(text, i, tag); }
    forall i: nat ensures Reads(text, i, tag) ==> i + |tag| <= |text| { ReadsFits(text, i, tag); }
  }

  lemma ReadsFits(text: Text, at: nat, word: Text)
    ensures Reads(text, at, word) ==> at + |word| <= |text|
  {
  }

  // ----- the elements written

  /** The bytes of an ASCII text. */
  function Ascii(s: string): Text {
    seq(|s|, i requires 0 <= i < |s| => if s[i] < '\U{100}' then s[i] as int as byte else 0)
  }

  lemma NamesAre()
    ensures FRAME == Ascii("ServiceCalendarFrame") && BLOCK == Ascii("dayTypeAssignments")
    ensures PERIODS == Ascii("operatingPeriods") && NAMES == Names(FRAME, BLOCK, PERIODS)
  {
  }

  lemma {:induction false} DefinitionsAre()
    ensures DEFINITIONS == [
      Ascii("OperatingDay"), Ascii("OperatingPeriod"), Ascii("UicOperatingPeriod"), Ascii("DayType")]
  {
    hide Ascii;
    OtherNames();
    ElementsAre();
  }

  lemma OtherNames()
    ensures OPERATING_DAY == Ascii("OperatingDay") && OPERATING_PERIOD == Ascii("OperatingPeriod")
    ensures DAY_TYPE == Ascii("DayType")
  {
  }

  lemma {:induction false} ElementsAre()
    ensures UIC_PERIOD == Ascii("UicOperatingPeriod") && ASSIGNMENT == Ascii("DayTypeAssignment")
    ensures FROM_DATE == Ascii("FromDate") && TO_DATE == Ascii("ToDate") && DAY_BITS == Ascii("ValidDayBits")
    ensures PERIOD_REF == Ascii("OperatingPeriodRef") && DAY_TYPE_REF == Ascii("DayTypeRef")
  {
    hide Ascii;
    PeriodName();
    AssignmentName();
    DateNames();
    RefNames();
  }

  lemma PeriodName()
    ensures UIC_PERIOD == Ascii("UicOperatingPeriod")
  {
  }

  lemma AssignmentName()
    ensures ASSIGNMENT == Ascii("DayTypeAssignment")
  {
  }

  lemma DateNames()
    ensures FROM_DATE == Ascii("FromDate") && TO_DATE == Ascii("ToDate") && DAY_BITS == Ascii("ValidDayBits")
  {
  }

  lemma RefNames()
    ensures PERIOD_REF == Ascii("OperatingPeriodRef") && DAY_TYPE_REF == Ascii("DayTypeRef")
  {
  }

  lemma WordsAre()
    ensures VERSION_AND_ID == Ascii("version=\"1\" id=") && ORDER == Ascii(" order=\"1\"") && REF == Ascii("ref=")
    ensures MIDNIGHT == Ascii("T00:00:00")
  {
  }

  /** `prefix:name`, or the name. */
  function Name(prefix: Text, name: string): Text { (if prefix == [] then [] else prefix + [0x3A]) + Ascii(name) }

  function Element(name: Text, text: Text): Text { [0x3C] + name + [0x3E] + (text + ([0x3C, 0x2F] + name + [0x3E])) }

  /** The bytes written for a period. */
  lemma {:induction false} PeriodIs(lib: Library, prefix: Text, id: Id, first: int, bits: string)
    requires bits != "" && forall c <- bits :: c == '0' || c == '1'
    ensures var p := Period(Some(first), Some(first + |bits| - 1), "", "", bits, true);
      PeriodXml(lib, prefix, OperatingPeriod(id, p)) ==
        [0x3C] + Name(prefix, "UicOperatingPeriod") + [0x20] + (Ascii("version=\"1\" id=") + lib.quoted(id)) + [0x3E]
        + (DatesOf(lib, prefix, first, first + |bits| - 1, bits)
           + ([0x3C, 0x2F] + Name(prefix, "UicOperatingPeriod") + [0x3E]))
  {
    hide Ascii, Element, Qualified, Name, PeriodInner, DatesOf;
    var p := Period(Some(first), Some(first + |bits| - 1), "", "", bits, true);
    ElementsAre();
    WordsAre();
    NameIs(prefix, UIC_PERIOD, "UicOperatingPeriod");
    DatesAre(lib, prefix, p);
  }

  function DatesOf(lib: Library, prefix: Text, first: int, last: int, bits: string): Text {
    Element(Name(prefix, "FromDate"), lib.iso(first) + Ascii("T00:00:00"))
    + (Element(Name(prefix, "ToDate"), lib.iso(last) + Ascii("T00:00:00"))
       + Element(Name(prefix, "ValidDayBits"), Ascii(bits)))
  }

  lemma {:induction false} DatesAre(lib: Library, prefix: Text, p: Period)
    requires p.start.Some? && p.end.Some? && forall c <- p.bits :: c == '0' || c == '1'
    ensures PeriodInner(lib, prefix, p) == DatesOf(lib, prefix, p.start.value, p.end.value, p.bits)
  {
    hide Ascii, Qualified, Name;
    ElementsAre();
    WordsAre();
    NameIs(prefix, FROM_DATE, "FromDate");
    NameIs(prefix, TO_DATE, "ToDate");
    NameIs(prefix, DAY_BITS, "ValidDayBits");
    BitsAre(p.bits);
  }

  lemma NameIs(prefix: Text, name: Text, word: string)
    requires name == Ascii(word)
    ensures Qualified(prefix, name) == Name(prefix, word)
  {
  }

  lemma BitsAre(bits: string)
    requires forall c <- bits :: c == '0' || c == '1'
    ensures BitsText(bits) == Ascii(bits)
  {
    forall i | 0 <= i < |bits| ensures BitsText(bits)[i] == Ascii(bits)[i] { assert bits[i] in bits; }
  }

  /** And for an assignment, which gives its day type the days of its period. */
  lemma {:induction false} AssignmentIs(lib: Library, prefix: Text, dt: Id)
    ensures NewAssignment(dt) == Assignment(dt, 1, true, "VIATOR:UicOperatingPeriod:" + dt, "", NoDate)
    ensures AssignmentXml(lib, prefix, NewAssignment(dt)) ==
      [0x3C] + Name(prefix, "DayTypeAssignment") + [0x20]
      + (Ascii("version=\"1\" id=") + lib.quoted("VIATOR:DayTypeAssignment:" + dt) + Ascii(" order=\"1\"")) + [0x3E]
      + ([0x3C] + Name(prefix, "OperatingPeriodRef") + [0x20]
         + (Ascii("ref=") + lib.quoted("VIATOR:UicOperatingPeriod:" + dt)) + [0x2F, 0x3E]
         + ([0x3C] + Name(prefix, "DayTypeRef") + [0x20] + (Ascii("ref=") + lib.quoted(dt)) + [0x2F, 0x3E])
         + ([0x3C, 0x2F] + Name(prefix, "DayTypeAssignment") + [0x3E]))
  {
    hide Ascii, Qualified, Name;
    ElementsAre();
    WordsAre();
    NameIs(prefix, ASSIGNMENT, "DayTypeAssignment");
    NameIs(prefix, PERIOD_REF, "OperatingPeriodRef");
    NameIs(prefix, DAY_TYPE_REF, "DayTypeRef");
  }
}
