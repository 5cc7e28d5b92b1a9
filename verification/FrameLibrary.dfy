/** Libraries as `FrameRender` asks for them exist: values and dates written in
    any way that tells them apart can be read back. */
module FrameLibrary {
  import opened Bytes
  import opened CalendarSpec
  import opened CalendarMotis
  import opened FrameEdit
  import opened FrameTags
  import opened FrameReading
  import opened FrameRender
  import FrameStream

  // ----- values and dates told apart

  const ONE: byte := 0x61
  const STOP: byte := 0x62

  function Run(n: nat): (r: Text)
    ensures |r| == n && forall b <- r :: b == ONE
  {
    seq(n, i requires 0 <= i < n => ONE)
  }

  function Coded(s: string): (r: Text)
    ensures forall b <- r :: b == ONE || b == STOP
  {
    if s == "" then [] else Run(s[0] as int) + [STOP] + Coded(s[1..])
  }

  function Quoted(s: string): Text { [DQUOTE] + Coded(s) + [DQUOTE] }

  function Date(n: int): Text { if n >= 0 then [0x30] + Run(n) else [0x31] + Run(-n) }

  ghost predicate Lacks(a: Text, stop: byte) { forall b <- a :: b != stop }

  /** Where a byte first stands divides a text in one way. */
  lemma {:induction false} Divided(a: Text, rest: Text, a': Text, rest': Text, stop: byte)
    requires a + [stop] + rest == a' + [stop] + rest' && Lacks(a, stop) && Lacks(a', stop)
    ensures a == a' && rest == rest'
  {
    var s := a + [stop] + rest;
    StopWithin(a, rest, a', rest', stop);
    StopWithin(a', rest', a, rest, stop);
    assert s[..|a|] == a && s[..|a'|] == a' && s[|a| + 1..] == rest && s[|a'| + 1..] == rest';
  }

  lemma {:induction false} StopWithin(a: Text, rest: Text, a': Text, rest': Text, stop: byte)
    requires a + [stop] + rest == a' + [stop] + rest'
    ensures |a| < |a'| ==> stop in a'
  {
    if |a| < |a'| { assert a'[|a|] == (a + [stop] + rest)[|a|] == stop; }
  }

  lemma {:induction false} CodedDiffer(s: string, s': string)
    requires Coded(s) == Coded(s')
    ensures s == s'
  {
    if s != "" && s' != "" {
      Divided(Run(s[0] as int), Coded(s[1..]), Run(s'[0] as int), Coded(s'[1..]), STOP);
      CodedDiffer(s[1..], s'[1..]);
      assert s == [s[0]] + s[1..] && s' == [s'[0]] + s'[1..];
    }
  }

  lemma {:induction false} QuotedDiffer(s: string, s': string)
    requires Quoted(s) == Quoted(s')
    ensures s == s'
  {
    assert Quoted(s)[1..|Quoted(s)| - 1] == Coded(s) && Quoted(s')[1..|Quoted(s')| - 1] == Coded(s');
    CodedDiffer(s, s');
  }

  lemma {:induction false} DatesDiffer(n: int, n': int)
    requires Date(n) == Date(n')
    ensures n == n'
  {
    assert Date(n)[0] == Date(n')[0] && |Date(n)| == |Date(n')|;
  }

  lemma {:induction false} BitsDiffer(s: string, s': string)
    requires (forall c <- s :: c == '0' || c == '1') && forall c <- s' :: c == '0' || c == '1'
    requires BitsText(s) == BitsText(s')
    ensures s == s'
  {
    assert |s| == |s'|;
    forall i | 0 <= i < |s| ensures s[i] == s'[i] {
      assert s[i] in s && s'[i] in s' && BitsText(s)[i] == BitsText(s')[i];
    }
  }

  // ----- the elements written tell what they were written for

  function Sample(toDefinition: Text -> Definition, toAssignment: Text -> Assignment): Library {
    Library(Quoted, Date, toDefinition, toAssignment)
  }

  lemma {:induction false} SampleValues(lib: Library)
    requires lib.quoted == Quoted && lib.iso == Date
    ensures forall s :: IsValue(lib.quoted(s))
    ensures forall n :: IsPlain(lib.iso(n))
  {
    forall s ensures IsValue(lib.quoted(s)) {
      forall b | b in Quoted(s) ensures b != LT && b != GT { assert b == DQUOTE || b in Coded(s); }
    }
    forall n ensures IsPlain(lib.iso(n)) {
      forall b | b in Date(n) ensures b != LT { assert b == 0x30 || b == 0x31 || b == ONE; }
    }
  }

  lemma {:induction false} NameLacks(prefix: Text, word: Text, stop: byte)
    requires IsPrefix(prefix) && FrameStream.IsName(word) && (stop == SPACE || stop == GT)
    ensures Lacks([LT] + Qualified(prefix, word), stop)
  {
    QualifiedIsTagName(prefix, word);
    var name := Qualified(prefix, word);
    forall b | b in [LT] + name ensures b != stop { assert b == LT || b in name; }
  }

  /** A start tag tells the value in it and what follows. */
  lemma {:induction false} StartTold(
    prefix: Text, prefix': Text, word: Text, value: Text, value': Text, more: Text, rest: Text, rest': Text)
    requires IsPrefix(prefix) && IsPrefix(prefix') && FrameStream.IsName(word) && IsValue(value) && IsValue(value')
    requires forall b <- more :: b != GT
    requires StartTag(Qualified(prefix, word), VERSION_AND_ID + value + more) + rest ==
      StartTag(Qualified(prefix', word), VERSION_AND_ID + value' + more) + rest'
    ensures value == value' && rest == rest'
  {
    hide IsPrefix, FrameStream.IsName, Qualified;
    var name, name' := Qualified(prefix, word), Qualified(prefix', word);
    NameLacks(prefix, word, SPACE);
    NameLacks(prefix', word, SPACE);
    var v, v' := VERSION_AND_ID + value + more, VERSION_AND_ID + value' + more;
    assert StartTag(name, v) + rest == [LT] + name + [SPACE] + (v + [GT] + rest);
    assert StartTag(name', v') + rest' == [LT] + name' + [SPACE] + (v' + [GT] + rest');
    Divided([LT] + name, v + [GT] + rest, [LT] + name', v' + [GT] + rest', SPACE);
    forall b | b in v ensures b != GT { assert b in VERSION_AND_ID || b in value || b in more; }
    forall b | b in v' ensures b != GT { assert b in VERSION_AND_ID || b in value' || b in more; }
    Divided(v, rest, v', rest', GT);
    assert v[|VERSION_AND_ID|..|v| - |more|] == value && v'[|VERSION_AND_ID|..|v'| - |more|] == value';
  }

  /** A child tells its text and what follows. */
  lemma {:induction false} ChildTold(
    prefix: Text, prefix': Text, word: Text, text: Text, text': Text, rest: Text, rest': Text)
    requires IsPrefix(prefix) && IsPrefix(prefix') && FrameStream.IsName(word) && IsPlain(text) && IsPlain(text')
    requires Child(Qualified(prefix, word), text) + rest == Child(Qualified(prefix', word), text') + rest'
    ensures text == text' && rest == rest'
  {
    hide IsPrefix, FrameStream.IsName, Qualified;
    var name, name' := Qualified(prefix, word), Qualified(prefix', word);
    NameLacks(prefix, word, GT);
    NameLacks(prefix', word, GT);
    var end, end' := [SLASH] + name + [GT] + rest, [SLASH] + name' + [GT] + rest';
    assert Child(name, text) + rest == [LT] + name + [GT] + (text + [LT] + end);
    assert Child(name', text') + rest' == [LT] + name' + [GT] + (text' + [LT] + end');
    Divided([LT] + name, text + [LT] + end, [LT] + name', text' + [LT] + end', GT);
    Divided(text, end, text', end', LT);
    assert end == [SLASH] + name + [GT] + rest && end' == [SLASH] + name' + [GT] + rest' && name == name' by {
      assert ([LT] + name)[1..] == name && ([LT] + name')[1..] == name';
    }
    assert end[|name| + 2..] == rest && end'[|name| + 2..] == rest';
  }

  lemma {:induction false} PeriodTold(lib: Library, prefix: Text, prefix': Text, d: Definition, d': Definition)
    requires lib.quoted == Quoted && lib.iso == Date && IsPrefix(prefix) && IsPrefix(prefix')
    requires IsWritten(d) && IsWritten(d') && PeriodXml(lib, prefix, d) == PeriodXml(lib, prefix', d')
    ensures d == d'
  {
    hide IsPrefix, FrameStream.IsName, Qualified, IsValue, IsPlain, StartTag, CloseTag, PeriodInner, Quoted, Date;
    var p, p' := d.period, d'.period;
    WrittenNames();
    SampleValues(lib);
    var rest := PeriodInner(lib, prefix, p) + CloseTag(Qualified(prefix, UIC_PERIOD));
    var rest' := PeriodInner(lib, prefix', p') + CloseTag(Qualified(prefix', UIC_PERIOD));
    assert VERSION_AND_ID + Quoted(d.id) + [] == VERSION_AND_ID + Quoted(d.id);
    assert VERSION_AND_ID + Quoted(d'.id) + [] == VERSION_AND_ID + Quoted(d'.id);
    StartTold(prefix, prefix', UIC_PERIOD, Quoted(d.id), Quoted(d'.id), [], rest, rest');
    QuotedDiffer(d.id, d'.id);
    InnerTold(
      lib, prefix, prefix', p, p', CloseTag(Qualified(prefix, UIC_PERIOD)), CloseTag(Qualified(prefix', UIC_PERIOD)));
  }

  lemma {:induction false} InnerTold(
    lib: Library, prefix: Text, prefix': Text, p: Period, p': Period, rest: Text, rest': Text)
    requires lib.quoted == Quoted && lib.iso == Date && IsPrefix(prefix) && IsPrefix(prefix')
    requires p.start.Some? && p.end.Some? && p'.start.Some? && p'.end.Some?
    requires (forall c <- p.bits :: c == '0' || c == '1') && forall c <- p'.bits :: c == '0' || c == '1'
    requires PeriodInner(lib, prefix, p) + rest == PeriodInner(lib, prefix', p') + rest'
    ensures p.start == p'.start && p.bits == p'.bits
  {
    hide IsPrefix, FrameStream.IsName, Qualified, Date, Child, IsPlain;
    ChildNames();
    var from, from' := Date(p.start.value) + MIDNIGHT, Date(p'.start.value) + MIDNIGHT;
    var to_, to' := Date(p.end.value) + MIDNIGHT, Date(p'.end.value) + MIDNIGHT;
    DatePlain(p.start.value);
    DatePlain(p'.start.value);
    DatePlain(p.end.value);
    DatePlain(p'.end.value);
    var a, b, c := Child(Qualified(prefix, FROM_DATE), from), Child(Qualified(prefix, TO_DATE), to_),
      Child(Qualified(prefix, DAY_BITS), BitsText(p.bits));
    var a', b', c' := Child(Qualified(prefix', FROM_DATE), from'), Child(Qualified(prefix', TO_DATE), to'),
      Child(Qualified(prefix', DAY_BITS), BitsText(p'.bits));
    InARow(a, b, c, rest);
    InARow(a', b', c', rest');
    ChildTold(prefix, prefix', FROM_DATE, from, from', b + (c + rest), b' + (c' + rest'));
    ChildTold(prefix, prefix', TO_DATE, to_, to', c + rest, c' + rest');
    ChildTold(prefix, prefix', DAY_BITS, BitsText(p.bits), BitsText(p'.bits), rest, rest');
    BitsDiffer(p.bits, p'.bits);
    assert from[..|from| - |MIDNIGHT|] == Date(p.start.value) && from'[..|from'| - |MIDNIGHT|] == Date(p'.start.value);
    DatesDiffer(p.start.value, p'.start.value);
  }

  lemma {:induction false} InARow(a: Text, b: Text, c: Text, rest: Text)
    ensures a + (b + c) + rest == a + (b + (c + rest))
  {
  }

  lemma {:induction false} DatePlain(n: int)
    ensures IsPlain(Date(n) + MIDNIGHT)
  {
    forall b | b in Date(n) + MIDNIGHT ensures b != LT { assert b in Date(n) || b in MIDNIGHT; }
  }

  lemma {:induction false} AssignmentTold(lib: Library, prefix: Text, prefix': Text, dt: Id, dt': Id)
    requires lib.quoted == Quoted && lib.iso == Date && IsPrefix(prefix) && IsPrefix(prefix')
    requires AssignmentXml(lib, prefix, NewAssignment(dt)) == AssignmentXml(lib, prefix', NewAssignment(dt'))
    ensures dt == dt'
  {
    hide IsPrefix, FrameStream.IsName, Qualified, IsValue, StartTag, CloseTag, AssignmentInner, Quoted;
    var a, a' := NewAssignment(dt), NewAssignment(dt');
    WrittenNames();
    SampleValues(lib);
    var s, s' := ASSIGNMENT_PREFIX + dt, ASSIGNMENT_PREFIX + dt';
    StartTold(
      prefix, prefix', ASSIGNMENT, Quoted(s), Quoted(s'), ORDER,
      AssignmentInner(lib, prefix, a) + CloseTag(Qualified(prefix, ASSIGNMENT)),
      AssignmentInner(lib, prefix', a') + CloseTag(Qualified(prefix', ASSIGNMENT)));
    QuotedDiffer(s, s');
    assert s[|ASSIGNMENT_PREFIX|..] == dt && s'[|ASSIGNMENT_PREFIX|..] == dt';
  }

  // ----- reading them back

  ghost predicate IsPeriodOf(lib: Library, prefix: Text, d: Definition, s: Text) {
    IsPrefix(prefix) && IsWritten(d) && PeriodXml(lib, prefix, d) == s
  }

  ghost predicate IsAssignmentOf(lib: Library, prefix: Text, dt: Id, s: Text) {
    IsPrefix(prefix) && AssignmentXml(lib, prefix, NewAssignment(dt)) == s
  }

  ghost function ReadPeriod(lib: Library, s: Text): Definition {
    if exists prefix, d :: IsPeriodOf(lib, prefix, d, s) then
      var prefix, d :| IsPeriodOf(lib, prefix, d, s);
      d
    else OperatingDay("", None)
  }

  ghost function ReadAssignment(lib: Library, s: Text): Assignment {
    if exists prefix, dt :: IsAssignmentOf(lib, prefix, dt, s) then
      var prefix, dt :| IsAssignmentOf(lib, prefix, dt, s);
      NewAssignment(dt)
    else NewAssignment("")
  }

  /** The XML depends on how values and dates are written only. */
  lemma {:induction false} SameXml(lib: Library, lib': Library, prefix: Text, d: Definition, a: Assignment)
    requires lib.quoted == lib'.quoted && lib.iso == lib'.iso
    ensures PeriodXml(lib, prefix, d) == PeriodXml(lib', prefix, d)
    ensures AssignmentXml(lib, prefix, a) == AssignmentXml(lib', prefix, a)
  {
  }

  lemma {:induction false} LibraryExists() returns (lib: Library)
    ensures IsLibrary(lib)
  {
    hide IsPrefix, IsValue, IsPlain, PeriodXml, AssignmentXml, Quoted, Date;
    var plain := Sample((s: Text) => OperatingDay("", None), (s: Text) => NewAssignment(""));
    lib := Sample((s: Text) => ReadPeriod(plain, s), (s: Text) => ReadAssignment(plain, s));
    SampleValues(lib);
    forall prefix, d | IsPrefix(prefix) && IsWritten(d) ensures lib.toDefinition(PeriodXml(lib, prefix, d)) == d {
      var s := PeriodXml(lib, prefix, d);
      SameXml(plain, lib, prefix, d, NewAssignment(""));
      assert IsPeriodOf(plain, prefix, d, s);
      var prefix', d' :| IsPeriodOf(plain, prefix', d', s) && ReadPeriod(plain, s) == d';
      PeriodTold(plain, prefix, prefix', d, d');
    }
    forall prefix, dt | IsPrefix(prefix)
      ensures lib.toAssignment(AssignmentXml(lib, prefix, NewAssignment(dt))) == NewAssignment(dt)
    {
      var s := AssignmentXml(lib, prefix, NewAssignment(dt));
      SameXml(plain, lib, prefix, OperatingDay("", None), NewAssignment(dt));
      assert IsAssignmentOf(plain, prefix, dt, s);
      var prefix', dt' :| IsAssignmentOf(plain, prefix', dt', s) && ReadAssignment(plain, s) == NewAssignment(dt');
      AssignmentTold(plain, prefix, prefix', dt, dt');
    }
  }
}
