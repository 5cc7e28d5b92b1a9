/** A frame's bytes and the parts they stand for: what `_write_converted`
    (app/netex_calendar.py) makes of the bytes is what the conversion makes of
    the parts. */
module FramePieces {
  import opened Bytes
  import opened CalendarSpec
  import opened CalendarMotis
  import opened CalendarConvert
  import opened FrameEdit
  import opened FrameTags
  import opened FrameReading
  import FrameStream

  /** Bytes without any part, then those of one part. */
  datatype Piece = Piece(before: Text, part: Part, text: Text)

  function Laid(pieces: seq<Piece>): Text {
    if pieces == [] then [] else pieces[0].before + pieces[0].text + Laid(pieces[1..])
  }

  function PartsOf(pieces: seq<Piece>): (r: seq<Part>)
    ensures |r| == |pieces| && forall i :: 0 <= i < |r| ==> r[i] == pieces[i].part
  {
    seq(|pieces|, i requires 0 <= i < |pieces| => pieces[i].part)
  }

  // ----- bytes that stand for a part

  ghost predicate IsDefinition(t: Tags, s: Text) {
    exists name <- t.reading.definitions :: IsElement(Qualified(t.prefix, name), s)
  }

  /** The bytes are one element, read as the part, or one end tag. */
  ghost predicate Stands(t: Tags, part: Part, s: Text) {
    match part
    case Def(d) => IsDefinition(t, s) && Quiet(t, s) && t.reading.toDefinition(s) == d
    case Block(list) => IsElement(BlockName(t), s) && Free(PeriodsTag(t), s) && AssignmentsRead(t, s) == list
    case PeriodsEnd => Whole(s) && MatchAt(PeriodsTag(t), s, 0) == Some(Hit(|s|, false)) && Free(Open(t), s)
  }

  ghost predicate AllStand(t: Tags, pieces: seq<Piece>) {
    forall p <- pieces :: Silent(t, p.before) && Stands(t, p.part, p.text)
  }

  /** The bytes of a frame: its parts in order, and its end tag. */
  ghost predicate Lays(t: Tags, frame: Text, pieces: seq<Piece>, last: Text) {
    frame == Laid(pieces) + (last + EndOfFrame(t)) && AllStand(t, pieces) && Silent(t, last)
  }

  // ----- laying together

  lemma {:induction false} LaidTogether(a: seq<Piece>, b: seq<Piece>)
    ensures Laid(a + b) == Laid(a) + Laid(b)
  {
    if a == [] {
      assert a + b == b;
    } else {
      assert (a + b)[0] == a[0] && (a + b)[1..] == a[1..] + b;
      LaidTogether(a[1..], b);
    }
  }

  lemma {:induction false} LaidOne(p: Piece)
    ensures Laid([p]) == p.before + p.text
  {
    assert [p][1..] == [];
  }

  /** The bytes around the piece `k`. */
  lemma {:induction false} LaidAround(pieces: seq<Piece>, k: nat)
    requires k < |pieces|
    ensures Laid(pieces) == Laid(pieces[..k]) + pieces[k].before + (pieces[k].text + Laid(pieces[k + 1..]))
  {
    assert pieces == pieces[..k] + ([pieces[k]] + pieces[k + 1..]);
    LaidTogether(pieces[..k], [pieces[k]] + pieces[k + 1..]);
    LaidTogether([pieces[k]], pieces[k + 1..]);
    LaidOne(pieces[k]);
  }

  lemma {:induction false} LaidFree(p: Pattern, pieces: seq<Piece>)
    requires IsTagName(p.name) && forall x <- pieces :: Free(p, x.before) && Free(p, x.text)
    ensures Free(p, Laid(pieces))
  {
    hide Free, IsTagName;
    if pieces == [] {
      FreeNothing(p);
    } else {
      var first := pieces[0];
      assert first in pieces;
      LaidFree(p, pieces[1..]);
      FreeTogether(p, first.before, first.text);
      FreeTogether(p, first.before + first.text, Laid(pieces[1..]));
    }
  }

  lemma {:induction false} EndOfFrameSilent(t: Tags)
    requires AreTags(t)
    ensures EndOfFrame(t) == CloseTag(Qualified(t.prefix, t.names.frame)) && Silent(t, EndOfFrame(t))
  {
    hide Free, IsTagName, FrameStream.IsName, IsPrefix;
    TagsAreNames(t);
    var name := Qualified(t.prefix, t.names.frame);
    assert EndOfFrame(t) == CloseTag(name);
    OtherKind(Open(t).name, name);
    QualifiedDiffer(t.prefix, t.names.periods, t.names.frame);
    OtherName(PeriodsTag(t).name, name);
    ClosesNothing(t, name);
  }

  /** An end tag begins no definition. */
  lemma {:induction false} ClosesNothing(t: Tags, name: Text)
    requires AreTags(t) && IsTagName(name)
    ensures NoDefinition(t, CloseTag(name))
  {
    hide Free, IsTagName, AreTags, Qualified;
    TagsAreNames(t);
    forall d | d in t.reading.definitions ensures Free(Opening(Qualified(t.prefix, d)), CloseTag(name)) {
      OtherKind(Qualified(t.prefix, d), name);
    }
  }

  lemma {:induction false} SilentTogether(t: Tags, a: Text, b: Text)
    requires AreTags(t) && Silent(t, a) && Silent(t, b)
    ensures Silent(t, a + b)
  {
    hide Free, IsTagName, AreTags, Qualified;
    TagsAreNames(t);
    FreeTogether(Open(t), a, b);
    FreeTogether(PeriodsTag(t), a, b);
    forall d | d in t.reading.definitions ensures Free(Opening(Qualified(t.prefix, d)), a + b) {
      FreeTogether(Opening(Qualified(t.prefix, d)), a, b);
    }
  }

  /** The bytes after the pieces. */
  lemma {:induction false} TailSilent(t: Tags, last: Text)
    requires AreTags(t) && Silent(t, last)
    ensures Silent(t, last + EndOfFrame(t))
  {
    hide Silent, AreTags, EndOfFrame;
    EndOfFrameSilent(t);
    SilentTogether(t, last, EndOfFrame(t));
  }

  // ----- what is read

  /** A definition is read as itself, whatever follows. */
  lemma {:induction false} DefinitionStays(t: Tags, names: seq<Text>, s: Text, rest: Text)
    requires AreTags(t) && (forall name <- names :: name in t.reading.definitions)
    requires exists name <- names :: IsElement(Qualified(t.prefix, name), s)
    ensures AnyEnd(t.prefix, names, s + rest) == Some(|s|)
  {
    hide IsTagName, MatchAt, Whole, Search, IsElement, Qualified, ElementEnd, AreElements;
    TagsAreNames(t);
    var name :| name in names && IsElement(Qualified(t.prefix, name), s);
    ElementStays(Qualified(t.prefix, name), s, rest);
    var first := names[0];
    assert first in names;
    if ElementEnd(Qualified(t.prefix, first), s + rest).Some? {
      if first != name { NotBoth(t, first, name, s + rest); }
    } else {
      assert name in names[1..];
      DefinitionStays(t, names[1..], s, rest);
    }
  }

  lemma {:induction false} NotBoth(t: Tags, a: Text, b: Text, text: Text)
    requires AreTags(t) && a in t.reading.definitions && b in t.reading.definitions && a != b
    requires ElementEnd(Qualified(t.prefix, a), text).Some?
    ensures ElementEnd(Qualified(t.prefix, b), text).None?
  {
    hide MatchAt, Search, Qualified;
    QualifiedDiffer(t.prefix, a, b);
    QualifiedDiffer(t.prefix, b, a);
    OneName(Qualified(t.prefix, a), Qualified(t.prefix, b), text);
  }

  lemma {:induction false} NotOpened(t: Tags, s: Text, rest: Text)
    requires AreTags(t) && Free(Open(t), s) && s != []
    ensures ElementEnd(BlockName(t), s + rest).None?
  {
    hide MatchAt, Free, IsTagName, AreTags, Search;
    TagsAreNames(t);
    FreeAtStart(Open(t), s, rest);
  }

  lemma {:induction false} EndStays(t: Tags, s: Text, rest: Text)
    requires AreTags(t) && Stands(t, PeriodsEnd, s)
    ensures MatchAt(PeriodsTag(t), s + rest, 0) == Some(Hit(|s|, false)) && s != []
    ensures AnyEnd(t.prefix, t.reading.definitions, s + rest).None?
  {
    hide MatchAt, Free, IsTagName, AreTags, Qualified, Whole;
    TagsAreNames(t);
    HitInText(PeriodsTag(t), s);
    MatchInWhole(PeriodsTag(t), s, rest, 0);
    forall d | d in t.reading.definitions ensures MatchAt(Opening(Qualified(t.prefix, d)), s + rest, 0).None? {
      OpensOrCloses(PeriodsTag(t).name, Qualified(t.prefix, d), s + rest);
    }
    NoneBegins(t.prefix, t.reading.definitions, s + rest);
  }

  lemma {:induction false} OpensOrCloses(name: Text, other: Text, text: Text)
    requires IsTagName(other)
    ensures MatchAt(Closing(name), text, 0).Some? ==> MatchAt(Opening(other), text, 0).None?
  {
    hide TagEnd;
    AtByte(text, 0, Lead(Closing(name)), 1);
    AtByte(text, 0, Lead(Opening(other)), 1);
    assert Lead(Opening(other))[1] == other[0] && other[0] in other;
  }

  /** Bytes that stand for a part are read as it, whatever follows. */
  lemma {:induction false} PartStays(t: Tags, part: Part, s: Text, rest: Text)
    requires AreTags(t) && Stands(t, part, s)
    ensures s != [] && PartAt(t, s + rest) == Some((part, |s|))
  {
    hide MatchAt, Free, IsTagName, AreTags, Whole, ElementEnd, AnyEnd, AssignmentsRead, Qualified;
    TagsAreNames(t);
    assert (s + rest)[..|s|] == s;
    match part
    case Block(_) =>
      ElementStays(BlockName(t), s, rest);
    case Def(_) =>
      var name :| name in t.reading.definitions && IsElement(Qualified(t.prefix, name), s);
      DefinitionStays(t, t.reading.definitions, s, rest);
      NotOpened(t, s, rest);
    case PeriodsEnd =>
      EndStays(t, s, rest);
      NotOpened(t, s, rest);
  }

  lemma {:induction false} PartRead(t: Tags, part: Part, s: Text, rest: Text)
    requires AreTags(t) && Stands(t, part, s)
    ensures PartsRead(t, s + rest) == [part] + PartsRead(t, rest)
  {
    hide AreTags, Stands, PartAt;
    PartStays(t, part, s, rest);
    assert (s + rest)[|s|..] == rest;
  }

  lemma {:induction false} LaidFirst(pieces: seq<Piece>, tail: Text)
    requires pieces != []
    ensures Laid(pieces) + tail == pieces[0].before + (pieces[0].text + (Laid(pieces[1..]) + tail))
    ensures PartsOf(pieces) == [pieces[0].part] + PartsOf(pieces[1..])
  {
  }

  lemma {:induction false} NothingRead(t: Tags, tail: Text)
    ensures Laid([]) + tail == tail && PartsOf([]) + PartsRead(t, tail) == PartsRead(t, tail)
  {
  }

  lemma {:induction false} LaidRead(t: Tags, pieces: seq<Piece>, tail: Text)
    requires AreTags(t) && AllStand(t, pieces)
    ensures PartsRead(t, Laid(pieces) + tail) == PartsOf(pieces) + PartsRead(t, tail)
  {
    hide AreTags, Stands, Silent, Laid, PartsOf, PartsRead;
    if pieces == [] {
      NothingRead(t, tail);
    } else {
      var p, rest := pieces[0], Laid(pieces[1..]) + tail;
      assert p in pieces;
      LaidFirst(pieces, tail);
      SilentSkipped(t, p.before, p.text + rest);
      PartRead(t, p.part, p.text, rest);
      LaidRead(t, pieces[1..], tail);
    }
  }

  /** The bytes of a frame are read as its parts: they have no others. */
  lemma {:induction false} FrameRead(t: Tags, frame: Text, pieces: seq<Piece>, last: Text)
    requires AreTags(t) && Lays(t, frame, pieces, last)
    ensures PartsRead(t, frame) == PartsOf(pieces)
  {
    hide AreTags, AllStand, Silent, Laid, EndOfFrame, PartsOf;
    var tail := last + EndOfFrame(t);
    LaidRead(t, pieces, tail);
    TailSilent(t, last);
    SilentSkipped(t, tail, []);
    assert tail + [] == tail;
  }

  // ----- what is found

  /** The first piece the expression finds, at its text. */
  lemma {:induction false} FoundAt(p: Pattern, pieces: seq<Piece>, k: nat, tail: Text)
    requires IsTagName(p.name) && k < |pieces|
    requires forall x <- pieces[..k] :: Free(p, x.before) && Free(p, x.text)
    requires Free(p, pieces[k].before) && Whole(pieces[k].text) && MatchAt(p, pieces[k].text, 0).Some?
    ensures Search(p, Laid(pieces) + tail) ==
      MovedFound(Some(Found(0, MatchAt(p, pieces[k].text, 0).value)), |Laid(pieces[..k])| + |pieces[k].before|)
  {
    hide Free, IsTagName, MatchAt, Whole;
    var gone, text := Laid(pieces[..k]) + pieces[k].before, pieces[k].text;
    var rest := Laid(pieces[k + 1..]) + tail;
    LaidAround(pieces, k);
    assert Laid(pieces) + tail == gone + (text + rest);
    LaidFree(p, pieces[..k]);
    FreeTogether(p, Laid(pieces[..k]), pieces[k].before);
    SearchSkips(p, gone, text + rest);
    SearchIs(p, text, 0);
    SearchHere(p, text, rest);
  }

  lemma {:induction false} FoundNowhere(p: Pattern, pieces: seq<Piece>, tail: Text)
    requires IsTagName(p.name) && Free(p, tail) && forall x <- pieces :: Free(p, x.before) && Free(p, x.text)
    ensures Search(p, Laid(pieces) + tail).None?
  {
    hide Free, IsTagName, MatchAt;
    LaidFree(p, pieces);
    FreeTogether(p, Laid(pieces), tail);
    FreeIsNotFound(p, Laid(pieces) + tail);
  }

  /** The first block found is replaced from its first byte to its last. */
  lemma {:induction false} SpanOfBlock(t: Tags, gone: Text, text: Text, rest: Text)
    requires AreTags(t) && IsElement(BlockName(t), text) && |EndOfFrame(t)| <= |gone + (text + rest)|
    requires Search(Open(t), gone + (text + rest)) ==
      MovedFound(Some(Found(0, MatchAt(Open(t), text, 0).value)), |gone|)
    ensures Span(gone + (text + rest), t.prefix, t.names) == Some((|gone|, |gone| + |text|))
  {
    hide IsTagName, MatchAt, Whole, Search;
    var frame, hit := gone + (text + rest), MatchAt(Open(t), text, 0).value;
    if !hit.slash {
      HitInText(Open(t), text);
      WholeFrom(text, hit.end);
      TagsAreNames(t);
      assert frame[|gone| + hit.end..] == text[hit.end..] + rest;
      SearchHere(Close(t), text[hit.end..], rest);
    }
  }

  // ----- the bytes written

  lemma {:induction false} Parted(a: Text, b: Text, c: Text)
    ensures var s := a + (b + c);
      Slice(s, 0, |a|) == a && Slice(s, |a|, |a| + |b|) == b && Slice(s, |a| + |b|, |s|) == c
  {
    var s := a + (b + c);
    assert s[..|a|] == a && s[|a|..|a| + |b|] == b && s[|a| + |b|..] == c;
  }

  lemma {:induction false} EditedOnce(u: Text, v: Text, w: Text, x: Text)
    ensures Edited(u + (v + w), 0, |u| + |v| + |w|, [Edit(|u|, |u| + |v|, x)]) == u + x + w
  {
    hide Slice;
    var edits := [Edit(|u|, |u| + |v|, x)];
    Parted(u, v, w);
    assert edits[1..] == [];
  }

  lemma {:induction false} EditedTwice(u: Text, v: Text, w: Text, y: Text, z: Text, x: Text, x': Text)
    ensures
      var frame, n := u + (v + (w + (y + z))), |u| + |v| + |w|;
      Edited(frame, 0, |frame|, [Edit(|u|, |u| + |v|, x), Edit(n, n + |y|, x')]) == u + x + (w + x' + z)
  {
    hide Slice;
    var frame, n := u + (v + (w + (y + z))), |u| + |v| + |w|;
    var first, second := Edit(|u|, |u| + |v|, x), Edit(n, n + |y|, x');
    Parted(u, v, w + (y + z));
    Regrouped(u, v, w, y + z);
    Parted(u + v, w, y + z);
    Regrouped(u + v, w, y, z);
    Parted(u + v + w, y, z);
    assert [second][1..] == [] && [first, second][1..] == [second];
    assert Edited(frame, |u| + |v|, |frame|, [second]) == w + x' + z;
  }

  lemma {:induction false} Regrouped(a: Text, b: Text, c: Text, d: Text)
    ensures a + (b + (c + d)) == a + b + (c + d)
  {
  }

  // ----- the new pieces

  /** How periods and assignments are written. */
  datatype Show = Show(period: Definition -> Text, assignment: Assignment -> Text)

  ghost predicate AssignmentShown(t: Tags, show: Show, a: Assignment) {
    var s := show.assignment(a);
    && IsElement(Qualified(t.prefix, t.reading.assignment), s) && t.reading.toAssignment(s) == a
    && Free(PeriodsTag(t), s) && Free(Close(t), s)
  }

  /** A period written is read again as itself, and so is an assignment. */
  ghost predicate GoodShow(t: Tags, show: Show) {
    && (forall d :: IsWritten(d) ==> Stands(t, Def(d), show.period(d)))
    && (forall dt :: AssignmentShown(t, show, NewAssignment(dt)))
  }

  function PeriodPieces(show: Show, periods: seq<Definition>): (r: seq<Piece>)
    ensures |r| == |periods| && forall i :: 0 <= i < |r| ==> r[i] == Piece([], Def(periods[i]), show.period(periods[i]))
  {
    seq(|periods|, i requires 0 <= i < |periods| => Piece([], Def(periods[i]), show.period(periods[i])))
  }

  function PeriodText(show: Show, periods: seq<Definition>): Text { Laid(PeriodPieces(show, periods)) }

  function AssignmentText(show: Show, list: seq<Assignment>): Text {
    if list == [] then [] else show.assignment(list[0]) + AssignmentText(show, list[1..])
  }

  function BlockText(t: Tags, show: Show, list: seq<Assignment>): Text {
    var name := Qualified(t.prefix, t.names.block);
    OpenTag(name) + (AssignmentText(show, list) + CloseTag(name))
  }

  function After(before: Text, pieces: seq<Piece>): seq<Piece>
    requires pieces != []
  {
    [pieces[0].(before := before + pieces[0].before)] + pieces[1..]
  }

  lemma {:induction false} LaidAfter(before: Text, pieces: seq<Piece>)
    requires pieces != []
    ensures Laid(After(before, pieces)) == before + Laid(pieces)
  {
    assert After(before, pieces)[1..] == pieces[1..];
  }

  /** The periods, then the end of their container. */
  function Section(show: Show, periods: seq<Definition>, before: Text, close: Text): seq<Piece> {
    After(before, PeriodPieces(show, periods) + [Piece([], PeriodsEnd, close)])
  }

  lemma {:induction false} LaidSection(show: Show, periods: seq<Definition>, before: Text, close: Text)
    ensures Laid(Section(show, periods, before, close)) == before + PeriodText(show, periods) + close
    ensures PartsOf(Section(show, periods, before, close)) == Defs(periods) + [PeriodsEnd]
  {
    var ps, end := PeriodPieces(show, periods), Piece([], PeriodsEnd, close);
    LaidAfter(before, ps + [end]);
    LaidTogether(ps, [end]);
    LaidOne(end);
  }

  lemma {:induction false} SectionStands(t: Tags, show: Show, periods: seq<Definition>, before: Text, close: Text)
    requires AreTags(t) && GoodShow(t, show) && (forall d <- periods :: IsWritten(d))
    requires Silent(t, before) && Stands(t, PeriodsEnd, close)
    ensures AllStand(t, Section(show, periods, before, close))
  {
    hide Silent, Stands;
    var ps := PeriodPieces(show, periods) + [Piece([], PeriodsEnd, close)];
    NothingSilent(t);
    assert before + [] == before;
    forall p | p in ps ensures Silent(t, p.before) && Stands(t, p.part, p.text) {
      var i :| 0 <= i < |ps| && ps[i] == p;
      if i < |periods| { assert periods[i] in periods && p == Piece([], Def(periods[i]), show.period(periods[i])); }
    }
    forall p | p in Section(show, periods, before, close) ensures Silent(t, p.before) && Stands(t, p.part, p.text) {
      assert p == ps[0].(before := before) || p in ps;
      assert ps[0] in ps;
    }
  }

  lemma {:induction false} NothingSilent(t: Tags)
    ensures Silent(t, [])
  {
    hide Free;
    FreeNothing(Open(t));
    FreeNothing(PeriodsTag(t));
    forall name | name in t.reading.definitions ensures Free(Opening(Qualified(t.prefix, name)), []) {
      FreeNothing(Opening(Qualified(t.prefix, name)));
    }
  }

  lemma {:induction false} AssignmentsFree(p: Pattern, show: Show, list: seq<Assignment>)
    requires IsTagName(p.name) && forall a <- list :: Free(p, show.assignment(a))
    ensures Free(p, AssignmentText(show, list))
  {
    hide Free, IsTagName;
    if list == [] {
      FreeNothing(p);
    } else {
      assert list[0] in list;
      AssignmentsFree(p, show, list[1..]);
      FreeTogether(p, show.assignment(list[0]), AssignmentText(show, list[1..]));
    }
  }

  /** The assignments written are read again. */
  lemma {:induction false} AssignmentsStay(t: Tags, show: Show, list: seq<Assignment>, rest: Text)
    requires IsTagName(Qualified(t.prefix, t.reading.assignment))
    requires forall a <- list :: AssignmentShown(t, show, a)
    ensures AssignmentsRead(t, AssignmentText(show, list) + rest) == list + AssignmentsRead(t, rest)
  {
    hide IsTagName, AssignmentsRead, AssignmentShown, Qualified;
    if list == [] {
      assert [] + rest == rest;
    } else {
      var s, more := show.assignment(list[0]), AssignmentText(show, list[1..]) + rest;
      assert list[0] in list;
      AssignmentStays(t, show, list[0], more);
      AssignmentsStay(t, show, list[1..], rest);
      assert AssignmentText(show, list) + rest == s + more;
      assert list == [list[0]] + list[1..];
    }
  }

  lemma {:induction false} AssignmentStays(t: Tags, show: Show, a: Assignment, more: Text)
    requires IsTagName(Qualified(t.prefix, t.reading.assignment)) && AssignmentShown(t, show, a)
    ensures AssignmentsRead(t, show.assignment(a) + more) == [a] + AssignmentsRead(t, more)
  {
    hide IsTagName, ElementEnd, Free, Qualified, Whole;
    var s := show.assignment(a);
    ElementStays(Qualified(t.prefix, t.reading.assignment), s, more);
    assert (s + more)[..|s|] == s && (s + more)[|s|..] == more;
  }

  lemma {:induction false} BlockRead(t: Tags, show: Show, list: seq<Assignment>)
    requires AreTags(t) && forall a <- list :: AssignmentShown(t, show, a)
    ensures AssignmentsRead(t, BlockText(t, show, list)) == list
  {
    hide IsTagName, Free, Qualified, FrameStream.IsName, IsPrefix, AssignmentsRead, AssignmentShown;
    TagsAreNames(t);
    var name, own := BlockName(t), Qualified(t.prefix, t.reading.assignment);
    QualifiedDiffer(t.prefix, t.reading.assignment, t.names.block);
    OtherName(own, name);
    OtherKind(own, name);
    OthersSkipped(t, OpenTag(name), AssignmentText(show, list) + CloseTag(name));
    AssignmentsStay(t, show, list, CloseTag(name));
    OthersSkipped(t, CloseTag(name), []);
    assert CloseTag(name) + [] == CloseTag(name);
    NoneRead(t);
  }

  lemma {:induction false} NoneRead(t: Tags)
    ensures AssignmentsRead(t, []) == []
  {
  }

  lemma {:induction false} BlockStands(t: Tags, show: Show, list: seq<Assignment>)
    requires AreTags(t) && forall a <- list :: AssignmentShown(t, show, a)
    ensures Stands(t, Block(list), BlockText(t, show, list))
  {
    hide Free, IsTagName, MatchAt, Whole, Search, AssignmentsRead, ElementEnd, FrameStream.IsName, IsPrefix;
    TagsAreNames(t);
    BlockIsElement(t, show, list);
    BlockRead(t, show, list);
    var name := BlockName(t);
    AssignmentsFree(PeriodsTag(t), show, list);
    OtherKind(PeriodsTag(t).name, name);
    QualifiedDiffer(t.prefix, t.names.periods, t.names.block);
    OtherName(PeriodsTag(t).name, name);
    FreeTogether(PeriodsTag(t), AssignmentText(show, list), CloseTag(name));
    FreeTogether(PeriodsTag(t), OpenTag(name), AssignmentText(show, list) + CloseTag(name));
  }

  lemma {:induction false} BlockIsElement(t: Tags, show: Show, list: seq<Assignment>)
    requires AreTags(t) && forall a <- list :: AssignmentShown(t, show, a)
    ensures IsElement(BlockName(t), BlockText(t, show, list))
  {
    hide IsTagName, MatchAt, Whole, Free, AssignmentsRead, AreElements, IsElement;
    TagsAreNames(t);
    FoundInItself(BlockName(t));
    TagsWhole(BlockName(t));
    AssignmentsFree(Close(t), show, list);
    ElementMade(BlockName(t), OpenTag(BlockName(t)), AssignmentText(show, list));
  }

  /** A start tag, bytes without the end tag, and the end tag: an element. */
  lemma {:induction false} ElementMade(name: Text, start: Text, inner: Text)
    requires IsTagName(name) && Whole(start) && MatchAt(Opening(name), start, 0) == Some(Hit(|start|, false))
    requires Free(Closing(name), inner)
    ensures IsElement(name, start + (inner + CloseTag(name)))
  {
    hide IsTagName, MatchAt, Search, Whole, Free, CloseTag;
    var rest := inner + CloseTag(name);
    FoundInItself(name);
    TagsWhole(name);
    FreeIsWhole(Closing(name), inner);
    WholeTogether(inner, CloseTag(name));
    WholeTogether(start, rest);
    OpenTagSize(name);
    StartNotEmpty(Opening(name), start);
    MatchInWhole(Opening(name), start, rest, 0);
    assert (start + rest)[|start|..] == rest;
    SearchIsFirst(Closing(name), CloseTag(name));
    SearchSkips(Closing(name), inner, CloseTag(name));
  }

  lemma {:induction false} StartNotEmpty(p: Pattern, s: Text)
    requires MatchAt(p, s, 0).Some?
    ensures s != []
  {
  }

  lemma {:induction false} FreeIsWhole(p: Pattern, s: Text)
    requires Free(p, s)
    ensures Whole(s)
  {
  }

  lemma {:induction false} OpenTagSize(name: Text)
    ensures |OpenTag(name)| == |name| + 2 && |CloseTag(name)| == |name| + 3
  {
  }

  lemma {:induction false} SearchIsFirst(p: Pattern, text: Text)
    requires text != [] && MatchAt(p, text, 0).Some?
    ensures Search(p, text) == Some(Found(0, MatchAt(p, text, 0).value))
  {
  }

  lemma {:induction false} ContainerStands(t: Tags)
    requires AreTags(t)
    ensures var name := Qualified(t.prefix, t.names.periods);
      Silent(t, OpenTag(name)) && Stands(t, PeriodsEnd, CloseTag(name))
  {
    hide Free, IsTagName, MatchAt, Whole, FrameStream.IsName, IsPrefix;
    TagsAreNames(t);
    var name := Qualified(t.prefix, t.names.periods);
    OtherKind(name, name);
    OtherKind(Open(t).name, name);
    QualifiedDiffer(t.prefix, t.names.block, t.names.periods);
    OtherName(Open(t).name, name);
    FoundInItself(name);
    TagsWhole(name);
    forall d | d in t.reading.definitions ensures Free(Opening(Qualified(t.prefix, d)), OpenTag(name)) {
      QualifiedDiffer(t.prefix, d, t.names.periods);
      OtherName(Qualified(t.prefix, d), name);
    }
  }
}
