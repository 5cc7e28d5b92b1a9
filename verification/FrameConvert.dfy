/** The conversion of a frame's bytes (app/netex_calendar.py): what is written
    is a frame whose parts are the converted ones. */
module FrameConvert {
  import opened Bytes
  import opened CalendarSpec
  import opened CalendarMotis
  import opened CalendarConvert
  import opened FrameEdit
  import opened FrameTags
  import opened FrameReading
  import opened FramePieces
  import FrameStream

  // ----- the pieces written

  function BeforeBlock(pieces: seq<Piece>, last: Text): Text {
    var b := FirstBlock(PartsOf(pieces));
    if b < |pieces| then pieces[b].before else last
  }

  /** The bytes replaced. */
  function OldBlock(pieces: seq<Piece>): Text {
    var b := FirstBlock(PartsOf(pieces));
    if b < |pieces| then pieces[b].text else []
  }

  function AfterBlock(pieces: seq<Piece>): seq<Piece> {
    var b := FirstBlock(PartsOf(pieces));
    if b < |pieces| then pieces[b + 1..] else []
  }

  function NewLast(pieces: seq<Piece>, last: Text): Text {
    if FirstBlock(PartsOf(pieces)) < |pieces| then last else []
  }

  /** The pieces of the frame written: every old one but the first block keeps
      its bytes and its place. */
  function NewPieces(
    t: Tags, show: Show, pieces: seq<Piece>, last: Text, periods: seq<Definition>, list: seq<Assignment>): seq<Piece>
  {
    var b, e := FirstBlock(PartsOf(pieces)), FirstPeriodsEnd(PartsOf(pieces));
    var before, text := BeforeBlock(pieces, last), BlockText(t, show, list);
    var name := Qualified(t.prefix, t.names.periods);
    if e == |pieces| then
      pieces[..b] + (Section(show, periods, before + OpenTag(name), CloseTag(name))
        + ([Piece([], Block(list), text)] + AfterBlock(pieces)))
    else if e < b then
      pieces[..e] + (Section(show, periods, pieces[e].before, pieces[e].text)
        + (pieces[e + 1..b] + ([Piece(before, Block(list), text)] + AfterBlock(pieces))))
    else
      pieces[..b] + ([Piece(before, Block(list), text)]
        + (pieces[b + 1..e] + (Section(show, periods, pieces[e].before, pieces[e].text) + pieces[e + 1..])))
  }

  // ----- their parts

  lemma {:induction false} PartsTogether(a: seq<Piece>, b: seq<Piece>)
    ensures PartsOf(a + b) == PartsOf(a) + PartsOf(b)
  {
  }

  lemma {:induction false} PartsBetween(pieces: seq<Piece>, i: nat, j: nat)
    requires i <= j <= |pieces|
    ensures PartsOf(pieces[i..j]) == PartsOf(pieces)[i..j]
  {
  }

  lemma {:induction false} PartsOfFour(
    a: seq<Piece>, b: seq<Piece>, c: seq<Piece>, d: seq<Piece>, pa: seq<Part>, pb: seq<Part>, pc: seq<Part>,
    pd: seq<Part>)
    requires PartsOf(a) == pa && PartsOf(b) == pb && PartsOf(c) == pc && PartsOf(d) == pd
    ensures PartsOf(a + (b + (c + d))) == pa + (pb + (pc + pd))
  {
    hide PartsOf;
    PartsTogether(c, d);
    PartsTogether(b, c + d);
    PartsTogether(a, b + (c + d));
  }

  /** The rewritten parts, by where the periods go. */
  lemma {:induction false} RewrittenOwn(parts: seq<Part>, periods: seq<Definition>, list: seq<Assignment>)
    requires FirstPeriodsEnd(parts) == |parts|
    ensures Rewritten(parts, periods, list) ==
      parts[..FirstBlock(parts)] + ((Defs(periods) + [PeriodsEnd]) + ([Block(list)] + Tail(parts)))
  {
    hide Tail, Defs, FirstBlock, FirstPeriodsEnd;
  }

  lemma {:induction false} RewrittenBefore(
    parts: seq<Part>, periods: seq<Definition>, list: seq<Assignment>, b: nat, e: nat)
    requires b == FirstBlock(parts) && e == FirstPeriodsEnd(parts) < b
    ensures Rewritten(parts, periods, list) ==
      parts[..e] + ((Defs(periods) + [PeriodsEnd]) + (parts[e + 1..b] + ([Block(list)] + Tail(parts))))
  {
    hide Tail, Defs, FirstBlock, FirstPeriodsEnd;
    assert parts[e..b] == [PeriodsEnd] + parts[e + 1..b];
  }

  lemma {:induction false} RewrittenBehind(
    parts: seq<Part>, periods: seq<Definition>, list: seq<Assignment>, b: nat, e: nat)
    requires b == FirstBlock(parts) < e == FirstPeriodsEnd(parts) < |parts|
    ensures Rewritten(parts, periods, list) ==
      parts[..b] + ([Block(list)] + (parts[b + 1..e] + ((Defs(periods) + [PeriodsEnd]) + parts[e + 1..])))
  {
    hide Defs, FirstBlock, FirstPeriodsEnd;
    assert parts[e..] == [PeriodsEnd] + parts[e + 1..];
    RegroupedParts(parts[..b], [Block(list)], parts[b + 1..e], Defs(periods), parts[e + 1..]);
  }

  lemma {:induction false} RegroupedParts(a: seq<Part>, b: seq<Part>, m: seq<Part>, d: seq<Part>, r: seq<Part>)
    ensures a + b + (m + d + ([PeriodsEnd] + r)) == a + (b + (m + ((d + [PeriodsEnd]) + r)))
  {
  }

  lemma {:induction false} AfterParts(pieces: seq<Piece>)
    ensures PartsOf(AfterBlock(pieces)) == Tail(PartsOf(pieces))
  {
    hide FirstBlock;
    var b := FirstBlock(PartsOf(pieces));
    if b < |pieces| { PartsBetween(pieces, b + 1, |pieces|); }
  }

  lemma {:induction false} OnePart(p: Piece)
    ensures PartsOf([p]) == [p.part]
  {
  }

  lemma {:induction false} NewPartsOwn(
    t: Tags, show: Show, pieces: seq<Piece>, last: Text, periods: seq<Definition>, list: seq<Assignment>)
    requires FirstPeriodsEnd(PartsOf(pieces)) == |pieces|
    ensures PartsOf(NewPieces(t, show, pieces, last, periods, list)) == Rewritten(PartsOf(pieces), periods, list)
  {
    hide FirstBlock, FirstPeriodsEnd, Section, BlockText, PartsOf, Defs, Rewritten, Tail, AfterBlock, BeforeBlock;
    var parts := PartsOf(pieces);
    var b, name := FirstBlock(parts), Qualified(t.prefix, t.names.periods);
    var block := [Piece([], Block(list), BlockText(t, show, list))];
    OnePart(block[0]);
    PartsUpTo(pieces, b);
    AfterParts(pieces);
    var before := BeforeBlock(pieces, last) + OpenTag(name);
    LaidSection(show, periods, before, CloseTag(name));
    PartsOfFour(
      pieces[..b], Section(show, periods, before, CloseTag(name)), block, AfterBlock(pieces),
      parts[..b], Defs(periods) + [PeriodsEnd], [Block(list)], Tail(parts));
    RewrittenOwn(parts, periods, list);
  }

  lemma {:induction false} PartsUpTo(pieces: seq<Piece>, i: nat)
    requires i <= |pieces|
    ensures PartsOf(pieces[..i]) == PartsOf(pieces)[..i] && PartsOf(pieces[i..]) == PartsOf(pieces)[i..]
  {
  }

  lemma {:induction false} NewPartsBefore(
    t: Tags, show: Show, pieces: seq<Piece>, last: Text, periods: seq<Definition>, list: seq<Assignment>, b: nat,
    e: nat)
    requires b == FirstBlock(PartsOf(pieces)) && e == FirstPeriodsEnd(PartsOf(pieces)) < b
    ensures PartsOf(NewPieces(t, show, pieces, last, periods, list)) == Rewritten(PartsOf(pieces), periods, list)
  {
    hide FirstBlock, FirstPeriodsEnd, Section, BlockText, PartsOf, Defs, Rewritten, Tail, AfterBlock, BeforeBlock;
    var parts := PartsOf(pieces);
    var block := [Piece(BeforeBlock(pieces, last), Block(list), BlockText(t, show, list))];
    OnePart(block[0]);
    LaidSection(show, periods, pieces[e].before, pieces[e].text);
    var section := Section(show, periods, pieces[e].before, pieces[e].text);
    PartsUpTo(pieces, e);
    PartsBetween(pieces, e + 1, b);
    AfterParts(pieces);
    PartsTogether(block, AfterBlock(pieces));
    PartsOfFour(
      pieces[..e], section, pieces[e + 1..b], block + AfterBlock(pieces),
      parts[..e], Defs(periods) + [PeriodsEnd], parts[e + 1..b], [Block(list)] + Tail(parts));
    RewrittenBefore(parts, periods, list, b, e);
  }

  lemma {:induction false} NewPartsBehind(
    t: Tags, show: Show, pieces: seq<Piece>, last: Text, periods: seq<Definition>, list: seq<Assignment>, b: nat,
    e: nat)
    requires b == FirstBlock(PartsOf(pieces)) < e == FirstPeriodsEnd(PartsOf(pieces)) < |pieces|
    ensures PartsOf(NewPieces(t, show, pieces, last, periods, list)) == Rewritten(PartsOf(pieces), periods, list)
  {
    hide FirstBlock, FirstPeriodsEnd, Section, BlockText, PartsOf, Defs, Rewritten, Tail, AfterBlock, BeforeBlock;
    var parts := PartsOf(pieces);
    var block := [Piece(BeforeBlock(pieces, last), Block(list), BlockText(t, show, list))];
    OnePart(block[0]);
    LaidSection(show, periods, pieces[e].before, pieces[e].text);
    var section := Section(show, periods, pieces[e].before, pieces[e].text);
    PartsUpTo(pieces, b);
    PartsBetween(pieces, b + 1, e);
    PartsUpTo(pieces, e + 1);
    PartsTogether(section, pieces[e + 1..]);
    PartsOfFour(
      pieces[..b], block, pieces[b + 1..e], section + pieces[e + 1..],
      parts[..b], [Block(list)], parts[b + 1..e], (Defs(periods) + [PeriodsEnd]) + parts[e + 1..]);
    RewrittenBehind(parts, periods, list, b, e);
  }

  /** The pieces written stand for the rewritten parts. */
  lemma {:induction false} NewParts(
    t: Tags, show: Show, pieces: seq<Piece>, last: Text, periods: seq<Definition>, list: seq<Assignment>)
    ensures PartsOf(NewPieces(t, show, pieces, last, periods, list)) == Rewritten(PartsOf(pieces), periods, list)
  {
    hide *;
    var b, e := FirstBlock(PartsOf(pieces)), FirstPeriodsEnd(PartsOf(pieces));
    if e == |pieces| {
      NewPartsOwn(t, show, pieces, last, periods, list);
    } else if e < b {
      NewPartsBefore(t, show, pieces, last, periods, list, b, e);
    } else {
      NewPartsBehind(t, show, pieces, last, periods, list, b, e);
    }
  }

  // ----- they stand for those parts

  lemma {:induction false} StandTogether(t: Tags, a: seq<Piece>, b: seq<Piece>)
    requires AllStand(t, a) && AllStand(t, b)
    ensures AllStand(t, a + b)
  {
  }

  lemma {:induction false} StandBetween(t: Tags, pieces: seq<Piece>, i: nat, j: nat)
    requires AllStand(t, pieces) && i <= j <= |pieces|
    ensures AllStand(t, pieces[i..j])
  {
  }

  lemma {:induction false} OneStands(t: Tags, p: Piece)
    requires Silent(t, p.before) && Stands(t, p.part, p.text)
    ensures AllStand(t, [p])
  {
  }

  lemma {:induction false} FourStand(t: Tags, a: seq<Piece>, b: seq<Piece>, c: seq<Piece>, d: seq<Piece>)
    requires AllStand(t, a) && AllStand(t, b) && AllStand(t, c) && AllStand(t, d)
    ensures AllStand(t, a + (b + (c + d)))
  {
    hide AllStand;
    StandTogether(t, c, d);
    StandTogether(t, b, c + d);
    StandTogether(t, a, b + (c + d));
  }

  /** What stands around the first block. */
  lemma {:induction false} AroundStands(t: Tags, pieces: seq<Piece>, last: Text)
    requires AllStand(t, pieces) && Silent(t, last)
    ensures Silent(t, BeforeBlock(pieces, last)) && AllStand(t, AfterBlock(pieces)) && Silent(t, NewLast(pieces, last))
  {
    hide Silent, Stands;
    NothingSilent(t);
    var b := FirstBlock(PartsOf(pieces));
    if b < |pieces| { assert pieces[b] in pieces; }
  }

  lemma {:induction false} PieceStands(t: Tags, pieces: seq<Piece>, k: nat)
    requires AllStand(t, pieces) && k < |pieces|
    ensures Silent(t, pieces[k].before) && Stands(t, pieces[k].part, pieces[k].text)
  {
  }

  lemma {:induction false} AllShown(t: Tags, show: Show, periods: seq<Definition>, list: seq<Assignment>)
    requires GoodShow(t, show) && AreWritten(periods, list)
    ensures (forall a <- list :: AssignmentShown(t, show, a)) && forall d <- periods :: IsWritten(d)
  {
    hide AssignmentShown, Stands;
    forall a | a in list ensures AssignmentShown(t, show, a) {
      assert AssignmentShown(t, show, NewAssignment(a.dayType));
    }
  }

  lemma {:induction false} NewStandOwn(
    t: Tags, show: Show, pieces: seq<Piece>, last: Text, periods: seq<Definition>, list: seq<Assignment>)
    requires AreTags(t) && GoodShow(t, show) && AreWritten(periods, list) && AllStand(t, pieces) && Silent(t, last)
    requires FirstPeriodsEnd(PartsOf(pieces)) == |pieces|
    ensures AllStand(t, NewPieces(t, show, pieces, last, periods, list))
  {
    hide Silent, Stands, AllStand, FirstBlock, FirstPeriodsEnd, Section, BlockText, PartsOf, AreTags, GoodShow,
      AfterBlock, BeforeBlock, NewLast;
    var b, before := FirstBlock(PartsOf(pieces)), BeforeBlock(pieces, last);
    var name, block := Qualified(t.prefix, t.names.periods), Piece([], Block(list), BlockText(t, show, list));
    AroundStands(t, pieces, last);
    AllShown(t, show, periods, list);
    BlockStands(t, show, list);
    NothingSilent(t);
    OneStands(t, block);
    StandUpTo(t, pieces, b);
    ContainerStands(t);
    SilentTogether(t, before, OpenTag(name));
    SectionStands(t, show, periods, before + OpenTag(name), CloseTag(name));
    FourStand(t, pieces[..b], Section(show, periods, before + OpenTag(name), CloseTag(name)), [block],
      AfterBlock(pieces));
  }

  lemma {:induction false} StandUpTo(t: Tags, pieces: seq<Piece>, i: nat)
    requires AllStand(t, pieces) && i <= |pieces|
    ensures AllStand(t, pieces[..i]) && AllStand(t, pieces[i..])
  {
  }

  lemma {:induction false} NewStandGiven(
    t: Tags, show: Show, pieces: seq<Piece>, last: Text, periods: seq<Definition>, list: seq<Assignment>)
    requires AreTags(t) && GoodShow(t, show) && AreWritten(periods, list) && AllStand(t, pieces) && Silent(t, last)
    requires FirstPeriodsEnd(PartsOf(pieces)) < |pieces|
    ensures AllStand(t, NewPieces(t, show, pieces, last, periods, list))
  {
    hide Silent, Stands, AllStand, FirstBlock, FirstPeriodsEnd, Section, BlockText, PartsOf, AreTags, GoodShow,
      AfterBlock, BeforeBlock, NewLast;
    var b, e := FirstBlock(PartsOf(pieces)), FirstPeriodsEnd(PartsOf(pieces));
    var block := Piece(BeforeBlock(pieces, last), Block(list), BlockText(t, show, list));
    AroundStands(t, pieces, last);
    AllShown(t, show, periods, list);
    BlockStands(t, show, list);
    OneStands(t, block);
    PieceStands(t, pieces, e);
    SectionStands(t, show, periods, pieces[e].before, pieces[e].text);
    var section := Section(show, periods, pieces[e].before, pieces[e].text);
    if e < b {
      StandUpTo(t, pieces, e);
      StandBetween(t, pieces, e + 1, b);
      StandTogether(t, [block], AfterBlock(pieces));
      FourStand(t, pieces[..e], section, pieces[e + 1..b], [block] + AfterBlock(pieces));
    } else {
      StandUpTo(t, pieces, b);
      StandBetween(t, pieces, b + 1, e);
      StandUpTo(t, pieces, e + 1);
      StandTogether(t, section, pieces[e + 1..]);
      FourStand(t, pieces[..b], [block], pieces[b + 1..e], section + pieces[e + 1..]);
    }
  }

  lemma {:induction false} NewStand(
    t: Tags, show: Show, pieces: seq<Piece>, last: Text, periods: seq<Definition>, list: seq<Assignment>)
    requires AreTags(t) && GoodShow(t, show) && AreWritten(periods, list) && AllStand(t, pieces) && Silent(t, last)
    ensures AllStand(t, NewPieces(t, show, pieces, last, periods, list)) && Silent(t, NewLast(pieces, last))
  {
    hide *;
    AroundStands(t, pieces, last);
    if FirstPeriodsEnd(PartsOf(pieces)) == |pieces| {
      NewStandOwn(t, show, pieces, last, periods, list);
    } else {
      NewStandGiven(t, show, pieces, last, periods, list);
    }
  }

  // ----- their bytes

  lemma {:induction false} LaidFour(a: seq<Piece>, b: seq<Piece>, c: seq<Piece>, d: seq<Piece>)
    ensures Laid(a + (b + (c + d))) == Laid(a) + (Laid(b) + (Laid(c) + Laid(d)))
  {
    hide Laid;
    LaidTogether(c, d);
    LaidTogether(b, c + d);
    LaidTogether(a, b + (c + d));
  }

  /** What follows the bytes replaced. */
  function Rest(t: Tags, pieces: seq<Piece>, last: Text): Text {
    Laid(AfterBlock(pieces)) + (NewLast(pieces, last) + EndOfFrame(t))
  }

  function Up(pieces: seq<Piece>, last: Text): Text {
    Laid(pieces[..FirstBlock(PartsOf(pieces))]) + BeforeBlock(pieces, last)
  }

  lemma {:induction false} FreeOfBlocks(t: Tags, pieces: seq<Piece>, k: nat)
    requires AllStand(t, pieces) && k <= FirstBlock(PartsOf(pieces))
    ensures forall x <- pieces[..k] :: Free(Open(t), x.before) && Free(Open(t), x.text)
  {
    hide Free, MatchAt, Whole;
    forall x | x in pieces[..k] ensures Free(Open(t), x.before) && Free(Open(t), x.text) {
      var i :| 0 <= i < k && pieces[i] == x;
      assert !PartsOf(pieces)[i].Block?;
    }
  }

  lemma {:induction false} FreeOfEnds(t: Tags, pieces: seq<Piece>, k: nat)
    requires AllStand(t, pieces) && k <= FirstPeriodsEnd(PartsOf(pieces))
    ensures forall x <- pieces[..k] :: Free(PeriodsTag(t), x.before) && Free(PeriodsTag(t), x.text)
  {
    hide Free, MatchAt, Whole;
    forall x | x in pieces[..k] ensures Free(PeriodsTag(t), x.before) && Free(PeriodsTag(t), x.text) {
      var i :| 0 <= i < k && pieces[i] == x;
      assert !PartsOf(pieces)[i].PeriodsEnd?;
    }
  }

  lemma {:induction false} SpanIsBlock(t: Tags, frame: Text, pieces: seq<Piece>, last: Text, b: nat)
    requires AreTags(t) && Lays(t, frame, pieces, last) && b == FirstBlock(PartsOf(pieces)) < |pieces|
    ensures |EndOfFrame(t)| <= |frame|
    ensures
      var up, gone := Laid(pieces[..b]) + pieces[b].before, pieces[b].text;
      var rest := Laid(pieces[b + 1..]) + (last + EndOfFrame(t));
      frame == up + (gone + rest) && Span(frame, t.prefix, t.names) == Some((|up|, |up| + |gone|))
  {
    hide Free, MatchAt, Whole, Search, Span, IsTagName, AreTags, FrameStream.EndTag, FirstBlock, Laid, IsElement;
    var tail, up := last + EndOfFrame(t), Laid(pieces[..b]) + pieces[b].before;
    FreeOfBlocks(t, pieces, b);
    TagsAreNames(t);
    BlockPiece(t, pieces, b);
    LaidAround(pieces, b);
    FoundAt(Open(t), pieces, b, tail);
    JoinRest(up, pieces[b].text, Laid(pieces[b + 1..]), tail);
    SpanOfBlock(t, up, pieces[b].text, Laid(pieces[b + 1..]) + tail);
  }

  lemma {:induction false} BlockPiece(t: Tags, pieces: seq<Piece>, b: nat)
    requires AllStand(t, pieces) && b == FirstBlock(PartsOf(pieces)) < |pieces|
    ensures Free(Open(t), pieces[b].before) && IsElement(BlockName(t), pieces[b].text)
    ensures Whole(pieces[b].text) && MatchAt(Open(t), pieces[b].text, 0).Some?
  {
    hide Free, MatchAt, Whole, Search;
    assert PartsOf(pieces)[b].Block? && pieces[b] in pieces;
  }

  lemma {:induction false} SpanIsEnd(t: Tags, frame: Text, pieces: seq<Piece>, last: Text)
    requires AreTags(t) && Lays(t, frame, pieces, last) && FirstBlock(PartsOf(pieces)) == |pieces|
    ensures |EndOfFrame(t)| <= |frame|
    ensures var up := Laid(pieces) + last;
      frame == up + EndOfFrame(t) && Span(frame, t.prefix, t.names) == Some((|up|, |up|))
  {
    hide Free, MatchAt, Whole, Search, Span, IsTagName, AreTags, FrameStream.EndTag, FirstBlock, Laid;
    FreeOfBlocks(t, pieces, |pieces|);
    TagsAreNames(t);
    assert pieces[..|pieces|] == pieces;
    TailSilent(t, last);
    FoundNowhere(Open(t), pieces, last + EndOfFrame(t));
    JoinLast(Laid(pieces), last, EndOfFrame(t));
    NoSpan(t, frame);
  }

  /** The bytes replaced, and those around them. */
  lemma {:induction false} SpanIs(t: Tags, frame: Text, pieces: seq<Piece>, last: Text)
    requires AreTags(t) && Lays(t, frame, pieces, last)
    ensures |EndOfFrame(t)| <= |frame|
    ensures var up, gone := Up(pieces, last), OldBlock(pieces);
      && frame == up + (gone + Rest(t, pieces, last))
      && Span(frame, t.prefix, t.names) == Some((|up|, |up| + |gone|))
  {
    hide Span, AreTags, Lays, FirstBlock, PartsOf, EndOfFrame;
    var b := FirstBlock(PartsOf(pieces));
    if b < |pieces| {
      SpanIsBlock(t, frame, pieces, last, b);
    } else {
      SpanIsEnd(t, frame, pieces, last);
      assert pieces[..b] == pieces;
      NothingAround(EndOfFrame(t));
    }
  }

  lemma {:induction false} NothingAround(end: Text)
    ensures [] + ([] + ([] + end)) == end
  {
  }

  lemma {:induction false} NoSpan(t: Tags, frame: Text)
    requires |EndOfFrame(t)| <= |frame| && Search(Open(t), frame).None?
    ensures var close := |frame| - |EndOfFrame(t)|; Span(frame, t.prefix, t.names) == Some((close, close))
  {
  }

  lemma {:induction false} JoinRest(up: Text, text: Text, after: Text, tail: Text)
    ensures up + (text + after) + tail == up + (text + (after + tail))
  {
  }

  lemma {:induction false} JoinLast(a: Text, last: Text, end: Text)
    ensures a + (last + end) == a + last + end
  {
  }

  /** The frame written, as bytes. */
  function NewFrame(
    t: Tags, show: Show, pieces: seq<Piece>, last: Text, periods: seq<Definition>, list: seq<Assignment>): Text
  {
    Laid(NewPieces(t, show, pieces, last, periods, list)) + (NewLast(pieces, last) + EndOfFrame(t))
  }

  lemma {:induction false} ContainerIs(t: Tags, text: Text)
    ensures var name := Qualified(t.prefix, t.names.periods);
      InContainer(text, t.prefix, t.names) == OpenTag(name) + text + CloseTag(name)
  {
  }

  lemma {:induction false} JoinOwn(lp: Text, f: Text, o: Text, p: Text, c: Text, block: Text, la: Text, tl: Text)
    ensures lp + f + (o + p + c + block) + (la + tl) == lp + (f + o + p + c + (block + la)) + tl
  {
  }

  lemma {:induction false} NewBytesOwn(
    t: Tags, show: Show, frame: Text, pieces: seq<Piece>, last: Text, periods: seq<Definition>, list: seq<Assignment>)
    requires AreTags(t) && Lays(t, frame, pieces, last) && FirstPeriodsEnd(PartsOf(pieces)) == |pieces|
    ensures |EndOfFrame(t)| <= |frame|
    ensures Converted(frame, t.prefix, t.names, PeriodText(show, periods), BlockText(t, show, list)) ==
      Some(NewFrame(t, show, pieces, last, periods, list))
  {
    hide Free, MatchAt, Whole, Search, Span, IsTagName, AreTags, FrameStream.EndTag, FirstBlock, FirstPeriodsEnd,
      Edited, Section, BlockText, PeriodText, InContainer, Laid, BeforeBlock, AfterBlock, OldBlock, NewLast, AllStand,
      Silent, Qualified, OpenTag, CloseTag, PartsOf;
    var b, tl := FirstBlock(PartsOf(pieces)), NewLast(pieces, last) + EndOfFrame(t);
    var name, ps, bt := Qualified(t.prefix, t.names.periods), PeriodText(show, periods), BlockText(t, show, list);
    var before := BeforeBlock(pieces, last);
    SpanIs(t, frame, pieces, last);
    TagsAreNames(t);
    TailSilent(t, last);
    FreeOfEnds(t, pieces, |pieces|);
    assert pieces[..|pieces|] == pieces;
    QuietOfEnds(t, last + EndOfFrame(t));
    FoundNowhere(PeriodsTag(t), pieces, last + EndOfFrame(t));
    EditedOnce(Up(pieces, last), OldBlock(pieces), Rest(t, pieces, last), InContainer(ps, t.prefix, t.names) + bt);
    assert Converted(frame, t.prefix, t.names, ps, bt) ==
      Some(Up(pieces, last) + (InContainer(ps, t.prefix, t.names) + bt) + Rest(t, pieces, last));
    ContainerIs(t, ps);
    var block := Piece([], Block(list), bt);
    LaidFour(pieces[..b], Section(show, periods, before + OpenTag(name), CloseTag(name)), [block], AfterBlock(pieces));
    LaidSection(show, periods, before + OpenTag(name), CloseTag(name));
    LaidOne(block);
    assert [] + bt == bt;
    JoinOwn(Laid(pieces[..b]), before, OpenTag(name), ps, CloseTag(name), bt, Laid(AfterBlock(pieces)), tl);
  }

  lemma {:induction false} QuietOfEnds(t: Tags, s: Text)
    requires Silent(t, s)
    ensures Free(PeriodsTag(t), s)
  {
  }

  /** Where the first container of periods ends. */
  lemma {:induction false} EndFound(t: Tags, frame: Text, pieces: seq<Piece>, last: Text, e: nat)
    requires AreTags(t) && Lays(t, frame, pieces, last) && e == FirstPeriodsEnd(PartsOf(pieces)) < |pieces|
    ensures Search(PeriodsTag(t), frame).Some? && |pieces[e].text| > 0
    ensures Search(PeriodsTag(t), frame).value.at == |Laid(pieces[..e]) + pieces[e].before|
  {
    hide Free, MatchAt, Whole, Search, IsTagName, AreTags, FirstPeriodsEnd, EndOfFrame, Laid, AllStand, Silent, PartsOf;
    TagsAreNames(t);
    FreeOfEnds(t, pieces, e);
    EndPiece(t, pieces, e);
    FoundAt(PeriodsTag(t), pieces, e, last + EndOfFrame(t));
    HitNotEmpty(PeriodsTag(t), pieces[e].text);
  }

  lemma {:induction false} EndPiece(t: Tags, pieces: seq<Piece>, e: nat)
    requires AllStand(t, pieces) && e == FirstPeriodsEnd(PartsOf(pieces)) < |pieces|
    ensures Free(PeriodsTag(t), pieces[e].before)
    ensures Whole(pieces[e].text) && MatchAt(PeriodsTag(t), pieces[e].text, 0).Some?
  {
    hide Free, MatchAt, Whole;
    assert PartsOf(pieces)[e].PeriodsEnd? && pieces[e] in pieces;
  }

  lemma {:induction false} HitNotEmpty(p: Pattern, text: Text)
    ensures MatchAt(p, text, 0).Some? ==> MatchAt(p, text, 0).value.end > 0 && |text| > 0
  {
  }

  lemma {:induction false} BlockNotEmpty(t: Tags, frame: Text, pieces: seq<Piece>, last: Text, b: nat)
    requires Lays(t, frame, pieces, last) && b == FirstBlock(PartsOf(pieces)) < |pieces|
    ensures pieces[b].text != []
  {
    hide MatchAt, Free, Whole, Search, FirstBlock;
    BlockPiece(t, pieces, b);
    HitNotEmpty(Open(t), pieces[b].text);
  }

  lemma {:induction false} LaidUpTo(pieces: seq<Piece>, i: nat, j: nat)
    requires i < j <= |pieces|
    ensures Laid(pieces[..j]) == Laid(pieces[..i]) + pieces[i].before + (pieces[i].text + Laid(pieces[i + 1..j]))
    ensures Laid(pieces[i + 1..]) == Laid(pieces[i + 1..j]) + Laid(pieces[j..])
  {
    var some := pieces[..j];
    LaidAround(some, i);
    assert some[..i] == pieces[..i] && some[i + 1..] == pieces[i + 1..j];
    assert pieces[i + 1..] == pieces[i + 1..j] + pieces[j..];
    LaidTogether(pieces[i + 1..j], pieces[j..]);
  }

  lemma {:induction false} LaidFrom(pieces: seq<Piece>, j: nat)
    requires j < |pieces|
    ensures Laid(pieces[j..]) == pieces[j].before + (pieces[j].text + Laid(pieces[j + 1..]))
  {
    var rest := pieces[j..];
    assert rest[0] == pieces[j] && rest[1..] == pieces[j + 1..];
    var a, b, c := pieces[j].before, pieces[j].text, Laid(pieces[j + 1..]);
    assert a + b + c == a + (b + c);
  }

  lemma {:induction false} JoinNew(
    le: Text, fe: Text, p: Text, te: Text, m: Text, f: Text, bt: Text, la: Text, tl: Text)
    ensures le + fe + p + (te + m + f + bt + (la + tl)) == le + (fe + p + te + (m + (f + bt + la))) + tl
  {
  }

  /** The edits in the order of their places. */
  lemma {:induction false} ConvertedTwice(
    t: Tags, frame: Text, u: Text, v: Text, w: Text, y: Text, z: Text, x: Edit, x': Edit, ps: Text, bt: Text,
    span: (nat, nat))
    requires frame == u + (v + (w + (y + z))) && |EndOfFrame(t)| <= |frame|
    requires x == Edit(|u|, |u| + |v|, x.text) && x' == Edit(|u| + |v| + |w|, |u| + |v| + |w| + |y|, x'.text)
    requires |v| + |w| > 0 && Span(frame, t.prefix, t.names) == Some(span) && Search(PeriodsTag(t), frame).Some?
    requires var at := Search(PeriodsTag(t), frame).value.at;
      (x == Edit(at, at, ps) && x' == Edit(span.0, span.1, bt))
        || (x' == Edit(at, at, ps) && x == Edit(span.0, span.1, bt))
    ensures Converted(frame, t.prefix, t.names, ps, bt) == Some(u + x.text + (w + x'.text + z))
  {
    hide Search, Span, Edited, MatchAt, FrameStream.EndTag;
    EditedTwice(u, v, w, y, z, x.text, x'.text);
    assert Edits(frame, t.prefix, t.names, span, ps, bt) == [x, x'];
  }

  lemma {:induction false} NewBytesBefore(
    t: Tags, show: Show, frame: Text, pieces: seq<Piece>, last: Text, periods: seq<Definition>, list: seq<Assignment>,
    e: nat)
    requires AreTags(t) && Lays(t, frame, pieces, last)
      && e == FirstPeriodsEnd(PartsOf(pieces)) < FirstBlock(PartsOf(pieces))
    ensures |EndOfFrame(t)| <= |frame|
    ensures Converted(frame, t.prefix, t.names, PeriodText(show, periods), BlockText(t, show, list)) ==
      Some(NewFrame(t, show, pieces, last, periods, list))
  {
    hide Free, MatchAt, Whole, Search, Span, IsTagName, AreTags, FrameStream.EndTag, FirstBlock, FirstPeriodsEnd,
      Edited, Section, BlockText, PeriodText, Laid, BeforeBlock, AfterBlock, OldBlock, NewLast, AllStand, Silent,
      PartsOf, Converted;
    var b, tl := FirstBlock(PartsOf(pieces)), NewLast(pieces, last) + EndOfFrame(t);
    var ps, bt, f := PeriodText(show, periods), BlockText(t, show, list), BeforeBlock(pieces, last);
    var u, te, m := Laid(pieces[..e]) + pieces[e].before, pieces[e].text, Laid(pieces[e + 1..b]);
    var gone, rest, up := OldBlock(pieces), Rest(t, pieces, last), Up(pieces, last);
    SpanIs(t, frame, pieces, last);
    EndFound(t, frame, pieces, last, e);
    LaidUpTo(pieces, e, b);
    JoinFound(u, te + m, f, gone, rest);
    ConvertedTwice(
      t, frame, u, [], te + m + f, gone, rest, Edit(|u|, |u|, ps), Edit(|up|, |up| + |gone|, bt), ps, bt,
      (|up|, |up| + |gone|));
    var block, section := Piece(f, Block(list), bt), Section(show, periods, pieces[e].before, te);
    LaidFour(pieces[..e], section, pieces[e + 1..b], [block] + AfterBlock(pieces));
    LaidTogether([block], AfterBlock(pieces));
    LaidOne(block);
    LaidSection(show, periods, pieces[e].before, te);
    JoinNew(Laid(pieces[..e]), pieces[e].before, ps, te, m, f, bt, Laid(AfterBlock(pieces)), tl);
  }

  lemma {:induction false} JoinFound(u: Text, w: Text, f: Text, gone: Text, rest: Text)
    ensures u + w + f + (gone + rest) == u + ([] + (w + f + (gone + rest)))
  {
  }

  lemma {:induction false} NewBytesBehind(
    t: Tags, show: Show, frame: Text, pieces: seq<Piece>, last: Text, periods: seq<Definition>, list: seq<Assignment>,
    b: nat, e: nat)
    requires AreTags(t) && Lays(t, frame, pieces, last)
    requires b == FirstBlock(PartsOf(pieces)) < e == FirstPeriodsEnd(PartsOf(pieces)) < |pieces|
    ensures |EndOfFrame(t)| <= |frame|
    ensures Converted(frame, t.prefix, t.names, PeriodText(show, periods), BlockText(t, show, list)) ==
      Some(NewFrame(t, show, pieces, last, periods, list))
  {
    hide Free, MatchAt, Whole, Search, Span, IsTagName, AreTags, FrameStream.EndTag, FirstBlock, FirstPeriodsEnd,
      Edited, Section, BlockText, PeriodText, Laid, NewLast, AllStand, Silent, PartsOf, Converted, Lays, NewFrame;
    var tl := last + EndOfFrame(t);
    var ps, bt, f := PeriodText(show, periods), BlockText(t, show, list), pieces[b].before;
    var gone, up := pieces[b].text, Laid(pieces[..b]) + f;
    var m, fe, te, after := Laid(pieces[b + 1..e]), pieces[e].before, pieces[e].text, Laid(pieces[e + 1..]);
    SpanIsBlock(t, frame, pieces, last, b);
    EndFound(t, frame, pieces, last, e);
    BlockNotEmpty(t, frame, pieces, last, b);
    LaidUpTo(pieces, b, e);
    LaidFrom(pieces, e);
    JoinBehind(m, fe, te, after, tl);
    var at := |up| + |gone| + |m + fe|;
    FoundBehind(Laid(pieces[..b]), f, gone, m, fe);
    ConvertedTwice(
      t, frame, up, gone, m + fe, [], te + (after + tl), Edit(|up|, |up| + |gone|, bt), Edit(at, at, ps), ps, bt,
      (|up|, |up| + |gone|));
    NewFrameBehind(t, show, pieces, last, periods, list, b, e);
    JoinNewBehind(Laid(pieces[..b]), f, bt, m, fe, ps, te, after, tl);
  }

  lemma {:induction false} FoundBehind(lb: Text, f: Text, gone: Text, m: Text, fe: Text)
    ensures |lb + f + (gone + m) + fe| == |lb + f| + |gone| + |m + fe|
  {
  }

  lemma {:induction false} NewFrameBehind(
    t: Tags, show: Show, pieces: seq<Piece>, last: Text, periods: seq<Definition>, list: seq<Assignment>, b: nat,
    e: nat)
    requires b == FirstBlock(PartsOf(pieces)) < e == FirstPeriodsEnd(PartsOf(pieces)) < |pieces|
    ensures
      var ps, bt, f := PeriodText(show, periods), BlockText(t, show, list), pieces[b].before;
      var m, fe, te, after := Laid(pieces[b + 1..e]), pieces[e].before, pieces[e].text, Laid(pieces[e + 1..]);
      NewFrame(t, show, pieces, last, periods, list) ==
        Laid(pieces[..b]) + (f + bt + (m + (fe + ps + te + after))) + (last + EndOfFrame(t))
  {
    hide FirstBlock, FirstPeriodsEnd, Section, BlockText, PeriodText, Laid, PartsOf, EndOfFrame;
    var block := Piece(pieces[b].before, Block(list), BlockText(t, show, list));
    var section := Section(show, periods, pieces[e].before, pieces[e].text);
    LaidFour(pieces[..b], [block], pieces[b + 1..e], section + pieces[e + 1..]);
    LaidTogether(section, pieces[e + 1..]);
    LaidOne(block);
    LaidSection(show, periods, pieces[e].before, pieces[e].text);
  }

  lemma {:induction false} JoinBehind(m: Text, fe: Text, te: Text, after: Text, tl: Text)
    ensures m + (fe + (te + after)) + tl == m + fe + ([] + (te + (after + tl)))
  {
  }

  lemma {:induction false} JoinNewBehind(
    lb: Text, f: Text, bt: Text, m: Text, fe: Text, ps: Text, te: Text, after: Text, tl: Text)
    ensures lb + f + bt + (m + fe + ps + (te + (after + tl))) == lb + (f + bt + (m + (fe + ps + te + after))) + tl
  {
  }

  /** `_write_converted` on the bytes of a frame writes those of the rewritten
      parts, whose bytes it leaves as they were but for the first block. */
  lemma {:induction false} NewBytes(
    t: Tags, show: Show, frame: Text, pieces: seq<Piece>, last: Text, periods: seq<Definition>, list: seq<Assignment>)
    requires AreTags(t) && Lays(t, frame, pieces, last)
    ensures |EndOfFrame(t)| <= |frame|
    ensures Converted(frame, t.prefix, t.names, PeriodText(show, periods), BlockText(t, show, list)) ==
      Some(NewFrame(t, show, pieces, last, periods, list))
  {
    hide *;
    var b, e := FirstBlock(PartsOf(pieces)), FirstPeriodsEnd(PartsOf(pieces));
    if e == |pieces| {
      NewBytesOwn(t, show, frame, pieces, last, periods, list);
    } else if e < b {
      NewBytesBefore(t, show, frame, pieces, last, periods, list, e);
    } else {
      NewBytesBehind(t, show, frame, pieces, last, periods, list, b, e);
    }
  }

  // ----- a frame converted

  /** The bytes are elements the calendar uses, whole tags around them, and the
      end tag of the frame. */
  ghost predicate IsFrame(t: Tags, bytes: Text) { exists pieces, last :: Lays(t, bytes, pieces, last) }

  /** A frame, read as these parts. */
  ghost predicate IsFrameOf(t: Tags, frame: Text, parts: seq<Part>) {
    IsFrame(t, frame) && PartsRead(t, frame) == parts
  }

  /** The bytes are a frame, and out of what is read in it MOTIS reads what the
      parts mean. */
  ghost predicate Becomes(t: Tags, parts: seq<Part>, bytes: Text) {
    IsFrame(t, bytes) && Converts(parts, PartsRead(t, bytes))
  }

  /** However a frame is divided into pieces, their parts are those read. */
  lemma {:induction false} PartsAreRead(t: Tags, frame: Text, pieces: seq<Piece>, last: Text)
    requires AreTags(t) && Lays(t, frame, pieces, last)
    ensures IsFrameOf(t, frame, PartsOf(pieces))
  {
    hide AreTags, Lays;
    FrameRead(t, frame, pieces, last);
  }

  /** A frame that needs a conversion does not do as it is. */
  lemma {:induction false} NotAsItIs(t: Tags, frame: Text, parts: seq<Part>)
    requires IsFrameOf(t, frame, parts) && NeedsConversion(parts) && FreshIds(parts) && OneBlock(parts)
    ensures !Becomes(t, parts, frame)
  {
    hide NeedsConversion, FreshIds, OneBlock, IsFrame, AllResolved, MotisReads;
  }

  ghost predicate NoSpanIn(t: Tags, frame: Text)
    requires |EndOfFrame(t)| <= |frame|
  {
    Span(frame, t.prefix, t.names).None?
  }

  lemma {:induction false} FrameHasSpan(t: Tags, frame: Text)
    requires AreTags(t) && IsFrame(t, frame)
    ensures |EndOfFrame(t)| <= |frame| && !NoSpanIn(t, frame)
  {
    hide Lays, AreTags, Span, EndOfFrame;
    var pieces, last :| Lays(t, frame, pieces, last);
    SpanIs(t, frame, pieces, last);
  }

  /** The bytes with the plan written into them. */
  function WithPlan(t: Tags, show: Show, frame: Text, plan: Plan): Option<Text>
    requires |EndOfFrame(t)| <= |frame|
  {
    Converted(frame, t.prefix, t.names, PeriodText(show, plan.periods), BlockText(t, show, plan.assignments))
  }

  /** What is written into a frame is read out of it, and nothing else has
      changed. */
  lemma {:induction false} WrittenIsRead(t: Tags, show: Show, frame: Text, plan: Plan)
    requires AreTags(t) && GoodShow(t, show) && IsFrame(t, frame) && AreWritten(plan.periods, plan.assignments)
    ensures |EndOfFrame(t)| <= |frame| && WithPlan(t, show, frame, plan).Some?
    ensures var bytes := WithPlan(t, show, frame, plan).value;
      IsFrameOf(t, bytes, Planned(PartsRead(t, frame), plan))
  {
    hide Converted, AreTags, GoodShow, AllStand, Silent, NewPieces, NewLast, Laid, PartsOf, Rewritten, PartsRead,
      EndOfFrame, AreWritten;
    var pieces, last :| Lays(t, frame, pieces, last);
    NewBytes(t, show, frame, pieces, last, plan.periods, plan.assignments);
    NewStand(t, show, pieces, last, plan.periods, plan.assignments);
    NewParts(t, show, pieces, last, plan.periods, plan.assignments);
    FrameRead(t, frame, pieces, last);
    var after := NewPieces(t, show, pieces, last, plan.periods, plan.assignments);
    var bytes := WithPlan(t, show, frame, plan).value;
    assert Lays(t, bytes, after, NewLast(pieces, last));
    PartsAreRead(t, bytes, after, NewLast(pieces, last));
  }

  lemma {:induction false} WrittenBecomes(t: Tags, show: Show, frame: Text, parts: seq<Part>, plan: Plan)
    requires AreTags(t) && GoodShow(t, show) && IsFrameOf(t, frame, parts)
    requires AreWritten(plan.periods, plan.assignments) && Converts(parts, Planned(parts, plan))
    ensures |EndOfFrame(t)| <= |frame| && WithPlan(t, show, frame, plan).Some?
    ensures Becomes(t, parts, WithPlan(t, show, frame, plan).value)
  {
    hide Converts, AreTags, GoodShow, AreWritten, WithPlan, Planned, PartsRead, EndOfFrame, IsFrame;
    WrittenIsRead(t, show, frame, plan);
  }

  /** `convert_frame`: `read` is what the parser gives, None for a frame it
      refuses. None when the frame is to stay as it is. */
  method ConvertFrame(frame: Text, read: Option<seq<Part>>, t: Tags, show: Show, chunk: nat)
    returns (out: Option<Text>, ghost plan: Option<Plan>)
    requires AreTags(t) && GoodShow(t, show) && chunk > 0
    requires |EndOfFrame(t)| <= |frame| && ShortTags(frame, t.prefix, t.names)
    ensures out.None? <==> read.None? || !NeedsConversion(read.value) || NoSpanIn(t, frame)
    ensures out.Some? ==> plan.Some? && out == WithPlan(t, show, frame, plan.value)
    ensures out.Some? ==> Converts(read.value, Planned(read.value, plan.value))
    ensures read.Some? && IsFrameOf(t, frame, read.value) ==>
      if NeedsConversion(read.value) then out.Some? && Becomes(t, read.value, out.value) else out.None?
  {
    hide Converts, GoodShow, IsFrame, Becomes, ShortTags, NeedsConversion, PeriodText, BlockText, Planned, Edited,
      Edits, FrameStream.EndTag, IsPrefix, AreElements, AreWritten, PartsRead, Span;
    plan := None;
    if read.None? { return None, plan; }
    var found := PlanFrame(read.value);
    plan := found;
    if found.None? { return None, plan; }
    assert frame[0..|frame|] == frame;
    var periods, block := PeriodText(show, found.value.periods), BlockText(t, show, found.value.assignments);
    ElementsAreNames(t);
    out := WriteConverted(frame, 0, |frame|, t.prefix, t.names, periods, block, chunk);
    SpanOrNot(t, show, frame, found.value);
    if IsFrameOf(t, frame, read.value) {
      FrameHasSpan(t, frame);
      WrittenBecomes(t, show, frame, read.value, found.value);
    }
  }

  lemma {:induction false} ElementsAreNames(t: Tags)
    requires AreTags(t)
    ensures AreNames(t.names)
  {
  }

  lemma {:induction false} SpanOrNot(t: Tags, show: Show, frame: Text, plan: Plan)
    requires |EndOfFrame(t)| <= |frame|
    ensures WithPlan(t, show, frame, plan).None? <==> NoSpanIn(t, frame)
  {
    hide Span, Edited, Edits;
  }

  /** `_convert_spooled`: the frame at bytes [start, end) of the temporary file,
      converted if it needs it, else as it is. */
  method ConvertSpooled(
    spool: Text, start: nat, end: nat, read: Option<seq<Part>>, t: Tags, show: Show, chunk: nat)
    returns (out: Text, changed: bool, outOfOrder: nat, ghost plan: Option<Plan>)
    requires AreTags(t) && GoodShow(t, show) && chunk > 0 && start <= end <= |spool|
    requires |EndOfFrame(t)| <= end - start && ShortTags(spool[start..end], t.prefix, t.names)
    ensures changed <==> read.Some? && NeedsConversion(read.value) && !NoSpanIn(t, spool[start..end])
    ensures !changed ==> out == spool[start..end]
    ensures changed ==> plan.Some? && Some(out) == WithPlan(t, show, spool[start..end], plan.value)
    ensures read.Some? ==> (outOfOrder == 0 <==> forall dt :: ListedInOrder(Assigned(read.value), dt))
    ensures changed && IsFrameOf(t, spool[start..end], read.value) ==>
      (DefinitionsFirst(read.value) && outOfOrder == 0 ==> Becomes(t, read.value, out))
  {
    hide Converts, GoodShow, IsFrame, Becomes, ShortTags, NeedsConversion, PeriodText, BlockText, Planned, Edited,
      Edits, FrameStream.EndTag, IsPrefix, AreElements, ListedInOrder, DefinitionsFirst, Assigned, AreWritten,
      PartsRead, Span;
    ghost var frame := spool[start..end];
    outOfOrder := 0;
    plan := None;
    if read.Some? {
      var found;
      found, outOfOrder := PlanSpooled(read.value);
      plan := found;
      if found.Some? {
        var periods, block := PeriodText(show, found.value.periods), BlockText(t, show, found.value.assignments);
        ElementsAreNames(t);
        var written := WriteConverted(spool, start, end, t.prefix, t.names, periods, block, chunk);
        SpanOrNot(t, show, frame, found.value);
        if written.Some? {
          if IsFrameOf(t, frame, read.value) && DefinitionsFirst(read.value) && outOfOrder == 0 {
            WrittenBecomes(t, show, frame, read.value, found.value);
          }
          return written.value, true, outOfOrder, plan;
        }
      }
    }
    out := CopyRange(spool, start, end, chunk, []);
    changed := false;
    NothingBefore(Slice(spool, start, end));
  }
}
