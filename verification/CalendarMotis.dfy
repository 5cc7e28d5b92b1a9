/** The calendar MOTIS reads out of a frame, and the frame rewritten for it
    (app/netex_calendar.py). */
module CalendarMotis {
  import opened Bytes
  import opened CalendarSpec

  // ----- the reader

  /** A day type without assignment, one read as every day, one whose period
      is missing, or its days. */
  datatype Reading = Unassigned | EveryDay | Missing | Days(days: set<int>)

  function FirstAssignment(list: seq<Assignment>, dayType: Id): Option<Assignment> {
    if list == [] then None
    else if list[0].dayType == dayType then Some(list[0])
    else FirstAssignment(list[1..], dayType)
  }

  predicate IsPeriod(part: Part, id: Id) {
    part.Def? && part.definition.OperatingPeriod? && part.definition.id == id
  }

  /** Only UicOperatingPeriods are looked up. */
  function UicPeriod(parts: seq<Part>, id: Id): Option<Period> {
    if parts == [] then None
    else if IsPeriod(parts[0], id) && parts[0].definition.period.uic then Some(parts[0].definition.period)
    else UicPeriod(parts[1..], id)
  }

  /** ValidDayBits from FromDate on; no weekday narrows them. */
  function BitDays(p: Period): set<int> {
    if p.start.None? then {} else set i | 0 <= i < |p.bits| && p.bits[i] == '1' :: p.start.value + i
  }

  /** Only the first assignment of a day type counts. */
  function MotisReads(parts: seq<Part>, dayType: Id): Reading {
    var first := FirstAssignment(Assigned(parts), dayType);
    if first.None? then Unassigned
    else if first.value.period == "" then EveryDay
    else
      var p := UicPeriod(parts, first.value.period);
      if p.None? then Missing else Days(BitDays(p.value))
  }

  /** Unless every reference can be resolved, the whole file is dropped. */
  predicate AllResolved(parts: seq<Part>) {
    forall a <- Assigned(parts) :: a.period != "" ==> UicPeriod(parts, a.period).Some?
  }

  // ----- does the frame need a conversion

  predicate NeedsConversion(parts: seq<Part>) {
    var list, periods := Assigned(parts), Collect(parts).periods;
    if exists a <- list :: a.opDay != "" then true
    else if exists a <- list :: a.period != "" && a.period in periods && !periods[a.period].uic then true
    else if exists a <- list :: a.period != "" && a.period !in periods then false
    else exists a <- list, b <- list :: a.period != "" && b.period == "" && b.date != NoDate && a.dayType == b.dayType
  }

  /** A frame with an assignment by operating day, or by a plain period defined
      in it, needs one; so does a frame that gives a day type both a period and
      a date, when every period named is defined in it; no other does. */
  lemma {:induction false} NeededIs(parts: seq<Part>)
    ensures NeedsConversion(parts) <==>
      || (exists a <- Assigned(parts) :: a.opDay != "")
      || (exists a <- Assigned(parts) ::
            a.period != "" && a.period in Collect(parts).periods && !Collect(parts).periods[a.period].uic)
      || ((forall a <- Assigned(parts) :: a.period != "" ==> a.period in Collect(parts).periods)
          && exists a <- Assigned(parts), b <- Assigned(parts) ::
               a.dayType == b.dayType && a.period != "" && b.period == "" && b.date != NoDate)
  {
    hide Assigned, Collect;
  }

  // ----- the frame rewritten

  const PERIOD_PREFIX := "VIATOR:UicOperatingPeriod:"
  /** 1 January 2000. */
  const NEVER_DAY := 730120

  function PeriodId(dayType: Id): Id { PERIOD_PREFIX + dayType }

  function NewAssignment(dayType: Id): Assignment {
    Assignment(dayType, 1, true, PeriodId(dayType), "", NoDate)
  }

  /** The period stands for exactly these days, from the first to the last. */
  ghost predicate StandsFor(p: Period, days: set<int>) {
    && p.uic && p.start.Some? && |p.bits| > 0 && p.end == Some(p.start.value + |p.bits| - 1)
    && p.fromDay == "" && p.untilDay == ""
    && BitDays(p) == days && (forall c <- p.bits :: c == '0' || c == '1')
    && if days == {} then p.start.value == 730120 && p.bits == "0"
       else p.start.value in days && p.start.value + |p.bits| - 1 in days
  }

  /** One period and one assignment for each day type. */
  ghost predicate Rendered(periods: seq<Definition>, list: seq<Assignment>, days: Table) {
    && |periods| == |list|
    && (forall i :: 0 <= i < |list| ==>
          && list[i] == NewAssignment(list[i].dayType) && list[i].dayType in days
          && periods[i].OperatingPeriod? && periods[i].id == PeriodId(list[i].dayType)
          && StandsFor(periods[i].period, days[list[i].dayType]))
    && (forall dt :: dt in days ==> NewAssignment(dt) in list)
    && (forall i, j :: 0 <= i < |list| && 0 <= j < |list| && list[i].dayType == list[j].dayType ==> i == j)
  }

  /** A period as it is written: dates, bits, nothing else. */
  predicate IsWritten(d: Definition) {
    && d.OperatingPeriod? && d.period.start.Some? && d.period.bits != ""
    && (forall c <- d.period.bits :: c == '0' || c == '1')
    && d.period == Period(
         d.period.start, Some(d.period.start.value + |d.period.bits| - 1), "", "", d.period.bits, true)
  }

  /** What a conversion writes. */
  ghost predicate AreWritten(periods: seq<Definition>, list: seq<Assignment>) {
    (forall d <- periods :: IsWritten(d)) && forall a <- list :: a == NewAssignment(a.dayType)
  }

  lemma RenderedAreWritten(periods: seq<Definition>, list: seq<Assignment>, days: Table)
    requires Rendered(periods, list, days)
    ensures AreWritten(periods, list)
  {
    hide BitDays;
    forall d | d in periods ensures IsWritten(d) {
      var i :| 0 <= i < |periods| && periods[i] == d;
      assert StandsFor(periods[i].period, days[list[i].dayType]);
    }
  }

  function FirstBlock(parts: seq<Part>): (i: nat)
    ensures i <= |parts| && (i < |parts| ==> parts[i].Block?) && forall k :: 0 <= k < i ==> !parts[k].Block?
  {
    if parts == [] || parts[0].Block? then 0 else 1 + FirstBlock(parts[1..])
  }

  function FirstPeriodsEnd(parts: seq<Part>): (i: nat)
    ensures i <= |parts| && (i < |parts| ==> parts[i].PeriodsEnd?) && forall k :: 0 <= k < i ==> !parts[k].PeriodsEnd?
  {
    if parts == [] || parts[0].PeriodsEnd? then 0 else 1 + FirstPeriodsEnd(parts[1..])
  }

  function Defs(periods: seq<Definition>): (r: seq<Part>)
    ensures |r| == |periods| && forall i :: 0 <= i < |r| ==> r[i] == Def(periods[i])
  {
    seq(|periods|, i requires 0 <= i < |periods| => Def(periods[i]))
  }

  /** What follows the first block. */
  function Tail(parts: seq<Part>): seq<Part> {
    var b := FirstBlock(parts);
    if b < |parts| then parts[b + 1..] else []
  }

  function RewrittenHead(parts: seq<Part>, periods: seq<Definition>): seq<Part> {
    var b, e := FirstBlock(parts), FirstPeriodsEnd(parts);
    if e == |parts| then parts[..b] + Defs(periods) + [PeriodsEnd]
    else if e <= b then parts[..e] + Defs(periods) + parts[e..b]
    else parts[..b]
  }

  function RewrittenRest(parts: seq<Part>, periods: seq<Definition>): seq<Part> {
    var b, e := FirstBlock(parts), FirstPeriodsEnd(parts);
    if e == |parts| || e <= b then Tail(parts) else parts[b + 1..e] + Defs(periods) + parts[e..]
  }

  /** `_write_converted`: the assignments instead of the first block, or last
      in the frame; the periods at the end of the first container of periods,
      or in one of their own before the assignments. */
  function Rewritten(parts: seq<Part>, periods: seq<Definition>, list: seq<Assignment>): seq<Part> {
    RewrittenHead(parts, periods) + [Block(list)] + RewrittenRest(parts, periods)
  }

  predicate OneBlock(parts: seq<Part>) {
    forall i, j :: 0 <= i < |parts| && 0 <= j < |parts| && parts[i].Block? && parts[j].Block? ==> i == j
  }

  /** No period of the frame has an id the rewriting gives. */
  ghost predicate FreshFor(parts: seq<Part>, days: Table) {
    forall part, dt :: part in parts && dt in days ==> !IsPeriod(part, PeriodId(dt))
  }

  // ----- what the rewritten frame holds

  lemma AssignedNone()
    ensures Assigned([]) == []
  {
  }

  lemma AssignedLast(a: seq<Part>, part: Part)
    ensures Assigned(a + [part]) == Assigned(a) + AssignedBy(part)
  {
    assert (a + [part])[..|a|] == a;
  }

  lemma {:induction false} AssignedConcat(a: seq<Part>, b: seq<Part>)
    ensures Assigned(a + b) == Assigned(a) + Assigned(b)
  {
    hide Assigned;
    if b == [] {
      assert a + b == a;
      AssignedNone();
    } else {
      var n := |b| - 1;
      AssignedConcat(a, b[..n]);
      AssignedLast(a + b[..n], b[n]);
      AssignedLast(b[..n], b[n]);
      assert a + b == a + b[..n] + [b[n]] && b == b[..n] + [b[n]];
    }
  }

  lemma {:induction false} NoBlockNoAssignment(parts: seq<Part>)
    requires forall part <- parts :: !part.Block?
    ensures Assigned(parts) == []
  {
    if parts != [] { NoBlockNoAssignment(parts[..|parts| - 1]); }
  }

  lemma {:induction false} BlockOnly(before: seq<Part>, list: seq<Assignment>, after: seq<Part>)
    requires forall part <- before :: !part.Block?
    ensures Assigned(before + [Block(list)] + after) == list + Assigned(after)
  {
    hide Assigned;
    AssignedConcat(before + [Block(list)], after);
    AssignedLast(before, Block(list));
    NoBlockNoAssignment(before);
  }

  lemma NoBlockBetween(before: seq<Part>, between: seq<Part>, after: seq<Part>)
    requires forall part <- between :: !part.Block?
    ensures Assigned(before + between + after) == Assigned(before + after)
  {
    hide Assigned;
    AssignedConcat(before + between, after);
    AssignedConcat(before, between);
    AssignedConcat(before, after);
    NoBlockNoAssignment(between);
  }

  lemma {:induction false} HeadHasNoBlock(parts: seq<Part>, periods: seq<Definition>)
    ensures forall part <- RewrittenHead(parts, periods) :: !part.Block?
  {
    hide RewrittenHead;
    forall part | part in RewrittenHead(parts, periods) ensures !part.Block? {
      HeadMember(parts, periods, part);
    }
  }

  /** What stands before the new block: parts before the first block, new
      definitions, or the end of a container. */
  lemma {:induction false} HeadMember(parts: seq<Part>, periods: seq<Definition>, part: Part)
    requires part in RewrittenHead(parts, periods)
    ensures part.PeriodsEnd? || part.Def? || exists k :: 0 <= k < FirstBlock(parts) && part == parts[k]
  {
    var b, e := FirstBlock(parts), FirstPeriodsEnd(parts);
    if e == |parts| {
      assert part in parts[..b] || part in Defs(periods) || part == PeriodsEnd;
    } else if e <= b {
      assert part in parts[..e] || part in Defs(periods) || part in parts[e..b];
    }
  }

  lemma RestAssigned(parts: seq<Part>, periods: seq<Definition>)
    ensures Assigned(RewrittenRest(parts, periods)) == Assigned(Tail(parts))
  {
    hide Assigned;
    var b, e := FirstBlock(parts), FirstPeriodsEnd(parts);
    if b < e < |parts| {
      NoBlockBetween(parts[b + 1..e], Defs(periods), parts[e..]);
      assert Tail(parts) == parts[b + 1..e] + parts[e..];
    }
  }

  /** The new assignments come first; only further blocks follow. */
  lemma RewrittenAssigned(parts: seq<Part>, periods: seq<Definition>, list: seq<Assignment>)
    ensures Assigned(Rewritten(parts, periods, list)) == list + Assigned(Tail(parts))
  {
    hide Assigned, RewrittenHead, RewrittenRest, Tail;
    HeadHasNoBlock(parts, periods);
    BlockOnly(RewrittenHead(parts, periods), list, RewrittenRest(parts, periods));
    RestAssigned(parts, periods);
  }

  lemma PartsSplit(parts: seq<Part>, part: Part)
    requires !part.Block?
    ensures part in parts <==> part in parts[..FirstBlock(parts)] || part in Tail(parts)
  {
    var b := FirstBlock(parts);
    if b < |parts| {
      assert parts == parts[..b] + [parts[b]] + parts[b + 1..];
    } else {
      assert parts == parts[..b];
    }
  }

  predicate InHead(parts: seq<Part>) {
    FirstPeriodsEnd(parts) == |parts| || FirstPeriodsEnd(parts) <= FirstBlock(parts)
  }

  lemma HeadParts(parts: seq<Part>, periods: seq<Definition>, part: Part)
    requires part.Def?
    ensures part in RewrittenHead(parts, periods) <==>
      part in parts[..FirstBlock(parts)] || (InHead(parts) && part in Defs(periods))
  {
    hide Defs;
    var b, e := FirstBlock(parts), FirstPeriodsEnd(parts);
    if e < |parts| && e <= b { assert parts[..b] == parts[..e] + parts[e..b]; }
  }

  lemma RestParts(parts: seq<Part>, periods: seq<Definition>, part: Part)
    ensures part in RewrittenRest(parts, periods) <==> part in Tail(parts) || (!InHead(parts) && part in Defs(periods))
  {
    var b, e := FirstBlock(parts), FirstPeriodsEnd(parts);
    if b < e < |parts| { assert Tail(parts) == parts[b + 1..e] + parts[e..]; }
  }

  /** Every definition of the rewritten frame is an old one or a new one. */
  lemma RewrittenParts(parts: seq<Part>, periods: seq<Definition>, list: seq<Assignment>, part: Part)
    requires part.Def?
    ensures part in Rewritten(parts, periods, list) <==> part in parts || part in Defs(periods)
  {
    hide RewrittenHead, RewrittenRest, Tail, Defs, InHead;
    PartsSplit(parts, part);
    HeadParts(parts, periods, part);
    RestParts(parts, periods, part);
  }

  lemma {:induction false} OnlyPeriod(parts: seq<Part>, id: Id, p: Period)
    requires Def(OperatingPeriod(id, p)) in parts && p.uic
    requires forall part <- parts :: IsPeriod(part, id) ==> part == Def(OperatingPeriod(id, p))
    ensures UicPeriod(parts, id) == Some(p)
  {
    if !IsPeriod(parts[0], id) {
      assert parts == [parts[0]] + parts[1..];
      OnlyPeriod(parts[1..], id, p);
    }
  }

  lemma {:induction false} CollectedPeriod(parts: seq<Part>, id: Id)
    ensures id in Collect(parts).periods ==> Def(OperatingPeriod(id, Collect(parts).periods[id])) in parts
    ensures id !in Collect(parts).periods ==> forall part <- parts :: !IsPeriod(part, id)
  {
    if parts != [] {
      var n := |parts| - 1;
      CollectedPeriod(parts[..n], id);
      assert parts == parts[..n] + [parts[n]];
    }
  }

  lemma PeriodIdsDiffer(a: Id, b: Id)
    ensures PeriodId(a) == PeriodId(b) ==> a == b
    ensures PERIOD_PREFIX <= PeriodId(a) && PeriodId(a) != ""
  {
    if PeriodId(a) == PeriodId(b) {
      assert PeriodId(a)[|PERIOD_PREFIX|..] == a && PeriodId(b)[|PERIOD_PREFIX|..] == b;
    }
  }

  /** The new period of a day type is the only one of its id. */
  lemma {:induction false} NewPeriodFound(
    parts: seq<Part>, periods: seq<Definition>, list: seq<Assignment>, days: Table, i: nat)
    requires Rendered(periods, list, days) && FreshFor(parts, days) && i < |list|
    ensures UicPeriod(Rewritten(parts, periods, list), PeriodId(list[i].dayType)) == Some(periods[i].period)
    ensures var collected := Collect(Rewritten(parts, periods, list)).periods;
      PeriodId(list[i].dayType) in collected && collected[PeriodId(list[i].dayType)] == periods[i].period
  {
    hide Rewritten, UicPeriod, Collect, PeriodId;
    var id := PeriodId(list[i].dayType);
    var after := Rewritten(parts, periods, list);
    var added := Def(OperatingPeriod(id, periods[i].period));
    assert added == Defs(periods)[i];
    RewrittenParts(parts, periods, list, added);
    forall part | part in after && IsPeriod(part, id) ensures part == added {
      RewrittenParts(parts, periods, list, part);
      assert part !in parts;
      if part in Defs(periods) { NewIsThis(periods, list, days, i, part); }
    }
    OnlyPeriod(after, id, periods[i].period);
    CollectedPeriod(after, id);
  }

  lemma {:induction false} NewIsThis(periods: seq<Definition>, list: seq<Assignment>, days: Table, i: nat, part: Part)
    requires Rendered(periods, list, days) && i < |list| && part in Defs(periods)
    requires IsPeriod(part, PeriodId(list[i].dayType))
    ensures part == Def(OperatingPeriod(PeriodId(list[i].dayType), periods[i].period))
  {
    hide StandsFor, PeriodId;
    var j :| 0 <= j < |periods| && Defs(periods)[j] == part;
    PeriodIdsDiffer(list[i].dayType, list[j].dayType);
  }

  lemma {:induction false} FirstFound(list: seq<Assignment>, more: seq<Assignment>, i: nat)
    requires i < |list|
    requires forall j :: 0 <= j < |list| && list[j].dayType == list[i].dayType ==> j == i
    ensures FirstAssignment(list + more, list[i].dayType) == Some(list[i])
  {
    if i > 0 {
      assert (list + more)[1..] == list[1..] + more;
      FirstFound(list[1..], more, i - 1);
    }
  }

  lemma {:induction false} NoneFound(list: seq<Assignment>, dayType: Id)
    requires forall a <- list :: a.dayType != dayType
    ensures FirstAssignment(list, dayType) == None
  {
    if list != [] { NoneFound(list[1..], dayType); }
  }

  /** MOTIS reads for each day type exactly the days rendered for it. */
  lemma RewrittenReads(
    parts: seq<Part>, periods: seq<Definition>, list: seq<Assignment>, days: Table, dayType: Id)
    requires Rendered(periods, list, days) && FreshFor(parts, days) && dayType in days
    ensures MotisReads(Rewritten(parts, periods, list), dayType) == Days(days[dayType])
  {
    assert NewAssignment(dayType) in list;
    var i :| 0 <= i < |list| && list[i] == NewAssignment(dayType);
    RewrittenAssigned(parts, periods, list);
    FirstFound(list, Assigned(Tail(parts)), i);
    NewPeriodFound(parts, periods, list, days, i);
    PeriodIdsDiffer(dayType, "");
  }

  lemma OneBlockTail(parts: seq<Part>)
    requires OneBlock(parts)
    ensures Assigned(Tail(parts)) == []
  {
    NoBlockNoAssignment(Tail(parts));
  }

  /** With one block nothing else is assigned, no reference is open, and the
      frame needs no further conversion. */
  lemma RewrittenIsFinal(
    parts: seq<Part>, periods: seq<Definition>, list: seq<Assignment>, days: Table)
    requires Rendered(periods, list, days) && FreshFor(parts, days) && OneBlock(parts)
    ensures var after := Rewritten(parts, periods, list);
      && (forall a <- Assigned(after) :: a.period != "" ==> UicPeriod(after, a.period).Some?)
      && AllResolved(after) && !NeedsConversion(after)
      && forall dayType :: dayType !in days ==> MotisReads(after, dayType) == Unassigned
  {
    var after := Rewritten(parts, periods, list);
    RewrittenAssigned(parts, periods, list);
    OneBlockTail(parts);
    assert Assigned(after) == list;
    forall a | a in list ensures ReadsWell(after, a) { NewReadsWell(parts, periods, list, days, a); }
    AllReadWell(after);
    forall dayType | dayType !in days ensures MotisReads(after, dayType) == Unassigned {
      NoneFound(list, dayType);
    }
  }

  predicate ReadsWell(parts: seq<Part>, a: Assignment) {
    && a.period != "" && a.opDay == "" && UicPeriod(parts, a.period).Some?
    && a.period in Collect(parts).periods && Collect(parts).periods[a.period].uic
  }

  lemma NewReadsWell(
    parts: seq<Part>, periods: seq<Definition>, list: seq<Assignment>, days: Table, a: Assignment)
    requires Rendered(periods, list, days) && FreshFor(parts, days) && a in list
    ensures ReadsWell(Rewritten(parts, periods, list), a)
  {
    var i :| 0 <= i < |list| && list[i] == a;
    NewPeriodFound(parts, periods, list, days, i);
    PeriodIdsDiffer(a.dayType, "");
  }

  lemma AllReadWell(parts: seq<Part>)
    requires forall a <- Assigned(parts) :: ReadsWell(parts, a)
    ensures AllResolved(parts) && !NeedsConversion(parts)
  {
  }
}
