/** The conversion of a whole frame, in memory and as a stream
    (app/netex_calendar.py). */
module CalendarConvert {
  import opened Bytes
  import opened CalendarSpec
  import opened CalendarMotis
  import opened CalendarFrame

  /** A day type defined here, or given days by an assignment here. */
  ghost predicate Known(parts: seq<Part>, dayType: Id) {
    || dayType in Collect(parts).weekdays
    || exists a <- Assigned(parts) :: a.dayType == dayType && Resolved(Collect(parts), a)
  }

  /** MOTIS reads out of `after` what `before` means. */
  ghost predicate SameDays(before: seq<Part>, after: seq<Part>, dayType: Id) {
    && MotisReads(after, dayType).Days?
    && forall day :: day in MotisReads(after, dayType).days <==> Runs(Collect(before), Assigned(before), dayType, day)
  }

  /** The calendar holds the days the frame means, for the day types it knows. */
  ghost predicate Holds(days: Table, parts: seq<Part>) {
    && (forall dt :: dt in days <==> Known(parts, dt))
    && forall dt, day :: dt in days ==> (day in days[dt] <==> Runs(Collect(parts), Assigned(parts), dt, day))
  }

  /** No period of the frame has an id the conversion gives. */
  ghost predicate FreshIds(parts: seq<Part>) {
    forall part, dt :: part in parts && Known(parts, dt) ==> !IsPeriod(part, PeriodId(dt))
  }

  /** The whole promise of a conversion. */
  ghost predicate Converts(before: seq<Part>, after: seq<Part>) {
    FreshIds(before) ==>
      && (forall dt :: Known(before, dt) ==> SameDays(before, after, dt))
      && (OneBlock(before) ==>
            && AllResolved(after) && !NeedsConversion(after)
            && forall dt :: !Known(before, dt) ==> MotisReads(after, dt) == Unassigned)
  }

  /** A day type that is not known never runs. */
  lemma UnknownNeverRuns(parts: seq<Part>, dayType: Id, day: int)
    ensures !Known(parts, dayType) ==> !Runs(Collect(parts), Assigned(parts), dayType, day)
  {
  }

  lemma RenderedConverts(parts: seq<Part>, periods: seq<Definition>, list: seq<Assignment>, days: Table)
    requires Rendered(periods, list, days) && Holds(days, parts)
    ensures Converts(parts, Rewritten(parts, periods, list))
  {
    hide Rendered, Rewritten, Runs, Assigned, Collect, MotisReads, AllResolved, NeedsConversion, OneBlock, Known;
    if FreshIds(parts) {
      forall dt | Known(parts, dt) ensures SameDays(parts, Rewritten(parts, periods, list), dt) {
        RewrittenReads(parts, periods, list, days, dt);
      }
      if OneBlock(parts) { RewrittenIsFinal(parts, periods, list, days); }
    }
  }

  /** What is written into a frame instead of its assignments. */
  datatype Plan = Plan(periods: seq<Definition>, assignments: seq<Assignment>)

  function Planned(parts: seq<Part>, plan: Plan): seq<Part> { Rewritten(parts, plan.periods, plan.assignments) }

  /** `convert_frame` up to the writing: every definition and assignment noted,
      then the assignments applied by (order, position). */
  method PlanFrame(parts: seq<Part>) returns (plan: Option<Plan>)
    ensures plan.None? <==> !NeedsConversion(parts)
    ensures plan.Some? <==>
      || (exists a <- Assigned(parts) :: a.opDay != "")
      || (exists a <- Assigned(parts) ::
            a.period != "" && a.period in Collect(parts).periods && !Collect(parts).periods[a.period].uic)
      || ((forall a <- Assigned(parts) :: a.period != "" ==> a.period in Collect(parts).periods)
          && exists a <- Assigned(parts), b <- Assigned(parts) ::
               a.dayType == b.dayType && a.period != "" && b.period == "" && b.date != NoDate)
    ensures plan.Some? ==> Converts(parts, Planned(parts, plan.value))
    ensures plan.Some? ==> AreWritten(plan.value.periods, plan.value.assignments)
  {
    hide *;
    NeededIs(parts);
    var cal := new Calendar();
    var list := Read(cal, parts);
    var needed := cal.NeedsIt(parts);
    if !needed { return None; }
    ApplyAll(cal, InOrder(list));
    CoversView(cal);
    SortedHolds(parts, cal.View());
    var periods, assignments := cal.Render();
    RenderedConverts(parts, periods, assignments, cal.View());
    RenderedAreWritten(periods, assignments, cal.View());
    plan := Some(Plan(periods, assignments));
    PlannedIs(parts, periods, assignments);
  }

  lemma PlannedIs(parts: seq<Part>, periods: seq<Definition>, assignments: seq<Assignment>)
    ensures Planned(parts, Plan(periods, assignments)) == Rewritten(parts, periods, assignments)
  {
  }

  /** Every definition kept and every assignment noted, in document order. */
  method Read(cal: Calendar, parts: seq<Part>) returns (list: seq<Assignment>)
    requires cal.Noted([]) && cal.defs == NOTHING
    modifies cal`defs, cal`byOperatingDay, cal`periodRefs, cal`dated
    ensures cal.defs == Collect(parts) && list == Assigned(parts) && cal.Noted(list)
  {
    hide Calendar.Noted;
    list := [];
    for i := 0 to |parts|
      invariant cal.defs == Collect(parts[..i]) && list == Assigned(parts[..i]) && cal.Noted(list)
    {
      assert parts[..i + 1][..i] == parts[..i];
      if parts[i].Block? {
        list := NoteAll(cal, list, parts[i].assignments);
      } else {
        assert Assigned(parts[..i + 1]) == Assigned(parts[..i]);
        if parts[i].Def? { cal.Define(parts[i].definition, list); }
      }
    }
    assert parts[..|parts|] == parts;
  }

  lemma CoversView(cal: Calendar)
    ensures Covers(cal.View(), cal.defs, cal.Table())
  {
    cal.ViewHas();
  }

  method NoteAll(cal: Calendar, seen: seq<Assignment>, more: seq<Assignment>) returns (all: seq<Assignment>)
    requires cal.Noted(seen)
    modifies cal`byOperatingDay, cal`periodRefs, cal`dated
    ensures all == seen + more && cal.Noted(all)
  {
    all := seen;
    for i := 0 to |more|
      invariant all == seen + more[..i] && cal.Noted(all)
    {
      cal.Note(more[i], all);
      all := all + [more[i]];
    }
  }

  method ApplyAll(cal: Calendar, list: seq<Assignment>)
    requires cal.Valid() && cal.days == map[]
    modifies cal`days, cal`unresolved
    ensures cal.Table() == PutAll(cal.defs, map[], list) && fresh(cal.days.Values)
  {
    for i := 0 to |list|
      invariant cal.Valid() && cal.Table() == PutAll(cal.defs, map[], list[..i]) && fresh(cal.days.Values)
    {
      cal.Apply(list[i]);
      assert list[..i + 1][..i] == list[..i];
    }
    assert list[..|list|] == list;
  }

  /** The table, with the day types that no assignment concerns. */
  ghost predicate Covers(days: Table, d: Definitions, table: Table) {
    days.Keys == d.weekdays.Keys + table.Keys && forall dt :: dt in days ==> days[dt] == DaysIn(table, dt)
  }

  lemma SortedHolds(parts: seq<Part>, days: Table)
    requires Covers(days, Collect(parts), PutAll(Collect(parts), map[], InOrder(Assigned(parts))))
    ensures Holds(days, parts)
  {
    var d, list := Collect(parts), Assigned(parts);
    forall dt ensures dt in days <==> Known(parts, dt) {
      PutAllApplies(d, InOrder(list), dt);
      forall a ensures a in InOrder(list) <==> a in list { SameMembers(list, a); }
    }
    forall dt, day | dt in days ensures day in days[dt] <==> Runs(d, list, dt, day) {
      PutAllApplies(d, InOrder(list), dt);
      SortedReading(d, list, dt, day);
    }
  }

  lemma SameMembers(list: seq<Assignment>, a: Assignment)
    ensures a in InOrder(list) <==> a in list
  {
    var sorted := Sorted(list, 0);
    if a in list {
      var i :| 0 <= i < |list| && list[i] == a;
      assert Placed(i, a) in sorted;
    }
    if a in InOrder(list) {
      var i :| 0 <= i < |sorted| && sorted[i].a == a;
      assert sorted[i] in sorted;
    }
  }

  // ----- a frame read as a stream

  /** `outOfOrder` is 0 exactly when every day type is listed in order. */
  ghost predicate OrderNoted(seen: seq<Assignment>, last: map<Id, nat>, outOfOrder: nat) {
    && (forall dt :: (if dt in last then Some(last[dt]) else None) == LastOrder(seen, dt))
    && (outOfOrder == 0 <==> forall dt :: ListedInOrder(seen, dt))
  }

  lemma OrderNotedMore(seen: seq<Assignment>, last: map<Id, nat>, outOfOrder: nat, a: Assignment)
    requires OrderNoted(seen, last, outOfOrder)
    ensures OrderNoted(
      seen + [a], last[a.dayType := a.order],
      if a.dayType in last && a.order < last[a.dayType] then outOfOrder + 1 else outOfOrder)
  {
    hide ListedInOrder;
    assert (seen + [a])[..|seen|] == seen;
    forall dt ensures ListedInOrder(seen + [a], dt) <==>
      ListedInOrder(seen, dt) && (a.dayType == dt && LastOrder(seen, dt).Some? ==> LastOrder(seen, dt).value <= a.order)
    {
      OrderKept(seen, a, dt);
    }
    if a.dayType in last && a.order < last[a.dayType] {
      assert !ListedInOrder(seen + [a], a.dayType);
    }
  }

  class Scanner {
    const cal: Calendar
    var last: map<Id, nat>
    var outOfOrder: nat

    constructor ()
      ensures fresh(cal) && cal.Valid() && cal.Noted([]) && cal.defs == NOTHING && cal.days == map[]
      ensures OrderNoted([], last, outOfOrder)
    {
      cal := new Calendar();
      last, outOfOrder := map[], 0;
    }

    /** One assignment, applied as it is read. */
    method Assign(a: Assignment, ghost seen: seq<Assignment>)
      requires cal.Valid() && cal.Noted(seen) && OrderNoted(seen, last, outOfOrder)
      modifies this, cal`days, cal`unresolved, cal`byOperatingDay, cal`periodRefs, cal`dated, cal.days.Values
      ensures cal.Valid() && cal.Noted(seen + [a]) && OrderNoted(seen + [a], last, outOfOrder)
      ensures forall v <- cal.days.Values :: v in old(cal.days.Values) || fresh(v)
      ensures cal.Table() == Put(cal.defs, old(cal.Table()), a)
    {
      hide OrderNoted, Put, Calendar.Noted, Calendar.Valid, Calendar.Table;
      OrderNotedMore(seen, last, outOfOrder, a);
      if a.dayType in last && a.order < last[a.dayType] { outOfOrder := outOfOrder + 1; }
      last := last[a.dayType := a.order];
      cal.Note(a, seen);
      cal.Apply(a);
    }

    method Block(list: seq<Assignment>, ghost seen: seq<Assignment>)
      requires cal.Valid() && cal.Noted(seen) && OrderNoted(seen, last, outOfOrder)
      modifies this, cal`days, cal`unresolved, cal`byOperatingDay, cal`periodRefs, cal`dated, cal.days.Values
      ensures cal.Valid() && cal.Noted(seen + list) && OrderNoted(seen + list, last, outOfOrder)
      ensures forall v <- cal.days.Values :: v in old(cal.days.Values) || fresh(v)
      ensures cal.Table() == PutAll(cal.defs, old(cal.Table()), list)
    {
      hide OrderNoted, Put, Calendar.Noted, Calendar.Table;
      assert seen + list[..0] == seen;
      for i := 0 to |list|
        invariant cal.Valid() && cal.Noted(seen + list[..i]) && OrderNoted(seen + list[..i], last, outOfOrder)
        invariant forall v <- cal.days.Values :: v in old(cal.days.Values) || fresh(v)
        invariant cal.Table() == PutAll(cal.defs, old(cal.Table()), list[..i])
      {
        Assign(list[i], seen + list[..i]);
        assert list[..i + 1][..i] == list[..i] && seen + list[..i + 1] == seen + list[..i] + [list[i]];
      }
      assert list[..|list|] == list;
    }
  }

  /** `_scan`: definitions and assignments in the order of the document. */
  method Scan(parts: seq<Part>) returns (scanner: Scanner)
    ensures fresh(scanner) && fresh(scanner.cal) && fresh(scanner.cal.days.Values) && scanner.cal.Valid()
    ensures scanner.cal.defs == Collect(parts) && scanner.cal.Noted(Assigned(parts))
    ensures OrderNoted(Assigned(parts), scanner.last, scanner.outOfOrder)
    ensures scanner.cal.Table() == Streamed(parts)
  {
    hide OrderNoted, Calendar.Noted;
    scanner := new Scanner();
    var cal := scanner.cal;
    for i := 0 to |parts|
      invariant fresh(scanner) && scanner.cal == cal && fresh(cal) && fresh(cal.days.Values) && cal.Valid()
      invariant cal.defs == Collect(parts[..i]) && cal.Noted(Assigned(parts[..i]))
      invariant OrderNoted(Assigned(parts[..i]), scanner.last, scanner.outOfOrder)
      invariant cal.Table() == Streamed(parts[..i])
    {
      assert parts[..i + 1][..i] == parts[..i];
      if parts[i].Block? {
        scanner.Block(parts[i].assignments, Assigned(parts[..i]));
      } else {
        assert Assigned(parts[..i + 1]) == Assigned(parts[..i]);
        if parts[i].Def? { cal.Define(parts[i].definition, Assigned(parts[..i])); }
      }
    }
    assert parts[..|parts|] == parts;
  }

  /** The streamed reading is the sorted one when the definitions come first
      and no assignment is out of order. */
  lemma StreamedHolds(parts: seq<Part>, days: Table)
    requires DefinitionsFirst(parts) && forall dt :: ListedInOrder(Assigned(parts), dt)
    requires Covers(days, Collect(parts), Streamed(parts))
    ensures Holds(days, parts)
  {
    hide DefinitionsFirst, Assigned, Collect, PutAll, Applied, Runs, ListedInOrder, Streamed;
    var d, list := Collect(parts), Assigned(parts);
    assert parts[..|parts|] == parts;
    StreamedApplies(parts, |parts|);
    forall dt ensures dt in days <==> Known(parts, dt) { PutAllApplies(d, list, dt); }
    forall dt, day | dt in days ensures day in days[dt] <==> Runs(d, list, dt, day) {
      PutAllApplies(d, list, dt);
      ListedReading(d, list, dt, day);
    }
  }

  /** A frame too large for memory, by its streamed reading. */
  method PlanSpooled(parts: seq<Part>) returns (plan: Option<Plan>, outOfOrder: nat)
    ensures plan.None? <==> !NeedsConversion(parts)
    ensures plan.Some? <==>
      || (exists a <- Assigned(parts) :: a.opDay != "")
      || (exists a <- Assigned(parts) ::
            a.period != "" && a.period in Collect(parts).periods && !Collect(parts).periods[a.period].uic)
      || ((forall a <- Assigned(parts) :: a.period != "" ==> a.period in Collect(parts).periods)
          && exists a <- Assigned(parts), b <- Assigned(parts) ::
               a.dayType == b.dayType && a.period != "" && b.period == "" && b.date != NoDate)
    ensures outOfOrder == 0 <==> forall dt :: ListedInOrder(Assigned(parts), dt)
    ensures plan.Some? && DefinitionsFirst(parts) && outOfOrder == 0 ==> Converts(parts, Planned(parts, plan.value))
    ensures plan.Some? ==> AreWritten(plan.value.periods, plan.value.assignments)
  {
    hide *;
    NeededIs(parts);
    var scanner := Scan(parts);
    outOfOrder := scanner.outOfOrder;
    OrderNotedMeans(Assigned(parts), scanner.last, outOfOrder);
    var needed := scanner.cal.NeedsIt(parts);
    if !needed { return None, outOfOrder; }
    var periods, assignments := scanner.cal.Render();
    if DefinitionsFirst(parts) && outOfOrder == 0 {
      CoversView(scanner.cal);
      StreamedHolds(parts, scanner.cal.View());
      RenderedConverts(parts, periods, assignments, scanner.cal.View());
    }
    RenderedAreWritten(periods, assignments, scanner.cal.View());
    plan := Some(Plan(periods, assignments));
    PlannedIs(parts, periods, assignments);
  }

  lemma OrderNotedMeans(seen: seq<Assignment>, last: map<Id, nat>, outOfOrder: nat)
    requires OrderNoted(seen, last, outOfOrder)
    ensures outOfOrder == 0 <==> forall dt :: ListedInOrder(seen, dt)
  {
  }
}
