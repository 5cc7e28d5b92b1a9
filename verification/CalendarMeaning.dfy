/** What a calendar frame means, said of its elements alone, and which frames
    are converted (app/netex_calendar.py). */
module CalendarMeaning {
  import opened Bytes
  import opened CalendarSpec
  import opened CalendarMotis
  import opened CalendarConvert

  // ----- what is collected

  /** The assignments are those of the blocks. */
  lemma {:induction false} AssignedIs(parts: seq<Part>, a: Assignment)
    ensures a in Assigned(parts) <==> exists part <- parts :: part.Block? && a in part.assignments
  {
    if parts != [] {
      var n := |parts| - 1;
      AssignedIs(parts[..n], a);
      assert parts == parts[..n] + [parts[n]];
    }
  }

  /** The i-th element is the last definition of its kind with that id. */
  ghost predicate LastPeriod(parts: seq<Part>, i: int, id: Id, p: Period) {
    && 0 <= i < |parts| && parts[i] == Def(OperatingPeriod(id, p))
    && forall j :: i < j < |parts| && parts[j].Def? ==>
         !(parts[j].definition.OperatingPeriod? && parts[j].definition.id == id)
  }

  ghost predicate LastDay(parts: seq<Part>, i: int, id: Id, day: int) {
    && 0 <= i < |parts| && parts[i] == Def(OperatingDay(id, Some(day)))
    && forall j :: i < j < |parts| && parts[j].Def? ==>
         !(parts[j].definition.OperatingDay? && parts[j].definition.id == id && parts[j].definition.date.Some?)
  }

  ghost predicate LastDayType(parts: seq<Part>, i: int, id: Id, weekdays: set<int>) {
    && 0 <= i < |parts| && parts[i] == Def(DayType(id, weekdays))
    && forall j :: i < j < |parts| && parts[j].Def? ==>
         !(parts[j].definition.DayType? && parts[j].definition.id == id)
  }

  /** Of several periods of one id the last counts. */
  lemma {:induction false} PeriodIs(parts: seq<Part>, id: Id, p: Period)
    ensures id in Collect(parts).periods && Collect(parts).periods[id] == p <==>
      exists i :: LastPeriod(parts, i, id, p)
  {
    if parts != [] {
      var n := |parts| - 1;
      var before := parts[..n];
      PeriodIs(before, id, p);
      if parts[n].Def? && parts[n].definition.OperatingPeriod? && parts[n].definition.id == id {
        assert LastPeriod(parts, n, id, parts[n].definition.period);
        assert forall i :: LastPeriod(parts, i, id, p) ==> i == n;
      } else {
        assert forall i :: LastPeriod(parts, i, id, p) <==> LastPeriod(before, i, id, p);
      }
    }
  }

  /** An operating day without a date defines nothing. */
  lemma {:induction false} DayIs(parts: seq<Part>, id: Id, day: int)
    ensures id in Collect(parts).opDays && Collect(parts).opDays[id] == day <==> exists i :: LastDay(parts, i, id, day)
  {
    if parts != [] {
      var n := |parts| - 1;
      var before := parts[..n];
      DayIs(before, id, day);
      if parts[n].Def? && parts[n].definition.OperatingDay? && parts[n].definition.id == id
         && parts[n].definition.date.Some? {
        assert LastDay(parts, n, id, parts[n].definition.date.value);
        assert forall i :: LastDay(parts, i, id, day) ==> i == n;
      } else {
        assert forall i :: LastDay(parts, i, id, day) <==> LastDay(before, i, id, day);
      }
    }
  }

  lemma {:induction false} DayTypeIs(parts: seq<Part>, id: Id, weekdays: set<int>)
    ensures id in Collect(parts).weekdays && Collect(parts).weekdays[id] == weekdays <==>
      exists i :: LastDayType(parts, i, id, weekdays)
  {
    if parts != [] {
      var n := |parts| - 1;
      var before := parts[..n];
      DayTypeIs(before, id, weekdays);
      if parts[n].Def? && parts[n].definition.DayType? && parts[n].definition.id == id {
        assert LastDayType(parts, n, id, parts[n].definition.weekdays);
        assert forall i :: LastDayType(parts, i, id, weekdays) ==> i == n;
      } else {
        assert forall i :: LastDayType(parts, i, id, weekdays) <==> LastDayType(before, i, id, weekdays);
      }
    }
  }

  // ----- the days one assignment names

  /** A bound of a period is its own date, else that of the operating day it
      names. */
  ghost predicate IsBound(d: Definitions, own: Option<int>, ref: Id, day: int) {
    own == Some(day) || (own == None && ref in d.opDays && d.opDays[ref] == day)
  }

  /** A period assignment names the days from the first to the last bound, those
      whose bit is set if there are bits, on the weekdays of its day type (0 is
      a Monday). */
  lemma PeriodNames(d: Definitions, a: Assignment, day: int)
    requires a.dayType != "" && a.period != ""
    ensures Names(d, a, day) <==>
      && a.period in d.periods
      && (exists first, last ::
            && IsBound(d, d.periods[a.period].start, d.periods[a.period].fromDay, first)
            && IsBound(d, d.periods[a.period].end, d.periods[a.period].untilDay, last)
            && first <= day <= last
            && (d.periods[a.period].bits == ""
                || (day < first + |d.periods[a.period].bits| && d.periods[a.period].bits[day - first] != '0')))
      && (a.dayType in d.weekdays && d.weekdays[a.dayType] != {} ==> (day + 6) % 7 in d.weekdays[a.dayType])
  {
    if a.period in d.periods {
      var p := d.periods[a.period];
      if StartOf(d, p).Some? && EndOf(d, p).Some? {
        assert IsBound(d, p.start, p.fromDay, StartOf(d, p).value) && IsBound(d, p.end, p.untilDay, EndOf(d, p).value);
      }
    }
  }

  /** An assignment without a period names its operating day, else its date. */
  lemma DayNames(d: Definitions, a: Assignment, day: int)
    requires a.dayType != "" && a.period == ""
    ensures a.opDay != "" ==> (Names(d, a, day) <==> a.opDay in d.opDays && d.opDays[a.opDay] == day)
    ensures a.opDay == "" ==> (Names(d, a, day) <==> a.date == On(day))
  {
  }

  // ----- the days a day type runs

  /** An assignment of the highest order about the day, the last of those,
      decides it. */
  lemma DecidedByHighest(d: Definitions, list: seq<Assignment>, dayType: Id, day: int, i: int)
    requires 0 <= i < |list| && list[i].dayType == dayType && Names(d, list[i], day)
    requires forall j :: 0 <= j < |list| && list[j].dayType == dayType && Names(d, list[j], day) ==>
      list[j].order < list[i].order || (list[j].order == list[i].order && j <= i)
    ensures Runs(d, list, dayType, day) <==> list[i].available
  {
    hide Names;
    assert Decides(d, list, dayType, day, i);
    forall k | Decides(d, list, dayType, day, k) ensures k == i {
      assert !Later(list, i, k);
    }
  }

  /** A day no assignment of the day type is about is no day of it. */
  lemma NotNamedNotRun(d: Definitions, list: seq<Assignment>, dayType: Id, day: int)
    requires forall a <- list :: a.dayType == dayType ==> !Names(d, a, day)
    ensures !Runs(d, list, dayType, day)
  {
    hide Names;
  }

  /** Every day type defined here or given days is one the conversion knows,
      and so gives a period, even if it never runs. */
  lemma {:induction false} KnownIs(parts: seq<Part>, id: Id)
    ensures Known(parts, id) <==>
      || (exists part <- parts :: part.Def? && part.definition.DayType? && part.definition.id == id)
      || (exists a <- Assigned(parts) :: a.dayType == id && Resolved(Collect(parts), a))
    ensures forall a <- Assigned(parts), day :: a.dayType == id && Names(Collect(parts), a, day) ==> Known(parts, id)
  {
    hide Assigned;
    DefinedIs(parts, id);
  }

  lemma {:induction false} DefinedIs(parts: seq<Part>, id: Id)
    ensures id in Collect(parts).weekdays <==>
      exists part <- parts :: part.Def? && part.definition.DayType? && part.definition.id == id
  {
    if parts != [] {
      var n := |parts| - 1;
      DefinedIs(parts[..n], id);
      assert parts == parts[..n] + [parts[n]];
    }
  }

  // ----- frames left alone

  /** First and last date, and a 0 or 1 for each day between. */
  ghost predicate IsPlainBits(p: Period) {
    && p.start.Some? && p.end.Some? && |p.bits| > 0 && |p.bits| == p.end.value - p.start.value + 1
    && forall c <- p.bits :: c == '0' || c == '1'
  }

  lemma {:induction false} OnlyPeriod(parts: seq<Part>, id: Id, p: Period)
    requires exists part <- parts :: IsPeriod(part, id)
    requires (forall part <- parts :: IsPeriod(part, id) ==> part.definition.period == p) && p.uic
    ensures UicPeriod(parts, id) == Some(p)
  {
    if !IsPeriod(parts[0], id) { OnlyPeriod(parts[1..], id, p); }
  }

  lemma {:induction false} OnlyAssignment(list: seq<Assignment>, a: Assignment)
    requires a in list && forall b <- list :: b.dayType == a.dayType ==> b == a
    ensures FirstAssignment(list, a.dayType) == Some(a)
  {
    if list[0] != a { OnlyAssignment(list[1..], a); }
  }

  /** A day type that a frame left alone gives one period of plain bits, and
      nothing else, is read right as it is exactly when the period is given and
      not taken away, or has no day: no assignment that takes away is ever a
      reason to convert. */
  lemma {:induction false} LeftAloneReads(parts: seq<Part>, a: Assignment, p: Period)
    requires !NeedsConversion(parts)
    requires a in Assigned(parts) && a.dayType != "" && a.period != ""
    requires forall b <- Assigned(parts) :: b.dayType == a.dayType ==> b == a
    requires a.period in Collect(parts).periods && Collect(parts).periods[a.period] == p && IsPlainBits(p)
    requires forall part <- parts :: IsPeriod(part, a.period) ==> part.definition.period == p
    requires a.dayType in Collect(parts).weekdays ==> Collect(parts).weekdays[a.dayType] == {}
    ensures SameDays(parts, parts, a.dayType) <==> a.available || '1' !in p.bits
  {
    hide Assigned, Collect, Runs, BitDays;
    var d, list := Collect(parts), Assigned(parts);
    PeriodIs(parts, a.period, p);
    var i :| LastPeriod(parts, i, a.period, p);
    assert IsPeriod(parts[i], a.period) && parts[i] in parts;
    OnlyPeriod(parts, a.period, p);
    OnlyAssignment(list, a);
    var k :| 0 <= k < |list| && list[k] == a;
    NoDays(p);
    forall day ensures day in BitDays(p) && a.available <==> Runs(d, list, a.dayType, day) {
      BitsAreDays(d, a, p, day);
      if Names(d, a, day) {
        var n := LastIndex(list, a);
        DecidedByHighest(d, list, a.dayType, day, n);
      } else {
        NotNamedNotRun(d, list, a.dayType, day);
      }
    }
    assert MotisReads(parts, a.dayType) == Days(BitDays(p));
    if a.available || '1' !in p.bits {
      assert SameDays(parts, parts, a.dayType);
    } else {
      var day :| day in BitDays(p);
      assert day in MotisReads(parts, a.dayType).days && !Runs(d, list, a.dayType, day);
    }
  }

  lemma NoDays(p: Period)
    requires p.start.Some?
    ensures '1' in p.bits <==> exists day :: day in BitDays(p)
  {
    if i :| 0 <= i < |p.bits| && p.bits[i] == '1' { assert p.start.value + i in BitDays(p); }
  }

  lemma {:induction false} LastIndex(list: seq<Assignment>, a: Assignment) returns (n: nat)
    requires a in list
    ensures n < |list| && list[n] == a && forall j :: n < j < |list| ==> list[j] != a
  {
    n := |list| - 1;
    while list[n] != a
      invariant n < |list| && forall j :: n < j < |list| ==> list[j] != a
      invariant exists j :: 0 <= j <= n && list[j] == a
      decreases n
    {
      n := n - 1;
    }
  }

  lemma BitsAreDays(d: Definitions, a: Assignment, p: Period, day: int)
    requires a.dayType != "" && a.period != "" && a.period in d.periods && d.periods[a.period] == p && IsPlainBits(p)
    requires a.dayType in d.weekdays ==> d.weekdays[a.dayType] == {}
    ensures day in BitDays(p) <==> Names(d, a, day)
  {
    if Names(d, a, day) {
      var i := day - p.start.value;
      assert p.bits[i] in p.bits && p.bits[i] == '1';
    }
  }

  /** Two periods of one day type. */
  const TWO_PERIODS: seq<Part> := [
    Def(OperatingPeriod("p", Period(Some(1), Some(2), "", "", "11", true))),
    Def(OperatingPeriod("q", Period(Some(10), Some(10), "", "", "1", true))),
    Block([
      Assignment("d", 1, true, "p", "", NoDate),
      Assignment("d", 2, true, "q", "", NoDate)])]

  /** A frame left alone although the second period of a day type is lost. */
  lemma {:induction false} TwoPeriods()
    ensures !NeedsConversion(TWO_PERIODS) && Runs(Collect(TWO_PERIODS), Assigned(TWO_PERIODS), "d", 10)
    ensures MotisReads(TWO_PERIODS, "d").Days? && 10 !in MotisReads(TWO_PERIODS, "d").days
  {
    hide Assigned, Collect, Runs, Decides;
    var list := TWO_PERIODS[2].assignments;
    TwoPeriodsCollected();
    TwoPeriodsNamed(list, Collect(TWO_PERIODS));
    DecidedByHighest(Collect(TWO_PERIODS), list, "d", 10, 1);
    assert UicPeriod(TWO_PERIODS, "p") == Some(TWO_PERIODS[0].definition.period);
    assert FirstAssignment(list, "d") == Some(list[0]);
  }

  lemma {:induction false} TwoPeriodsNamed(list: seq<Assignment>, d: Definitions)
    requires list == TWO_PERIODS[2].assignments && d.periods == map[
      "p" := TWO_PERIODS[0].definition.period, "q" := TWO_PERIODS[1].definition.period]
    requires d.weekdays == map[]
    ensures Names(d, list[1], 10) && !Names(d, list[0], 10)
  {
  }

  lemma {:induction false} TwoPeriodsCollected()
    ensures Assigned(TWO_PERIODS) == TWO_PERIODS[2].assignments
    ensures Collect(TWO_PERIODS) == Definitions(
      map[], map["p" := TWO_PERIODS[0].definition.period, "q" := TWO_PERIODS[1].definition.period], map[])
  {
    var all := TWO_PERIODS;
    assert all[..2] == [all[0], all[1]] && [all[0], all[1]][..1] == [all[0]] && [all[0]][..0] == [];
    assert Collect([]) == NOTHING && Assigned([]) == [];
    assert Collect([all[0]]) == Define(NOTHING, all[0].definition) && Assigned([all[0]]) == [];
    assert Collect([all[0], all[1]]) == Define(Collect([all[0]]), all[1].definition)
      && Assigned([all[0], all[1]]) == [];
  }
}
