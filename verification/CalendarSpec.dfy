/** NeTEx calendars (app/netex_calendar.py): what a ServiceCalendarFrame
    defines and assigns, the days it means, and the days MOTIS reads. Days
    are date ordinals; ordinal 1 is a Monday. */
module CalendarSpec {
  import opened Bytes

  type Id = string

  /** A date or None; the day references count when there is no date. */
  datatype Period = Period(start: Option<int>, end: Option<int>, fromDay: Id, untilDay: Id, bits: string, uic: bool)

  /** What assignments may name. No weekday means no restriction. */
  datatype Definition =
    | OperatingDay(id: Id, date: Option<int>)
    | OperatingPeriod(id: Id, period: Period)
    | DayType(id: Id, weekdays: set<int>)

  datatype DateText = NoDate | Unreadable | On(ordinal: int)

  /** An absent reference is the empty string. */
  datatype Assignment = Assignment(dayType: Id, order: nat, available: bool, period: Id, opDay: Id, date: DateText)

  /** A frame in document order: definitions, dayTypeAssignments blocks, and
      the places where an operatingPeriods container ends. */
  datatype Part = Def(definition: Definition) | Block(assignments: seq<Assignment>) | PeriodsEnd

  // ----- the definitions

  datatype Definitions = Definitions(opDays: map<Id, int>, periods: map<Id, Period>, weekdays: map<Id, set<int>>)

  const NOTHING: Definitions := Definitions(map[], map[], map[])

  function Define(d: Definitions, def: Definition): Definitions {
    match def
    case OperatingDay(id, date) => if date.Some? then d.(opDays := d.opDays[id := date.value]) else d
    case OperatingPeriod(id, period) => d.(periods := d.periods[id := period])
    case DayType(id, weekdays) => d.(weekdays := d.weekdays[id := weekdays])
  }

  function Collect(parts: seq<Part>): Definitions {
    if parts == [] then NOTHING
    else
      var before := Collect(parts[..|parts| - 1]);
      match parts[|parts| - 1]
      case Def(def) => Define(before, def)
      case _ => before
  }

  function Assigned(parts: seq<Part>): seq<Assignment> {
    if parts == [] then []
    else Assigned(parts[..|parts| - 1]) + AssignedBy(parts[|parts| - 1])
  }

  function AssignedBy(part: Part): seq<Assignment> { if part.Block? then part.assignments else [] }

  // ----- what the frame means

  function StartOf(d: Definitions, p: Period): Option<int> {
    if p.start.Some? then p.start else if p.fromDay in d.opDays then Some(d.opDays[p.fromDay]) else None
  }

  function EndOf(d: Definitions, p: Period): Option<int> {
    if p.end.Some? then p.end else if p.untilDay in d.opDays then Some(d.opDays[p.untilDay]) else None
  }

  predicate PeriodHas(d: Definitions, p: Period, day: int) {
    var start, end := StartOf(d, p), EndOf(d, p);
    && start.Some? && end.Some? && start.value <= day <= end.value
    && (p.bits == "" || (day - start.value < |p.bits| && p.bits[day - start.value] != '0'))
  }

  predicate WeekdayAllowed(d: Definitions, dayType: Id, day: int) {
    dayType in d.weekdays && d.weekdays[dayType] != {} ==> (day - 1) % 7 in d.weekdays[dayType]
  }

  /** The assignment is about this day of its day type. */
  predicate Names(d: Definitions, a: Assignment, day: int) {
    && a.dayType != ""
    && if a.period != "" then
         a.period in d.periods && PeriodHas(d, d.periods[a.period], day) && WeekdayAllowed(d, a.dayType, day)
       else if a.opDay != "" then a.opDay in d.opDays && d.opDays[a.opDay] == day
       else a.date == On(day)
  }

  predicate Concerns(d: Definitions, a: Assignment, dayType: Id, day: int) {
    a.dayType == dayType && Names(d, a, day)
  }

  predicate Later(list: seq<Assignment>, j: int, i: int)
    requires 0 <= i < |list| && 0 <= j < |list|
  {
    list[j].order > list[i].order || (list[j].order == list[i].order && j > i)
  }

  /** The last assignment in (order, position) that is about the day. */
  ghost predicate Decides(d: Definitions, list: seq<Assignment>, dayType: Id, day: int, i: int) {
    && 0 <= i < |list| && Concerns(d, list[i], dayType, day)
    && forall j :: 0 <= j < |list| && Concerns(d, list[j], dayType, day) ==> !Later(list, j, i)
  }

  /** The day type runs on the day: the assignment that decides adds it. */
  ghost predicate Runs(d: Definitions, list: seq<Assignment>, dayType: Id, day: int) {
    exists i :: Decides(d, list, dayType, day, i) && list[i].available
  }

  // ----- how the code computes it

  function NonZero(bits: string, n: nat, first: int): (days: seq<int>)
    requires n <= |bits|
    ensures forall day :: day in days <==> 0 <= day - first < n && bits[day - first] != '0'
  {
    if n == 0 then []
    else NonZero(bits, n - 1, first) + if bits[n - 1] != '0' then [first + n - 1] else []
  }

  function Consecutive(n: nat, first: int): (days: seq<int>)
    ensures forall day :: day in days <==> first <= day < first + n
  {
    if n == 0 then [] else Consecutive(n - 1, first) + [first + n - 1]
  }

  /** `_period_days`; the bits past the last day do not count. */
  function PeriodDays(d: Definitions, id: Id): (days: Option<seq<int>>)
    ensures days.Some? ==> id in d.periods && forall day :: day in days.value <==> PeriodHas(d, d.periods[id], day)
    ensures days.None? && id in d.periods ==> forall day :: !PeriodHas(d, d.periods[id], day)
  {
    if id !in d.periods then None
    else
      var p := d.periods[id];
      var start, end := StartOf(d, p), EndOf(d, p);
      if start.None? || end.None? || end.value < start.value then None
      else
        var n := end.value - start.value + 1;
        if p.bits == "" then Some(Consecutive(n, start.value))
        else Some(NonZero(p.bits, Min(n, |p.bits|), start.value))
  }

  function Allowed(days: seq<int>, allowed: set<int>): (r: seq<int>)
    ensures forall day :: day in r <==> day in days && (day - 1) % 7 in allowed
  {
    if days == [] then []
    else
      var rest := Allowed(days[1..], allowed);
      assert forall day :: day in days <==> day == days[0] || day in days[1..];
      if (days[0] - 1) % 7 in allowed then [days[0]] + rest else rest
  }

  /** `_assignment_days` of an assignment with a day type. */
  function AssignmentDays(d: Definitions, a: Assignment): (days: Option<seq<int>>)
    ensures a.dayType != "" && days.Some? ==> forall day :: day in days.value <==> Names(d, a, day)
    ensures days.None? ==> forall day :: !Names(d, a, day)
  {
    if a.period != "" then
      var days := PeriodDays(d, a.period);
      if days.None? || a.dayType !in d.weekdays || d.weekdays[a.dayType] == {} then days
      else Some(Allowed(days.value, d.weekdays[a.dayType]))
    else if a.opDay != "" then
      if a.opDay in d.opDays then Some([d.opDays[a.opDay]]) else None
    else if a.date.On? then Some([a.date.ordinal])
    else None
  }

  /** The assignment can be applied: its day type and days are known. */
  predicate Resolved(d: Definitions, a: Assignment) {
    a.dayType != "" && AssignmentDays(d, a).Some?
  }

  function NamedDays(d: Definitions, a: Assignment): (days: set<int>)
    ensures forall day :: day in days <==> Names(d, a, day)
  {
    if Resolved(d, a) then set day <- AssignmentDays(d, a).value else {}
  }

  /** The days of a day type after the assignments applied one by one. */
  function Applied(d: Definitions, list: seq<Assignment>, dayType: Id): set<int> {
    if list == [] then {}
    else
      var days, a := Applied(d, list[..|list| - 1], dayType), list[|list| - 1];
      if a.dayType != dayType then days
      else if a.available then days + NamedDays(d, a) else days - NamedDays(d, a)
  }

  ghost predicate LastAbout(d: Definitions, list: seq<Assignment>, dayType: Id, day: int, i: int) {
    && 0 <= i < |list| && Concerns(d, list[i], dayType, day)
    && forall j :: i < j < |list| ==> !Concerns(d, list[j], dayType, day)
  }

  /** Applied in turn, the last assignment about a day decides it. */
  lemma {:induction false} LastWins(d: Definitions, list: seq<Assignment>, dayType: Id, day: int)
    ensures day in Applied(d, list, dayType) <==> exists i :: LastAbout(d, list, dayType, day, i) && list[i].available
  {
    if list != [] {
      var n := |list| - 1;
      var before := list[..n];
      LastWins(d, before, dayType, day);
      if Concerns(d, list[n], dayType, day) {
        assert LastAbout(d, list, dayType, day, n);
        assert forall i :: LastAbout(d, list, dayType, day, i) ==> i == n;
      } else {
        assert forall i :: LastAbout(d, list, dayType, day, i) <==> LastAbout(d, before, dayType, day, i);
      }
    }
  }

  // ----- the order of application

  datatype Placed = Placed(position: nat, a: Assignment)

  predicate Before(x: Placed, y: Placed) {
    x.a.order < y.a.order || (x.a.order == y.a.order && x.position < y.position)
  }

  ghost predicate Ascending(list: seq<Placed>) {
    forall i, j :: 0 <= i < j < |list| ==> Before(list[i], list[j])
  }

  function Insert(x: Placed, list: seq<Placed>): (r: seq<Placed>)
    requires Ascending(list) && forall y <- list :: y.position != x.position
    ensures Ascending(r) && forall y :: y in r <==> y == x || y in list
  {
    if list == [] then [x]
    else if Before(x, list[0]) then [x] + list
    else
      assert forall y <- list[1..] :: y in list;
      var rest := Insert(x, list[1..]);
      assert forall y <- rest :: y == x || y in list[1..];
      assert forall i :: 1 <= i < |list| ==> Before(list[0], list[i]);
      assert forall y <- rest :: Before(list[0], y);
      [list[0]] + rest
  }

  /** The assignments from `from` on, sorted by (order, position). */
  function Sorted(list: seq<Assignment>, from: nat): (r: seq<Placed>)
    requires from <= |list|
    ensures Ascending(r)
    ensures forall y :: y in r <==> from <= y.position < |list| && y.a == list[y.position]
    decreases |list| - from
  {
    if from == |list| then [] else Insert(Placed(from, list[from]), Sorted(list, from + 1))
  }

  function Plain(list: seq<Placed>): (r: seq<Assignment>)
    ensures |r| == |list| && forall i :: 0 <= i < |r| ==> r[i] == list[i].a
  {
    seq(|list|, i requires 0 <= i < |list| => list[i].a)
  }

  function InOrder(list: seq<Assignment>): seq<Assignment> { Plain(Sorted(list, 0)) }

  lemma LastIsDecider(d: Definitions, list: seq<Assignment>, dayType: Id, day: int, i: int)
    requires LastAbout(d, InOrder(list), dayType, day, i)
    ensures Decides(d, list, dayType, day, Sorted(list, 0)[i].position)
    ensures list[Sorted(list, 0)[i].position] == InOrder(list)[i]
  {
    var sorted := Sorted(list, 0);
    var p := sorted[i].position;
    assert sorted[i] in sorted;
    forall j | 0 <= j < |list| && Concerns(d, list[j], dayType, day) ensures !Later(list, j, p) {
      assert Placed(j, list[j]) in sorted;
      var k :| 0 <= k < |sorted| && sorted[k] == Placed(j, list[j]);
      assert Concerns(d, InOrder(list)[k], dayType, day);
      assert k <= i;
    }
  }

  lemma DeciderIsLast(d: Definitions, list: seq<Assignment>, dayType: Id, day: int, p: int)
    requires Decides(d, list, dayType, day, p)
    ensures exists i :: LastAbout(d, InOrder(list), dayType, day, i) && InOrder(list)[i] == list[p]
  {
    var sorted := Sorted(list, 0);
    assert Placed(p, list[p]) in sorted;
    var i :| 0 <= i < |sorted| && sorted[i] == Placed(p, list[p]);
    forall j | i < j < |sorted| ensures !Concerns(d, InOrder(list)[j], dayType, day) {
      assert sorted[j] in sorted && Before(sorted[i], sorted[j]);
      assert Later(list, sorted[j].position, p);
    }
    assert LastAbout(d, InOrder(list), dayType, day, i);
  }

  /** The sorted reading of a frame: the days applied are the days meant. */
  lemma SortedReading(d: Definitions, list: seq<Assignment>, dayType: Id, day: int)
    ensures day in Applied(d, InOrder(list), dayType) <==> Runs(d, list, dayType, day)
  {
    LastWins(d, InOrder(list), dayType, day);
    if i :| LastAbout(d, InOrder(list), dayType, day, i) && InOrder(list)[i].available {
      LastIsDecider(d, list, dayType, day, i);
    }
    if p :| Decides(d, list, dayType, day, p) && list[p].available {
      DeciderIsLast(d, list, dayType, day, p);
    }
  }

  /** No assignment of the day type comes before one of lower `order`. */
  ghost predicate ListedInOrder(list: seq<Assignment>, dayType: Id) {
    forall i, j :: 0 <= i < j < |list| && list[i].dayType == dayType && list[j].dayType == dayType ==>
      list[i].order <= list[j].order
  }

  /** Read as listed, a day type listed in order gets the same days. */
  lemma ListedReading(d: Definitions, list: seq<Assignment>, dayType: Id, day: int)
    requires ListedInOrder(list, dayType)
    ensures day in Applied(d, list, dayType) <==> Runs(d, list, dayType, day)
  {
    LastWins(d, list, dayType, day);
    forall i ensures LastAbout(d, list, dayType, day, i) <==> Decides(d, list, dayType, day, i) {
      if Decides(d, list, dayType, day, i) {
        forall j | i < j < |list| ensures !Concerns(d, list[j], dayType, day) {
          assert Concerns(d, list[j], dayType, day) ==> Later(list, j, i);
        }
      }
    }
  }

  // ----- the table of days a calendar builds

  type Table = map<Id, set<int>>

  function DaysIn(table: Table, dayType: Id): set<int> { if dayType in table then table[dayType] else {} }

  function Changed(days: set<int>, on: bool, named: set<int>): set<int> { if on then days + named else days - named }

  /** An assignment that cannot be resolved is ignored. */
  function Put(d: Definitions, table: Table, a: Assignment): Table {
    if Resolved(d, a) then table[a.dayType := Changed(DaysIn(table, a.dayType), a.available, NamedDays(d, a))]
    else table
  }

  function PutAll(d: Definitions, table: Table, list: seq<Assignment>): Table {
    if list == [] then table else Put(d, PutAll(d, table, list[..|list| - 1]), list[|list| - 1])
  }

  /** Read as a stream: each assignment with the definitions seen so far. */
  function Streamed(parts: seq<Part>): Table {
    if parts == [] then map[]
    else
      var before := parts[..|parts| - 1];
      PutAll(Collect(before), Streamed(before), AssignedBy(parts[|parts| - 1]))
  }

  lemma {:induction false} PutAllApplies(d: Definitions, list: seq<Assignment>, dayType: Id)
    ensures DaysIn(PutAll(d, map[], list), dayType) == Applied(d, list, dayType)
    ensures dayType in PutAll(d, map[], list) <==> exists a <- list :: a.dayType == dayType && Resolved(d, a)
  {
    if list != [] {
      var n := |list| - 1;
      PutAllApplies(d, list[..n], dayType);
      assert list == list[..n] + [list[n]];
    }
  }

  lemma {:induction false} PutAllConcat(d: Definitions, table: Table, a: seq<Assignment>, b: seq<Assignment>)
    ensures PutAll(d, PutAll(d, table, a), b) == PutAll(d, table, a + b)
  {
    if b == [] {
      assert a + b == a;
    } else {
      var n := |b| - 1;
      PutAllConcat(d, table, a, b[..n]);
      assert (a + b)[..|a + b| - 1] == a + b[..n];
    }
  }

  /** Every definition stands before every assignment. */
  predicate DefinitionsFirst(parts: seq<Part>) {
    forall i, j :: 0 <= i < j < |parts| && parts[i].Block? ==> !parts[j].Def?
  }

  lemma {:induction false} CollectedBefore(parts: seq<Part>, n: nat)
    requires n < |parts| && parts[n].Block? && DefinitionsFirst(parts)
    ensures Collect(parts[..n]) == Collect(parts)
    decreases |parts|
  {
    var last := |parts| - 1;
    if n < last {
      CollectedBefore(parts[..last], n);
      assert parts[..last][..n] == parts[..n];
    }
  }

  /** With the definitions first, reading as a stream is applying as listed. */
  lemma {:induction false} StreamedApplies(parts: seq<Part>, n: nat)
    requires n <= |parts| && DefinitionsFirst(parts)
    ensures Streamed(parts[..n]) == PutAll(Collect(parts), map[], Assigned(parts[..n]))
    decreases n
  {
    if n > 0 {
      var before, part := parts[..n - 1], parts[n - 1];
      assert parts[..n][..n - 1] == before;
      StreamedApplies(parts, n - 1);
      if part.Block? {
        CollectedBefore(parts, n - 1);
        PutAllConcat(Collect(parts), map[], Assigned(before), part.assignments);
      } else {
        assert Assigned(parts[..n]) == Assigned(before);
      }
    }
  }

  // ----- the order in which a stream lists its assignments

  function LastOrder(seen: seq<Assignment>, dayType: Id): Option<nat> {
    if seen == [] then None
    else if seen[|seen| - 1].dayType == dayType then Some(seen[|seen| - 1].order)
    else LastOrder(seen[..|seen| - 1], dayType)
  }

  lemma {:induction false} LastOrderIsHighest(seen: seq<Assignment>, dayType: Id)
    ensures LastOrder(seen, dayType).None? <==> forall a <- seen :: a.dayType != dayType
    ensures LastOrder(seen, dayType).Some? ==>
      exists a <- seen :: a.dayType == dayType && a.order == LastOrder(seen, dayType).value
    ensures LastOrder(seen, dayType).Some? && ListedInOrder(seen, dayType) ==>
      forall a <- seen :: a.dayType == dayType ==> a.order <= LastOrder(seen, dayType).value
  {
    if seen != [] {
      var n := |seen| - 1;
      assert seen == seen[..n] + [seen[n]];
      if seen[n].dayType == dayType {
        assert seen[n] in seen;
      } else {
        LastOrderIsHighest(seen[..n], dayType);
      }
    }
  }

  /** One more assignment keeps the order of its day type exactly when it is
      not below the last one of that day type. */
  lemma OrderKept(seen: seq<Assignment>, a: Assignment, dayType: Id)
    ensures ListedInOrder(seen + [a], dayType) <==>
      ListedInOrder(seen, dayType) &&
      (a.dayType == dayType && LastOrder(seen, dayType).Some? ==> LastOrder(seen, dayType).value <= a.order)
  {
    LastOrderIsHighest(seen, dayType);
    var all := seen + [a];
    assert all[|seen|] == a && forall i :: 0 <= i < |seen| ==> all[i] == seen[i];
    if ListedInOrder(all, dayType) && a.dayType == dayType && LastOrder(seen, dayType).Some? {
      var x :| x in seen && x.dayType == dayType && x.order == LastOrder(seen, dayType).value;
      var i :| 0 <= i < |seen| && seen[i] == x;
      assert all[i].order <= all[|seen|].order;
    }
  }
}
