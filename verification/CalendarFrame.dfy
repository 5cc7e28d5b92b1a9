/** The calendar of one frame, built element by element, and the conversion
    of a frame (app/netex_calendar.py). */
module CalendarFrame {
  import opened Bytes
  import opened CalendarSpec
  import opened CalendarMotis

  /** The days of a run of flags that starts at ordinal `base`. */
  ghost function DaysOn(base: int, flags: seq<bool>): (r: set<int>)
    ensures forall day :: day in r <==> 0 <= day - base < |flags| && flags[day - base]
  {
    if flags == [] then {}
    else
      var n := |flags| - 1;
      DaysOn(base, flags[..n]) + if flags[n] then {base + n} else {}
  }

  function Off(n: nat): (flags: seq<bool>)
    ensures |flags| == n && forall i :: 0 <= i < n ==> !flags[i]
  {
    seq(n, _ => false)
  }

  /** A day type's service days: one flag per day, from ordinal `base`. */
  class DayBits {
    var base: int
    var days: seq<bool>

    ghost function Days(): set<int>
      reads this
    {
      DaysOn(base, days)
    }

    constructor ()
      ensures Days() == {}
    {
      base, days := 0, [];
    }

    /** A set of ordinals, for all the growing at both ends. */
    method Set(ordinal: int, on: bool)
      modifies this
      ensures Days() == if on then old(Days()) + {ordinal} else old(Days()) - {ordinal}
    {
      if days == [] {
        if on { base, days := ordinal, [true]; }
        return;
      }
      var i := ordinal - base;
      if !(0 <= i < |days|) {
        if !on { return; }
        if i < 0 {
          days := Off(-i) + days;
          base, i := ordinal, 0;
        } else {
          days := days + Off(i + 1 - |days|);
        }
        assert Days() == old(Days());
      }
      days := days[i := on];
    }

    method SetAll(list: seq<int>, on: bool)
      modifies this
      ensures Days() == Changed(old(Days()), on, set day <- list)
    {
      for i := 0 to |list|
        invariant Days() == Changed(old(Days()), on, set day <- list[..i])
      {
        Set(list[i], on);
        assert list[..i + 1] == list[..i] + [list[i]];
      }
      assert list[..|list|] == list;
    }

    /** The first day and the bits from it to the last, None when it never runs. */
    method Span() returns (span: Option<(int, string)>)
      ensures span.None? <==> Days() == {}
      ensures span.Some? ==> StandsFor(Spanning(span.value.0, span.value.1), Days())
    {
      var first := 0;
      while first < |days| && !days[first]
        invariant 0 <= first <= |days| && forall k :: 0 <= k < first ==> !days[k]
      {
        first := first + 1;
      }
      if first == |days| { return None; }
      var last := |days| - 1;
      while !days[last]
        invariant first <= last < |days| && forall k :: last < k < |days| ==> !days[k]
        decreases last
      {
        last := last - 1;
      }
      var bits := BitText(days[first..last + 1]);
      assert base + first in Days() && base + last in Days();
      SpanStandsFor(base, days, first, last);
      return Some((base + first, bits));
    }
  }

  function Spanning(first: int, bits: string): Period {
    Period(Some(first), Some(first + |bits| - 1), "", "", bits, true)
  }

  function BitText(flags: seq<bool>): (bits: string)
    ensures |bits| == |flags| && forall i :: 0 <= i < |bits| ==> bits[i] == if flags[i] then '1' else '0'
  {
    seq(|flags|, i requires 0 <= i < |flags| => if flags[i] then '1' else '0')
  }

  lemma SpanStandsFor(base: int, days: seq<bool>, first: nat, last: nat)
    requires first <= last < |days| && days[first] && days[last]
    requires forall k :: 0 <= k < |days| && days[k] ==> first <= k <= last
    ensures StandsFor(Spanning(base + first, BitText(days[first..last + 1])), DaysOn(base, days))
  {
    hide BitDays, DaysOn, BitText;
    var flags := days[first..last + 1];
    var p := Spanning(base + first, BitText(flags));
    forall day ensures day in BitDays(p) <==> day in DaysOn(base, days) {
      BitDay(p, day);
      if 0 <= day - p.start.value < |flags| { assert flags[day - p.start.value] == days[day - base]; }
    }
    assert base + first in DaysOn(base, days) && base + last in DaysOn(base, days);
  }

  lemma BitDay(p: Period, day: int)
    requires p.start.Some?
    ensures day in BitDays(p) <==> 0 <= day - p.start.value < |p.bits| && p.bits[day - p.start.value] == '1'
  {
    var i := day - p.start.value;
    assert day == p.start.value + i;
  }

  lemma NamedSet(d: Definitions, a: Assignment)
    requires Resolved(d, a)
    ensures (set day <- AssignmentDays(d, a).value) == NamedDays(d, a)
  {
  }

  // ----- the calendar

  class Calendar {
    var defs: Definitions
    var days: map<Id, DayBits>
    var unresolved: nat
    var byOperatingDay: bool
    var periodRefs: seq<(Id, Id)>
    var dated: set<Id>

    /** Two day types never share their flags. */
    ghost predicate Valid()
      reads this`days
    {
      forall a, b :: a in days && b in days && a != b ==> days[a] != days[b]
    }

    ghost function Table(): Table
      reads this`days, days.Values
    {
      map dt <- days :: days[dt].Days()
    }

    /** What `note` keeps of the assignments seen. */
    ghost predicate Noted(seen: seq<Assignment>)
      reads this`byOperatingDay, this`periodRefs, this`dated
    {
      && (byOperatingDay <==> exists a <- seen :: a.opDay != "")
      && (forall r :: r in periodRefs <==> exists a <- seen :: a.period != "" && r == (a.dayType, a.period))
      && (forall dt :: dt in dated <==> exists a <- seen :: a.period == "" && a.date != NoDate && dt == a.dayType)
    }

    constructor ()
      ensures Valid() && Noted([]) && defs == NOTHING && days == map[] && unresolved == 0
    {
      defs, days, unresolved, byOperatingDay, periodRefs, dated := NOTHING, map[], 0, false, [], {};
    }

    method Define(def: Definition, ghost seen: seq<Assignment>)
      requires Noted(seen)
      modifies this`defs
      ensures defs == CalendarSpec.Define(old(defs), def) && Noted(seen)
    {
      defs := CalendarSpec.Define(defs, def);
    }

    method Note(a: Assignment, ghost seen: seq<Assignment>)
      requires Noted(seen)
      modifies this`byOperatingDay, this`periodRefs, this`dated
      ensures Noted(seen + [a])
    {
      if a.opDay != "" { byOperatingDay := true; }
      if a.period != "" {
        periodRefs := periodRefs + [(a.dayType, a.period)];
      } else if a.date != NoDate {
        dated := dated + {a.dayType};
      }
      assert forall x :: x in seen + [a] <==> x in seen || x == a;
    }

    method NeedsIt(ghost parts: seq<Part>) returns (r: bool)
      requires Noted(Assigned(parts)) && defs.periods == Collect(parts).periods
      ensures r == NeedsConversion(parts)
    {
      assert forall a <- Assigned(parts) :: a.period != "" ==> (a.dayType, a.period) in periodRefs;
      assert forall a <- Assigned(parts) :: a.period == "" && a.date != NoDate ==> a.dayType in dated;
      if byOperatingDay { return true; }
      if exists ref <- periodRefs :: ref.1 in defs.periods && !defs.periods[ref.1].uic {
        assert NeedsConversion(parts);
        return true;
      }
      if dated == {} || exists ref <- periodRefs :: ref.1 !in defs.periods { return false; }
      r := exists ref <- periodRefs :: ref.0 in dated;
    }

    method Apply(a: Assignment)
      requires Valid()
      modifies this`days, this`unresolved, days.Values
      ensures Valid() && forall v <- days.Values :: v in old(days.Values) || fresh(v)
      ensures Table() == Put(defs, old(Table()), a)
      ensures unresolved == old(unresolved) + if Resolved(defs, a) then 0 else 1
    {
      hide AssignmentDays, NamedDays, DayBits.Days;
      var named := if a.dayType != "" then AssignmentDays(defs, a) else None;
      if named.None? {
        unresolved := unresolved + 1;
        return;
      }
      NamedSet(defs, a);
      if a.dayType !in days {
        var target := new DayBits();
        days := days[a.dayType := target];
      }
      days[a.dayType].SetAll(named.value, a.available);
    }

    /** The days of every day type defined or assigned here. */
    ghost function View(): Table
      reads this, days.Values
    {
      map dt | dt in defs.weekdays.Keys + days.Keys :: DaysIn(Table(), dt)
    }

    /** A day type that never runs still gets a period: it must exist. */
    method PeriodFor(dayType: Id) returns (p: Period)
      ensures StandsFor(p, DaysIn(Table(), dayType))
    {
      if dayType in days {
        var span := days[dayType].Span();
        if span.Some? { return Spanning(span.value.0, span.value.1); }
      }
      p := Spanning(NEVER_DAY, "0");
      assert BitDays(p) == {};
    }

    lemma ViewHas()
      ensures View().Keys == defs.weekdays.Keys + days.Keys
      ensures forall dt :: dt in View() ==> View()[dt] == DaysIn(Table(), dt)
    {
    }

    /** One period and one assignment per day type defined or assigned here. */
    method Render() returns (periods: seq<Definition>, list: seq<Assignment>)
      ensures Rendered(periods, list, View())
    {
      hide *;
      periods, list := [], [];
      ViewHas();
      ghost var all := View();
      var left := defs.weekdays.Keys + days.Keys;
      RenderedNothing(all);
      while left != {}
        invariant left <= all.Keys && all == View()
        invariant Rendered(periods, list, Without(all, left))
        decreases |left|
      {
        var dt :| dt in left;
        var p := PeriodFor(dt);
        RenderedMore(periods, list, all, left, dt, p);
        left := left - {dt};
        periods, list := periods + [OperatingPeriod(PeriodId(dt), p)], list + [NewAssignment(dt)];
      }
      WithoutNone(all);
    }
  }

  ghost function Without(days: Table, left: set<Id>): Table {
    map dt | dt in days && dt !in left :: days[dt]
  }

  lemma WithoutNone(days: Table)
    ensures Without(days, {}) == days
  {
  }

  lemma RenderedNothing(days: Table)
    ensures Rendered([], [], Without(days, days.Keys))
  {
  }

  lemma RenderedMore(
    periods: seq<Definition>, list: seq<Assignment>, all: Table, left: set<Id>, dayType: Id, p: Period)
    requires Rendered(periods, list, Without(all, left)) && dayType in left && dayType in all
      && StandsFor(p, all[dayType])
    ensures Rendered(
      periods + [OperatingPeriod(PeriodId(dayType), p)], list + [NewAssignment(dayType)],
        Without(all, left - {dayType}))
  {
    hide StandsFor;
    var list', days' := list + [NewAssignment(dayType)], Without(all, left - {dayType});
    forall dt | dt in days' ensures NewAssignment(dt) in list' {
      if dt == dayType {
        assert list'[|list|] == NewAssignment(dt);
      } else {
        assert dt in Without(all, left);
      }
    }
  }
}
