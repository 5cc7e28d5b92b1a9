/** Calls and operators counted by station (app/station_extract_netex.py). */
module StationCount {
  import opened Bytes
  import opened StationLists
  import opened StationSpec
  import opened StationTally
  import opened StationReader
  import opened StationPlaces
  import opened StationResult
  import StationOrder

  datatype Station = Station(calls: map<CallMode, nat>, operators: set<Id>)

  type Stations = map<Id, Station>

  function Get(calls: map<CallMode, nat>, mode: CallMode): nat { if mode in calls then calls[mode] else 0 }

  function CallsIn(stations: Stations, root: Id, mode: CallMode): nat {
    if root in stations then Get(stations[root].calls, mode) else 0
  }

  function OperatorsIn(stations: Stations, root: Id): set<Id> {
    if root in stations then stations[root].operators else {}
  }

  const MODES: seq<CallMode> := [Main, Suburban, Unknown, UnknownNotRail, UnknownSuburban]

  // ----- the calls of a place by mode

  function GivenOf(lines: Lines, groups: seq<Group>): int -> seq<CallMode> {
    (n: int) =>
      if 0 <= n < |groups| && UseMode(lines, groups[n]).Some? then [UseMode(lines, groups[n]).value] else []
  }

  ghost predicate OperatorAt(
    lines: Lines, groups: seq<Group>, items: seq<(int, nat)>, mode: CallMode, operator: Id, i: int)
  {
    && 0 <= i < |items| && 0 <= items[i].0 < |groups| && UseMode(lines, groups[items[i].0]) == Some(mode)
    && operator in OperatorsOf(lines, groups[items[i].0])
  }

  function OperatorsBy(operators: map<CallMode, set<Id>>, mode: CallMode): set<Id> {
    if mode in operators then operators[mode] else {}
  }

  /** The calls of a mode among the first items of a tally. */
  ghost function GivenCalls(items: seq<(int, nat)>, i: nat, lines: Lines, groups: seq<Group>, mode: CallMode): nat
    requires i <= |items|
  {
    multiset(Flat(Flat(items[..i], Each()), GivenOf(lines, groups)))[mode]
  }

  lemma {:induction false} GivenStep(
    items: seq<(int, nat)>, i: nat, lines: Lines, groups: seq<Group>, mode: CallMode)
    requires i < |items| && 0 <= items[i].0 < |groups|
    ensures GivenCalls(items, i + 1, lines, groups, mode) == GivenCalls(items, i, lines, groups, mode) +
      if UseMode(lines, groups[items[i].0]) == Some(mode) then items[i].1 else 0
  {
    hide Flat, UseMode, Repeat;
    var f, item := GivenOf(lines, groups), items[i];
    assert items[..i + 1] == items[..i] + [item];
    FlatLast(items[..i], item, Each());
    FlatConcat(Flat(items[..i], Each()), Repeat(item.0, item.1), f);
    var given := UseMode(lines, groups[item.0]);
    if given.Some? {
      RepeatOne(item.0, f, given.value, item.1);
      RepeatCounts(given.value, item.1, mode);
    } else {
      FlatNothing(Repeat(item.0, item.1), f);
    }
  }

  lemma {:induction false} RepeatOne<A, B>(x: A, f: A -> seq<B>, y: B, n: nat)
    requires f(x) == [y]
    ensures Flat(Repeat(x, n), f) == Repeat(y, n)
  {
    if n > 0 {
      RepeatOne(x, f, y, n - 1);
      assert Repeat(x, n)[1..] == Repeat(x, n - 1);
      assert Repeat(y, n) == [y] + Repeat(y, n - 1);
    }
  }

  /** `_use_of`: the calls of a place and the operators, by mode. */
  method UseOf(items: seq<(int, nat)>, lines: Lines, groups: seq<Group>)
    returns (calls: map<CallMode, nat>, operators: map<CallMode, set<Id>>)
    requires ItemsInRange(items, groups)
    ensures forall mode :: Get(calls, mode) == GivenCalls(items, |items|, lines, groups, mode)
    ensures forall mode :: mode in calls ==> calls[mode] > 0
    ensures forall mode, operator :: operator in OperatorsBy(operators, mode) <==>
      exists i :: OperatorAt(lines, groups, items, mode, operator, i)
  {
    hide GivenCalls, UseMode, OperatorsOf;
    calls, operators := map[], map[];
    NoneGiven(items, lines, groups);
    for i := 0 to |items|
      invariant forall mode :: Get(calls, mode) == GivenCalls(items, i, lines, groups, mode)
      invariant forall mode :: mode in calls ==> calls[mode] > 0
      invariant forall mode, operator :: operator in OperatorsBy(operators, mode) <==>
        exists j :: j < i && OperatorAt(lines, groups, items, mode, operator, j)
    {
      var (n, count) := items[i];
      ghost var next := i + 1;
      forall mode ensures GivenCalls(items, next, lines, groups, mode) == GivenCalls(items, i, lines, groups, mode) +
        if UseMode(lines, groups[n]) == Some(mode) then count else 0
      {
        GivenStep(items, i, lines, groups, mode);
      }
      var given := UseMode(lines, groups[n]);
      OperatorStep(items, i, lines, groups, operators);
      if given.Some? {
        calls := calls[given.value := Get(calls, given.value) + count];
        operators := operators[given.value :=
          OperatorsBy(operators, given.value) + (set o <- OperatorsOf(lines, groups[n]))];
      }
    }
  }

  lemma {:induction false} NoneGiven(items: seq<(int, nat)>, lines: Lines, groups: seq<Group>)
    ensures forall mode :: GivenCalls(items, 0, lines, groups, mode) == 0
  {
    assert items[..0] == [];
  }

  lemma {:induction false} OperatorStep(
    items: seq<(int, nat)>, i: nat, lines: Lines, groups: seq<Group>, operators: map<CallMode, set<Id>>)
    requires i < |items| && 0 <= items[i].0 < |groups|
    requires forall mode, operator :: operator in OperatorsBy(operators, mode) <==>
      exists j :: j < i && OperatorAt(lines, groups, items, mode, operator, j)
    ensures
      var given, brought := UseMode(lines, groups[items[i].0]), OperatorsOf(lines, groups[items[i].0]);
      var after := if given.None? then operators
        else operators[given.value := OperatorsBy(operators, given.value) + (set o <- brought)];
      forall mode, operator :: operator in OperatorsBy(after, mode) <==>
        exists j :: j < i + 1 && OperatorAt(lines, groups, items, mode, operator, j)
  {
    hide UseMode, OperatorsOf;
    var given, brought := UseMode(lines, groups[items[i].0]), OperatorsOf(lines, groups[items[i].0]);
    var after := if given.None? then operators
      else operators[given.value := OperatorsBy(operators, given.value) + (set o <- brought)];
    var n := i + 1;
    forall mode, operator ensures operator in OperatorsBy(after, mode) <==>
      exists j :: j < n && OperatorAt(lines, groups, items, mode, operator, j)
    {
      assert operator in OperatorsBy(after, mode) <==>
        operator in OperatorsBy(operators, mode) || OperatorAt(lines, groups, items, mode, operator, i);
      if j :| j < n && OperatorAt(lines, groups, items, mode, operator, j) {
        if j < i { assert operator in OperatorsBy(operators, mode); }
      }
    }
  }

  // ----- one place of a station

  predicate Hits(places: Places, place: Id, given: CallMode, mode: CallMode) {
    CallModeAt(places, given, place) == Some(mode)
  }

  /** The calls of the first `i` modes that count as `mode`. */
  function HitSum(places: Places, place: Id, calls: map<CallMode, nat>, mode: CallMode, i: nat): nat
    requires i <= |MODES|
  {
    if i == 0 then 0
    else
      HitSum(places, place, calls, mode, i - 1)
        + if Hits(places, place, MODES[i - 1], mode) then Get(calls, MODES[i - 1]) else 0
  }

  ghost predicate BroughtBy(
    places: Places, place: Id, calls: map<CallMode, nat>, operators: map<CallMode, set<Id>>, given: CallMode,
    operator: Id)
  {
    && given in calls && CallModeAt(places, given, place).Some?
    && exists key ::
      OperatorMode(CallModeAt(places, given, place).value, given, key) && operator in OperatorsBy(operators, key)
  }

  function AddTo(stations: Stations, root: Id, mode: CallMode, count: nat, operators: set<Id>): Stations {
    var s := if root in stations then stations[root] else Station(map[], {});
    stations[root := Station(s.calls[mode := Get(s.calls, mode) + count], s.operators + operators)]
  }

  function OperatorsFor(operators: map<CallMode, set<Id>>, mode: CallMode, given: CallMode): (r: set<Id>)
    ensures forall o :: o in r <==> exists key :: OperatorMode(mode, given, key) && o in OperatorsBy(operators, key)
  {
    var own := OperatorsBy(operators, mode) + OperatorsBy(operators, given);
    var r := if mode == Main
      then own + OperatorsBy(operators, Unknown) + OperatorsBy(operators, UnknownNotRail)
        + OperatorsBy(operators, UnknownSuburban)
      else own;
    assert OperatorMode(mode, given, mode) && OperatorMode(mode, given, given);
    assert mode == Main ==>
      OperatorMode(mode, given, Unknown) && OperatorMode(mode, given, UnknownNotRail)
        && OperatorMode(mode, given, UnknownSuburban);
    r
  }

  ghost predicate BroughtUpTo(
    places: Places, place: Id, calls: map<CallMode, nat>, operators: map<CallMode, set<Id>>, i: nat, operator: Id)
    requires i <= |MODES|
  {
    exists k :: 0 <= k < i && BroughtBy(places, place, calls, operators, MODES[k], operator)
  }

  function HereOnly(here: bool, n: nat): nat { if here then n else 0 }

  predicate CallsAddedAt(
    stations: Stations, after: Stations, places: Places, root: Id, place: Id, calls: map<CallMode, nat>, i: nat, r: Id,
    mode: CallMode)
    requires i <= |MODES|
  {
    CallsIn(after, r, mode) == CallsIn(stations, r, mode) + HereOnly(r == root, HitSum(places, place, calls, mode, i))
  }

  ghost predicate CallsAdded(
    stations: Stations, after: Stations, places: Places, root: Id, place: Id, calls: map<CallMode, nat>, i: nat)
    requires i <= |MODES|
  {
    forall r, mode :: CallsAddedAt(stations, after, places, root, place, calls, i, r, mode)
  }

  ghost predicate OperatorAddedAt(
    stations: Stations, after: Stations, places: Places, root: Id, place: Id, calls: map<CallMode, nat>,
    operators: map<CallMode, set<Id>>, i: nat, r: Id, o: Id)
    requires i <= |MODES|
  {
    o in OperatorsIn(after, r) <==>
      o in OperatorsIn(stations, r) || (r == root && BroughtUpTo(places, place, calls, operators, i, o))
  }

  ghost predicate OperatorsAdded(
    stations: Stations, after: Stations, places: Places, root: Id, place: Id, calls: map<CallMode, nat>,
    operators: map<CallMode, set<Id>>, i: nat)
    requires i <= |MODES|
  {
    forall r, o :: OperatorAddedAt(stations, after, places, root, place, calls, operators, i, r, o)
  }

  function WithMode(
    stations: Stations, places: Places, root: Id, place: Id, calls: map<CallMode, nat>,
    operators: map<CallMode, set<Id>>, given: CallMode): Stations
  {
    var mode := CallModeAt(places, given, place);
    if given in calls && mode.Some?
    then AddTo(stations, root, mode.value, calls[given], OperatorsFor(operators, mode.value, given)) else stations
  }

  lemma {:induction false} CallsStep(
    stations: Stations, after: Stations, places: Places, root: Id, place: Id, calls: map<CallMode, nat>,
    operators: map<CallMode, set<Id>>, i: nat)
    requires i < |MODES| && CallsAdded(stations, after, places, root, place, calls, i)
    ensures CallsAdded(stations, WithMode(after, places, root, place, calls, operators, MODES[i]), places, root, place,
      calls, i + 1)
  {
    hide CallModeAt, OperatorsFor;
    var more, n := WithMode(after, places, root, place, calls, operators, MODES[i]), i + 1;
    forall r, mode ensures CallsAddedAt(stations, more, places, root, place, calls, n, r, mode) {
      assert CallsAddedAt(stations, after, places, root, place, calls, i, r, mode);
    }
  }

  lemma {:induction false} BroughtStep(
    places: Places, place: Id, calls: map<CallMode, nat>, operators: map<CallMode, set<Id>>, i: nat, o: Id)
    requires i < |MODES|
    ensures BroughtUpTo(places, place, calls, operators, i + 1, o) <==>
      BroughtUpTo(places, place, calls, operators, i, o) || BroughtBy(places, place, calls, operators, MODES[i], o)
  {
    hide BroughtBy;
    var n := i + 1;
    if BroughtUpTo(places, place, calls, operators, n, o) {
      var k :| 0 <= k < n && BroughtBy(places, place, calls, operators, MODES[k], o);
    }
    if BroughtUpTo(places, place, calls, operators, i, o) {
      var k :| 0 <= k < i && BroughtBy(places, place, calls, operators, MODES[k], o);
      assert 0 <= k < n;
    }
    if BroughtBy(places, place, calls, operators, MODES[i], o) { assert 0 <= i < n; }
  }

  lemma {:induction false} OperatorsStep(
    stations: Stations, after: Stations, places: Places, root: Id, place: Id, calls: map<CallMode, nat>,
    operators: map<CallMode, set<Id>>, i: nat)
    requires i < |MODES| && OperatorsAdded(stations, after, places, root, place, calls, operators, i)
    ensures OperatorsAdded(
      stations, WithMode(after, places, root, place, calls, operators, MODES[i]), places, root, place, calls, operators,
        i + 1)
  {
    hide CallModeAt, BroughtUpTo, OperatorMode;
    var more := WithMode(after, places, root, place, calls, operators, MODES[i]);
    var n := i + 1;
    forall r, o ensures OperatorAddedAt(stations, more, places, root, place, calls, operators, n, r, o) {
      assert OperatorAddedAt(stations, after, places, root, place, calls, operators, i, r, o);
      BroughtStep(places, place, calls, operators, i, o);
    }
  }

  /** The calls of one place go to its station, mode by mode. */
  method AddPlace(
    stations: Stations, places: Places, root: Id, place: Id, calls: map<CallMode, nat>,
    operators: map<CallMode, set<Id>>)
    returns (after: Stations)
    ensures CallsAdded(stations, after, places, root, place, calls, |MODES|)
    ensures OperatorsAdded(stations, after, places, root, place, calls, operators, |MODES|)
  {
    hide WithMode, OperatorsFor, CallModeAt, CallsAdded, OperatorsAdded;
    after := stations;
    NoneAddedYet(stations, places, root, place, calls, operators);
    for i := 0 to |MODES|
      invariant CallsAdded(stations, after, places, root, place, calls, i)
      invariant OperatorsAdded(stations, after, places, root, place, calls, operators, i)
    {
      CallsStep(stations, after, places, root, place, calls, operators, i);
      OperatorsStep(stations, after, places, root, place, calls, operators, i);
      after := WithMode(after, places, root, place, calls, operators, MODES[i]);
    }
  }

  lemma {:induction false} NoneAddedYet(
    stations: Stations, places: Places, root: Id, place: Id, calls: map<CallMode, nat>,
    operators: map<CallMode, set<Id>>)
    ensures CallsAdded(stations, stations, places, root, place, calls, 0)
    ensures OperatorsAdded(stations, stations, places, root, place, calls, operators, 0)
  {
  }

  // ----- what a place adds, in terms of its calls

  function HitOne(places: Places, place: Id, mode: CallMode): CallMode -> seq<()> {
    (given: CallMode) => if Hits(places, place, given, mode) then [()] else []
  }

  function HitCount(places: Places, place: Id, mode: CallMode, given: seq<CallMode>, g: CallMode): nat {
    if Hits(places, place, g, mode) then multiset(given)[g] else 0
  }

  lemma {:induction false} NoHits(places: Places, place: Id, mode: CallMode)
    ensures forall g :: HitCount(places, place, mode, [], g) == 0
  {
  }

  lemma {:induction false} HitStep(places: Places, place: Id, mode: CallMode, given: seq<CallMode>, g: CallMode)
    requires given != []
    ensures HitCount(places, place, mode, given, g) == HitCount(places, place, mode, given[1..], g)
      + if given[0] == g && Hits(places, place, g, mode) then 1 else 0
  {
    assert given == [given[0]] + given[1..];
  }

  lemma {:induction false} HitsCounted(places: Places, place: Id, mode: CallMode, given: seq<CallMode>)
    ensures |Flat(given, HitOne(places, place, mode))| ==
      HitCount(places, place, mode, given, Main) + HitCount(places, place, mode, given, Suburban)
        + HitCount(places, place, mode, given, Unknown) + HitCount(places, place, mode, given, UnknownNotRail)
        + HitCount(places, place, mode, given, UnknownSuburban)
  {
    hide Hits, HitCount;
    if given != [] {
      HitsCounted(places, place, mode, given[1..]);
      HitStep(places, place, mode, given, Main);
      HitStep(places, place, mode, given, Suburban);
      HitStep(places, place, mode, given, Unknown);
      HitStep(places, place, mode, given, UnknownNotRail);
      HitStep(places, place, mode, given, UnknownSuburban);
    } else {
      NoHits(places, place, mode);
    }
  }

  lemma {:induction false} HitSumIs(
    places: Places, place: Id, mode: CallMode, calls: map<CallMode, nat>, given: seq<CallMode>)
    requires forall g :: Get(calls, g) == multiset(given)[g]
    ensures HitSum(places, place, calls, mode, |MODES|) == |Flat(given, HitOne(places, place, mode))|
  {
    hide Hits, Flat;
    HitsCounted(places, place, mode, given);
    assert MODES[0] == Main && MODES[1] == Suburban && MODES[2] == Unknown && MODES[3] == UnknownNotRail
      && MODES[4] == UnknownSuburban;
    assert HitSum(places, place, calls, mode, 1) == HitCount(places, place, mode, given, Main);
    assert HitSum(places, place, calls, mode, 2) ==
      HitSum(places, place, calls, mode, 1) + HitCount(places, place, mode, given, Suburban);
    assert HitSum(places, place, calls, mode, 3) ==
      HitSum(places, place, calls, mode, 2) + HitCount(places, place, mode, given, Unknown);
    assert HitSum(places, place, calls, mode, 4) ==
      HitSum(places, place, calls, mode, 3) + HitCount(places, place, mode, given, UnknownNotRail);
    assert HitSum(places, place, calls, mode, 5) ==
      HitSum(places, place, calls, mode, 4) + HitCount(places, place, mode, given, UnknownSuburban);
  }

  function UseAt(pairs: seq<Place>, lines: Lines, groups: seq<Group>, p: int, n: int): Use
    requires 0 <= p < |pairs| && 0 <= n < |groups|
  {
    (pairs[p], Norm(lines, groups[n]))
  }

  /** Whether a single call counts at a station. */
  function CountOne(
    places: Places, pairs: seq<Place>, lines: Lines, groups: seq<Group>, root: Id, mode: CallMode)
    : (int, int) -> seq<()>
  {
    (p: int, n: int) => Flat(UseEnd(pairs, lines, groups)(p, n), OneIfCounts(places, lines, root, mode))
  }

  lemma {:induction false} CompletedTwice(lines: Lines, g: Group)
    ensures UseMode(lines, Norm(lines, g)) == UseMode(lines, g)
      && OperatorsOf(lines, Norm(lines, g)) == OperatorsOf(lines, g)
    ensures IsKept(lines, g) <==> UseMode(lines, g).Some?
  {
    NormOnce(lines, g);
  }

  /** The group a call ends with, and the mode it is given with. */
  lemma {:induction false} CallParts(pairs: seq<Place>, lines: Lines, groups: seq<Group>, p: int, n: int)
    requires 0 <= p < |pairs|
    ensures var kept := 0 <= n < |groups| && IsKept(lines, groups[n]);
      && UseEnd(pairs, lines, groups)(p, n) == (if kept then [UseAt(pairs, lines, groups, p, n)] else [])
      && GivenOf(lines, groups)(n) ==
           (if 0 <= n < |groups| && UseMode(lines, groups[n]).Some? then [UseMode(lines, groups[n]).value] else [])
  {
    hide IsKept, UseMode, Norm;
    var f := UseEnd(pairs, lines, groups);
    assert f(p, n) == if IsRail(lines, groups, n) then [(pairs[p], Norm(lines, groups[n]))] else [];
  }

  lemma {:induction false} OneCall(
    places: Places, pairs: seq<Place>, lines: Lines, groups: seq<Group>, root: Id, mode: CallMode, p: int, n: int)
    requires 0 <= p < |pairs|
    ensures var place := StopPlaceOf(places, pairs[p]);
      CountOne(places, pairs, lines, groups, root, mode)(p, n) ==
        if place != "" && Root(places, place) == root
        then Flat(GivenOf(lines, groups)(n), HitOne(places, place, mode)) else []
  {
    hide Norm, UseMode, IsKept, CallModeAt, StopPlaceOf, Root, OperatorsOf, UseEnd, GivenOf, Flat;
    var place := StopPlaceOf(places, pairs[p]);
    var counts, hits := OneIfCounts(places, lines, root, mode), HitOne(places, place, mode);
    CallParts(pairs, lines, groups, p, n);
    FlatNothing<Use, ()>([], counts);
    FlatNothing<CallMode, ()>([], hits);
    if 0 <= n < |groups| {
      CompletedTwice(lines, groups[n]);
      if IsKept(lines, groups[n]) {
        FlatOne(UseAt(pairs, lines, groups, p, n), counts);
        FlatOne(UseMode(lines, groups[n]).value, hits);
      }
    }
  }

  lemma {:induction false} PlaceCallsIs(
    places: Places, pairs: seq<Place>, lines: Lines, groups: seq<Group>, root: Id, mode: CallMode, p: int,
    numbers: seq<int>)
    requires 0 <= p < |pairs|
    ensures var place := StopPlaceOf(places, pairs[p]);
      Flat(numbers, Row(CountOne(places, pairs, lines, groups, root, mode), p)) ==
        if place != "" && Root(places, place) == root
        then Flat(Flat(numbers, GivenOf(lines, groups)), HitOne(places, place, mode)) else []
  {
    hide StopPlaceOf, Root, GivenOf, HitOne, CountOne, Flat;
    var place := StopPlaceOf(places, pairs[p]);
    var f := Row(CountOne(places, pairs, lines, groups, root, mode), p);
    var g := Then(GivenOf(lines, groups), HitOne(places, place, mode));
    forall n | n in numbers ensures f(n) == if place != "" && Root(places, place) == root then g(n) else [] {
      OneCall(places, pairs, lines, groups, root, mode, p, n);
    }
    if place != "" && Root(places, place) == root {
      FlatEqual(numbers, f, g);
      FlatFlat(numbers, GivenOf(lines, groups), HitOne(places, place, mode));
    } else {
      FlatNothing(numbers, f);
    }
  }
}
