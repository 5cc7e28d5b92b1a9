/** The whole reading of an archive (app/station_extract_netex.py): the
    dictionaries of the code give the order-free stations. */
module StationArchive {
  import opened Bytes
  import opened StationLists
  import opened StationSpec
  import opened StationTally
  import opened StationReader
  import opened StationPlaces
  import opened StationResult
  import opened StationCount
  import StationOrder

  /** `_root`. */
  method FindRoot(places: Places, place: Id) returns (root: Id)
    ensures root == Root(places, place)
  {
    var current, seen := place, {place};
    for i := 0 to PARENT_DEPTH
      invariant RootFrom(places, place, current, seen, PARENT_DEPTH - i) == Root(places, place)
    {
      var next := if current in places.parents then places.parents[current] else "";
      if next == "" || next !in places.defined { return current; }
      if next in seen { return place; }
      seen := seen + {next};
      current := next;
    }
    return current;
  }

  // ----- operators

  /** The calls of a place bring an operator to a station. */
  ghost predicate PlaceBrings(
    places: Places, pairs: seq<Place>, lines: Lines, groups: seq<Group>, useLog: UseLog, root: Id, o: Id, p: int)
  {
    exists n, m :: BringsCall(places, pairs, lines, groups, useLog, root, o, p, n, m)
  }

  ghost predicate BringsCall(
    places: Places, pairs: seq<Place>, lines: Lines, groups: seq<Group>, useLog: UseLog, root: Id, o: Id, p: int,
    n: int, m: int)
  {
    && (p, n) in useLog && (p, m) in useLog && 0 <= p < |pairs| && 0 <= n < |groups| && 0 <= m < |groups|
    && Brings(places, lines, UseAt(pairs, lines, groups, p, n), UseAt(pairs, lines, groups, p, m), root, o)
  }

  lemma {:induction false} InLog(
    use: map<int, Tally>, useLog: UseLog, p: int, items: seq<(int, nat)>, groups: seq<Group>, n: int)
    requires Stands(use, useLog) && AllProper(use, |groups|) && p in use && ItemsOf(use[p], items)
    ensures (p, n) in useLog <==> HasItem(items, n)
  {
    StandsAt(use, useLog, p, n);
    assert Proper(use[p], |groups|);
    assert (p, n) in useLog <==> multiset(useLog)[(p, n)] > 0;
    if HasItem(items, n) {
      var i :| 0 <= i < |items| && items[i].0 == n;
      assert Lists(use[p], n);
    }
  }

  lemma {:induction false} GivenListed(items: seq<(int, nat)>, lines: Lines, groups: seq<Group>, i: nat, mode: CallMode)
    requires ItemsInRange(items, groups) && i <= |items|
    ensures GivenCalls(items, i, lines, groups, mode) > 0 <==>
      exists k :: 0 <= k < i && UseMode(lines, groups[items[k].0]) == Some(mode)
    decreases i
  {
    hide UseMode, GivenCalls;
    NoneGiven(items, lines, groups);
    if i > 0 {
      GivenListed(items, lines, groups, i - 1, mode);
      GivenStep(items, i - 1, lines, groups, mode);
    }
  }

  /** What `BroughtBy` says of the maps, said of the groups of the tally. */
  lemma {:induction false} BroughtIsBrings(
    places: Places, pairs: seq<Place>, lines: Lines, groups: seq<Group>, items: seq<(int, nat)>,
    calls: map<CallMode, nat>, operators: map<CallMode, set<Id>>, p: int, root: Id, o: Id)
    requires 0 <= p < |pairs| && ItemsInRange(items, groups)
    requires forall mode :: Get(calls, mode) == GivenCalls(items, |items|, lines, groups, mode)
    requires forall mode :: mode in calls ==> calls[mode] > 0
    requires forall mode, operator :: operator in OperatorsBy(operators, mode) <==>
      exists i :: OperatorAt(lines, groups, items, mode, operator, i)
    ensures
      var place := StopPlaceOf(places, pairs[p]);
      place != "" && Root(places, place) == root && BroughtUpTo(places, place, calls, operators, |MODES|, o) <==>
        exists i, j :: BringsItem(places, pairs, lines, groups, items, root, o, p, i, j)
  {
    hide UseMode, GivenCalls, OperatorsOf, Norm, StopPlaceOf, Root, CallModeAt, OperatorMode;
    var place := StopPlaceOf(places, pairs[p]);
    if place != "" && Root(places, place) == root && BroughtUpTo(places, place, calls, operators, |MODES|, o) {
      var k :| 0 <= k < |MODES| && BroughtBy(places, place, calls, operators, MODES[k], o);
      var given := MODES[k];
      GivenListed(items, lines, groups, |items|, given);
      assert Get(calls, given) > 0;
      var i :| 0 <= i < |items| && UseMode(lines, groups[items[i].0]) == Some(given);
      var key :| OperatorMode(CallModeAt(places, given, place).value, given, key) && o in OperatorsBy(operators, key);
      var j :| OperatorAt(lines, groups, items, key, o, j);
      ItemBrings(places, pairs, lines, groups, items, root, o, p, i, j);
      assert BringsItem(places, pairs, lines, groups, items, root, o, p, i, j);
    }
    if i, j :| BringsItem(places, pairs, lines, groups, items, root, o, p, i, j) {
      ItemBrings(places, pairs, lines, groups, items, root, o, p, i, j);
      var given, key := UseMode(lines, groups[items[i].0]).value, UseMode(lines, groups[items[j].0]).value;
      GivenListed(items, lines, groups, |items|, given);
      assert Get(calls, given) > 0;
      assert OperatorAt(lines, groups, items, key, o, j);
      assert o in OperatorsBy(operators, key);
      assert BroughtBy(places, place, calls, operators, given, o);
      var k := ModeIndex(given);
      assert MODES[k] == given;
    }
  }

  function ModeIndex(mode: CallMode): (k: nat)
    ensures k < |MODES| && MODES[k] == mode
  {
    match mode
    case Main => 0
    case Suburban => 1
    case Unknown => 2
    case UnknownNotRail => 3
    case UnknownSuburban => 4
  }

  ghost predicate BringsItem(
    places: Places, pairs: seq<Place>, lines: Lines, groups: seq<Group>, items: seq<(int, nat)>, root: Id, o: Id,
    p: int, i: int, j: int)
  {
    && 0 <= i < |items| && 0 <= j < |items| && 0 <= p < |pairs|
    && 0 <= items[i].0 < |groups| && 0 <= items[j].0 < |groups|
    && Brings(
         places, lines, UseAt(pairs, lines, groups, p, items[i].0), UseAt(pairs, lines, groups, p, items[j].0), root, o)
  }

  lemma {:induction false} ItemBrings(
    places: Places, pairs: seq<Place>, lines: Lines, groups: seq<Group>, items: seq<(int, nat)>, root: Id, o: Id,
    p: int, i: int, j: int)
    requires 0 <= i < |items| && 0 <= j < |items| && 0 <= p < |pairs| && ItemsInRange(items, groups)
    ensures BringsItem(places, pairs, lines, groups, items, root, o, p, i, j) <==>
      var place := StopPlaceOf(places, pairs[p]);
      var given, key := UseMode(lines, groups[items[i].0]), UseMode(lines, groups[items[j].0]);
      && place != "" && Root(places, place) == root && given.Some? && key.Some?
      && CallModeAt(places, given.value, place).Some?
      && OperatorMode(CallModeAt(places, given.value, place).value, given.value, key.value)
      && o in OperatorsOf(lines, groups[items[j].0])
  {
    hide UseMode, OperatorsOf, Norm, StopPlaceOf, Root, CallModeAt, OperatorMode, IsKept;
    CompletedTwice(lines, groups[items[i].0]);
    CompletedTwice(lines, groups[items[j].0]);
  }

  // ----- the stations

  /** The calls and operators of the places gone through so far. */
  ghost predicate CountedSoFar(
    stations: Stations, places: Places, pairs: seq<Place>, lines: Lines, groups: seq<Group>, useLog: UseLog,
    done: seq<int>)
  {
    && (forall r, mode :: CountedAt(stations, places, pairs, lines, groups, useLog, done, r, mode))
    && (forall r, o :: OperatorSoFar(stations, places, pairs, lines, groups, useLog, done, r, o))
  }

  ghost predicate CountedAt(
    stations: Stations, places: Places, pairs: seq<Place>, lines: Lines, groups: seq<Group>, useLog: UseLog,
    done: seq<int>, r: Id, mode: CallMode)
  {
    CallsIn(stations, r, mode) == |Flat(done, KeyCalls(CountOne(places, pairs, lines, groups, r, mode), useLog))|
  }

  ghost predicate OperatorSoFar(
    stations: Stations, places: Places, pairs: seq<Place>, lines: Lines, groups: seq<Group>, useLog: UseLog,
    done: seq<int>, r: Id, o: Id)
  {
    o in OperatorsIn(stations, r) <==>
      exists k :: 0 <= k < |done| && PlaceBrings(places, pairs, lines, groups, useLog, r, o, done[k])
  }

  /** What `UseOf` found for the items of a place. */
  ghost predicate UseIs(
    items: seq<(int, nat)>, lines: Lines, groups: seq<Group>, calls: map<CallMode, nat>,
    operators: map<CallMode, set<Id>>)
  {
    && (forall mode :: Get(calls, mode) == GivenCalls(items, |items|, lines, groups, mode))
    && (forall mode :: mode in calls ==> calls[mode] > 0)
    && forall mode, operator :: operator in OperatorsBy(operators, mode) <==>
         exists i :: OperatorAt(lines, groups, items, mode, operator, i)
  }

  lemma {:induction false} PlaceCounted(
    places: Places, pairs: seq<Place>, lines: Lines, groups: seq<Group>, use: map<int, Tally>, useLog: UseLog, p: int,
    items: seq<(int, nat)>, calls: map<CallMode, nat>, operators: map<CallMode, set<Id>>, r: Id, mode: CallMode)
    requires Stands(use, useLog) && p in use && 0 <= p < |pairs| && ItemsOf(use[p], items)
    requires UseIs(items, lines, groups, calls, operators)
    ensures var place := StopPlaceOf(places, pairs[p]);
      |KeyCalls(CountOne(places, pairs, lines, groups, r, mode), useLog)(p)| ==
        HereOnly(place != "" && Root(places, place) == r, HitSum(places, place, calls, mode, |MODES|))
  {
    hide Flat, Stands, ItemsOf, StopPlaceOf, Root, HitSum, HitOne, GivenOf, CountOne;
    var place := StopPlaceOf(places, pairs[p]);
    var numbers, f := Flat(items, Each()), Row(CountOne(places, pairs, lines, groups, r, mode), p);
    TallyIsCalls(use, useLog, p, items);
    FlatPermuted(numbers, Flat(useLog, AtKey(p)), f);
    SameLength(Flat(numbers, f), Flat(Flat(useLog, AtKey(p)), f));
    PlaceCallsIs(places, pairs, lines, groups, r, mode, p, numbers);
    var given := Flat(numbers, GivenOf(lines, groups));
    assert items[..|items|] == items;
    forall g ensures Get(calls, g) == multiset(given)[g] {
      assert Get(calls, g) == GivenCalls(items, |items|, lines, groups, g);
    }
    HitSumIs(places, place, mode, calls, given);
  }

  lemma {:induction false} PlaceOperator(
    places: Places, pairs: seq<Place>, lines: Lines, groups: seq<Group>, use: map<int, Tally>, useLog: UseLog, p: int,
    items: seq<(int, nat)>, calls: map<CallMode, nat>, operators: map<CallMode, set<Id>>, r: Id, o: Id)
    requires Stands(use, useLog) && AllProper(use, |groups|) && p in use && 0 <= p < |pairs| && ItemsOf(use[p], items)
    requires UseIs(items, lines, groups, calls, operators) && ItemsInRange(items, groups)
    ensures var place := StopPlaceOf(places, pairs[p]);
      PlaceBrings(places, pairs, lines, groups, useLog, r, o, p) <==>
        place != "" && Root(places, place) == r && BroughtUpTo(places, place, calls, operators, |MODES|, o)
  {
    hide Stands, ItemsOf, AllProper, StopPlaceOf, Root, BroughtUpTo, Brings, UseAt;
    BroughtIsBrings(places, pairs, lines, groups, items, calls, operators, p, r, o);
    if n, m :| BringsCall(places, pairs, lines, groups, useLog, r, o, p, n, m) {
      InLog(use, useLog, p, items, groups, n);
      InLog(use, useLog, p, items, groups, m);
      var i :| 0 <= i < |items| && items[i].0 == n;
      var j :| 0 <= j < |items| && items[j].0 == m;
      assert BringsItem(places, pairs, lines, groups, items, r, o, p, i, j);
    }
    if i, j :| BringsItem(places, pairs, lines, groups, items, r, o, p, i, j) {
      InLog(use, useLog, p, items, groups, items[i].0);
      InLog(use, useLog, p, items, groups, items[j].0);
      assert HasItem(items, items[i].0) && HasItem(items, items[j].0);
      assert BringsCall(places, pairs, lines, groups, useLog, r, o, p, items[i].0, items[j].0);
    }
  }

  /** One more place counted. */
  lemma {:induction false} CountStep(
    stations: Stations, after: Stations, places: Places, pairs: seq<Place>, lines: Lines, groups: seq<Group>,
    useLog: UseLog, done: seq<int>, p: int, calls: map<CallMode, nat>, operators: map<CallMode, set<Id>>)
    requires CountedSoFar(stations, places, pairs, lines, groups, useLog, done) && 0 <= p < |pairs|
    requires var place := StopPlaceOf(places, pairs[p]);
      && (place == "" ==> after == stations)
      && (place != "" ==> CallsAdded(stations, after, places, Root(places, place), place, calls, |MODES|))
      && (place != "" ==>
        OperatorsAdded(stations, after, places, Root(places, place), place, calls, operators, |MODES|))
    requires forall r, mode ::
      |KeyCalls(CountOne(places, pairs, lines, groups, r, mode), useLog)(p)| ==
        HereOnly(
          StopPlaceOf(places, pairs[p]) != "" && Root(places, StopPlaceOf(places, pairs[p])) == r,
          HitSum(places, StopPlaceOf(places, pairs[p]), calls, mode, |MODES|))
    requires forall r, o :: PlaceBrings(places, pairs, lines, groups, useLog, r, o, p) <==>
      StopPlaceOf(places, pairs[p]) != "" && Root(places, StopPlaceOf(places, pairs[p])) == r
      && BroughtUpTo(places, StopPlaceOf(places, pairs[p]), calls, operators, |MODES|, o)
    ensures CountedSoFar(after, places, pairs, lines, groups, useLog, done + [p])
  {
    hide Flat, KeyCalls, CountOne, PlaceBrings, StopPlaceOf, Root, HitSum, BroughtUpTo, OperatorsIn, CallsIn;
    var place, more := StopPlaceOf(places, pairs[p]), done + [p];
    forall r, mode ensures CountedAt(after, places, pairs, lines, groups, useLog, more, r, mode) {
      assert CountedAt(stations, places, pairs, lines, groups, useLog, done, r, mode);
      FlatLast(done, p, KeyCalls(CountOne(places, pairs, lines, groups, r, mode), useLog));
      if place != "" {
        assert CallsAddedAt(stations, after, places, Root(places, place), place, calls, |MODES|, r, mode);
      }
    }
    forall r, o ensures OperatorSoFar(after, places, pairs, lines, groups, useLog, more, r, o) {
      assert OperatorSoFar(stations, places, pairs, lines, groups, useLog, done, r, o);
      OneMorePlace(places, pairs, lines, groups, useLog, done, p, r, o);
      if place != "" {
        assert OperatorAddedAt(stations, after, places, Root(places, place), place, calls, operators, |MODES|, r, o);
      }
    }
  }

  lemma {:induction false} OneMorePlace(
    places: Places, pairs: seq<Place>, lines: Lines, groups: seq<Group>, useLog: UseLog, done: seq<int>, p: int, r: Id,
    o: Id)
    ensures var more := done + [p];
      (exists k :: 0 <= k < |more| && PlaceBrings(places, pairs, lines, groups, useLog, r, o, more[k])) <==>
      (exists k :: 0 <= k < |done| && PlaceBrings(places, pairs, lines, groups, useLog, r, o, done[k]))
      || PlaceBrings(places, pairs, lines, groups, useLog, r, o, p)
  {
    hide PlaceBrings;
    var more := done + [p];
    if k :| 0 <= k < |more| && PlaceBrings(places, pairs, lines, groups, useLog, r, o, more[k]) {
      if k < |done| { assert more[k] == done[k]; }
    }
    if k :| 0 <= k < |done| && PlaceBrings(places, pairs, lines, groups, useLog, r, o, done[k]) {
      assert more[k] == done[k];
    }
    if PlaceBrings(places, pairs, lines, groups, useLog, r, o, p) { assert more[|done|] == p; }
  }

  /** The reference stations for the calls placed. */
  ghost predicate StationsAre(stations: Stations, places: Places, lines: Lines, uses: seq<Use>) {
    && (forall r, mode :: CallsIn(stations, r, mode) == StationCalls(places, lines, uses, r, mode))
    && (forall r, o :: o in OperatorsIn(stations, r) <==> HasOperator(places, lines, uses, r, o))
  }

  ghost predicate AllPairsDiffer(pairs: seq<Place>) { forall i, j :: 0 <= i < j < |pairs| ==> pairs[i] != pairs[j] }

  lemma {:induction false} CallsTotal(
    places: Places, pairs: seq<Place>, lines: Lines, groups: seq<Group>, useLog: UseLog, done: seq<int>, r: Id,
    mode: CallMode)
    requires Different(done) && forall x <- useLog :: x.0 in done
    ensures |Flat(done, KeyCalls(CountOne(places, pairs, lines, groups, r, mode), useLog))| ==
      StationCalls(places, lines, Flat(useLog, UseEnds(pairs, lines, groups)), r, mode)
  {
    hide Flat;
    var one, counts := CountOne(places, pairs, lines, groups, r, mode), OneIfCounts(places, lines, r, mode);
    Regroup(one, done, useLog);
    SameLength(Flat(done, KeyCalls(one, useLog)), Flat(useLog, OfPair(one)));
    FlatFlat(useLog, UseEnds(pairs, lines, groups), counts);
    forall x | x in useLog ensures OfPair(one)(x) == Then(UseEnds(pairs, lines, groups), counts)(x) {}
    FlatEqual(useLog, OfPair(one), Then(UseEnds(pairs, lines, groups), counts));
  }

  lemma {:induction false} UseEndsIs(pairs: seq<Place>, lines: Lines, groups: seq<Group>, p: int, n: int)
    ensures UseEnds(pairs, lines, groups)((p, n)) ==
      if 0 <= p < |pairs| && IsRail(lines, groups, n) then [UseAt(pairs, lines, groups, p, n)] else []
  {
    hide IsKept, Norm;
    assert UseEnds(pairs, lines, groups)((p, n)) == UseEnd(pairs, lines, groups)(p, n);
  }

  lemma {:induction false} UseMember(pairs: seq<Place>, lines: Lines, groups: seq<Group>, useLog: UseLog, a: Use)
    ensures a in Flat(useLog, UseEnds(pairs, lines, groups)) <==>
      exists x :: x in useLog && a in UseEnds(pairs, lines, groups)(x)
  {
    if useLog != [] {
      UseMember(pairs, lines, groups, useLog[1..], a);
      assert useLog == [useLog[0]] + useLog[1..];
    }
  }

  lemma {:induction false} OperatorsTotal(
    places: Places, pairs: seq<Place>, lines: Lines, groups: seq<Group>, useLog: UseLog, done: seq<int>, r: Id, o: Id)
    requires AllPairsDiffer(pairs) && forall x <- useLog :: x.0 in done
    ensures (exists k :: 0 <= k < |done| && PlaceBrings(places, pairs, lines, groups, useLog, r, o, done[k])) <==>
      HasOperator(places, lines, Flat(useLog, UseEnds(pairs, lines, groups)), r, o)
  {
    hide Flat, Brings, Norm, IsKept, UseEnds;
    var uses := Flat(useLog, UseEnds(pairs, lines, groups));
    if k :| 0 <= k < |done| && PlaceBrings(places, pairs, lines, groups, useLog, r, o, done[k]) {
      var p := done[k];
      var n, m :| BringsCall(places, pairs, lines, groups, useLog, r, o, p, n, m);
      BringsRail(places, pairs, lines, groups, r, o, p, n, m);
      var a, b := UseAt(pairs, lines, groups, p, n), UseAt(pairs, lines, groups, p, m);
      UseEndsIs(pairs, lines, groups, p, n);
      UseEndsIs(pairs, lines, groups, p, m);
      assert a in UseEnds(pairs, lines, groups)((p, n)) && b in UseEnds(pairs, lines, groups)((p, m));
      UseMember(pairs, lines, groups, useLog, a);
      UseMember(pairs, lines, groups, useLog, b);
    }
    if a, b :| a in uses && b in uses && Brings(places, lines, a, b, r, o) {
      UseMember(pairs, lines, groups, useLog, a);
      UseMember(pairs, lines, groups, useLog, b);
      var x :| x in useLog && a in UseEnds(pairs, lines, groups)(x);
      var y :| y in useLog && b in UseEnds(pairs, lines, groups)(y);
      assert x == (x.0, x.1) && y == (y.0, y.1);
      UseEndsIs(pairs, lines, groups, x.0, x.1);
      UseEndsIs(pairs, lines, groups, y.0, y.1);
      SamePlace(places, lines, a, b, r, o);
      assert x.0 == y.0;
      assert BringsCall(places, pairs, lines, groups, useLog, r, o, x.0, x.1, y.1);
      var k :| 0 <= k < |done| && done[k] == x.0;
    }
  }

  lemma {:induction false} SamePlace(places: Places, lines: Lines, a: Use, b: Use, r: Id, o: Id)
    requires Brings(places, lines, a, b, r, o)
    ensures a.0 == b.0
  {
  }

  lemma {:induction false} BringsRail(
    places: Places, pairs: seq<Place>, lines: Lines, groups: seq<Group>, r: Id, o: Id, p: int, n: int, m: int)
    requires 0 <= p < |pairs| && 0 <= n < |groups| && 0 <= m < |groups|
    requires Brings(places, lines, UseAt(pairs, lines, groups, p, n), UseAt(pairs, lines, groups, p, m), r, o)
    ensures IsRail(lines, groups, n) && IsRail(lines, groups, m)
  {
    CompletedTwice(lines, groups[n]);
    CompletedTwice(lines, groups[m]);
  }

  /** `_stations`: the calls and operators of every station. */
  method CountStations(
    use: map<int, Tally>, ghost useLog: UseLog, pairs: seq<Place>, places: Places, lines: Lines, groups: seq<Group>)
    returns (stations: Stations)
    requires Stands(use, useLog) && AllProper(use, |groups|) && (forall p <- use :: 0 <= p < |pairs|)
      && AllPairsDiffer(pairs)
    ensures StationsAre(stations, places, lines, Flat(useLog, UseEnds(pairs, lines, groups)))
  {
    hide Flat, Stands, AllProper, ItemsOf, CountedSoFar, KeyCalls, CountOne, PlaceBrings, StopPlaceOf, Root, HitSum,
      BroughtUpTo, CallsAdded, OperatorsAdded, StationsAre, UseEnds, AllPairsDiffer, UseIs;
    stations := map[];
    NothingCounted(places, pairs, lines, groups, useLog);
    var left := use.Keys;
    ghost var done: seq<int> := [];
    while left != {}
      invariant left <= use.Keys && Different(done)
      invariant (forall p <- done :: p in use && p !in left) && forall p <- use :: p in left || p in done
      invariant CountedSoFar(stations, places, pairs, lines, groups, useLog, done)
      decreases |left|
    {
      var p := Pick(left);
      left := left - {p};
      var items := TallyItems(use[p]);
      ProperPlace(use, p, items, groups);
      var calls, operators := UseOfPlace(items, lines, groups);
      forall r, mode
        ensures |KeyCalls(CountOne(places, pairs, lines, groups, r, mode), useLog)(p)| ==
          HereOnly(
            StopPlaceOf(places, pairs[p]) != "" && Root(places, StopPlaceOf(places, pairs[p])) == r,
            HitSum(places, StopPlaceOf(places, pairs[p]), calls, mode, |MODES|))
      {
        PlaceCounted(places, pairs, lines, groups, use, useLog, p, items, calls, operators, r, mode);
      }
      forall r, o
        ensures PlaceBrings(places, pairs, lines, groups, useLog, r, o, p) <==>
          StopPlaceOf(places, pairs[p]) != "" && Root(places, StopPlaceOf(places, pairs[p])) == r
          && BroughtUpTo(places, StopPlaceOf(places, pairs[p]), calls, operators, |MODES|, o)
      {
        PlaceOperator(places, pairs, lines, groups, use, useLog, p, items, calls, operators, r, o);
      }
      ghost var before := stations;
      var place := StopPlaceOf(places, pairs[p]);
      if place != "" {
        var root := FindRoot(places, place);
        stations := AddPlace(stations, places, root, place, calls, operators);
      }
      CountStep(before, stations, places, pairs, lines, groups, useLog, done, p, calls, operators);
      done := done + [p];
    }
    AllKeys(use, useLog);
    AllDone(use, useLog, done);
    AllCounted(stations, places, pairs, lines, groups, useLog, done);
  }

  lemma {:induction false} AllDone(use: map<int, Tally>, useLog: UseLog, done: seq<int>)
    requires (forall p <- use :: p in done) && forall x <- useLog :: x.0 in use
    ensures forall x <- useLog :: x.0 in done
  {
    forall x | x in useLog ensures x.0 in done {
      var p := x.0;
      assert p in use;
    }
  }

  method UseOfPlace(items: seq<(int, nat)>, lines: Lines, groups: seq<Group>)
    returns (calls: map<CallMode, nat>, operators: map<CallMode, set<Id>>)
    requires ItemsInRange(items, groups)
    ensures UseIs(items, lines, groups, calls, operators)
  {
    calls, operators := UseOf(items, lines, groups);
  }

  lemma {:induction false} ProperPlace(use: map<int, Tally>, p: int, items: seq<(int, nat)>, groups: seq<Group>)
    requires AllProper(use, |groups|) && p in use && ItemsOf(use[p], items)
    ensures ItemsInRange(items, groups)
  {
    assert Proper(use[p], |groups|);
  }

  lemma {:induction false} NothingCounted(
    places: Places, pairs: seq<Place>, lines: Lines, groups: seq<Group>, useLog: UseLog)
    ensures CountedSoFar(map[], places, pairs, lines, groups, useLog, [])
  {
  }

  lemma {:induction false} AllCounted(
    stations: Stations, places: Places, pairs: seq<Place>, lines: Lines, groups: seq<Group>, useLog: UseLog,
    done: seq<int>)
    requires CountedSoFar(stations, places, pairs, lines, groups, useLog, done)
    requires Different(done) && AllPairsDiffer(pairs) && forall x <- useLog :: x.0 in done
    ensures StationsAre(stations, places, lines, Flat(useLog, UseEnds(pairs, lines, groups)))
  {
    hide Flat, KeyCalls, CountOne, PlaceBrings, StationCalls, HasOperator, UseEnds, CallsIn, OperatorsIn;
    var uses := Flat(useLog, UseEnds(pairs, lines, groups));
    forall r, mode ensures CallsIn(stations, r, mode) == StationCalls(places, lines, uses, r, mode) {
      assert CountedAt(stations, places, pairs, lines, groups, useLog, done, r, mode);
      CallsTotal(places, pairs, lines, groups, useLog, done, r, mode);
    }
    forall r, o ensures o in OperatorsIn(stations, r) <==> HasOperator(places, lines, uses, r, o) {
      assert OperatorSoFar(stations, places, pairs, lines, groups, useLog, done, r, o);
      OperatorsTotal(places, pairs, lines, groups, useLog, done, r, o);
    }
  }

  // ----- the Quays kept

  function WithQuays(places: Places, wanted: set<Id>): Places {
    places.(quays := map q <- places.quays | q in wanted :: places.quays[q])
  }

  /** A called place names its Quays among those wanted, by its QuayRef or in
      place of a StopPlace. */
  predicate IsWanted(places: Places, wanted: set<Id>, place: Place) {
    place.0 in wanted && (place.1 !in places.defined ==> place.1 in wanted)
  }

  /** `_keep_quays`: the other Quays are dropped. */
  method KeepQuays(use: map<int, Tally>, pairs: seq<Place>, places: Places) returns (kept: Places)
    requires forall p <- use :: 0 <= p < |pairs|
    ensures exists wanted :: kept == WithQuays(places, wanted) && forall p <- use :: IsWanted(places, wanted, pairs[p])
    ensures forall q <- kept.quays ::
      exists p <- use :: q == pairs[p].0 || (q == pairs[p].1 && pairs[p].1 !in places.defined)
  {
    var wanted: set<Id> := {};
    var left := use.Keys;
    while left != {}
      invariant left <= use.Keys && forall p <- use :: p !in left ==> IsWanted(places, wanted, pairs[p])
      invariant forall q <- wanted ::
        exists p <- use :: q == pairs[p].0 || (q == pairs[p].1 && pairs[p].1 !in places.defined)
      decreases |left|
    {
      var p := Pick(left);
      left := left - {p};
      wanted := wanted + {pairs[p].0};
      if pairs[p].1 !in places.defined { wanted := wanted + {pairs[p].1}; }
    }
    kept := WithQuays(places, wanted);
  }

  lemma {:induction false} SameRootFrom(places: Places, kept: Places, place: Id, current: Id, seen: set<Id>, left: nat)
    requires kept == places.(quays := kept.quays)
    ensures RootFrom(kept, place, current, seen, left) == RootFrom(places, place, current, seen, left)
    decreases left
  {
    if left > 0 && ParentOf(places, current).Some? {
      var parent := ParentOf(places, current).value;
      SameRootFrom(places, kept, place, parent, seen + {parent}, left - 1);
    }
  }

  /** Dropping the other Quays moves no called place. */
  lemma {:induction false} WantedQuaysSuffice(places: Places, wanted: set<Id>, place: Place)
    requires IsWanted(places, wanted, place)
    ensures var kept := WithQuays(places, wanted);
      StopPlaceOf(kept, place) == StopPlaceOf(places, place)
      && Root(kept, StopPlaceOf(kept, place)) == Root(places, StopPlaceOf(places, place))
  {
    var at := StopPlaceOf(places, place);
    SameRootFrom(places, WithQuays(places, wanted), at, at, {at}, PARENT_DEPTH);
  }

  /** A call at such a place counts as it would with all the Quays. */
  lemma {:induction false} SameUse(
    places: Places, wanted: set<Id>, lines: Lines, a: Use, b: Use, root: Id, mode: CallMode, o: Id)
    requires IsWanted(places, wanted, a.0)
    ensures var kept := WithQuays(places, wanted);
      && CountsAt(kept, lines, a, root, mode) == CountsAt(places, lines, a, root, mode)
      && Brings(kept, lines, a, b, root, o) == Brings(places, lines, a, b, root, o)
  {
    hide Root, StopPlaceOf, UseMode, OperatorsOf, IsWanted;
    WantedQuaysSuffice(places, wanted, a.0);
  }

  /** The stations do not depend on the Quays dropped. */
  lemma {:induction false} SameStations(
    stations: Stations, places: Places, wanted: set<Id>, lines: Lines, uses: seq<Use>)
    requires StationsAre(stations, WithQuays(places, wanted), lines, uses)
    requires forall a <- uses :: IsWanted(places, wanted, a.0)
    ensures StationsAre(stations, places, lines, uses)
  {
    hide CallsIn, OperatorsIn, WithQuays, IsWanted, CountsAt, Brings, Flat;
    var kept := WithQuays(places, wanted);
    forall r, mode ensures CallsIn(stations, r, mode) == StationCalls(places, lines, uses, r, mode) {
      var f, g := OneIfCounts(kept, lines, r, mode), OneIfCounts(places, lines, r, mode);
      forall a | a in uses ensures f(a) == g(a) { SameUse(places, wanted, lines, a, a, r, mode, ""); }
      FlatEqual(uses, f, g);
      assert CallsIn(stations, r, mode) == StationCalls(kept, lines, uses, r, mode);
    }
    forall r, o ensures o in OperatorsIn(stations, r) <==> HasOperator(places, lines, uses, r, o) {
      forall a, b | a in uses && b in uses
        ensures Brings(kept, lines, a, b, r, o) == Brings(places, lines, a, b, r, o)
      {
        SameUse(places, wanted, lines, a, b, r, Main, o);
      }
      assert o in OperatorsIn(stations, r) <==> HasOperator(kept, lines, uses, r, o);
    }
  }

  /** Every call placed is at a place the reader keeps the Quays of. */
  lemma {:induction false} UsesWanted(
    use: map<int, Tally>, useLog: UseLog, pairs: seq<Place>, lines: Lines, groups: seq<Group>, places: Places,
    wanted: set<Id>)
    requires Stands(use, useLog) && (forall p <- use :: 0 <= p < |pairs|) && forall p <- use ::
      IsWanted(places, wanted, pairs[p])
    ensures forall a <- Flat(useLog, UseEnds(pairs, lines, groups)) :: IsWanted(places, wanted, a.0)
  {
    hide Flat, Stands, IsWanted, UseEnds, IsRail;
    AllKeys(use, useLog);
    forall a | a in Flat(useLog, UseEnds(pairs, lines, groups)) ensures IsWanted(places, wanted, a.0) {
      UseMember(pairs, lines, groups, useLog, a);
      var x :| x in useLog && a in UseEnds(pairs, lines, groups)(x);
      var p := x.0;
      assert x == (p, x.1) && p in use;
      UseEndsIs(pairs, lines, groups, p, x.1);
    }
  }

  /** The Quays kept, then the stations: those of all the Quays. */
  method StationsOfUse(
    use: map<int, Tally>, ghost useLog: UseLog, pairs: seq<Place>, places: Places, lines: Lines, groups: seq<Group>)
    returns (stations: Stations)
    requires Stands(use, useLog) && AllProper(use, |groups|) && (forall p <- use :: 0 <= p < |pairs|)
      && AllPairsDiffer(pairs)
    ensures StationsAre(stations, places, lines, Flat(useLog, UseEnds(pairs, lines, groups)))
  {
    hide *;
    var kept := KeepQuays(use, pairs, places);
    stations := CountStations(use, useLog, pairs, kept, lines, groups);
    ghost var wanted :| kept == WithQuays(places, wanted) && forall p <- use :: IsWanted(places, wanted, pairs[p]);
    UsesWanted(use, useLog, pairs, lines, groups, places, wanted);
    SameStations(stations, places, wanted, lines, Flat(useLog, UseEnds(pairs, lines, groups)));
  }

  // ----- the whole archive

  lemma {:induction false} PlacedIsReference(
    tt: seq<Timetable>, st: seq<Structure>, groups: seq<Group>, pointLog: Log, pairs: seq<Place>,
    assignments: map<Id, seq<int>>, useLog: UseLog)
    requires PointsAre(tt, st, groups, pointLog) && AssignmentsAre(st, pairs, assignments)
    requires multiset(Flat(useLog, UseEnds(pairs, LinesOf(tt), groups))) ==
      multiset(Flat(pointLog, OfPair(UsesOf(assignments, pairs, LinesOf(tt), groups))))
    ensures multiset(Flat(useLog, UseEnds(pairs, LinesOf(tt), groups))) == multiset(PlaceCalls(tt, st))
  {
    hide Flat, LinesOf, RoutesOf, UseEnds, UsesOf, Ends, PlacesOf, DirectCalls, CallsOfPattern, PatternCalls,
      AssignmentsAre;
    var lines := LinesOf(tt);
    var uses, ends := UsesOf(assignments, pairs, lines, groups), Ends(lines, groups);
    forall x | x in pointLog ensures OfPair(uses)(x) == Then(ends, PlacesOf(st))(x) {
      UsesOfIs(st, assignments, pairs, lines, groups, x);
    }
    FlatEqual(pointLog, OfPair(uses), Then(ends, PlacesOf(st)));
    FlatFlat(pointLog, ends, PlacesOf(st));
    FlatPermuted(Flat(pointLog, ends), PointCalls(tt, st), PlacesOf(st));
  }

  /** The stations an archive is read as: those of its order-free meaning, each
      journey taken as it is read; with settled Lines, of the archive itself.
      Not ok: there are more groups than the reader keeps. */
  method ReadArchive(tt: seq<Timetable>, st: seq<Structure>, railByDefault: bool) returns (stations: Stations, ok: bool)
    ensures ok ==> AreStationsOf(stations, AsRead(tt), st, railByDefault)
    ensures ok && LinesSettled(tt) ==> AreStationsOf(stations, tt, st, railByDefault)
    ensures !ok ==> TooMany(AsRead(tt), st)
  {
    hide *;
    stations := map[];
    WithStructure(AsRead(tt), st);
    var found: Journeys;
    found, ok := ReadJourneys(tt);
    if !ok { return; }
    var notes: PlaceNotes;
    ghost var read := AsRead(tt);
    LinesAsRead(tt);
    notes, ok := ReadStructure(found, read, st, railByDefault);
    if !ok { return; }
    ValidParts(found);
    NotesParts(found, notes, st);
    ghost var useLog: UseLog;
    var use: map<int, Tally>;
    use, useLog := PlaceAll(found.points, found.pointLog, notes.assignments, notes.pairs, found.lines, found.groups);
    PlacedIsReference(read, st, found.groups, found.pointLog, notes.pairs, notes.assignments, useLog);
    stations := StationsOfUse(use, useLog, notes.pairs, notes.places, found.lines, found.groups);
    StationsOfArchive(stations, read, st, railByDefault, Flat(useLog, UseEnds(notes.pairs, found.lines, found.groups)));
    if LinesSettled(tt) { SettledStations(stations, tt, st, railByDefault); }
  }

  /** The calls and operators of every station. */
  ghost predicate AreStationsOf(stations: Stations, tt: seq<Timetable>, st: seq<Structure>, railByDefault: bool) {
    && (forall root, mode ::
          CallsIn(stations, root, mode) == StationOrder.CallsOfStation(tt, st, railByDefault, root, mode))
    && forall root, o ::
         o in OperatorsIn(stations, root) <==> StationOrder.OperatorOfStation(tt, st, railByDefault, root, o)
  }

  lemma {:induction false} SettledStations(
    stations: Stations, tt: seq<Timetable>, st: seq<Structure>, railByDefault: bool)
    requires LinesSettled(tt) && AreStationsOf(stations, AsRead(tt), st, railByDefault)
    ensures AreStationsOf(stations, tt, st, railByDefault)
  {
    hide PlacesIn, LinesOf, PointCalls, StationCalls, HasOperator, CallsIn, OperatorsIn, LinesSettled;
    SettledIsAsRead(tt, st);
    assert PlaceCalls(AsRead(tt), st) == PlaceCalls(tt, st);
    forall root, mode
      ensures CallsIn(stations, root, mode) == StationOrder.CallsOfStation(tt, st, railByDefault, root, mode)
    {
      assert CallsIn(stations, root, mode) == StationOrder.CallsOfStation(AsRead(tt), st, railByDefault, root, mode);
    }
    forall root, o
      ensures o in OperatorsIn(stations, root) <==> StationOrder.OperatorOfStation(tt, st, railByDefault, root, o)
    {
      assert o in OperatorsIn(stations, root) <==>
        StationOrder.OperatorOfStation(AsRead(tt), st, railByDefault, root, o);
    }
  }

  lemma {:induction false} NotesParts(found: Journeys, notes: PlaceNotes, st: seq<Structure>)
    requires found.Valid() && notes.Valid() && AssignmentsAre(st, notes.pairs, notes.assignments)
    ensures |found.groups| <= GROUPS_MAX && AllPairsDiffer(notes.pairs)
    ensures forall point :: NumbersInRange(NumbersOf(notes.assignments, point), notes.pairs)
  {
  }

  lemma {:induction false} StationsOfArchive(
    stations: Stations, tt: seq<Timetable>, st: seq<Structure>, railByDefault: bool, uses: seq<Use>)
    requires StationsAre(stations, PlacesIn(st, railByDefault), LinesOf(tt), uses)
    requires multiset(uses) == multiset(PlaceCalls(tt, st))
    ensures AreStationsOf(stations, tt, st, railByDefault)
  {
    hide PlacesIn, LinesOf, PlaceCalls, StationCalls, HasOperator, CallsIn, OperatorsIn;
    var places, lines := PlacesIn(st, railByDefault), LinesOf(tt);
    forall root, mode
      ensures CallsIn(stations, root, mode) == StationOrder.CallsOfStation(tt, st, railByDefault, root, mode)
    {
      StationOrder.SameStation(places, lines, uses, PlaceCalls(tt, st), root, mode, "");
    }
    forall root, o
      ensures o in OperatorsIn(stations, root) <==> StationOrder.OperatorOfStation(tt, st, railByDefault, root, o)
    {
      StationOrder.SameStation(places, lines, uses, PlaceCalls(tt, st), root, Main, o);
    }
  }
}
