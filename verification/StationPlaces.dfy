/** The second pass of the NeTEx station reader
    (app/station_extract_netex.py): patterns, assignments, stations. */
module StationPlaces {
  import opened Bytes
  import opened StationLists
  import opened StationSpec
  import opened StationTally
  import opened StationReader
  import StationOrder

  // ----- the calls of a pattern

  /** The calls of one journey of a group at the points served. */
  function CallsFor(served: seq<Id>, lines: Lines, groups: seq<Group>): int -> seq<Call> {
    (n: int) => if IsRail(lines, groups, n) then CallsAt(served, Norm(lines, groups[n])) else []
  }

  /** The same for the group it becomes with its pattern's Line. */
  function ResolvedCalls(served: seq<Id>, lines: Lines, groups: seq<Group>, line: Id): int -> seq<Call> {
    (n: int) =>
      if 0 <= n < |groups| && IsKept(lines, Resolve(groups[n], line))
      then CallsAt(served, Norm(lines, Resolve(groups[n], line))) else []
  }

  lemma {:induction false} ResolveNormed(lines: Lines, g: Group, line: Id)
    requires "" !in lines
    ensures IsKept(lines, Resolve(Norm(lines, g), line)) == IsKept(lines, Resolve(g, line))
    ensures Norm(lines, Resolve(Norm(lines, g), line)) == Norm(lines, Resolve(g, line))
  {
  }

  function PairUp<K>(): (K, int) -> seq<(K, int)> { (ref: K, n: int) => [(ref, n)] }

  function EndOf(lines: Lines, groups: seq<Group>): (Id, int) -> seq<Call> {
    (ref: Id, n: int) => Ends(lines, groups)((ref, n))
  }

  /** The calls added for a pattern: at each point served, each group. */
  function AddedLog<K>(served: seq<K>, numbers: seq<int>): seq<(K, int)> { Flat(served, Rows(PairUp(), numbers)) }

  lemma {:induction false} RowEnds(ref: Id, numbers: seq<int>, lines: Lines, groups: seq<Group>)
    ensures Flat(Flat(numbers, Row(PairUp(), ref)), Ends(lines, groups)) ==
      Flat(numbers, Row(EndOf(lines, groups), ref))
  {
    FlatFlat(numbers, Row(PairUp(), ref), Ends(lines, groups));
    forall n | n in numbers
      ensures Then(Row(PairUp(), ref), Ends(lines, groups))(n) == Row(EndOf(lines, groups), ref)(n)
    {
      FlatOne((ref, n), Ends(lines, groups));
    }
    FlatEqual(numbers, Then(Row(PairUp(), ref), Ends(lines, groups)), Row(EndOf(lines, groups), ref));
  }

  lemma {:induction false} ColumnEnds(served: seq<Id>, n: int, lines: Lines, groups: seq<Group>)
    ensures Flat(served, Column(EndOf(lines, groups), n)) == CallsFor(served, lines, groups)(n)
  {
    if served != [] {
      ColumnEnds(served[1..], n, lines, groups);
      assert Column(EndOf(lines, groups), n)(served[0]) == Ends(lines, groups)((served[0], n));
      if IsRail(lines, groups, n) {
        var g := Norm(lines, groups[n]);
        assert CallsAt(served, g) == [(served[0], g)] + CallsAt(served[1..], g);
      }
    }
  }

  /** Point by point or group by group, the same calls. */
  lemma {:induction false} AddedEnds(served: seq<Id>, numbers: seq<int>, lines: Lines, groups: seq<Group>)
    ensures multiset(Flat(AddedLog(served, numbers), Ends(lines, groups))) ==
      multiset(Flat(numbers, CallsFor(served, lines, groups)))
  {
    hide Flat, Ends, CallsFor;
    var f, g := Rows(PairUp(), numbers), Ends(lines, groups);
    FlatFlat(served, f, g);
    forall ref | ref in served ensures Then(f, g)(ref) == Rows(EndOf(lines, groups), numbers)(ref) {
      RowEnds(ref, numbers, lines, groups);
    }
    FlatEqual(served, Then(f, g), Rows(EndOf(lines, groups), numbers));
    Exchange(EndOf(lines, groups), served, numbers);
    forall n | n in numbers ensures Columns(EndOf(lines, groups), served)(n) == CallsFor(served, lines, groups)(n) {
      ColumnEnds(served, n, lines, groups);
    }
    FlatEqual(numbers, Columns(EndOf(lines, groups), served), CallsFor(served, lines, groups));
  }

  /** The reference for one pattern, from the log of its journeys. */
  lemma {:induction false} PatternReference(
    lines: Lines, routes: map<Id, Id>, p: Structure, log: Log, groups: seq<Group>)
    requires p.Pattern? && "" !in lines && AllRail(log, lines, groups)
    ensures Flat(Flat(log, Ends(lines, groups)), ServedBy(lines, routes, p)) ==
      Flat(Flat(log, AtKey(p.id)), ResolvedCalls(p.served, lines, groups, PatternLine(routes, p)))
  {
    hide Flat;
    var f, g := Ends(lines, groups), ServedBy(lines, routes, p);
    var f', g' := AtKey(p.id), ResolvedCalls(p.served, lines, groups, PatternLine(routes, p));
    FlatFlat(log, f, g);
    FlatFlat(log, f', g');
    forall x | x in log ensures Then(f, g)(x) == Then(f', g')(x) { OneReference(lines, routes, p, x, groups); }
    FlatEqual(log, Then(f, g), Then(f', g'));
  }

  lemma {:induction false} OneReference(
    lines: Lines, routes: map<Id, Id>, p: Structure, x: (Id, int), groups: seq<Group>)
    requires p.Pattern? && "" !in lines && IsRail(lines, groups, x.1)
    ensures Then(Ends(lines, groups), ServedBy(lines, routes, p))(x) ==
      Then(AtKey(p.id), ResolvedCalls(p.served, lines, groups, PatternLine(routes, p)))(x)
  {
    hide Flat, Norm, IsKept, Resolve;
    var g, line := groups[x.1], PatternLine(routes, p);
    var served, resolved := ServedBy(lines, routes, p), ResolvedCalls(p.served, lines, groups, line);
    FlatOne((x.0, Norm(lines, g)), served);
    FlatOne(x.1, resolved);
    FlatNothing<int, Call>([], resolved);
    ResolveNormed(lines, g, line);
  }

  // ----- one pattern

  ghost predicate ItemsInRange(items: seq<(int, nat)>, groups: seq<Group>) {
    forall i :: 0 <= i < |items| ==> 0 <= items[i].0 < |groups| && items[i].1 > 0
  }

  lemma {:induction false} CallsForGrow(
    items: seq<(int, nat)>, served: seq<Id>, lines: Lines, groups: seq<Group>, more: seq<Group>)
    requires ItemsInRange(items, groups) && groups <= more
    ensures Flat(Flat(items, Each()), CallsFor(served, lines, more)) ==
      Flat(Flat(items, Each()), CallsFor(served, lines, groups))
  {
    forall n | n in Flat(items, Each()) ensures CallsFor(served, lines, more)(n) == CallsFor(served, lines, groups)(n) {
      ExpandedMember(items, n);
    }
    FlatEqual(Flat(items, Each()), CallsFor(served, lines, more), CallsFor(served, lines, groups));
  }

  lemma {:induction false} ExpandedMember(items: seq<(int, nat)>, n: int)
    requires n in Flat(items, Each())
    ensures exists i :: 0 <= i < |items| && items[i].0 == n
  {
    if n in Repeat(items[0].0, items[0].1) {
      assert items[0].0 == n;
    } else {
      ExpandedMember(items[1..], n);
      var i :| 0 <= i < |items[1..]| && items[1..][i].0 == n;
      assert items[i + 1].0 == n;
    }
  }

  /** One item of a tally, resolved to `resolved` (or to nothing, not rail). */
  lemma {:induction false} ResolvedStep(
    items: seq<(int, nat)>, i: nat, list: seq<(int, nat)>, list': seq<(int, nat)>, served: seq<Id>, lines: Lines,
    groups: seq<Group>, now: seq<Group>, line: Id, n: int)
    requires i < |items| && 0 <= items[i].0 < |groups| && groups <= now && 0 <= n < |now|
    requires now[n] == Resolve(groups[items[i].0], line)
    requires list' == if IsRail(lines, now, n) then list + [(n, items[i].1)] else list
    requires Flat(Flat(list, Each()), CallsFor(served, lines, now)) ==
      Flat(Flat(items[..i], Each()), ResolvedCalls(served, lines, groups, line))
    ensures Flat(Flat(list', Each()), CallsFor(served, lines, now)) ==
      Flat(Flat(items[..i + 1], Each()), ResolvedCalls(served, lines, groups, line))
  {
    hide Flat, Norm, IsKept, Resolve, Repeat;
    var calls, resolved := CallsFor(served, lines, now), ResolvedCalls(served, lines, groups, line);
    var item := items[i];
    assert items[..i + 1] == items[..i] + [item];
    FlatLast(items[..i], item, Each());
    FlatConcat(Flat(items[..i], Each()), Repeat(item.0, item.1), resolved);
    RepeatFlat(n, calls, item.0, resolved, item.1);
    if IsRail(lines, now, n) {
      FlatLast(list, (n, item.1), Each());
      FlatConcat(Flat(list, Each()), Repeat(n, item.1), calls);
    } else {
      FlatNothing(Repeat(item.0, item.1), resolved);
    }
  }

  /** The groups added are groups of before with the Line. */
  ghost predicate AddedResolved(was: seq<Group>, now: seq<Group>, line: Id) {
    forall x <- now :: x in was || exists h <- was :: x == Resolve(h, line)
  }

  ghost predicate FullFor(was: seq<Group>, now: seq<Group>, line: Id) {
    exists h <- was :: IsFull(now, Resolve(h, line))
  }

  /** `_rail_groups`: the rail items of a tally, each with its pattern's Line
      when it has none. None when there are too many groups. */
  method RailGroups(found: Journeys, items: seq<(int, nat)>, line: Id, ghost served: seq<Id>)
    returns (resolved: Option<seq<(int, nat)>>)
    requires found.Valid() && ItemsInRange(items, found.groups)
    modifies found`ids, found`groups
    ensures found.Valid() && old(found.groups) <= found.groups
    ensures resolved.Some? ==> ItemsInRange(resolved.value, found.groups)
    ensures resolved.Some? ==>
      Flat(Flat(resolved.value, Each()), CallsFor(served, found.lines, found.groups)) ==
        Flat(Flat(items, Each()), ResolvedCalls(served, found.lines, old(found.groups), line))
    ensures AddedResolved(old(found.groups), found.groups, line)
    ensures resolved.None? ==> FullFor(old(found.groups), found.groups, line)
  {
    hide Flat, Norm, Journeys.Valid, Resolve, IsFull;
    var list: seq<(int, nat)> := [];
    ghost var groups := found.groups;
    NoItems(served, found.lines, groups, line);
    assert items[..0] == [];
    for i := 0 to |items|
      invariant found.Valid() && groups <= found.groups && ItemsInRange(list, found.groups)
      invariant AddedResolved(groups, found.groups, line)
      invariant Flat(Flat(list, Each()), CallsFor(served, found.lines, found.groups)) ==
        Flat(Flat(items[..i], Each()), ResolvedCalls(served, found.lines, groups, line))
    {
      var n := items[i].0;
      ghost var was := found.groups;
      var g := Resolve(found.groups[n], line);
      if g != found.groups[n] {
        assert found.groups[n] == groups[items[i].0] && groups[items[i].0] in groups;
        var id := found.IdOf(g);
        if id.None? { return None; }
        n := id.value;
      }
      CallsForGrow(list, served, found.lines, was, found.groups);
      var more := if IsRail(found.lines, found.groups, n) then list + [(n, items[i].1)] else list;
      ResolvedStep(items, i, list, more, served, found.lines, groups, found.groups, line, n);
      list := more;
    }
    assert items[..|items|] == items;
    return Some(list);
  }

  lemma {:induction false} NoItems(served: seq<Id>, lines: Lines, groups: seq<Group>, line: Id)
    ensures Flat(Flat<(int, nat), int>([], Each()), CallsFor(served, lines, groups)) ==
      Flat(Flat<(int, nat), int>([], Each()), ResolvedCalls(served, lines, groups, line))
  {
  }

  lemma {:induction false} RepeatPairs<K>(ref: K, n: int, count: nat)
    ensures Repeat((ref, n), count) == Flat(Repeat(n, count), Row(PairUp(), ref))
  {
    if count > 0 {
      RepeatPairs(ref, n, count - 1);
      assert Repeat(n, count)[1..] == Repeat(n, count - 1);
      assert Repeat((ref, n), count) == [(ref, n)] + Repeat((ref, n), count - 1);
      assert Row(PairUp(), ref)(n) == [(ref, n)];
    }
  }

  /** The items of a tally at one point. */
  function AtPoint<K>(ref: K, items: seq<(int, nat)>): seq<(K, int)> { Flat(Flat(items, Each()), Row(PairUp(), ref)) }

  lemma {:induction false} AtPointMore<K>(ref: K, items: seq<(int, nat)>, j: nat)
    requires j < |items|
    ensures AtPoint(ref, items[..j + 1]) == AtPoint(ref, items[..j]) + Repeat((ref, items[j].0), items[j].1)
  {
    hide Flat, Repeat;
    assert items[..j + 1] == items[..j] + [items[j]];
    FlatLast(items[..j], items[j], Each());
    FlatConcat(Flat(items[..j], Each()), Repeat(items[j].0, items[j].1), Row(PairUp(), ref));
    RepeatPairs(ref, items[j].0, items[j].1);
  }

  method AddAtPoint(found: Journeys, ref: Id, items: seq<(int, nat)>)
    requires found.Valid() && ItemsInRange(items, found.groups)
    modifies found`points, found`pointLog
    ensures found.Valid() && found.pointLog == old(found.pointLog) + AtPoint(ref, items)
  {
    hide Journeys.Valid, Repeat;
    assert items[..0] == [] && AtPoint(ref, []) == [];
    for j := 0 to |items|
      invariant found.Valid() && found.pointLog == old(found.pointLog) + AtPoint(ref, items[..j])
    {
      AtPointMore(ref, items, j);
      found.AddPoint(ref, items[j].0, items[j].1);
    }
    assert items[..|items|] == items;
  }

  lemma {:induction false} AddedMore<K>(served: seq<K>, i: nat, items: seq<(int, nat)>)
    requires i < |served|
    ensures AddedLog(served[..i + 1], Flat(items, Each())) ==
      AddedLog(served[..i], Flat(items, Each())) + AtPoint(served[i], items)
  {
    hide Flat;
    assert served[..i + 1] == served[..i] + [served[i]];
    FlatLast(served[..i], served[i], Rows(PairUp(), Flat(items, Each())));
  }

  method AddServed(found: Journeys, served: seq<Id>, items: seq<(int, nat)>)
    requires found.Valid() && ItemsInRange(items, found.groups)
    modifies found`points, found`pointLog
    ensures found.Valid() && found.pointLog == old(found.pointLog) + AddedLog(served, Flat(items, Each()))
  {
    hide Journeys.Valid, AtPoint;
    assert served[..0] == [] && AddedLog<Id>([], Flat(items, Each())) == [];
    for i := 0 to |served|
      invariant found.Valid() && found.pointLog == old(found.pointLog) + AddedLog(served[..i], Flat(items, Each()))
    {
      AddedMore(served, i, items);
      AddAtPoint(found, served[i], items);
    }
    assert served[..|served|] == served;
  }

  /** The reference calls of one pattern, from the log of the journeys. */
  function PatternAdds(lines: Lines, routes: map<Id, Id>, p: Structure, log: Log, groups: seq<Group>): seq<Call>
    requires p.Pattern?
  {
    Flat(Flat(log, Ends(lines, groups)), ServedBy(lines, routes, p))
  }

  lemma NoneAdded(groups: seq<Group>, line: Id)
    ensures AddedResolved(groups, groups, line)
  {
  }

  /** `_pattern`: the points it serves get the calls of its journeys. */
  method ReadPattern(found: Journeys, p: Structure) returns (ok: bool)
    requires found.Valid() && p.Pattern? && "" !in found.lines && AllRail(found.patternLog, found.lines, found.groups)
    modifies found`ids, found`groups, found`points, found`pointLog
    ensures found.Valid() && old(found.groups) <= found.groups
    ensures ok ==>
      multiset(Flat(found.pointLog, Ends(found.lines, found.groups))) ==
        multiset(Flat(old(found.pointLog), Ends(found.lines, old(found.groups))))
          + multiset(PatternAdds(found.lines, found.routes, p, found.patternLog, old(found.groups)))
    ensures AddedResolved(old(found.groups), found.groups, PatternLine(found.routes, p))
    ensures !ok ==> FullFor(old(found.groups), found.groups, PatternLine(found.routes, p))
  {
    hide *;
    NoneAdded(found.groups, PatternLine(found.routes, p));
    ghost var groups, log := found.groups, found.pointLog;
    ghost var calls := ResolvedCalls(p.served, found.lines, groups, PatternLine(found.routes, p));
    ValidParts(found);
    PatternAddsIs(found.lines, found.routes, p, found.patternLog, groups);
    if p.id !in found.byPattern {
      NoJourneys(found.byPattern, found.patternLog, p.id, calls);
      return true;
    }
    var items := TallyItems(found.byPattern[p.id]);
    ProperItems(found.byPattern, p.id, items, groups);
    TallyIsCalls(found.byPattern, found.patternLog, p.id, items);
    FlatPermuted(Flat(items, Each()), Flat(found.patternLog, AtKey(p.id)), calls);
    var resolved := RailGroups(found, items, PatternLine(found.routes, p), p.served);
    if resolved.None? { return false; }
    AddServed(found, p.served, resolved.value);
    AddedEnds(p.served, Flat(resolved.value, Each()), found.lines, found.groups);
    FlatConcat(log, AddedLog(p.served, Flat(resolved.value, Each())), Ends(found.lines, found.groups));
    EndsGrow(log, found.lines, groups, found.groups);
    return true;
  }

  lemma {:induction false} ValidParts(found: Journeys)
    requires found.Valid()
    ensures Stands(found.byPattern, found.patternLog) && Stands(found.points, found.pointLog)
    ensures InRange(found.patternLog, found.groups) && InRange(found.pointLog, found.groups)
    ensures AllProper(found.byPattern, |found.groups|) && AllProper(found.points, |found.groups|)
  {
  }

  lemma {:induction false} PatternAddsIs(lines: Lines, routes: map<Id, Id>, p: Structure, log: Log, groups: seq<Group>)
    requires p.Pattern? && "" !in lines && AllRail(log, lines, groups)
    ensures PatternAdds(lines, routes, p, log, groups) ==
      Flat(Flat(log, AtKey(p.id)), ResolvedCalls(p.served, lines, groups, PatternLine(routes, p)))
  {
    PatternReference(lines, routes, p, log, groups);
  }

  lemma {:induction false} NoJourneys(table: map<Id, Tally>, log: Log, id: Id, f: int -> seq<Call>)
    requires Stands(table, log) && id !in table
    ensures Flat(Flat(log, AtKey(id)), f) == []
  {
    NoTallyNoCalls(table, log, id);
    FlatNothing(log, AtKey(id));
  }

  lemma {:induction false} ProperItems(table: map<Id, Tally>, id: Id, items: seq<(int, nat)>, groups: seq<Group>)
    requires AllProper(table, |groups|) && id in table && ItemsOf(table[id], items)
    ensures ItemsInRange(items, groups)
  {
    assert Proper(table[id], |groups|);
  }

  // ----- the whole second pass over patterns

  /** The calls at points, after some of the structure. */
  ghost predicate PointsAre(tt: seq<Timetable>, st: seq<Structure>, groups: seq<Group>, pointLog: Log) {
    var lines, routes := LinesOf(tt), RoutesOf(tt);
    multiset(Flat(pointLog, Ends(lines, groups))) == multiset(Flat(tt, DirectCalls(lines)))
      + multiset(Flat(st, CallsOfPattern(lines, routes, Flat(tt, PatternCalls(lines)))))
  }

  lemma {:induction false} PatternStep(
    tt: seq<Timetable>, st: seq<Structure>, i: nat, groups: seq<Group>, groups': seq<Group>, first: seq<Group>,
    patternLog: Log, pointLog: Log, pointLog': Log)
    requires i < |st| && st[i].Pattern? && PointsAre(tt, st[..i], groups, pointLog)
    requires first <= groups && InRange(patternLog, first)
    requires var lines, routes := LinesOf(tt), RoutesOf(tt);
      && multiset(Flat(patternLog, Ends(lines, first))) == multiset(Flat(tt, PatternCalls(lines)))
      && multiset(Flat(pointLog', Ends(lines, groups'))) ==
           multiset(Flat(pointLog, Ends(lines, groups)))
             + multiset(PatternAdds(lines, routes, st[i], patternLog, groups))
    ensures PointsAre(tt, st[..i + 1], groups', pointLog')
  {
    hide Flat, LinesOf, RoutesOf, Ends, PatternCalls, DirectCalls, InRange;
    var lines, routes := LinesOf(tt), RoutesOf(tt);
    var calls := Flat(tt, PatternCalls(lines));
    EndsGrow(patternLog, lines, first, groups);
    FlatPermuted(Flat(patternLog, Ends(lines, groups)), calls, ServedBy(lines, routes, st[i]));
    assert st[..i + 1] == st[..i] + [st[i]];
    FlatLast(st[..i], st[i], CallsOfPattern(lines, routes, calls));
  }

  lemma {:induction false} NoPatternStep(
    tt: seq<Timetable>, st: seq<Structure>, i: nat, groups: seq<Group>, pointLog: Log)
    requires i < |st| && !st[i].Pattern? && PointsAre(tt, st[..i], groups, pointLog)
    ensures PointsAre(tt, st[..i + 1], groups, pointLog)
  {
    hide Flat, LinesOf, RoutesOf, Ends, PatternCalls, DirectCalls;
    var lines, routes := LinesOf(tt), RoutesOf(tt);
    assert st[..i + 1] == st[..i] + [st[i]];
    FlatLast(st[..i], st[i], CallsOfPattern(lines, routes, Flat(tt, PatternCalls(lines))));
  }

  // ----- assignments and StopPlaces

  /** The places a point is assigned to, in the order of the archive. */
  function AssignedTo(point: Id): Structure -> seq<Place> {
    (a: Structure) => if Assigns(a, point) then [a.place] else []
  }

  function PlacesAt(pairs: seq<Place>, numbers: seq<int>): seq<Place> { Flat(numbers, PlaceAt(pairs)) }

  function PlaceAt(pairs: seq<Place>): int -> seq<Place> { (n: int) => if 0 <= n < |pairs| then [pairs[n]] else [] }

  function NumbersOf(assignments: map<Id, seq<int>>, point: Id): seq<int> {
    if point in assignments then assignments[point] else []
  }

  ghost predicate NumbersInRange(numbers: seq<int>, pairs: seq<Place>) { forall n <- numbers :: 0 <= n < |pairs| }

  lemma {:induction false} PlacesGrow(numbers: seq<int>, pairs: seq<Place>, more: seq<Place>)
    requires NumbersInRange(numbers, pairs) && pairs <= more
    ensures PlacesAt(more, numbers) == PlacesAt(pairs, numbers)
  {
    FlatEqual(numbers, PlaceAt(more), PlaceAt(pairs));
  }

  ghost predicate AssignmentsAre(st: seq<Structure>, pairs: seq<Place>, assignments: map<Id, seq<int>>) {
    forall point ::
      && NumbersInRange(NumbersOf(assignments, point), pairs)
      && PlacesAt(pairs, NumbersOf(assignments, point)) == Flat(st, AssignedTo(point))
  }

  class PlaceNotes {
    var pairs: seq<Place>
    var pairIds: map<Place, int>
    var assignments: map<Id, seq<int>>
    var places: Places
    const railByDefault: bool

    ghost predicate Valid()
      reads this`pairs, this`pairIds
    {
      && (forall p :: p in pairIds ==> 0 <= pairIds[p] < |pairs| && pairs[pairIds[p]] == p)
      && (forall i :: 0 <= i < |pairs| ==> pairs[i] in pairIds && pairIds[pairs[i]] == i)
    }

    constructor (railByDefault: bool)
      ensures Valid() && pairs == [] && assignments == map[] && places == Places({}, map[], map[], {}, {})
      ensures this.railByDefault == railByDefault
    {
      this.railByDefault := railByDefault;
      pairs, pairIds, assignments, places := [], map[], map[], Places({}, map[], map[], {}, {});
    }

    method PlaceId(place: Place) returns (n: int)
      requires Valid()
      modifies this`pairs, this`pairIds
      ensures Valid() && old(pairs) <= pairs && 0 <= n < |pairs| && pairs[n] == place
    {
      if place in pairIds { return pairIds[place]; }
      pairIds := pairIds[place := |pairs|];
      pairs := pairs + [place];
      return |pairs| - 1;
    }

    /** `_note_assignment`. */
    method NoteAssignment(a: Structure, ghost st: seq<Structure>)
      requires Valid() && a.Assignment? && AssignmentsAre(st, pairs, assignments)
      modifies this`pairs, this`pairIds, this`assignments
      ensures Valid() && AssignmentsAre(st + [a], pairs, assignments)
    {
      hide Flat;
      if a.point == "" || (a.place.0 == "" && a.place.1 == "") {
        SameAssignments(st, a, pairs, assignments);
        return;
      }
      ghost var was := pairs;
      var n := PlaceId(a.place);
      MoreAssignments(st, a, was, pairs, assignments, n);
      assignments := assignments[a.point := NumbersOf(assignments, a.point) + [n]];
    }

    /** `_note_stop_place`. */
    method NoteStopPlace(e: Structure, ghost st: seq<Structure>)
      requires e.StopPlace? && places == PlacesIn(st, railByDefault)
      modifies this`places
      ensures places == PlacesIn(st + [e], railByDefault)
    {
      PlacesMore(st, e, railByDefault);
      if e.id == "" { return; }
      places := places.(defined := places.defined + {e.id});
      if e.parent != "" { places := places.(parents := places.parents[e.id := e.parent]); }
      if e.rail {
        places := places.(rail := places.rail + {e.id});
      } else if railByDefault && e.modeless {
        places := places.(modeless := places.modeless + {e.id});
      }
      places := places.(quays := QuaysIn(places.quays, e.quays, e.id));
    }
  }

  lemma {:induction false} PlacesMore(st: seq<Structure>, e: Structure, railByDefault: bool)
    ensures !e.StopPlace? || e.id == "" ==> PlacesIn(st + [e], railByDefault) == PlacesIn(st, railByDefault)
    ensures e.StopPlace? && e.id != "" ==>
      var p := PlacesIn(st, railByDefault);
      PlacesIn(st + [e], railByDefault) ==
        Places(
          p.defined + {e.id}, if e.parent != "" then p.parents[e.id := e.parent] else p.parents,
          QuaysIn(p.quays, e.quays, e.id), if e.rail then p.rail + {e.id} else p.rail,
          if !e.rail && railByDefault && e.modeless then p.modeless + {e.id} else p.modeless)
  {
    var more := st + [e];
    assert more[..|st|] == st;
    assert forall x :: x in more <==> x in st || x == e;
    assert e.StopPlace? && e.id != "" ==> DefinedBy(more) == DefinedBy(st) + {e.id};
    assert !e.StopPlace? || e.id == "" ==> DefinedBy(more) == DefinedBy(st);
    assert e.StopPlace? && e.id != "" && e.rail ==> RailPlaces(more) == RailPlaces(st) + {e.id};
    assert !(e.StopPlace? && e.id != "" && e.rail) ==> RailPlaces(more) == RailPlaces(st);
    var modeless := e.StopPlace? && e.id != "" && railByDefault && !e.rail && e.modeless;
    assert modeless ==> ModelessPlaces(more, railByDefault) == ModelessPlaces(st, railByDefault) + {e.id};
    assert !modeless ==> ModelessPlaces(more, railByDefault) == ModelessPlaces(st, railByDefault);
  }

  lemma {:induction false} SameAssignments(
    st: seq<Structure>, a: Structure, pairs: seq<Place>, assignments: map<Id, seq<int>>)
    requires AssignmentsAre(st, pairs, assignments) && forall point :: !Assigns(a, point)
    ensures AssignmentsAre(st + [a], pairs, assignments)
  {
    hide Flat, PlacesAt;
    forall point ensures Flat(st + [a], AssignedTo(point)) == Flat(st, AssignedTo(point)) {
      FlatLast(st, a, AssignedTo(point));
    }
  }

  lemma {:induction false} MoreAssignments(
    st: seq<Structure>, a: Structure, pairs: seq<Place>, pairs': seq<Place>, assignments: map<Id, seq<int>>, n: int)
    requires AssignmentsAre(st, pairs, assignments) && pairs <= pairs' && a.Assignment? && Assigns(a, a.point)
    requires 0 <= n < |pairs'| && pairs'[n] == a.place
    ensures AssignmentsAre(st + [a], pairs', assignments[a.point := NumbersOf(assignments, a.point) + [n]])
  {
    hide Flat;
    var after := assignments[a.point := NumbersOf(assignments, a.point) + [n]];
    forall point
      ensures NumbersInRange(NumbersOf(after, point), pairs')
      ensures PlacesAt(pairs', NumbersOf(after, point)) == Flat(st + [a], AssignedTo(point))
    {
      FlatLast(st, a, AssignedTo(point));
      assert NumbersInRange(NumbersOf(assignments, point), pairs);
      PlacesGrow(NumbersOf(assignments, point), pairs, pairs');
      if point == a.point { FlatLast(NumbersOf(assignments, point), n, PlaceAt(pairs')); }
    }
  }
}
