/** The stations the NeTEx reader ends with (app/station_extract_netex.py):
    the calls placed, and counted by station and mode. */
module StationResult {
  import opened Bytes
  import opened StationLists
  import opened StationSpec
  import opened StationTally
  import opened StationReader
  import opened StationPlaces
  import StationOrder

  lemma {:induction false} NoEmptyLine(tt: seq<Timetable>)
    ensures "" !in LinesOf(tt)
  {
    StationOrder.LineMember(tt, "");
  }

  lemma {:induction false} AllRailGrow(log: Log, lines: Lines, groups: seq<Group>, more: seq<Group>)
    requires AllRail(log, lines, groups) && groups <= more
    ensures AllRail(log, lines, more)
  {
  }

  /** `_read_structure` up to the placing of the calls. */
  method ReadStructure(found: Journeys, ghost tt: seq<Timetable>, st: seq<Structure>, railByDefault: bool)
    returns (notes: PlaceNotes, ok: bool)
    requires found.Valid() && found.lines == LinesOf(tt) && found.routes == RoutesOf(tt)
    requires LogsAre(tt, |tt|, LinesOf(tt), found.groups, found.patternLog, found.pointLog)
    requires AllRail(found.patternLog, found.lines, found.groups) && AllOfArchive(tt, st, found.groups)
    modifies found`ids, found`groups, found`points, found`pointLog
    ensures fresh(notes) && notes.Valid() && found.Valid()
    ensures ok ==> PointsAre(tt, st, found.groups, found.pointLog)
    ensures ok ==> AssignmentsAre(st, notes.pairs, notes.assignments) && notes.places == PlacesIn(st, railByDefault)
    ensures !ok ==> TooMany(tt, st)
  {
    hide *;
    notes := new PlaceNotes(railByDefault);
    ghost var first := found.groups;
    ValidParts(found);
    NoEmptyLine(tt);
    StartOfStructure(tt, st, first, found.patternLog, found.pointLog, railByDefault);
    for i := 0 to |st|
      invariant found.Valid() && fresh(notes) && notes.Valid() && notes.railByDefault == railByDefault
      invariant first <= found.groups && AllRail(found.patternLog, found.lines, found.groups)
      invariant AllOfArchive(tt, st, found.groups)
      invariant PointsAre(tt, st[..i], found.groups, found.pointLog)
      invariant AssignmentsAre(st[..i], notes.pairs, notes.assignments)
      invariant notes.places == PlacesIn(st[..i], railByDefault)
    {
      OneMore(st, i);
      StructureStep(st, i, notes.pairs, notes.assignments, railByDefault);
      if st[i].Pattern? {
        ghost var groups, pointLog := found.groups, found.pointLog;
        ok := ReadPattern(found, st[i]);
        PatternOfArchive(tt, st, st[i], groups, found.groups);
        if !ok { return; }
        PatternStep(tt, st, i, groups, found.groups, first, found.patternLog, pointLog, found.pointLog);
        AllRailGrow(found.patternLog, found.lines, groups, found.groups);
      } else {
        NoPatternStep(tt, st, i, found.groups, found.pointLog);
        if st[i].Assignment? {
          notes.NoteAssignment(st[i], st[..i]);
        } else {
          notes.NoteStopPlace(st[i], st[..i]);
        }
      }
    }
    ok := true;
    assert st[..|st|] == st;
  }

  lemma {:induction false} PatternOfArchive(
    tt: seq<Timetable>, st: seq<Structure>, p: Structure, was: seq<Group>, now: seq<Group>)
    requires p in st && p.Pattern? && AllOfArchive(tt, st, was) && AddedResolved(was, now, PatternLine(RoutesOf(tt), p))
    ensures AllOfArchive(tt, st, now)
    ensures FullFor(was, now, PatternLine(RoutesOf(tt), p)) ==> TooMany(tt, st)
  {
    hide OfArchive, IsFull, TooMany, Resolve, PatternLine, RoutesOf;
    var line := PatternLine(RoutesOf(tt), p);
    forall h | h in was ensures OfArchive(tt, st, Resolve(h, line)) { ResolvedOfArchive(tt, st, h, p); }
    if FullFor(was, now, line) {
      var h :| h in was && IsFull(now, Resolve(h, line));
      FullIsTooMany(tt, st, now, Resolve(h, line));
    }
  }

  lemma {:induction false} OneMore(st: seq<Structure>, i: nat)
    requires i < |st|
    ensures st[..i + 1] == st[..i] + [st[i]]
  {
  }

  lemma {:induction false} StartOfStructure(
    tt: seq<Timetable>, st: seq<Structure>, groups: seq<Group>, patternLog: Log, pointLog: Log, railByDefault: bool)
    requires LogsAre(tt, |tt|, LinesOf(tt), groups, patternLog, pointLog)
    ensures PointsAre(tt, st[..0], groups, pointLog) && AssignmentsAre(st[..0], [], map[])
    ensures Places({}, map[], map[], {}, {}) == PlacesIn(st[..0], railByDefault)
    ensures multiset(Flat(patternLog, Ends(LinesOf(tt), groups))) == multiset(Flat(tt, PatternCalls(LinesOf(tt))))
  {
    hide LinesOf, RoutesOf, Ends, PatternCalls, DirectCalls, CallsOfPattern, IsKept;
    assert st[..0] == [] && tt[..|tt|] == tt;
  }

  /** Elements of another kind leave assignments and places as they are. */
  lemma {:induction false} StructureStep(
    st: seq<Structure>, i: nat, pairs: seq<Place>, assignments: map<Id, seq<int>>, railByDefault: bool)
    requires i < |st| && AssignmentsAre(st[..i], pairs, assignments)
    ensures !st[i].Assignment? ==> AssignmentsAre(st[..i + 1], pairs, assignments)
    ensures !st[i].StopPlace? ==> PlacesIn(st[..i + 1], railByDefault) == PlacesIn(st[..i], railByDefault)
  {
    OneMore(st, i);
    PlacesMore(st[..i], st[i], railByDefault);
    if !st[i].Assignment? { SameAssignments(st[..i], st[i], pairs, assignments); }
  }

  // ----- the calls go to the places of their points

  type UseLog = seq<(int, int)>

  /** A call at a place number, with the group it ends with. */
  function UseEnd(pairs: seq<Place>, lines: Lines, groups: seq<Group>): (int, int) -> seq<Use> {
    (p: int, n: int) =>
      if 0 <= p < |pairs| && IsRail(lines, groups, n) then [(pairs[p], Norm(lines, groups[n]))] else []
  }

  function UseEnds(pairs: seq<Place>, lines: Lines, groups: seq<Group>): ((int, int)) -> seq<Use> {
    (x: (int, int)) => UseEnd(pairs, lines, groups)(x.0, x.1)
  }

  /** All the places of one call. */
  function UsesOf(
    assignments: map<Id, seq<int>>, pairs: seq<Place>, lines: Lines, groups: seq<Group>): (Id, int) -> seq<Use> {
    (point: Id, n: int) => Flat(NumbersOf(assignments, point), Column(UseEnd(pairs, lines, groups), n))
  }

  lemma {:induction false} UsesOfIs(
    st: seq<Structure>, assignments: map<Id, seq<int>>, pairs: seq<Place>, lines: Lines, groups: seq<Group>,
    x: (Id, int))
    requires AssignmentsAre(st, pairs, assignments)
    ensures Then(Ends(lines, groups), PlacesOf(st))(x) == UsesOf(assignments, pairs, lines, groups)(x.0, x.1)
  {
    hide Flat, Norm;
    var numbers := NumbersOf(assignments, x.0);
    var column := Column(UseEnd(pairs, lines, groups), x.1);
    if IsRail(lines, groups, x.1) {
      var c := (x.0, Norm(lines, groups[x.1]));
      FlatOne(c, PlacesOf(st));
      FlatFlat(numbers, PlaceAt(pairs), WithGroup(c.1));
      forall n | n in numbers ensures Then(PlaceAt(pairs), WithGroup(c.1))(n) == column(n) {
        FlatPlace(pairs, n, c.1);
      }
      FlatEqual(numbers, Then(PlaceAt(pairs), WithGroup(c.1)), column);
      FlatFlat(st, AssignedTo(x.0), WithGroup(c.1));
      forall a | a in st ensures Then(AssignedTo(x.0), WithGroup(c.1))(a) == PlacedBy(c)(a) {
        FlatAssigned(a, x.0, c.1);
      }
      FlatEqual(st, Then(AssignedTo(x.0), WithGroup(c.1)), PlacedBy(c));
    } else {
      FlatNothing(numbers, column);
      FlatNothing<Call, Use>([], PlacesOf(st));
    }
  }

  function WithGroup(g: Group): Place -> seq<Use> { (p: Place) => [(p, g)] }

  lemma {:induction false} FlatPlace(pairs: seq<Place>, n: int, g: Group)
    ensures Then(PlaceAt(pairs), WithGroup(g))(n) == if 0 <= n < |pairs| then [(pairs[n], g)] else []
  {
    var f := WithGroup(g);
    if 0 <= n < |pairs| {
      FlatOne(pairs[n], f);
      assert f(pairs[n]) == [(pairs[n], g)];
    } else {
      assert PlaceAt(pairs)(n) == [];
      FlatNothing<Place, Use>([], f);
    }
  }

  lemma {:induction false} FlatAssigned(a: Structure, point: Id, g: Group)
    ensures Then(AssignedTo(point), WithGroup(g))(a) == PlacedBy((point, g))(a)
  {
    var f := WithGroup(g);
    if Assigns(a, point) {
      FlatOne(a.place, f);
      assert f(a.place) == [(a.place, g)];
    } else {
      assert AssignedTo(point)(a) == [];
      FlatNothing<Place, Use>([], f);
    }
  }

  // ----- regrouping by key

  function IfKey<K(==), C>(f: (K, int) -> seq<C>): (K, (K, int)) -> seq<C> {
    (key: K, x: (K, int)) => if x.0 == key then f(x.0, x.1) else []
  }

  function OfPair<K, C>(f: (K, int) -> seq<C>): ((K, int)) -> seq<C> { (x: (K, int)) => f(x.0, x.1) }

  /** The calls of one key. */
  function KeyCalls<K(==), C>(f: (K, int) -> seq<C>, log: seq<(K, int)>): K -> seq<C> {
    (key: K) => Flat(Flat(log, AtKey(key)), Row(f, key))
  }

  lemma {:induction false} KeyCallsIs<K, C>(f: (K, int) -> seq<C>, log: seq<(K, int)>, key: K)
    ensures KeyCalls(f, log)(key) == Rows(IfKey(f), log)(key)
  {
    hide Flat;
    FlatFlat(log, AtKey(key), Row(f, key));
    forall x | x in log ensures Then(AtKey(key), Row(f, key))(x) == Row(IfKey(f), key)(x) {
      if x.0 == key { FlatOne(x.1, Row(f, key)); } else { FlatNothing<int, C>([], Row(f, key)); }
    }
    FlatEqual(log, Then(AtKey(key), Row(f, key)), Row(IfKey(f), key));
  }

  ghost predicate Different<K>(keys: seq<K>) { forall i, j :: 0 <= i < j < |keys| ==> keys[i] != keys[j] }

  lemma {:induction false} OneKey<K, C>(f: (K, int) -> seq<C>, keys: seq<K>, x: (K, int))
    requires Different(keys)
    ensures Flat(keys, Column(IfKey(f), x)) == if x.0 in keys then f(x.0, x.1) else []
  {
    if keys != [] {
      OneKey(f, keys[1..], x);
      assert Column(IfKey(f), x)(keys[0]) == if x.0 == keys[0] then f(x.0, x.1) else [];
      assert x.0 in keys <==> x.0 == keys[0] || x.0 in keys[1..];
      assert x.0 == keys[0] ==> x.0 !in keys[1..];
    }
  }

  /** Key by key or call by call, the same. */
  lemma {:induction false} Regroup<K, C>(f: (K, int) -> seq<C>, keys: seq<K>, log: seq<(K, int)>)
    requires Different(keys) && forall x <- log :: x.0 in keys
    ensures multiset(Flat(keys, KeyCalls(f, log))) == multiset(Flat(log, OfPair(f)))
  {
    hide Flat;
    forall key | key in keys ensures KeyCalls(f, log)(key) == Rows(IfKey(f), log)(key) { KeyCallsIs(f, log, key); }
    FlatEqual(keys, KeyCalls(f, log), Rows(IfKey(f), log));
    Exchange(IfKey(f), keys, log);
    forall x | x in log ensures Columns(IfKey(f), keys)(x) == OfPair(f)(x) { OneKey(f, keys, x); }
    FlatEqual(log, Columns(IfKey(f), keys), OfPair(f));
  }

  // ----- placing

  method AddItems(use: map<int, Tally>, ghost log: UseLog, place: int, items: seq<(int, nat)>, ghost bound: nat)
    returns (after: map<int, Tally>)
    requires Stands(use, log) && AllProper(use, bound) && bound <= SHIFT
    requires forall i :: 0 <= i < |items| ==> 0 <= items[i].0 < bound && items[i].1 > 0
    ensures Stands(after, log + AtPoint(place, items)) && AllProper(after, bound) && after.Keys <= use.Keys + {place}
  {
    hide Stands, AllProper, AtPoint;
    after := use;
    NoneAtPoint(place, items);
    assert log + [] == log;
    for j := 0 to |items|
      invariant Stands(after, log + AtPoint(place, items[..j])) && AllProper(after, bound)
      invariant after.Keys <= use.Keys + {place}
    {
      AtPointMore(place, items, j);
      AddStands(after, log + AtPoint(place, items[..j]), place, items[j].0, items[j].1);
      AddProper(after, place, items[j].0, items[j].1, bound);
      ghost var more := Repeat((place, items[j].0), items[j].1);
      assert log + AtPoint(place, items[..j]) + more == log + (AtPoint(place, items[..j]) + more);
      after := TallyAdd(after, place, items[j].0, items[j].1);
    }
    assert items[..|items|] == items;
  }

  lemma {:induction false} NoneAtPoint(place: int, items: seq<(int, nat)>)
    ensures AtPoint(place, items[..0]) == []
  {
    assert items[..0] == [];
  }

  method AddAtPlaces(
    use: map<int, Tally>, ghost log: UseLog, numbers: seq<int>, items: seq<(int, nat)>, ghost bound: nat)
    returns (after: map<int, Tally>)
    requires Stands(use, log) && AllProper(use, bound) && bound <= SHIFT
    requires forall i :: 0 <= i < |items| ==> 0 <= items[i].0 < bound && items[i].1 > 0
    ensures Stands(after, log + AddedLog(numbers, Flat(items, Each()))) && AllProper(after, bound)
    ensures forall p <- after :: p in use || p in numbers
  {
    hide Stands, AllProper, AtPoint, AddedLog;
    after := use;
    NoneAdded(numbers, items);
    assert log + [] == log;
    for i := 0 to |numbers|
      invariant Stands(after, log + AddedLog(numbers[..i], Flat(items, Each()))) && AllProper(after, bound)
      invariant forall p <- after :: p in use || p in numbers
    {
      AddedMore(numbers, i, items);
      ghost var so := AddedLog(numbers[..i], Flat(items, Each()));
      assert log + so + AtPoint(numbers[i], items) == log + (so + AtPoint(numbers[i], items));
      after := AddItems(after, log + so, numbers[i], items, bound);
    }
    assert numbers[..|numbers|] == numbers;
  }

  lemma {:induction false} NoneAdded(numbers: seq<int>, items: seq<(int, nat)>)
    ensures AddedLog(numbers[..0], Flat(items, Each())) == []
  {
    assert numbers[..0] == [];
  }

  /** Place by place or call by call, the same uses. */
  lemma {:induction false} AddedUses(
    numbers: seq<int>, calls: seq<int>, pairs: seq<Place>, lines: Lines, groups: seq<Group>)
    ensures multiset(Flat(AddedLog(numbers, calls), UseEnds(pairs, lines, groups))) ==
      multiset(Flat(calls, Columns(UseEnd(pairs, lines, groups), numbers)))
  {
    hide Flat, IsRail, Norm;
    var f, g := Rows(PairUp<int>(), calls), UseEnds(pairs, lines, groups);
    FlatFlat(numbers, f, g);
    forall p | p in numbers ensures Then(f, g)(p) == Rows(UseEnd(pairs, lines, groups), calls)(p) {
      RowUses(p, calls, pairs, lines, groups);
    }
    FlatEqual(numbers, Then(f, g), Rows(UseEnd(pairs, lines, groups), calls));
    Exchange(UseEnd(pairs, lines, groups), numbers, calls);
  }

  lemma {:induction false} RowUses(p: int, calls: seq<int>, pairs: seq<Place>, lines: Lines, groups: seq<Group>)
    ensures Flat(Flat(calls, Row(PairUp<int>(), p)), UseEnds(pairs, lines, groups)) ==
      Flat(calls, Row(UseEnd(pairs, lines, groups), p))
  {
    hide IsRail, Norm;
    var f, g := Row(PairUp<int>(), p), UseEnds(pairs, lines, groups);
    FlatFlat(calls, f, g);
    forall n | n in calls ensures Then(f, g)(n) == Row(UseEnd(pairs, lines, groups), p)(n) {
      FlatOne((p, n), g);
      assert f(n) == [(p, n)] && g((p, n)) == UseEnd(pairs, lines, groups)(p, n);
    }
    FlatEqual(calls, Then(f, g), Row(UseEnd(pairs, lines, groups), p));
  }

  /** The calls of one point, at all its places. */
  lemma {:induction false} PointPlaced(
    points: map<Id, Tally>, pointLog: Log, point: Id, items: seq<(int, nat)>, assignments: map<Id, seq<int>>,
    pairs: seq<Place>, lines: Lines, groups: seq<Group>)
    requires Stands(points, pointLog) && point in points && ItemsOf(points[point], items)
    ensures multiset(Flat(AddedLog(NumbersOf(assignments, point), Flat(items, Each())),
      UseEnds(pairs, lines, groups))) ==
      multiset(KeyCalls(UsesOf(assignments, pairs, lines, groups), pointLog)(point))
  {
    hide Flat, IsRail, Norm, Stands, ItemsOf;
    var numbers, calls := NumbersOf(assignments, point), Flat(items, Each());
    var uses := UsesOf(assignments, pairs, lines, groups);
    AddedUses(numbers, calls, pairs, lines, groups);
    forall n | n in calls ensures Columns(UseEnd(pairs, lines, groups), numbers)(n) == Row(uses, point)(n) {}
    FlatEqual(calls, Columns(UseEnd(pairs, lines, groups), numbers), Row(uses, point));
    TallyIsCalls(points, pointLog, point, items);
    FlatPermuted(calls, Flat(pointLog, AtKey(point)), Row(uses, point));
  }

  /** The calls of every point added at its places. */
  method PlaceAll(
    points: map<Id, Tally>, ghost pointLog: Log, assignments: map<Id, seq<int>>, ghost pairs: seq<Place>,
    ghost lines: Lines, ghost groups: seq<Group>)
    returns (use: map<int, Tally>, ghost useLog: UseLog)
    requires Stands(points, pointLog) && AllProper(points, |groups|) && |groups| <= GROUPS_MAX
    requires forall point :: NumbersInRange(NumbersOf(assignments, point), pairs)
    ensures Stands(use, useLog) && AllProper(use, |groups|) && forall p <- use :: 0 <= p < |pairs|
    ensures multiset(Flat(useLog, UseEnds(pairs, lines, groups))) ==
      multiset(Flat(pointLog, OfPair(UsesOf(assignments, pairs, lines, groups))))
  {
    hide Flat, Stands, AllProper, KeyCalls, AddedLog, UseEnds, UsesOf, ItemsOf;
    ghost var uses := UsesOf(assignments, pairs, lines, groups);
    use, useLog := map[], [];
    NothingPlaced(uses, pointLog, pairs, lines, groups);
    var left := points.Keys;
    ghost var done: seq<Id> := [];
    while left != {}
      invariant Stands(use, useLog) && AllProper(use, |groups|) && forall p <- use :: 0 <= p < |pairs|
      invariant left <= points.Keys && Different(done) && (forall k :: k in done <==> k in points && k !in left)
      invariant multiset(Flat(useLog, UseEnds(pairs, lines, groups))) == multiset(Flat(done, KeyCalls(uses, pointLog)))
      decreases |left|
    {
      var point := Pick(left);
      left := left - {point};
      var items := TallyItems(points[point]);
      ProperItems(points, point, items, groups);
      PointPlaced(points, pointLog, point, items, assignments, pairs, lines, groups);
      var numbers := NumbersOf(assignments, point);
      assert NumbersInRange(numbers, pairs);
      use := AddAtPlaces(use, useLog, numbers, items, |groups|);
      ghost var added := AddedLog(numbers, Flat(items, Each()));
      FlatConcat(useLog, added, UseEnds(pairs, lines, groups));
      FlatLast(done, point, KeyCalls(uses, pointLog));
      useLog := useLog + added;
      done := done + [point];
    }
    AllKeys(points, pointLog);
    Regroup(uses, done, pointLog);
  }

  lemma {:induction false} NothingPlaced(
    uses: (Id, int) -> seq<Use>, pointLog: Log, pairs: seq<Place>, lines: Lines, groups: seq<Group>)
    ensures Stands<int>(map[], []) && AllProper<int>(map[], |groups|)
    ensures Flat<(int, int), Use>([], UseEnds(pairs, lines, groups)) == []
    ensures Flat<Id, Use>([], KeyCalls(uses, pointLog)) == []
  {
  }

  lemma {:induction false} AllKeys<K(!new)>(table: map<K, Tally>, log: seq<(K, int)>)
    requires Stands(table, log)
    ensures forall x <- log :: x.0 in table
  {
    forall x | x in log ensures x.0 in table {
      StandsAt(table, log, x.0, x.1);
      assert x == (x.0, x.1) && x in multiset(log);
    }
  }
}
