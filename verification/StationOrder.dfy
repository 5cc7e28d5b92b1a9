/** The order of Lines, journeys, patterns, assignments and StopPlaces across
    the members of an archive does not matter (app/station_extract_netex.py). */
module StationOrder {
  import opened Bytes
  import opened StationLists
  import opened StationSpec

  // ----- ids name one thing

  ghost predicate UniqueTimetable(tt: seq<Timetable>) {
    && (forall a, b :: a in tt && b in tt && a.Line? && b.Line? && a.id == b.id ==> a == b)
    && (forall a, b :: a in tt && b in tt && a.Route? && b.Route? && a.id == b.id ==> a == b)
  }

  ghost predicate UniqueStructure(st: seq<Structure>) {
    && (forall a, b :: a in st && b in st && a.StopPlace? && b.StopPlace? && a.id == b.id ==> a == b)
    && (forall a, b, q :: a in st && b in st && a.StopPlace? && b.StopPlace? && q in a.quays && q in b.quays ==> a == b)
  }

  lemma {:induction false} LineMember(tt: seq<Timetable>, id: Id)
    ensures id in LinesOf(tt) ==> Line(id, LinesOf(tt)[id]) in tt && id != ""
    ensures id !in LinesOf(tt) && id != "" ==> forall info :: Line(id, info) !in tt
  {
    if tt != [] {
      LineMember(tt[..|tt| - 1], id);
      assert tt == tt[..|tt| - 1] + [tt[|tt| - 1]];
    }
  }

  lemma {:induction false} RouteMember(tt: seq<Timetable>, id: Id)
    ensures id in RoutesOf(tt) ==> Route(id, RoutesOf(tt)[id]) in tt && id != "" && RoutesOf(tt)[id] != ""
    ensures id !in RoutesOf(tt) && id != "" ==> forall line :: line != "" ==> Route(id, line) !in tt
  {
    if tt != [] {
      RouteMember(tt[..|tt| - 1], id);
      assert tt == tt[..|tt| - 1] + [tt[|tt| - 1]];
    }
  }

  /** The StopPlace that decides a parent or a quay. */
  predicate IsPlace(item: Structure, id: Id) { item.StopPlace? && item.id == id && id != "" }

  lemma {:induction false} ParentMember(st: seq<Structure>, id: Id)
    ensures id in ParentsOf(st) ==> exists p <- st :: IsPlace(p, id) && p.parent == ParentsOf(st)[id] && p.parent != ""
    ensures id !in ParentsOf(st) ==> forall p <- st :: IsPlace(p, id) ==> p.parent == ""
  {
    if st != [] {
      ParentMember(st[..|st| - 1], id);
      assert st == st[..|st| - 1] + [st[|st| - 1]];
    }
  }

  lemma {:induction false} QuaysInMember(quays: map<Id, Id>, ids: seq<Id>, place: Id, q: Id)
    ensures var after := QuaysIn(quays, ids, place);
      if q != "" && q in ids then q in after && after[q] == place
      else (q in after <==> q in quays) && (q in quays ==> after[q] == quays[q])
  {
    if ids != [] {
      QuaysInMember(quays, ids[..|ids| - 1], place, q);
      assert ids == ids[..|ids| - 1] + [ids[|ids| - 1]];
    }
  }

  lemma {:induction false} QuayMember(st: seq<Structure>, q: Id)
    ensures q in QuaysOf(st) ==> q != "" && exists p <- st :: IsPlace(p, QuaysOf(st)[q]) && q in p.quays
    ensures q !in QuaysOf(st) && q != "" ==> forall p <- st :: p.StopPlace? && p.id != "" ==> q !in p.quays
  {
    if st != [] {
      var n := |st| - 1;
      QuayMember(st[..n], q);
      assert st == st[..n] + [st[n]];
      if st[n].StopPlace? && st[n].id != "" { QuaysInMember(QuaysOf(st[..n]), st[n].quays, st[n].id, q); }
    }
  }

  // ----- the maps do not depend on the order

  lemma {:induction false} SameLines(a: seq<Timetable>, b: seq<Timetable>)
    requires (forall x :: x in a <==> x in b) && UniqueTimetable(a)
    ensures LinesOf(a) == LinesOf(b) && RoutesOf(a) == RoutesOf(b)
  {
    hide LinesOf, RoutesOf;
    forall id ensures id in LinesOf(a) <==> id in LinesOf(b) { LineMember(a, id); LineMember(b, id); }
    forall id | id in LinesOf(a) ensures LinesOf(a)[id] == LinesOf(b)[id] { LineMember(a, id); LineMember(b, id); }
    forall id ensures id in RoutesOf(a) <==> id in RoutesOf(b) { RouteMember(a, id); RouteMember(b, id); }
    forall id | id in RoutesOf(a) ensures RoutesOf(a)[id] == RoutesOf(b)[id] { RouteMember(a, id); RouteMember(b, id); }
  }

  lemma {:induction false} SameParents(a: seq<Structure>, b: seq<Structure>)
    requires (forall x :: x in a <==> x in b) && UniqueStructure(a)
    ensures ParentsOf(a) == ParentsOf(b)
  {
    hide ParentsOf;
    forall id ensures id in ParentsOf(a) <==> id in ParentsOf(b) { ParentMember(a, id); ParentMember(b, id); }
    forall id | id in ParentsOf(a) ensures ParentsOf(a)[id] == ParentsOf(b)[id] {
      ParentMember(a, id);
      ParentMember(b, id);
    }
  }

  lemma {:induction false} SameQuays(a: seq<Structure>, b: seq<Structure>)
    requires (forall x :: x in a <==> x in b) && UniqueStructure(a)
    ensures QuaysOf(a) == QuaysOf(b)
  {
    hide QuaysOf;
    forall q ensures q in QuaysOf(a) <==> q in QuaysOf(b) { QuayMember(a, q); QuayMember(b, q); }
    forall q | q in QuaysOf(a) ensures QuaysOf(a)[q] == QuaysOf(b)[q] { QuayMember(a, q); QuayMember(b, q); }
  }

  lemma {:induction false} SamePlaces(a: seq<Structure>, b: seq<Structure>, railByDefault: bool)
    requires (forall x :: x in a <==> x in b) && UniqueStructure(a)
    ensures PlacesIn(a, railByDefault) == PlacesIn(b, railByDefault)
  {
    SameParents(a, b);
    SameQuays(a, b);
    assert DefinedBy(a) == DefinedBy(b);
    assert RailPlaces(a) == RailPlaces(b);
    assert ModelessPlaces(a, railByDefault) == ModelessPlaces(b, railByDefault);
  }

  // ----- the calls do not depend on the order

  lemma {:induction false} SamePatternCalls(lines: Lines, routes: map<Id, Id>, a: seq<Call>, b: seq<Call>, p: Structure)
    requires multiset(a) == multiset(b)
    ensures multiset(CallsOfPattern(lines, routes, a)(p)) == multiset(CallsOfPattern(lines, routes, b)(p))
  {
    if p.Pattern? { FlatPermuted(a, b, ServedBy(lines, routes, p)); }
  }

  lemma {:induction false} SamePointCalls(
    tt: seq<Timetable>, tt': seq<Timetable>, st: seq<Structure>, st': seq<Structure>)
    requires multiset(tt) == multiset(tt') && multiset(st) == multiset(st') && UniqueTimetable(tt)
    ensures multiset(PointCalls(tt, st)) == multiset(PointCalls(tt', st'))
  {
    hide LinesOf, RoutesOf, CallsOfPattern, DirectCalls, PatternCalls, Flat;
    SameMembers(tt, tt');
    SameLines(tt, tt');
    var lines, routes := LinesOf(tt), RoutesOf(tt);
    FlatPermuted(tt, tt', DirectCalls(lines));
    var calls, calls' := Flat(tt, PatternCalls(lines)), Flat(tt', PatternCalls(lines));
    FlatPermuted(tt, tt', PatternCalls(lines));
    var f, f' := CallsOfPattern(lines, routes, calls), CallsOfPattern(lines, routes, calls');
    forall p | p in st' ensures multiset(f(p)) == multiset(f'(p)) { SamePatternCalls(lines, routes, calls, calls', p); }
    FlatAlike(st, st', f, f');
  }

  lemma {:induction false} SamePlaceCalls(
    tt: seq<Timetable>, tt': seq<Timetable>, st: seq<Structure>, st': seq<Structure>)
    requires multiset(tt) == multiset(tt') && multiset(st) == multiset(st') && UniqueTimetable(tt)
    ensures multiset(PlaceCalls(tt, st)) == multiset(PlaceCalls(tt', st'))
  {
    hide PointCalls, Flat;
    SamePointCalls(tt, tt', st, st');
    forall c | c in PointCalls(tt', st') ensures multiset(PlacesOf(st)(c)) == multiset(PlacesOf(st')(c)) {
      FlatPermuted(st, st', PlacedBy(c));
    }
    FlatAlike(PointCalls(tt, st), PointCalls(tt', st'), PlacesOf(st), PlacesOf(st'));
  }

  /** The calls of a station depend on the uses as a multiset only. */
  lemma {:induction false} SameStation(
    places: Places, lines: Lines, a: seq<Use>, b: seq<Use>, root: Id, mode: CallMode, operator: Id)
    requires multiset(a) == multiset(b)
    ensures StationCalls(places, lines, a, root, mode) == StationCalls(places, lines, b, root, mode)
    ensures HasOperator(places, lines, a, root, operator) <==> HasOperator(places, lines, b, root, operator)
  {
    hide Flat, Brings;
    FlatPermuted(a, b, OneIfCounts(places, lines, root, mode));
    SameLength(Flat(a, OneIfCounts(places, lines, root, mode)), Flat(b, OneIfCounts(places, lines, root, mode)));
    SameMembers(a, b);
  }

  /** The reading of a whole archive. */
  function CallsOfStation(tt: seq<Timetable>, st: seq<Structure>, railByDefault: bool, root: Id, mode: CallMode): nat {
    StationCalls(PlacesIn(st, railByDefault), LinesOf(tt), PlaceCalls(tt, st), root, mode)
  }

  ghost predicate OperatorOfStation(
    tt: seq<Timetable>, st: seq<Structure>, railByDefault: bool, root: Id, operator: Id)
  {
    HasOperator(PlacesIn(st, railByDefault), LinesOf(tt), PlaceCalls(tt, st), root, operator)
  }

  /** Every order of the same elements gives the same stations. */
  lemma {:induction false} AnyOrder(
    tt: seq<Timetable>, tt': seq<Timetable>, st: seq<Structure>, st': seq<Structure>, railByDefault: bool, root: Id,
    mode: CallMode, operator: Id)
    requires multiset(tt) == multiset(tt') && multiset(st) == multiset(st')
    requires UniqueTimetable(tt) && UniqueStructure(st)
    ensures CallsOfStation(tt, st, railByDefault, root, mode) == CallsOfStation(tt', st', railByDefault, root, mode)
    ensures OperatorOfStation(tt, st, railByDefault, root, operator) <==>
      OperatorOfStation(tt', st', railByDefault, root, operator)
  {
    hide PlacesIn, LinesOf, RoutesOf, PlaceCalls, StationCalls, HasOperator, UniqueTimetable, UniqueStructure;
    SameMembers(tt, tt');
    SameMembers(st, st');
    SameLines(tt, tt');
    SamePlaces(st, st', railByDefault);
    SamePlaceCalls(tt, tt', st, st');
    SameStation(
      PlacesIn(st, railByDefault), LinesOf(tt), PlaceCalls(tt, st), PlaceCalls(tt', st'), root, mode, operator);
  }

  // ----- roots

  /** The n-th StopPlace above. */
  function Above(places: Places, place: Id, n: nat): Option<Id> {
    if n == 0 then Some(place)
    else
      var below := Above(places, place, n - 1);
      if below.None? then None else ParentOf(places, below.value)
  }

  lemma {:induction false} AboveGoesOn(places: Places, place: Id, i: nat, n: nat)
    requires i < n && Above(places, place, n).Some?
    ensures Above(places, place, i).Some? && ParentOf(places, Above(places, place, i).value).Some?
    decreases n - i
  {
    if i + 1 < n { AboveGoesOn(places, place, i + 1, n); }
  }

  ghost predicate EndsAt(places: Places, place: Id, n: nat) {
    Above(places, place, n).Some? && ParentOf(places, Above(places, place, n).value).None?
  }

  /** A chain of parents that ends repeats nothing. */
  lemma {:induction false} NoRepeat(places: Places, place: Id, i: nat, j: nat, n: nat)
    requires i < j <= n && EndsAt(places, place, n)
    ensures Above(places, place, i) != Above(places, place, j)
    decreases n - j
  {
    AboveGoesOn(places, place, i, n);
    if j < n {
      NoRepeat(places, place, i + 1, j + 1, n);
    }
  }

  predicate IsAbove(places: Places, place: Id, k: nat, x: Id) { Above(places, place, k) == Some(x) }

  ghost predicate SeenUpTo(places: Places, place: Id, i: nat, seen: set<Id>) {
    forall x :: x in seen <==> exists k: nat :: k <= i && IsAbove(places, place, k, x)
  }

  lemma {:induction false} SeenMore(places: Places, place: Id, i: nat, seen: set<Id>, x: Id)
    requires SeenUpTo(places, place, i, seen) && Above(places, place, i + 1) == Some(x)
    ensures SeenUpTo(places, place, i + 1, seen + {x})
  {
    hide Above;
    var n := i + 1;
    assert IsAbove(places, place, n, x);
    forall y ensures y in seen + {x} <==> exists k: nat :: k <= n && IsAbove(places, place, k, y) {
      if k: nat :| k <= n && IsAbove(places, place, k, y) {
        if k <= i { assert y in seen; }
      }
    }
  }

  lemma {:induction false} RootFromChain(places: Places, place: Id, i: nat, seen: set<Id>, left: nat, n: nat)
    requires i <= n <= i + left && EndsAt(places, place, n)
    requires SeenUpTo(places, place, i, seen) && Above(places, place, i).Some?
    ensures RootFrom(places, place, Above(places, place, i).value, seen, left) == Above(places, place, n).value
    decreases n - i
  {
    if i < n {
      AboveGoesOn(places, place, i, n);
      var next := Above(places, place, i + 1);
      forall k: nat | k <= i ensures !IsAbove(places, place, k, next.value) { NoRepeat(places, place, k, i + 1, n); }
      SeenMore(places, place, i, seen, next.value);
      RootFromChain(places, place, i + 1, seen + {next.value}, left - 1, n);
    }
  }

  lemma {:induction false} SeenFirst(places: Places, place: Id)
    ensures SeenUpTo(places, place, 0, {place})
  {
    assert IsAbove(places, place, 0, place);
  }

  /** A chain of at most 16 parents leads to its top. */
  lemma {:induction false} RootIsTop(places: Places, place: Id, n: nat)
    requires n <= PARENT_DEPTH && EndsAt(places, place, n)
    ensures Above(places, place, n) == Some(Root(places, place)) && ParentOf(places, Root(places, place)).None?
  {
    hide RootFrom;
    SeenFirst(places, place);
    assert Above(places, place, 0) == Some(place);
    RootFromChain(places, place, 0, {place}, PARENT_DEPTH, n);
  }

  lemma {:induction false} RootFromCycle(places: Places, place: Id, i: nat, seen: set<Id>, left: nat, j: nat)
    requires i < j <= i + left && SeenUpTo(places, place, i, seen)
    requires Above(places, place, j).Some? && exists k: nat ::
      k < j && IsAbove(places, place, k, Above(places, place, j).value)
    requires forall a: nat, b: nat :: a < b < j ==> Above(places, place, a) != Above(places, place, b)
    ensures Above(places, place, i).Some?
    ensures RootFrom(places, place, Above(places, place, i).value, seen, left) == place
    decreases j - i
  {
    AboveGoesOn(places, place, i, j);
    var next := Above(places, place, i + 1);
    if i + 1 < j {
      forall k: nat | k <= i ensures !IsAbove(places, place, k, next.value) {}
      SeenMore(places, place, i, seen, next.value);
      RootFromCycle(places, place, i + 1, seen + {next.value}, left - 1, j);
    }
  }

  /** Parents that come back within 16 steps leave the StopPlace its own root. */
  lemma {:induction false} RootInCycle(places: Places, place: Id, j: nat)
    requires 0 < j <= PARENT_DEPTH && Above(places, place, j).Some?
    requires exists k: nat :: k < j && IsAbove(places, place, k, Above(places, place, j).value)
    requires forall a: nat, b: nat :: a < b < j ==> Above(places, place, a) != Above(places, place, b)
    ensures Root(places, place) == place
  {
    hide RootFrom;
    SeenFirst(places, place);
    assert Above(places, place, 0) == Some(place);
    RootFromCycle(places, place, 0, {place}, PARENT_DEPTH, j);
  }
}
