/** The cross-border filter (app/gtfs_cross_border_filter.py) on the tables of
    a GTFS feed. */
module CrossBorder {
  import opened Bytes

  type Id = string

  /** The two-digit prefix of a recognised UIC country. */
  type Country = string

  /** An absent reference is the empty string. */
  datatype Route = Route(id: Id, agency: Id, rail: bool)
  datatype Trip = Trip(id: Id, route: Id, service: Id, shape: Id)
  /** `country` is the stop's own, by its code or its coordinates. */
  datatype Stop = Stop(id: Id, parent: Id, country: Option<Country>)
  datatype StopTime = StopTime(trip: Id, stop: Id, sequence: int)
  datatype Transfer = Transfer(fromStop: Id, toStop: Id, fromTrip: Id, toTrip: Id)

  /** Calendars, shapes and frequencies by the id their rows carry;
      `agencyIds` when agency.txt has such a column. */
  datatype Feed = Feed(
    agencies: seq<Id>, agencyIds: bool, routes: seq<Route>, trips: seq<Trip>, stops: seq<Stop>,
      stopTimes: seq<StopTime>,
    calendar: seq<Id>, calendarDates: seq<Id>, shapes: seq<Id>, transfers: seq<Transfer>, frequencies: seq<Id>)

  function Keep<T(!new)>(rows: seq<T>, p: T -> bool): (r: seq<T>)
    ensures forall x :: x in r <==> x in rows && p(x)
  {
    if rows == [] then []
    else
      var rest := Keep(rows[1..], p);
      assert forall x :: x in rows <==> x == rows[0] || x in rows[1..];
      if p(rows[0]) then [rows[0]] + rest else rest
  }

  // ----- a feed whose references all lead somewhere

  ghost predicate IsStop(feed: Feed, id: Id) { exists s <- feed.stops :: s.id == id }

  ghost predicate IsTrip(feed: Feed, id: Id) { exists t <- feed.trips :: t.id == id }

  ghost predicate IsRoute(feed: Feed, id: Id) { exists r <- feed.routes :: r.id == id }

  ghost predicate UniqueIds(feed: Feed) {
    && (forall a, b :: a in feed.routes && b in feed.routes && a.id == b.id ==> a == b)
    && (forall a, b :: a in feed.trips && b in feed.trips && a.id == b.id ==> a == b)
    && (forall a, b :: a in feed.stops && b in feed.stops && a.id == b.id ==> a == b)
  }

  ghost predicate Consistent(feed: Feed) {
    && UniqueIds(feed)
    && (feed.agencyIds ==> forall r <- feed.routes :: r.agency != "" ==> r.agency in feed.agencies)
    && (forall t <- feed.trips :: IsRoute(feed, t.route))
    && (forall t <- feed.trips :: t.service != "" ==> t.service in feed.calendar || t.service in feed.calendarDates)
    && (forall t <- feed.trips :: t.shape != "" ==> t.shape in feed.shapes)
    && (forall x <- feed.stopTimes :: IsTrip(feed, x.trip) && IsStop(feed, x.stop))
    && (forall s <- feed.stops :: s.parent != "" ==> IsStop(feed, s.parent))
    && (forall x <- feed.transfers :: IsStop(feed, x.fromStop) && IsStop(feed, x.toStop))
    && (forall x <- feed.transfers ::
          (x.fromTrip != "" ==> IsTrip(feed, x.fromTrip)) && (x.toTrip != "" ==> IsTrip(feed, x.toTrip)))
    && (forall id <- feed.frequencies :: IsTrip(feed, id))
  }

  // ----- countries

  type Countries = map<Id, Option<Country>>

  function CountryAt(countries: Countries, stop: Id): Option<Country> {
    if stop in countries then countries[stop] else None
  }

  function OwnCountries(stops: seq<Stop>): Countries {
    if stops == [] then map[]
    else OwnCountries(stops[..|stops| - 1])[stops[|stops| - 1].id := stops[|stops| - 1].country]
  }

  function ParentsOf(stops: seq<Stop>): map<Id, Id> {
    if stops == [] then map[]
    else
      var before, last := ParentsOf(stops[..|stops| - 1]), stops[|stops| - 1];
      if last.parent != "" then before[last.id := last.parent] else before
  }

  /** The stops with a parent, each where it was first met. */
  function ParentOrder(stops: seq<Stop>): (order: seq<Id>)
    ensures forall id :: id in order <==> id in ParentsOf(stops)
  {
    if stops == [] then []
    else
      var before, last := ParentOrder(stops[..|stops| - 1]), stops[|stops| - 1];
      if last.parent != "" && last.id !in before then before + [last.id] else before
  }

  predicate Known(c: Option<Country>) { c.Some? && c.value != "" }

  /** The first `n` stops with a parent have taken its country. */
  function Inherited(own: Countries, parents: map<Id, Id>, order: seq<Id>, n: nat): Countries
    requires n <= |order| && forall id <- order :: id in parents
  {
    if n == 0 then own
    else
      var before, id := Inherited(own, parents, order, n - 1), order[n - 1];
      assert id in order;
      if CountryAt(before, id).None? && Known(CountryAt(before, parents[id]))
      then before[id := before[parents[id]]] else before
  }

  /** With stations that have no parent, a stop without a country takes its
      station's, whatever the order. */
  lemma {:induction false} InheritedIs(own: Countries, parents: map<Id, Id>, order: seq<Id>, n: nat, stop: Id)
    requires n <= |order| && (forall id <- order :: id in parents && parents[id] !in parents)
    ensures CountryAt(Inherited(own, parents, order, n), stop) ==
      if stop in order[..n] && CountryAt(own, stop).None? && Known(CountryAt(own, parents[stop]))
      then CountryAt(own, parents[stop]) else CountryAt(own, stop)
    decreases n
  {
    if n > 0 {
      var id := order[n - 1];
      assert id in order && order[..n] == order[..n - 1] + [id];
      InheritedIs(own, parents, order, n - 1, stop);
      InheritedIs(own, parents, order, n - 1, id);
      InheritedIs(own, parents, order, n - 1, parents[id]);
      assert parents[id] !in order[..n - 1];
    }
  }

  function StopCountryMap(stops: seq<Stop>): Countries {
    Inherited(OwnCountries(stops), ParentsOf(stops), ParentOrder(stops), |ParentOrder(stops)|)
  }

  /** `_stop_country_map`: the countries, and the parents. */
  method StopCountries(stops: seq<Stop>) returns (countries: Countries, parents: map<Id, Id>)
    ensures parents == ParentsOf(stops) && countries == StopCountryMap(stops)
  {
    countries, parents := map[], map[];
    var list: seq<Id> := [];
    for i := 0 to |stops|
      invariant countries == OwnCountries(stops[..i]) && parents == ParentsOf(stops[..i])
      invariant list == ParentOrder(stops[..i])
    {
      assert stops[..i + 1][..i] == stops[..i];
      countries := countries[stops[i].id := stops[i].country];
      if stops[i].parent != "" {
        if stops[i].id !in parents { list := list + [stops[i].id]; }
        parents := parents[stops[i].id := stops[i].parent];
      }
    }
    assert stops[..|stops|] == stops;
    for i := 0 to |list|
      invariant countries == Inherited(OwnCountries(stops), parents, list, i)
    {
      var id := list[i];
      assert id in list;
      if CountryAt(countries, id).None? && Known(CountryAt(countries, parents[id])) {
        countries := countries[id := countries[parents[id]]];
      }
    }
  }

  // ----- which trips are kept

  /** The trip calls in the country. */
  ghost predicate CallsIn(
    times: seq<StopTime>, n: nat, tripRoute: map<Id, Id>, countries: Countries, route: Id, c: Country)
    requires n <= |times|
  {
    exists i :: 0 <= i < n && CallIn(times[i], tripRoute, countries, route, c)
  }

  predicate CallIn(x: StopTime, tripRoute: map<Id, Id>, countries: Countries, route: Id, c: Country) {
    x.trip in tripRoute && tripRoute[x.trip] == route && CountryAt(countries, x.stop) == Some(c) && c != ""
  }

  ghost predicate SpansTwo(times: seq<StopTime>, tripRoute: map<Id, Id>, countries: Countries, route: Id) {
    exists a, b :: a != b && CallsIn(times, |times|, tripRoute, countries, route, a)
                 && CallsIn(times, |times|, tripRoute, countries, route, b)
  }

  /** The row a trip departs with: the lowest sequence, the first of those. */
  ghost predicate IsOrigin(times: seq<StopTime>, n: nat, trip: Id, i: int)
    requires n <= |times|
  {
    && 0 <= i < n && times[i].trip == trip
    && forall j :: 0 <= j < n && times[j].trip == trip ==>
         times[i].sequence < times[j].sequence || (times[i].sequence == times[j].sequence && i <= j)
  }

  /** What pass 1 knows after `n` rows. */
  ghost predicate OriginIs(
    times: seq<StopTime>, n: nat, countries: Countries, trip: Id, found: Option<(int, Option<Country>)>)
    requires n <= |times|
  {
    if found.None? then forall i :: 0 <= i < n ==> times[i].trip != trip
    else exists i :: IsOrigin(times, n, trip, i)
                  && found.value == (times[i].sequence, CountryAt(countries, times[i].stop))
  }

  function Seen(origins: map<Id, (int, Option<Country>)>, trip: Id): Option<(int, Option<Country>)> {
    if trip in origins then Some(origins[trip]) else None
  }

  function CountriesSeen(found: map<Id, set<Country>>, route: Id): set<Country> {
    if route in found then found[route] else {}
  }

  lemma {:induction false} OriginStep(
    times: seq<StopTime>, n: nat, countries: Countries, trip: Id, found: Option<(int, Option<Country>)>)
    requires n < |times| && OriginIs(times, n, countries, trip, found)
    ensures var x := times[n];
      var after := if x.trip == trip && (found.None? || x.sequence < found.value.0)
        then Some((x.sequence, CountryAt(countries, x.stop))) else found;
      OriginIs(times, n + 1, countries, trip, after)
  {
    var x, m := times[n], n + 1;
    if x.trip == trip && (found.None? || x.sequence < found.value.0) {
      assert IsOrigin(times, m, trip, n);
    } else if found.Some? {
      var i :| IsOrigin(times, n, trip, i) && found.value == (times[i].sequence, CountryAt(countries, times[i].stop));
      assert IsOrigin(times, m, trip, i);
    }
  }

  lemma {:induction false} CallsStep(
    times: seq<StopTime>, n: nat, tripRoute: map<Id, Id>, countries: Countries, route: Id, c: Country)
    requires n < |times|
    ensures CallsIn(times, n + 1, tripRoute, countries, route, c) <==>
      CallsIn(times, n, tripRoute, countries, route, c) || CallIn(times[n], tripRoute, countries, route, c)
  {
    var m := n + 1;
    if CallsIn(times, n, tripRoute, countries, route, c) {
      var i :| 0 <= i < n && CallIn(times[i], tripRoute, countries, route, c);
      assert 0 <= i < m;
    }
    if CallIn(times[n], tripRoute, countries, route, c) { assert 0 <= n < m; }
  }

  /** `_classify_routes`: the countries of each route, the origin of each trip. */
  method Classify(times: seq<StopTime>, tripRoute: map<Id, Id>, countries: Countries)
    returns (found: map<Id, set<Country>>, origins: map<Id, (int, Option<Country>)>)
    ensures forall route, c :: c in CountriesSeen(found, route) <==>
      CallsIn(times, |times|, tripRoute, countries, route, c)
    ensures forall trip :: trip in tripRoute ==> OriginIs(times, |times|, countries, trip, Seen(origins, trip))
    ensures forall trip :: trip in origins ==> trip in tripRoute
  {
    hide CallsIn, OriginIs;
    found, origins := map[], map[];
    NothingClassified(times, tripRoute, countries);
    for n := 0 to |times|
      invariant forall route, c :: c in CountriesSeen(found, route) <==>
        CallsIn(times, n, tripRoute, countries, route, c)
      invariant forall trip :: trip in tripRoute ==> OriginIs(times, n, countries, trip, Seen(origins, trip))
      invariant forall trip :: trip in origins ==> trip in tripRoute
    {
      var x, m := times[n], n + 1;
      forall route, c ensures CallsIn(times, m, tripRoute, countries, route, c) <==>
        CallsIn(times, n, tripRoute, countries, route, c) || CallIn(x, tripRoute, countries, route, c)
      {
        CallsStep(times, n, tripRoute, countries, route, c);
      }
      ghost var before := origins;
      forall trip | trip in tripRoute
        ensures OriginIs(times, m, countries, trip,
          if x.trip == trip && (Seen(before, trip).None? || x.sequence < Seen(before, trip).value.0)
          then Some((x.sequence, CountryAt(countries, x.stop))) else Seen(before, trip))
      {
        OriginStep(times, n, countries, trip, Seen(before, trip));
      }
      if x.trip in tripRoute {
        var country := CountryAt(countries, x.stop);
        if country.Some? && country.value != "" {
          var route := tripRoute[x.trip];
          found := found[route := CountriesSeen(found, route) + {country.value}];
        }
        if x.trip !in origins || x.sequence < origins[x.trip].0 {
          origins := origins[x.trip := (x.sequence, country)];
        }
      }
    }
  }

  lemma {:induction false} NothingClassified(times: seq<StopTime>, tripRoute: map<Id, Id>, countries: Countries)
    ensures forall route, c :: !CallsIn(times, 0, tripRoute, countries, route, c)
    ensures forall trip :: OriginIs(times, 0, countries, trip, None)
  {
  }

  lemma {:induction false} TwoMembers(s: set<Country>)
    ensures |s| >= 2 <==> exists a, b :: a in s && b in s && a != b
  {
    if |s| >= 2 {
      var a :| a in s;
      assert |s - {a}| >= 1;
      var b :| b in s - {a};
      assert a in s && b in s && a != b;
    }
    if a, b :| a in s && b in s && a != b {
      assert {a, b} <= s;
      assert |{a, b}| == 2;
      SubsetSize({a, b}, s);
    }
  }

  lemma {:induction false} SubsetSize(a: set<Country>, b: set<Country>)
    requires a <= b
    ensures |a| <= |b|
  {
    assert b == a + (b - a);
    assert |b| == |a| + |b - a|;
  }

  /** `_collect_stop_times`: the rows of kept trips, and their stops. */
  method Collect(times: seq<StopTime>, kept: set<Id>) returns (rows: seq<StopTime>, stops: set<Id>)
    ensures rows == Keep(times, (x: StopTime) => x.trip in kept)
    ensures stops == set x <- rows :: x.stop
  {
    rows, stops := [], {};
    ghost var p := (x: StopTime) => x.trip in kept;
    KeepParts(times, 0, p);
    for n := 0 to |times|
      invariant rows == Keep(times[..n], p) && stops == set x <- rows :: x.stop
    {
      KeepParts(times, n, p);
      if times[n].trip in kept {
        rows := rows + [times[n]];
        stops := stops + {times[n].stop};
      }
    }
    assert times[..|times|] == times;
  }

  lemma {:induction false} KeepConcat<T(!new)>(a: seq<T>, b: seq<T>, p: T -> bool)
    ensures Keep(a + b, p) == Keep(a, p) + Keep(b, p)
  {
    if a == [] {
      assert a + b == b;
    } else {
      assert (a + b)[1..] == a[1..] + b;
      KeepConcat(a[1..], b, p);
    }
  }

  lemma {:induction false} KeepParts<T(!new)>(rows: seq<T>, n: nat, p: T -> bool)
    requires n <= |rows|
    ensures Keep(rows[..0], p) == []
    ensures n < |rows| ==> Keep(rows[..n + 1], p) == Keep(rows[..n], p) + if p(rows[n]) then [rows[n]] else []
  {
    if n < |rows| {
      assert rows[..n + 1] == rows[..n] + [rows[n]];
      KeepConcat(rows[..n], [rows[n]], p);
      assert [rows[n]][1..] == [];
    }
  }

  // ----- the whole filter

  /** The trips of routes that count; of two rows of one id the last. */
  function TripRoutes(trips: seq<Trip>, routes: set<Id>): map<Id, Id> {
    if trips == [] then map[]
    else
      var before, last := TripRoutes(trips[..|trips| - 1], routes), trips[|trips| - 1];
      if last.route in routes then before[last.id := last.route] else before
  }

  function RailRoutes(feed: Feed, railOnly: bool): set<Id> {
    set r <- feed.routes | !railOnly || r.rail :: r.id
  }

  /** The trip departs the country. */
  ghost predicate Departs(feed: Feed, countries: Countries, trip: Id, c: Country) {
    exists i :: IsOrigin(feed.stopTimes, |feed.stopTimes|, trip, i)
             && CountryAt(countries, feed.stopTimes[i].stop) == Some(c)
  }

  /** A trip of a route that crosses a border, departing home if that is asked. */
  ghost predicate IsKept(feed: Feed, railOnly: bool, home: Option<Country>, countries: Countries, t: Trip) {
    var tripRoute := TripRoutes(feed.trips, RailRoutes(feed, railOnly));
    && SpansTwo(feed.stopTimes, tripRoute, countries, t.route)
    && (home.Some? ==> t.id in tripRoute && Departs(feed, countries, t.id, home.value))
  }

  datatype Kept = Kept(
    routes: set<Id>, trips: set<Id>, services: set<Id>, shapes: set<Id>, agencies: set<Id>, stops: set<Id>)

  function Written(feed: Feed, kept: Kept, times: seq<StopTime>): Feed {
    Feed(
      if feed.agencyIds && kept.agencies != {} then Keep(feed.agencies, (id: Id) => id in kept.agencies)
      else feed.agencies,
      feed.agencyIds,
      Keep(feed.routes, (r: Route) => r.id in kept.routes),
      Keep(feed.trips, (t: Trip) => t.id in kept.trips),
      Keep(feed.stops, (s: Stop) => s.id in kept.stops),
      times,
      Keep(feed.calendar, (id: Id) => id in kept.services),
      Keep(feed.calendarDates, (id: Id) => id in kept.services),
      Keep(feed.shapes, (id: Id) => id in kept.shapes),
      Keep(feed.transfers, (x: Transfer) =>
        && x.fromStop in kept.stops && x.toStop in kept.stops
        && (x.fromTrip == "" || x.fromTrip in kept.trips) && (x.toTrip == "" || x.toTrip in kept.trips)),
      Keep(feed.frequencies, (id: Id) => id in kept.trips))
  }

  /** The sets every table is filtered by. */
  ghost predicate KeptIs(feed: Feed, kept: Kept, times: seq<StopTime>) {
    && kept.routes == (set t <- feed.trips | t.id in kept.trips :: t.route)
    && kept.services == (set t <- feed.trips | t.id in kept.trips && t.service != "" :: t.service)
    && kept.shapes == (set t <- feed.trips | t.id in kept.trips && t.shape != "" :: t.shape)
    && kept.agencies == (set r <- feed.routes | r.id in kept.routes && r.agency != "" :: r.agency)
    && times == Keep(feed.stopTimes, (x: StopTime) => x.trip in kept.trips)
    && var called, parents := (set x <- times :: x.stop), ParentsOf(feed.stops);
       kept.stops == called + set id <- called | id in parents :: parents[id]
  }

  lemma {:induction false} ParentIs(stops: seq<Stop>, s: Stop)
    requires s in stops && s.parent != "" && forall a, b :: a in stops && b in stops && a.id == b.id ==> a == b
    ensures s.id in ParentsOf(stops) && ParentsOf(stops)[s.id] == s.parent
  {
    var n := |stops| - 1;
    assert stops == stops[..n] + [stops[n]];
    if s.id != stops[n].id { ParentIs(stops[..n], s); } else { assert s == stops[n]; }
  }

  lemma {:induction false} ChildOf(stops: seq<Stop>, id: Id)
    requires id in ParentsOf(stops)
    ensures exists s <- stops :: s.id == id && s.parent == ParentsOf(stops)[id] && s.parent != ""
  {
    var n := |stops| - 1;
    assert stops == stops[..n] + [stops[n]];
    if !(stops[n].id == id && stops[n].parent != "") { ChildOf(stops[..n], id); } else { assert stops[n] in stops; }
  }

  lemma {:induction false} StopKept(feed: Feed, kept: Kept, times: seq<StopTime>, id: Id)
    requires IsStop(feed, id) && id in kept.stops
    ensures IsStop(Written(feed, kept, times), id)
  {
    var s :| s in feed.stops && s.id == id;
    assert s in Written(feed, kept, times).stops;
  }

  lemma {:induction false} TripKept(feed: Feed, kept: Kept, times: seq<StopTime>, id: Id)
    requires IsTrip(feed, id) && id in kept.trips
    ensures IsTrip(Written(feed, kept, times), id)
  {
    var t :| t in feed.trips && t.id == id;
    assert t in Written(feed, kept, times).trips;
  }

  lemma {:induction false} RouteKept(feed: Feed, kept: Kept, times: seq<StopTime>, t: Trip)
    requires Consistent(feed) && KeptIs(feed, kept, times) && t in feed.trips && t.id in kept.trips
    ensures IsRoute(Written(feed, kept, times), t.route)
  {
    assert IsRoute(feed, t.route);
    var r :| r in feed.routes && r.id == t.route;
    assert r in Written(feed, kept, times).routes;
  }

  /** The stop two levels above a stop, if any. */
  function Grandparent(parents: map<Id, Id>, stop: Id): Option<Id> {
    if stop in parents && parents[stop] in parents then Some(parents[parents[stop]]) else None
  }

  /** A stop called at, or the parent of one. */
  ghost predicate IsNear(parents: map<Id, Id>, times: seq<StopTime>, id: Id) {
    exists x <- times :: id == x.stop || (x.stop in parents && id == parents[x.stop])
  }

  /** What stands two levels above a stop called at is itself called at, or the
      parent of a stop called at. */
  ghost predicate StationsReached(feed: Feed, times: seq<StopTime>) {
    var parents := ParentsOf(feed.stops);
    forall x <- times :: Grandparent(parents, x.stop).Some? ==>
      IsNear(parents, times, Grandparent(parents, x.stop).value)
  }

  /** No stop called at stands two levels below another. */
  ghost predicate FlatCalls(feed: Feed) {
    forall x <- feed.stopTimes :: Grandparent(ParentsOf(feed.stops), x.stop).None?
  }

  lemma {:induction false} KeptStops(feed: Feed, kept: Kept, times: seq<StopTime>, id: Id)
    requires KeptIs(feed, kept, times)
    ensures id in kept.stops <==> IsNear(ParentsOf(feed.stops), times, id)
  {
    hide Keep, ParentsOf;
  }

  /** The parent of a stop that is kept is kept too, if stations are reached. */
  lemma {:induction false} ParentKept(feed: Feed, kept: Kept, times: seq<StopTime>, s: Stop)
    requires Consistent(feed) && KeptIs(feed, kept, times) && StationsReached(feed, times)
    requires s in feed.stops && s.id in kept.stops && s.parent != ""
    ensures s.parent in kept.stops
  {
    hide Keep, ParentsOf, KeptIs;
    var parents := ParentsOf(feed.stops);
    ParentIs(feed.stops, s);
    KeptStops(feed, kept, times, s.id);
    KeptStops(feed, kept, times, s.parent);
    var x :| x in times && (s.id == x.stop || (x.stop in parents && s.id == parents[x.stop]));
    if s.id != x.stop { assert Grandparent(parents, x.stop) == Some(s.parent); }
  }

  /** And the other way round. */
  lemma {:induction false} ReachedWhenConsistent(feed: Feed, kept: Kept, times: seq<StopTime>, x: StopTime)
    requires Consistent(feed) && KeptIs(feed, kept, times) && Consistent(Written(feed, kept, times)) && x in times
    requires Grandparent(ParentsOf(feed.stops), x.stop).Some?
    ensures IsNear(ParentsOf(feed.stops), times, Grandparent(ParentsOf(feed.stops), x.stop).value)
  {
    hide Keep, ParentsOf, KeptIs, UniqueIds;
    var parents, out := ParentsOf(feed.stops), Written(feed, kept, times);
    ChildOf(feed.stops, parents[x.stop]);
    var p :| p in feed.stops && p.id == parents[x.stop] && p.parent == parents[p.id] && p.parent != "";
    KeptStops(feed, kept, times, p.id);
    assert p in out.stops && IsStop(out, p.parent);
    KeptStops(feed, kept, times, p.parent);
  }

  lemma {:induction false} UniqueKept(feed: Feed, kept: Kept, times: seq<StopTime>)
    requires UniqueIds(feed)
    ensures UniqueIds(Written(feed, kept, times))
  {
  }

  /** Agencies, calendars and shapes the kept rows name are kept. */
  lemma {:induction false} NamedKept(feed: Feed, kept: Kept, times: seq<StopTime>)
    requires Consistent(feed) && KeptIs(feed, kept, times)
    ensures var out := Written(feed, kept, times);
      && (out.agencyIds ==> forall r <- out.routes :: r.agency != "" ==> r.agency in out.agencies)
      && (forall t <- out.trips :: t.service != "" ==> t.service in out.calendar || t.service in out.calendarDates)
      && (forall t <- out.trips :: t.shape != "" ==> t.shape in out.shapes)
  {
  }

  /** A consistent feed stays consistent exactly when stations are reached. */
  lemma {:induction false} WrittenConsistent(feed: Feed, kept: Kept, times: seq<StopTime>)
    requires Consistent(feed) && KeptIs(feed, kept, times)
    ensures Consistent(Written(feed, kept, times)) <==> StationsReached(feed, times)
  {
    hide Consistent, KeptIs, Written;
    if StationsReached(feed, times) { ReachedConsistent(feed, kept, times); }
    if Consistent(Written(feed, kept, times)) {
      forall x | x in times && Grandparent(ParentsOf(feed.stops), x.stop).Some?
        ensures IsNear(ParentsOf(feed.stops), times, Grandparent(ParentsOf(feed.stops), x.stop).value)
      {
        ReachedWhenConsistent(feed, kept, times, x);
      }
    }
  }

  lemma {:induction false} ReachedConsistent(feed: Feed, kept: Kept, times: seq<StopTime>)
    requires Consistent(feed) && KeptIs(feed, kept, times) && StationsReached(feed, times)
    ensures Consistent(Written(feed, kept, times))
  {
    var out := Written(feed, kept, times);
    UniqueKept(feed, kept, times);
    NamedKept(feed, kept, times);
    forall t | t in out.trips ensures IsRoute(out, t.route) { RouteKept(feed, kept, times, t); }
    forall x | x in out.stopTimes ensures IsTrip(out, x.trip) && IsStop(out, x.stop) {
      TripKept(feed, kept, times, x.trip);
      StopKept(feed, kept, times, x.stop);
    }
    forall s | s in out.stops && s.parent != "" ensures IsStop(out, s.parent) {
      ParentKept(feed, kept, times, s);
      StopKept(feed, kept, times, s.parent);
    }
    forall x | x in out.transfers
      ensures IsStop(out, x.fromStop) && IsStop(out, x.toStop)
      ensures (x.fromTrip != "" ==> IsTrip(out, x.fromTrip)) && (x.toTrip != "" ==> IsTrip(out, x.toTrip))
    {
      StopKept(feed, kept, times, x.fromStop);
      StopKept(feed, kept, times, x.toStop);
      if x.fromTrip != "" { TripKept(feed, kept, times, x.fromTrip); }
      if x.toTrip != "" { TripKept(feed, kept, times, x.toTrip); }
    }
    forall id | id in out.frequencies ensures IsTrip(out, id) { TripKept(feed, kept, times, id); }
  }

  /** Stations are reached whichever trips are kept, when no stop called at
      stands two levels below another. */
  lemma {:induction false} FlatIsReached(feed: Feed, times: seq<StopTime>)
    requires FlatCalls(feed) && forall x <- times :: x in feed.stopTimes
    ensures StationsReached(feed, times)
  {
  }

  /** The origin found is the country the trip departs. */
  lemma {:induction false} OriginIsDeparture(
    feed: Feed, countries: Countries, trip: Id, found: Option<(int, Option<Country>)>, c: Country)
    requires OriginIs(feed.stopTimes, |feed.stopTimes|, countries, trip, found)
    ensures found.Some? && found.value.1 == Some(c) <==> Departs(feed, countries, trip, c)
  {
  }

  function OriginOf(origins: map<Id, (int, Option<Country>)>, trip: Id): Option<Country> {
    if trip in origins then origins[trip].1 else None
  }

  lemma {:induction false} CrossIs(
    times: seq<StopTime>, tripRoute: map<Id, Id>, countries: Countries, found: map<Id, set<Country>>, route: Id)
    requires forall r, c :: c in CountriesSeen(found, r) <==> CallsIn(times, |times|, tripRoute, countries, r, c)
    ensures route in found && |found[route]| >= 2 <==> SpansTwo(times, tripRoute, countries, route)
  {
    hide CallsIn;
    TwoMembers(CountriesSeen(found, route));
  }

  lemma {:induction false} HomeIs(
    feed: Feed, tripRoute: map<Id, Id>, countries: Countries, origins: map<Id, (int, Option<Country>)>, trip: Id,
    c: Country)
    requires forall t :: t in tripRoute ==> OriginIs(feed.stopTimes, |feed.stopTimes|, countries, t, Seen(origins, t))
    requires forall t :: t in origins ==> t in tripRoute
    ensures OriginOf(origins, trip) == Some(c) <==> trip in tripRoute && Departs(feed, countries, trip, c)
  {
    hide OriginIs, Departs;
    if trip in tripRoute { OriginIsDeparture(feed, countries, trip, Seen(origins, trip), c); }
  }

  lemma {:induction false} KeptTrip(
    feed: Feed, railOnly: bool, home: Option<Country>, countries: Countries, found: map<Id, set<Country>>,
    origins: map<Id, (int, Option<Country>)>, t: Trip)
    requires var tripRoute := TripRoutes(feed.trips, RailRoutes(feed, railOnly));
      && (forall r, c :: c in CountriesSeen(found, r) <==>
            CallsIn(feed.stopTimes, |feed.stopTimes|, tripRoute, countries, r, c))
      && (forall x :: x in tripRoute ==> OriginIs(feed.stopTimes, |feed.stopTimes|, countries, x, Seen(origins, x)))
      && (forall x :: x in origins ==> x in tripRoute)
    ensures t.route in found && |found[t.route]| >= 2 && (home.None? || OriginOf(origins, t.id) == home) <==>
      IsKept(feed, railOnly, home, countries, t)
  {
    hide CallsIn, OriginIs, Departs, SpansTwo, TripRoutes;
    var tripRoute := TripRoutes(feed.trips, RailRoutes(feed, railOnly));
    CrossIs(feed.stopTimes, tripRoute, countries, found, t.route);
    if home.Some? { HomeIs(feed, tripRoute, countries, origins, t.id, home.value); }
  }

  /** Pass 1 and the choice of the trips. */
  method KeptTrips(feed: Feed, railOnly: bool, home: Option<Country>) returns (trips: set<Id>, parents: map<Id, Id>)
    ensures parents == ParentsOf(feed.stops)
    ensures forall id :: id in trips <==> IdKept(feed, railOnly, home, id)
  {
    hide ParentsOf, StopCountryMap, IsKept, OriginIs, CallsIn;
    var countries: Countries;
    countries, parents := StopCountries(feed.stops);
    var tripRoute := TripRoutes(feed.trips, RailRoutes(feed, railOnly));
    var found, origins := Classify(feed.stopTimes, tripRoute, countries);
    var cross := set route | route in found && |found[route]| >= 2;
    trips := set t <- feed.trips | t.route in cross && (home.None? || OriginOf(origins, t.id) == home) :: t.id;
    forall t | t in feed.trips
      ensures t.route in cross && (home.None? || OriginOf(origins, t.id) == home) <==>
        IsKept(feed, railOnly, home, countries, t)
    {
      KeptTrip(feed, railOnly, home, countries, found, origins, t);
    }
  }

  /** Some row of that trip id is kept; ids are unique in a consistent feed. */
  ghost predicate IdKept(feed: Feed, railOnly: bool, home: Option<Country>, id: Id) {
    exists t <- feed.trips :: t.id == id && IsKept(feed, railOnly, home, StopCountryMap(feed.stops), t)
  }

  function SetsFor(feed: Feed, trips: set<Id>, called: set<Id>, parents: map<Id, Id>): Kept {
    var routes := set t <- feed.trips | t.id in trips :: t.route;
    Kept(
      routes, trips, set t <- feed.trips | t.id in trips && t.service != "" :: t.service,
      set t <- feed.trips | t.id in trips && t.shape != "" :: t.shape,
      set r <- feed.routes | r.id in routes && r.agency != "" :: r.agency,
      called + set id <- called | id in parents :: parents[id])
  }

  lemma {:induction false} SetsAreKept(feed: Feed, trips: set<Id>, times: seq<StopTime>)
    requires times == Keep(feed.stopTimes, (x: StopTime) => x.trip in trips)
    ensures KeptIs(feed, SetsFor(feed, trips, set x <- times :: x.stop, ParentsOf(feed.stops)), times)
  {
    hide Keep, ParentsOf;
  }

  /** What is written of trips and stop times. */
  lemma {:induction false} WrittenTrips(feed: Feed, kept: Kept, times: seq<StopTime>)
    requires times == Keep(feed.stopTimes, (x: StopTime) => x.trip in kept.trips)
    ensures var out := Written(feed, kept, times);
      && (forall t :: t in out.trips <==> t in feed.trips && t.id in kept.trips)
      && (forall x :: x in out.stopTimes <==> x in feed.stopTimes && x.trip in kept.trips)
  {
  }

  /** `filter_to_cross_border`: every table filtered by the sets of exactly the
      trips that cross a border and depart home; a consistent feed becomes a
      consistent one exactly when the stations of the stops called at are
      reached, as they are when none stands two levels above. */
  method Filter(feed: Feed, railOnly: bool, home: Option<Country>) returns (out: Feed, ghost kept: Kept)
    ensures Consistent(feed) ==> (Consistent(out) <==> StationsReached(feed, out.stopTimes))
    ensures Consistent(feed) && FlatCalls(feed) ==> Consistent(out)
    ensures forall id :: id in kept.trips <==> IdKept(feed, railOnly, home, id)
    ensures KeptIs(feed, kept, out.stopTimes) && out == Written(feed, kept, out.stopTimes)
    ensures forall t :: t in out.trips <==> t in feed.trips && IdKept(feed, railOnly, home, t.id)
    ensures forall x :: x in out.stopTimes <==> x in feed.stopTimes && IdKept(feed, railOnly, home, x.trip)
  {
    hide Consistent, FlatCalls, StationsReached, IdKept, Keep, KeptIs, ParentsOf;
    var trips, parents := KeptTrips(feed, railOnly, home);
    var times, called := Collect(feed.stopTimes, trips);
    var sets := SetsFor(feed, trips, called, parents);
    kept := sets;
    SetsAreKept(feed, trips, times);
    out := Written(feed, sets, times);
    WrittenTrips(feed, sets, times);
    if Consistent(feed) { WrittenConsistent(feed, sets, times); }
    if FlatCalls(feed) { FlatIsReached(feed, times); }
  }

  // ----- a boarding area on a platform of a station

  const AREA := Stop("area", "platform", Some("80"))
  const PLATFORM := Stop("platform", "station", Some("80"))
  const STATION := Stop("station", "", Some("80"))
  const ABROAD := Stop("abroad", "", Some("87"))

  /** One trip from a boarding area to another country. */
  const TWO_LEVELS: Feed := Feed(
    [], false, [Route("r", "", true)], [Trip("t", "r", "", "")], [AREA, PLATFORM, STATION, ABROAD],
    [StopTime("t", "area", 1), StopTime("t", "abroad", 2)], [], [], [], [], [])

  lemma {:induction false} TwoLevelsStops()
    ensures ParentsOf(TWO_LEVELS.stops) == map["area" := "platform", "platform" := "station"]
    ensures OwnCountries(TWO_LEVELS.stops) ==
      map["area" := Some("80"), "platform" := Some("80"), "station" := Some("80"), "abroad" := Some("87")]
    ensures ParentOrder(TWO_LEVELS.stops) == ["area", "platform"]
  {
    hide OwnCountries, ParentsOf, ParentOrder;
    OneMoreStop([], AREA);
    OneMoreStop([AREA], PLATFORM);
    OneMoreStop([AREA, PLATFORM], STATION);
    OneMoreStop([AREA, PLATFORM, STATION], ABROAD);
    assert [] + [AREA] == [AREA] && [AREA] + [PLATFORM] == [AREA, PLATFORM];
    assert [AREA, PLATFORM] + [STATION] == [AREA, PLATFORM, STATION];
    assert [AREA, PLATFORM, STATION] + [ABROAD] == TWO_LEVELS.stops;
  }

  lemma {:induction false} OneMoreStop(stops: seq<Stop>, last: Stop)
    ensures ParentsOf([]) == map[] && OwnCountries([]) == map[] && ParentOrder([]) == []
    ensures OwnCountries(stops + [last]) == OwnCountries(stops)[last.id := last.country]
    ensures ParentsOf(stops + [last]) ==
      if last.parent != "" then ParentsOf(stops)[last.id := last.parent] else ParentsOf(stops)
    ensures ParentOrder(stops + [last]) ==
      ParentOrder(stops) + if last.parent != "" && last.id !in ParentOrder(stops) then [last.id] else []
  {
    assert (stops + [last])[..|stops|] == stops;
  }

  lemma {:induction false} TwoLevelsCountries()
    ensures var countries := StopCountryMap(TWO_LEVELS.stops);
      CountryAt(countries, "area") == Some("80") && CountryAt(countries, "abroad") == Some("87")
  {
    TwoLevelsStops();
    var own, parents, order := OwnCountries(TWO_LEVELS.stops), ParentsOf(TWO_LEVELS.stops),
      ParentOrder(TWO_LEVELS.stops);
    assert Inherited(own, parents, order, 0) == own;
    assert Inherited(own, parents, order, 1) == own;
    assert Inherited(own, parents, order, 2) == own;
  }

  lemma {:induction false} TwoLevelsKept()
    ensures IdKept(TWO_LEVELS, false, None, "t")
  {
    var feed, countries := TWO_LEVELS, StopCountryMap(TWO_LEVELS.stops);
    TwoLevelsCountries();
    var routes := RailRoutes(feed, false);
    assert feed.routes[0] in feed.routes && "r" in routes;
    var tripRoute := TripRoutes(feed.trips, routes);
    assert feed.trips[..0] == [] && TripRoutes([], routes) == map[];
    assert tripRoute == map["t" := "r"];
    assert CallIn(feed.stopTimes[0], tripRoute, countries, "r", "80");
    assert CallIn(feed.stopTimes[1], tripRoute, countries, "r", "87");
    assert CallsIn(feed.stopTimes, 2, tripRoute, countries, "r", "80");
    assert CallsIn(feed.stopTimes, 2, tripRoute, countries, "r", "87");
    assert feed.trips[0] in feed.trips;
  }

  lemma {:induction false} TwoLevelsConsistent()
    ensures Consistent(TWO_LEVELS)
  {
    var feed := TWO_LEVELS;
    assert feed.routes[0] in feed.routes && feed.trips[0] in feed.trips;
    assert AREA == feed.stops[0] && PLATFORM == feed.stops[1] && STATION == feed.stops[2] && ABROAD == feed.stops[3];
    assert forall s <- feed.stops :: s == AREA || s == PLATFORM || s == STATION || s == ABROAD;
  }

  /** The platform is written, the station it names is not. */
  method TwoLevels() returns (out: Feed)
    ensures Consistent(TWO_LEVELS) && !Consistent(out)
  {
    hide Consistent, IdKept, KeptIs, Written, FlatCalls;
    ghost var kept;
    out, kept := Filter(TWO_LEVELS, false, None);
    TwoLevelsConsistent();
    TwoLevelsKept();
    TwoLevelsStops();
    var first := StopTime("t", "area", 1);
    assert first == TWO_LEVELS.stopTimes[0] && first in out.stopTimes;
    ghost var parents := ParentsOf(TWO_LEVELS.stops);
    assert Grandparent(parents, first.stop) == Some("station");
    assert !IsNear(parents, out.stopTimes, "station");
  }

  // ----- several home countries

  /** A trip departs one country. */
  lemma {:induction false} OneDeparture(feed: Feed, countries: Countries, trip: Id, a: Country, b: Country)
    requires Departs(feed, countries, trip, a) && Departs(feed, countries, trip, b)
    ensures a == b
  {
    var n := |feed.stopTimes|;
    var i :| IsOrigin(feed.stopTimes, n, trip, i) && CountryAt(countries, feed.stopTimes[i].stop) == Some(a);
    var j :| IsOrigin(feed.stopTimes, n, trip, j) && CountryAt(countries, feed.stopTimes[j].stop) == Some(b);
    assert i == j;
  }

  lemma {:induction false} OnRail(trips: seq<Trip>, routes: set<Id>, t: Trip)
    requires t in trips && t.route in routes
    ensures t.id in TripRoutes(trips, routes)
  {
    var n := |trips| - 1;
    assert trips == trips[..n] + [trips[n]];
    if t != trips[n] { OnRail(trips[..n], routes, t); }
  }

  /** A route that crosses a border is one of those that count. */
  lemma {:induction false} CrossingIsRail(feed: Feed, railOnly: bool, countries: Countries, route: Id)
    requires SpansTwo(feed.stopTimes, TripRoutes(feed.trips, RailRoutes(feed, railOnly)), countries, route)
    ensures route in RailRoutes(feed, railOnly)
  {
    var routes := RailRoutes(feed, railOnly);
    var tripRoute := TripRoutes(feed.trips, routes);
    var a, b :| a != b && CallsIn(feed.stopTimes, |feed.stopTimes|, tripRoute, countries, route, a)
      && CallsIn(feed.stopTimes, |feed.stopTimes|, tripRoute, countries, route, b);
    var i :| 0 <= i < |feed.stopTimes| && CallIn(feed.stopTimes[i], tripRoute, countries, route, a);
    RouteOfTrip(feed.trips, routes, feed.stopTimes[i].trip);
  }

  lemma {:induction false} RouteOfTrip(trips: seq<Trip>, routes: set<Id>, id: Id)
    ensures id in TripRoutes(trips, routes) ==> TripRoutes(trips, routes)[id] in routes
  {
    if trips != [] { RouteOfTrip(trips[..|trips| - 1], routes, id); }
  }

  /** Different home countries never keep the same trip. */
  lemma {:induction false} HomesApart(feed: Feed, railOnly: bool, id: Id, a: Country, b: Country)
    requires IdKept(feed, railOnly, Some(a), id) && IdKept(feed, railOnly, Some(b), id)
    ensures a == b
  {
    OneDeparture(feed, StopCountryMap(feed.stops), id, a, b);
  }

  /** A trip id kept for a home departs it, and is kept without one. */
  lemma {:induction false} HomesWithin(feed: Feed, railOnly: bool, id: Id, c: Country)
    requires IdKept(feed, railOnly, Some(c), id)
    ensures IdKept(feed, railOnly, None, id) && Departs(feed, StopCountryMap(feed.stops), id, c)
  {
    var t :| t in feed.trips && t.id == id && IsKept(feed, railOnly, Some(c), StopCountryMap(feed.stops), t);
    assert IsKept(feed, railOnly, None, StopCountryMap(feed.stops), t);
  }

  /** A trip id kept without a home is kept for exactly the home it departs. */
  lemma {:induction false} HomesTogether(feed: Feed, railOnly: bool, id: Id, c: Country)
    requires IdKept(feed, railOnly, None, id)
    ensures IdKept(feed, railOnly, Some(c), id) <==> Departs(feed, StopCountryMap(feed.stops), id, c)
  {
    hide Departs;
    var countries := StopCountryMap(feed.stops);
    var t :| t in feed.trips && t.id == id && IsKept(feed, railOnly, None, countries, t);
    CrossingIsRail(feed, railOnly, countries, t.route);
    OnRail(feed.trips, RailRoutes(feed, railOnly), t);
    if Departs(feed, countries, id, c) { assert IsKept(feed, railOnly, Some(c), countries, t); }
    if IdKept(feed, railOnly, Some(c), id) { HomesWithin(feed, railOnly, id, c); }
  }

  /** One feed filtered for several home countries: no trip is kept twice, and
      together they keep exactly the trips kept without a home that depart one
      of them. */
  method FilterForHomes(feed: Feed, railOnly: bool, homes: seq<Country>) returns (outs: seq<Feed>, all: Feed)
    requires forall i, j :: 0 <= i < j < |homes| ==> homes[i] != homes[j]
    ensures |outs| == |homes|
    ensures forall i, j, t :: 0 <= i < j < |homes| && t in outs[i].trips ==> t !in outs[j].trips
    ensures forall i, t :: 0 <= i < |homes| ==>
      (t in outs[i].trips <==> t in all.trips && Departs(feed, StopCountryMap(feed.stops), t.id, homes[i]))
  {
    hide IdKept, Departs, KeptIs, Written, Consistent, StopCountryMap;
    ghost var kept;
    all, kept := Filter(feed, railOnly, None);
    outs := [];
    for i := 0 to |homes|
      invariant |outs| == i
      invariant forall k, t :: 0 <= k < i ==>
        (t in outs[k].trips <==> t in feed.trips && IdKept(feed, railOnly, Some(homes[k]), t.id))
    {
      var out;
      out, kept := Filter(feed, railOnly, Some(homes[i]));
      outs := outs + [out];
    }
    forall i, j, t | 0 <= i < j < |homes| && t in outs[i].trips ensures t !in outs[j].trips {
      HomesDisjoint(feed, railOnly, t.id, homes[i], homes[j]);
    }
    forall i, t | 0 <= i < |homes|
      ensures t in outs[i].trips <==> t in all.trips && Departs(feed, StopCountryMap(feed.stops), t.id, homes[i])
    {
      HomeIsDeparture(feed, railOnly, t.id, homes[i]);
    }
  }

  lemma {:induction false} HomesDisjoint(feed: Feed, railOnly: bool, id: Id, a: Country, b: Country)
    requires a != b && IdKept(feed, railOnly, Some(a), id)
    ensures !IdKept(feed, railOnly, Some(b), id)
  {
    hide IdKept;
    if IdKept(feed, railOnly, Some(b), id) {
      HomesApart(feed, railOnly, id, a, b);
      assert false;
    }
  }

  lemma {:induction false} HomeIsDeparture(feed: Feed, railOnly: bool, id: Id, c: Country)
    ensures IdKept(feed, railOnly, Some(c), id) <==>
      IdKept(feed, railOnly, None, id) && Departs(feed, StopCountryMap(feed.stops), id, c)
  {
    hide IdKept, Departs, StopCountryMap;
    if IdKept(feed, railOnly, None, id) { HomesTogether(feed, railOnly, id, c); }
    if IdKept(feed, railOnly, Some(c), id) { HomesWithin(feed, railOnly, id, c); }
  }
}
