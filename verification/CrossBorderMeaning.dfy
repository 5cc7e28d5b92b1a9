/** What the cross-border filter keeps, said of the rows of the feed
    (app/gtfs_cross_border_filter.py). */
module CrossBorderMeaning {
  import opened Bytes
  import opened CrossBorder

  /** The i-th row is the last trip row of that id on a route that counts. */
  ghost predicate LastTrip(feed: Feed, railOnly: bool, i: int, trip: Id, route: Id) {
    && 0 <= i < |feed.trips| && feed.trips[i].id == trip && feed.trips[i].route == route
      && Counts(feed, railOnly, route)
    && forall j :: i < j < |feed.trips| && feed.trips[j].id == trip ==> !Counts(feed, railOnly, feed.trips[j].route)
  }

  /** Every route counts, or only those of rail. */
  ghost predicate Counts(feed: Feed, railOnly: bool, route: Id) {
    exists r <- feed.routes :: r.id == route && (railOnly ==> r.rail)
  }

  lemma {:induction false} RailRoutesAre(feed: Feed, railOnly: bool, route: Id)
    ensures route in RailRoutes(feed, railOnly) <==>
      exists r <- feed.routes :: r.id == route && (railOnly ==> r.rail)
  {
    if r :| r in feed.routes && r.id == route && (railOnly ==> r.rail) { assert r in feed.routes; }
  }

  lemma {:induction false} TripRoutesAre(feed: Feed, railOnly: bool, n: nat, trip: Id, route: Id)
    requires n <= |feed.trips|
    ensures var routes := TripRoutes(feed.trips[..n], RailRoutes(feed, railOnly));
      trip in routes && routes[trip] == route <==>
        exists i :: LastTrip(feed.(trips := feed.trips[..n]), railOnly, i, trip, route)
    decreases n
  {
    hide *;
    if n > 0 {
      TripRoutesAre(feed, railOnly, n - 1, trip, route);
      OneMoreTrip(feed, railOnly, n, trip, route);
    } else {
      NoTrips(feed, railOnly, trip, route);
    }
  }

  lemma NoTrips(feed: Feed, railOnly: bool, trip: Id, route: Id)
    ensures trip !in TripRoutes(feed.trips[..0], RailRoutes(feed, railOnly))
    ensures !exists i :: LastTrip(feed.(trips := feed.trips[..0]), railOnly, i, trip, route)
  {
  }

  lemma {:induction false} OneMoreTrip(feed: Feed, railOnly: bool, n: nat, trip: Id, route: Id)
    requires 0 < n <= |feed.trips|
    ensures var rail, t := RailRoutes(feed, railOnly), feed.trips[n - 1];
      var before, after := TripRoutes(feed.trips[..n - 1], rail), TripRoutes(feed.trips[..n], rail);
      after == if t.route in rail then before[t.id := t.route] else before
    ensures var f, g := feed.(trips := feed.trips[..n]), feed.(trips := feed.trips[..n - 1]);
      var t := feed.trips[n - 1];
      (exists i :: LastTrip(f, railOnly, i, trip, route)) <==>
        if t.id == trip && t.route in RailRoutes(feed, railOnly) then t.route == route
        else exists i :: LastTrip(g, railOnly, i, trip, route)
  {
    hide Counts, RailRoutes;
    var f, g := feed.(trips := feed.trips[..n]), feed.(trips := feed.trips[..n - 1]);
    assert feed.trips[..n][..n - 1] == feed.trips[..n - 1];
    CountsAll(feed, f, g, railOnly);
    if feed.trips[n - 1].id == trip && Counts(f, railOnly, feed.trips[n - 1].route) {
      forall i ensures LastTrip(f, railOnly, i, trip, route) ==> i == n - 1 {}
      if feed.trips[n - 1].route == route { assert LastTrip(f, railOnly, n - 1, trip, route); }
    } else {
      forall i ensures LastTrip(f, railOnly, i, trip, route) <==> LastTrip(g, railOnly, i, trip, route) {}
    }
  }

  lemma CountsAll(feed: Feed, f: Feed, g: Feed, railOnly: bool)
    requires f.routes == feed.routes && g.routes == feed.routes
    ensures forall r :: Counts(f, railOnly, r) <==> r in RailRoutes(feed, railOnly)
    ensures forall r :: Counts(g, railOnly, r) <==> r in RailRoutes(feed, railOnly)
  {
    hide Counts, RailRoutes;
    forall r ensures (Counts(f, railOnly, r) <==> r in RailRoutes(feed, railOnly))
      && (Counts(g, railOnly, r) <==> r in RailRoutes(feed, railOnly))
    {
      CountsSame(feed, f, railOnly, r);
      CountsSame(feed, g, railOnly, r);
    }
  }

  lemma CountsSame(feed: Feed, f: Feed, railOnly: bool, route: Id)
    requires f.routes == feed.routes
    ensures Counts(f, railOnly, route) <==> Counts(feed, railOnly, route)
    ensures route in RailRoutes(feed, railOnly) <==> Counts(feed, railOnly, route)
  {
    RailRoutesAre(feed, railOnly, route);
  }

  ghost predicate OnRoute(feed: Feed, railOnly: bool, trip: Id, route: Id) {
    exists i :: LastTrip(feed, railOnly, i, trip, route)
  }

  ghost predicate AreRoutes(feed: Feed, railOnly: bool, tripRoute: map<Id, Id>) {
    forall trip, route :: OnRoute(feed, railOnly, trip, route) <==> trip in tripRoute && tripRoute[trip] == route
  }

  /** A row of the route at a stop of the country. */
  ghost predicate CallsAt(feed: Feed, railOnly: bool, route: Id, c: Country) {
    exists x <- feed.stopTimes :: OnRoute(feed, railOnly, x.trip, route)
      && CountryAt(StopCountryMap(feed.stops), x.stop) == Some(c) && c != ""
  }

  /** A trip is kept exactly when its route calls in two countries that are
      known and, when a home is given, its first row by sequence is there. */
  lemma {:induction false} KeptWhen(feed: Feed, railOnly: bool, home: Option<Country>, id: Id)
    ensures IdKept(feed, railOnly, home, id) <==>
      exists t <- feed.trips :: t.id == id
        && (exists a, b :: a != b && CallsAt(feed, railOnly, t.route, a) && CallsAt(feed, railOnly, t.route, b))
        && (home.Some? ==> DepartsFrom(feed, railOnly, id, home.value))
  {
    hide TripRoutes, RailRoutes, StopCountryMap, Departs, OnRoute;
    var countries, tripRoute := StopCountryMap(feed.stops), TripRoutes(feed.trips, RailRoutes(feed, railOnly));
    var n := |feed.trips|;
    assert feed.trips[..n] == feed.trips && feed.(trips := feed.trips[..n]) == feed;
    forall trip, route
      ensures OnRoute(feed, railOnly, trip, route) <==> trip in tripRoute && tripRoute[trip] == route
    {
      TripRoutesAre(feed, railOnly, n, trip, route);
      OnRouteIs(feed, railOnly, trip, route);
    }
    forall route, c
      ensures CallsIn(feed.stopTimes, |feed.stopTimes|, tripRoute, countries, route, c) <==>
        CallsAt(feed, railOnly, route, c)
    {
      CallsInIs(feed, railOnly, tripRoute, route, c);
    }
    if home.Some? { DepartsIs(feed, railOnly, tripRoute, id, home.value); }
  }

  lemma {:induction false} CallsInIs(feed: Feed, railOnly: bool, tripRoute: map<Id, Id>, route: Id, c: Country)
    requires AreRoutes(feed, railOnly, tripRoute)
    ensures CallsIn(feed.stopTimes, |feed.stopTimes|, tripRoute, StopCountryMap(feed.stops), route, c) <==>
      CallsAt(feed, railOnly, route, c)
  {
    hide StopCountryMap, OnRoute;
    var countries, times := StopCountryMap(feed.stops), feed.stopTimes;
    forall x ensures CallIn(x, tripRoute, countries, route, c) <==>
      OnRoute(feed, railOnly, x.trip, route) && CountryAt(countries, x.stop) == Some(c) && c != ""
    {
    }
    if k :| 0 <= k < |times| && CallIn(times[k], tripRoute, countries, route, c) { assert times[k] in times; }
  }

  lemma OnRouteIs(feed: Feed, railOnly: bool, trip: Id, route: Id)
    ensures OnRoute(feed, railOnly, trip, route) <==> exists i :: LastTrip(feed, railOnly, i, trip, route)
  {
  }

  /** The trip runs on a route that counts, and the row of it with the lowest
      sequence, the first of those, is at a stop of the country. */
  ghost predicate DepartsFrom(feed: Feed, railOnly: bool, id: Id, c: Country) {
    && (exists route :: OnRoute(feed, railOnly, id, route))
    && exists k :: IsFirstRow(feed, id, k) && CountryAt(StopCountryMap(feed.stops), feed.stopTimes[k].stop) == Some(c)
  }

  ghost predicate IsFirstRow(feed: Feed, id: Id, k: int) {
    && 0 <= k < |feed.stopTimes| && feed.stopTimes[k].trip == id
    && forall j :: 0 <= j < |feed.stopTimes| && feed.stopTimes[j].trip == id && j != k ==>
         feed.stopTimes[k].sequence < feed.stopTimes[j].sequence
         || (feed.stopTimes[k].sequence == feed.stopTimes[j].sequence && k < j)
  }

  lemma {:induction false} DepartsIs(feed: Feed, railOnly: bool, tripRoute: map<Id, Id>, id: Id, c: Country)
    requires AreRoutes(feed, railOnly, tripRoute)
    ensures id in tripRoute && Departs(feed, StopCountryMap(feed.stops), id, c) <==> DepartsFrom(feed, railOnly, id, c)
  {
    hide StopCountryMap, OnRoute;
    forall k ensures IsOrigin(feed.stopTimes, |feed.stopTimes|, id, k) <==> IsFirstRow(feed, id, k) {}
    if id in tripRoute { assert OnRoute(feed, railOnly, id, tripRoute[id]); }
  }

  /** What is written of each table: the kept trips and what they name, the
      rows between kept stops and trips, and the parents of stops called at. */
  lemma {:induction false} TablesAre(feed: Feed, kept: Kept, out: Feed)
    requires KeptIs(feed, kept, out.stopTimes) && out == Written(feed, kept, out.stopTimes)
    ensures forall t :: t in out.trips <==> t in feed.trips && t.id in kept.trips
    ensures forall x :: x in out.stopTimes <==> x in feed.stopTimes && x.trip in kept.trips
    ensures forall r :: r in out.routes <==>
      r in feed.routes && exists t <- feed.trips :: t.id in kept.trips && t.route == r.id
    ensures forall s :: s in out.stops <==> s in feed.stops && IsNear(ParentsOf(feed.stops), out.stopTimes, s.id)
    ensures forall id :: id in out.calendar <==>
      id in feed.calendar && id != "" && exists t <- feed.trips :: t.id in kept.trips && t.service == id
    ensures forall id :: id in out.calendarDates <==>
      id in feed.calendarDates && id != "" && exists t <- feed.trips :: t.id in kept.trips && t.service == id
    ensures forall id :: id in out.shapes <==>
      id in feed.shapes && id != "" && exists t <- feed.trips :: t.id in kept.trips && t.shape == id
    ensures forall id :: id in out.frequencies <==> id in feed.frequencies && id in kept.trips
    ensures forall x :: x in out.transfers <==>
      && x in feed.transfers
      && IsNear(ParentsOf(feed.stops), out.stopTimes, x.fromStop)
        && IsNear(ParentsOf(feed.stops), out.stopTimes, x.toStop)
      && (x.fromTrip == "" || x.fromTrip in kept.trips) && (x.toTrip == "" || x.toTrip in kept.trips)
    ensures out.agencyIds == feed.agencyIds
  {
    hide ParentsOf, KeptIs, IsNear;
    forall id ensures id in kept.stops <==> IsNear(ParentsOf(feed.stops), out.stopTimes, id) {
      KeptStops(feed, kept, out.stopTimes, id);
    }
    KeptSets(feed, kept, out.stopTimes);
  }

  lemma {:induction false} KeptSets(feed: Feed, kept: Kept, times: seq<StopTime>)
    requires KeptIs(feed, kept, times)
    ensures forall id :: id in kept.routes <==> exists t <- feed.trips :: t.id in kept.trips && t.route == id
    ensures forall id :: id in kept.services <==>
      id != "" && exists t <- feed.trips :: t.id in kept.trips && t.service == id
    ensures forall id :: id in kept.shapes <==> id != "" && exists t <- feed.trips ::
      t.id in kept.trips && t.shape == id
    ensures times == Keep(feed.stopTimes, (x: StopTime) => x.trip in kept.trips)
  {
    hide Keep, ParentsOf;
  }

  /** Of the agencies, those the kept routes name; all of them when those name
      none, or the table has no ids. */
  lemma {:induction false} AgenciesAre(feed: Feed, kept: Kept, out: Feed)
    requires KeptIs(feed, kept, out.stopTimes) && out == Written(feed, kept, out.stopTimes)
    ensures var named := exists r <- out.routes :: r.agency != "";
      forall id :: id in out.agencies <==>
        id in feed.agencies && (feed.agencyIds && named ==> id != "" && exists r <- out.routes :: r.agency == id)
  {
    hide ParentsOf, IsNear;
    forall r ensures r in out.routes <==> r in feed.routes && r.id in kept.routes {}
    forall id ensures id in kept.agencies <==> id != "" && exists r <- out.routes :: r.agency == id {
      AgencyNamed(feed, kept, out, id);
    }
    if r :| r in out.routes && r.agency != "" { assert r.agency in kept.agencies; }
    if kept.agencies != {} {
      var id :| id in kept.agencies;
    }
  }

  lemma {:induction false} AgencyNamed(feed: Feed, kept: Kept, out: Feed, id: Id)
    requires KeptIs(feed, kept, out.stopTimes)
    requires forall r :: r in out.routes <==> r in feed.routes && r.id in kept.routes
    ensures id in kept.agencies <==> id != "" && exists r <- out.routes :: r.agency == id
  {
    hide ParentsOf, IsNear, Keep;
    if id in kept.agencies {
      var r :| r in feed.routes && r.id in kept.routes && r.agency != "" && r.agency == id;
      assert r in out.routes;
    }
    if r :| r in out.routes && r.agency == id { assert r in feed.routes && r.id in kept.routes; }
  }

  /** Rows are kept in their order. */
  lemma {:induction false} KeptInOrder<T(!new)>(a: seq<T>, b: seq<T>, x: T, p: T -> bool)
    ensures Keep(a + b, p) == Keep(a, p) + Keep(b, p) && Keep([x], p) == if p(x) then [x] else []
  {
    KeepConcat(a, b, p);
    assert [x][1..] == [];
  }

  // ----- countries and parents

  ghost predicate LastStop(stops: seq<Stop>, i: int, s: Stop) {
    0 <= i < |stops| && stops[i] == s && forall j :: i < j < |stops| ==> stops[j].id != s.id
  }

  ghost predicate LastChild(stops: seq<Stop>, i: int, id: Id, parent: Id) {
    && 0 <= i < |stops| && stops[i].id == id && stops[i].parent == parent && parent != ""
    && forall j :: i < j < |stops| && stops[j].id == id ==> stops[j].parent == ""
  }

  /** Of several rows of one stop the last gives its country. */
  lemma {:induction false} OwnCountryIs(stops: seq<Stop>, id: Id, c: Option<Country>)
    ensures id in OwnCountries(stops) && OwnCountries(stops)[id] == c <==>
      exists i, s :: LastStop(stops, i, s) && s.id == id && s.country == c
  {
    if stops != [] {
      var n := |stops| - 1;
      var before := stops[..n];
      OwnCountryIs(before, id, c);
      if stops[n].id == id {
        assert LastStop(stops, n, stops[n]);
        assert forall i, s :: LastStop(stops, i, s) && s.id == id ==> i == n;
      } else {
        assert forall i, s: Stop :: s.id == id ==> (LastStop(stops, i, s) <==> LastStop(before, i, s));
      }
    }
  }

  /** And the last of them with a parent gives its parent. */
  lemma {:induction false} ParentOfIs(stops: seq<Stop>, id: Id, parent: Id)
    ensures id in ParentsOf(stops) && ParentsOf(stops)[id] == parent <==> exists i :: LastChild(stops, i, id, parent)
  {
    if stops != [] {
      var n := |stops| - 1;
      var before := stops[..n];
      ParentOfIs(before, id, parent);
      if stops[n].id == id && stops[n].parent != "" {
        assert LastChild(stops, n, id, stops[n].parent);
        assert forall i :: LastChild(stops, i, id, parent) ==> i == n;
      } else {
        assert forall i :: LastChild(stops, i, id, parent) <==> LastChild(before, i, id, parent);
      }
    }
  }
}
