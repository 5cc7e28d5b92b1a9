/** What the stations of an archive count, said of its Lines, journeys,
    patterns, assignments and StopPlaces alone (app/station_extract_netex.py). */
module StationMeaning {
  import opened Bytes
  import opened StationLists
  import opened StationSpec
  import StationOrder

  // ----- the mode of a journey

  /** A journey keeps a mode of its own against its Line; its submode is its
      own, else its Line's if the Line has that mode. */
  lemma OwnMode(lines: Lines, g: Group)
    requires g.mode != NoMode
    ensures Norm(lines, g).mode == g.mode
    ensures g.submode != NoSubmode ==> Norm(lines, g).submode == g.submode
    ensures g.submode == NoSubmode ==>
      Norm(lines, g).submode ==
        if g.line in lines && lines[g.line].mode == g.mode then lines[g.line].submode else NoSubmode
  {
  }

  /** A journey without a mode takes its Line's, with the Line's submode; of a
      Line without a mode it takes the submode only if it has none. */
  lemma LineMode(lines: Lines, g: Group)
    requires g.mode == NoMode
    ensures g.line !in lines ==> Norm(lines, g).mode == NoMode && Norm(lines, g).submode == g.submode
    ensures g.line in lines ==> Norm(lines, g).mode == lines[g.line].mode
    ensures g.line in lines && lines[g.line].mode != NoMode ==> Norm(lines, g).submode == lines[g.line].submode
    ensures g.line in lines && lines[g.line].mode == NoMode ==>
      Norm(lines, g).submode == if g.submode != NoSubmode then g.submode else lines[g.line].submode
  {
  }

  ghost predicate IsSuburban(s: Submode) { s.Given? && s.suburban }

  /** A journey of mode rail counts at every place: as suburban exactly when its
      submode is. */
  lemma RailCounts(places: Places, lines: Lines, use: Use)
    requires Norm(lines, use.1).mode == Rail && StopPlaceOf(places, use.0) != ""
    ensures StationMode(places, lines, use) == Some(if IsSuburban(Norm(lines, use.1).submode) then Suburban else Main)
  {
  }

  /** A journey of another mode counts nowhere. */
  lemma OtherNever(places: Places, lines: Lines, use: Use)
    requires Norm(lines, use.1).mode.Other?
    ensures StationMode(places, lines, use) == None && !IsKept(lines, use.1)
  {
  }

  /** A journey without a mode counts as main rail at a StopPlace that is rail;
      at one taken as rail by default unless its submode is of another mode, as
      suburban if that is; nowhere else. */
  lemma NoModeCounts(places: Places, lines: Lines, use: Use)
    requires Norm(lines, use.1).mode == NoMode && StopPlaceOf(places, use.0) != ""
    ensures var place, submode := StopPlaceOf(places, use.0), Norm(lines, use.1).submode;
      StationMode(places, lines, use) ==
        if place in places.rail then Some(Main)
        else if place !in places.modeless || (submode.Given? && submode.notRail) then None
        else if IsSuburban(submode) then Some(Suburban)
        else Some(Main)
  {
  }

  /** A call placed nowhere counts nowhere. */
  lemma PlacedNowhere(places: Places, lines: Lines, use: Use)
    requires StopPlaceOf(places, use.0) == ""
    ensures StationMode(places, lines, use) == None
  {
  }

  // ----- places

  /** The StopPlaces of an archive: defined by their id; rail, or modeless by
      default, by what they say. */
  lemma {:induction false} PlacesAre(st: seq<Structure>, railByDefault: bool, id: Id)
    ensures var places := PlacesIn(st, railByDefault);
      && (id in places.defined <==> id != "" && exists p <- st :: p.StopPlace? && p.id == id)
      && (id in places.rail <==> id != "" && exists p <- st :: p.StopPlace? && p.id == id && p.rail)
      && (id in places.modeless <==>
            railByDefault && id != "" && exists p <- st :: p.StopPlace? && p.id == id && !p.rail && p.modeless)
  {
  }

  /** A Quay known places a call at its StopPlace; else the StopPlace named
      does, or the StopPlace of the Quay named in its stead. */
  lemma StopPlaceIs(places: Places, place: Place)
    ensures StopPlaceOf(places, place) ==
      if place.0 in places.quays then places.quays[place.0]
      else if place.1 in places.defined then place.1
      else if place.1 in places.quays then places.quays[place.1]
      else place.1
  {
  }

  /** The Line of a pattern: its own, else that of the Route it names. */
  lemma PatternLineIs(routes: map<Id, Id>, p: Structure)
    requires p.Pattern?
    ensures PatternLine(routes, p) ==
      if p.line != "" then p.line else if p.route in routes then routes[p.route] else ""
  {
  }

  // ----- of several elements of one id the last counts

  ghost predicate LastLine(tt: seq<Timetable>, i: int, id: Id, info: LineInfo) {
    && 0 <= i < |tt| && tt[i] == Line(id, info) && id != ""
    && forall j :: i < j < |tt| ==> !(tt[j].Line? && tt[j].id == id)
  }

  lemma {:induction false} LineIs(tt: seq<Timetable>, id: Id, info: LineInfo)
    ensures id in LinesOf(tt) && LinesOf(tt)[id] == info <==> exists i :: LastLine(tt, i, id, info)
  {
    if tt != [] {
      var n := |tt| - 1;
      var before := tt[..n];
      LineIs(before, id, info);
      if tt[n].Line? && tt[n].id == id && id != "" {
        assert LastLine(tt, n, id, tt[n].info);
        assert forall i :: LastLine(tt, i, id, info) ==> i == n;
      } else {
        assert forall i :: LastLine(tt, i, id, info) <==> LastLine(before, i, id, info);
      }
    }
  }

  ghost predicate LastRoute(tt: seq<Timetable>, i: int, id: Id, line: Id) {
    && 0 <= i < |tt| && tt[i] == Route(id, line) && id != "" && line != ""
    && forall j :: i < j < |tt| && tt[j].Route? && tt[j].id == id ==> tt[j].line == ""
  }

  lemma {:induction false} RouteIs(tt: seq<Timetable>, id: Id, line: Id)
    ensures id in RoutesOf(tt) && RoutesOf(tt)[id] == line <==> exists i :: LastRoute(tt, i, id, line)
  {
    if tt != [] {
      var n := |tt| - 1;
      var before := tt[..n];
      RouteIs(before, id, line);
      if tt[n].Route? && tt[n].id == id && id != "" && tt[n].line != "" {
        assert LastRoute(tt, n, id, tt[n].line);
        assert forall i :: LastRoute(tt, i, id, line) ==> i == n;
      } else {
        assert forall i :: LastRoute(tt, i, id, line) <==> LastRoute(before, i, id, line);
      }
    }
  }

  ghost predicate LastChild(st: seq<Structure>, i: int, id: Id, parent: Id) {
    && 0 <= i < |st| && st[i].StopPlace? && st[i].id == id && st[i].parent == parent && id != "" && parent != ""
    && forall j :: i < j < |st| && st[j].StopPlace? && st[j].id == id ==> st[j].parent == ""
  }

  lemma {:induction false} ParentIs(st: seq<Structure>, id: Id, parent: Id)
    ensures id in ParentsOf(st) && ParentsOf(st)[id] == parent <==> exists i :: LastChild(st, i, id, parent)
  {
    if st != [] {
      var n := |st| - 1;
      var before := st[..n];
      ParentIs(before, id, parent);
      if st[n].StopPlace? && st[n].id == id && id != "" && st[n].parent != "" {
        assert LastChild(st, n, id, st[n].parent);
        assert forall i :: LastChild(st, i, id, parent) ==> i == n;
      } else {
        assert forall i :: LastChild(st, i, id, parent) <==> LastChild(before, i, id, parent);
      }
    }
  }

  ghost predicate LastOfQuay(st: seq<Structure>, i: int, q: Id, place: Id) {
    && 0 <= i < |st| && st[i].StopPlace? && st[i].id == place && place != "" && q in st[i].quays && q != ""
    && forall j :: i < j < |st| && st[j].StopPlace? && st[j].id != "" ==> q !in st[j].quays
  }

  lemma {:induction false} QuayIs(st: seq<Structure>, q: Id, place: Id)
    ensures q in QuaysOf(st) && QuaysOf(st)[q] == place <==> exists i :: LastOfQuay(st, i, q, place)
  {
    if st != [] {
      var n := |st| - 1;
      var before := st[..n];
      QuayIs(before, q, place);
      if st[n].StopPlace? && st[n].id != "" { StationOrder.QuaysInMember(QuaysOf(before), st[n].quays, st[n].id, q); }
      if st[n].StopPlace? && st[n].id != "" && q != "" && q in st[n].quays {
        assert LastOfQuay(st, n, q, st[n].id);
        assert forall i :: LastOfQuay(st, i, q, place) ==> i == n;
      } else {
        assert forall i :: LastOfQuay(st, i, q, place) <==> LastOfQuay(before, i, q, place);
      }
    }
  }

  // ----- roots

  /** Sixteen parents are followed at most; only one the archive defines is
      one. */
  lemma {:induction false} RootIs(places: Places, place: Id)
    ensures (place !in places.parents || places.parents[place] !in places.defined || places.parents[place] == "") ==>
      Root(places, place) == place
    ensures place in places.parents && places.parents[place] == place ==> Root(places, place) == place
    ensures forall n: nat :: n <= 16 && StationOrder.EndsAt(places, place, n) ==>
      StationOrder.Above(places, place, n) == Some(Root(places, place))
  {
    forall n: nat | n <= 16 && StationOrder.EndsAt(places, place, n)
      ensures StationOrder.Above(places, place, n) == Some(Root(places, place))
    {
      StationOrder.RootIsTop(places, place, n);
    }
  }

  /** A longer chain that does not come back is cut at the sixteenth. */
  lemma {:induction false} RootIsCut(places: Places, place: Id)
    requires StationOrder.Above(places, place, 16).Some?
    requires forall a: nat, b: nat :: a < b <= 16 ==>
      StationOrder.Above(places, place, a) != StationOrder.Above(places, place, b)
    ensures StationOrder.Above(places, place, 16) == Some(Root(places, place))
  {
    hide RootFrom;
    StationOrder.SeenFirst(places, place);
    assert StationOrder.Above(places, place, 0) == Some(place);
    RootFromLong(places, place, 0, {place}, 16, 16);
  }

  lemma {:induction false} RootFromLong(places: Places, place: Id, i: nat, seen: set<Id>, left: nat, n: nat)
    requires i + left == n && StationOrder.Above(places, place, n).Some?
    requires StationOrder.SeenUpTo(places, place, i, seen) && StationOrder.Above(places, place, i).Some?
    requires forall a: nat, b: nat :: a < b <= n ==>
      StationOrder.Above(places, place, a) != StationOrder.Above(places, place, b)
    ensures Some(RootFrom(places, place, StationOrder.Above(places, place, i).value, seen, left)) ==
      StationOrder.Above(places, place, n)
    decreases left
  {
    if left > 0 {
      StationOrder.AboveGoesOn(places, place, i, n);
      var next := StationOrder.Above(places, place, i + 1);
      forall k: nat | k <= i ensures !StationOrder.IsAbove(places, place, k, next.value) {}
      StationOrder.SeenMore(places, place, i, seen, next.value);
      RootFromLong(places, place, i + 1, seen + {next.value}, left - 1, n);
    }
  }

  // ----- counting

  lemma {:induction false} FlatSize<A(!new)>(list: seq<A>, f: A -> seq<()>, n: nat)
    requires n <= |list| && forall x <- list :: |f(x)| <= 1
    ensures |Flat(list[..n], f)| == |Marked(list, f, n)|
    decreases n
  {
    hide Flat, Marked;
    if n > 0 {
      FlatSize(list, f, n - 1);
      assert list[..n] == list[..n - 1] + [list[n - 1]];
      FlatLast(list[..n - 1], list[n - 1], f);
      MarkedMore(list, f, n);
    } else {
      NoneMarked(list, f);
    }
  }

  lemma NoneMarked<A(!new)>(list: seq<A>, f: A -> seq<()>)
    ensures Flat(list[..0], f) == [] && Marked(list, f, 0) == {}
  {
    assert list[..0] == [];
  }

  lemma MarkedMore<A(!new)>(list: seq<A>, f: A -> seq<()>, n: nat)
    requires 0 < n <= |list| && forall x <- list :: |f(x)| <= 1
    ensures |Marked(list, f, n)| == |Marked(list, f, n - 1)| + |f(list[n - 1])|
  {
    var before, after := Marked(list, f, n - 1), Marked(list, f, n);
    assert list[n - 1] in list;
    if |f(list[n - 1])| == 1 {
      assert after == before + {n - 1};
    } else {
      assert after == before;
    }
  }

  ghost function Marked<A(!new)>(list: seq<A>, f: A -> seq<()>, n: nat): set<int>
    requires n <= |list|
  {
    set i | 0 <= i < n && |f(list[i])| == 1
  }

  /** The pairs (i, j) below n and m with a property. */
  ghost function Pairs(n: nat, m: nat, p: (int, int) -> bool): set<(int, int)> {
    set i, j | 0 <= i < n && 0 <= j < m && p(i, j) :: (i, j)
  }

  ghost function RowOf(m: nat, p: (int, int) -> bool, i: int): set<int> { set j | 0 <= j < m && p(i, j) }

  ghost function Member<A>(row: set<A>): (x: A)
    requires |row| > 0
    ensures x in row
  {
    assert row != {};
    var x :| x in row;
    x
  }

  lemma {:induction false} SameSize(row: set<int>, i: int)
    ensures |set j | j in row :: (i, j)| == |row|
    decreases |row|
  {
    if |row| == 0 {
      assert (set j | j in row :: (i, j)) == {};
    } else {
      var x := Member(row);
      SameSize(row - {x}, i);
      assert (set j | j in row :: (i, j)) == (set j | j in row - {x} :: (i, j)) + {(i, x)};
    }
  }

  lemma {:induction false} PairsMore(n: nat, m: nat, p: (int, int) -> bool)
    ensures |Pairs(n + 1, m, p)| == |Pairs(n, m, p)| + |RowOf(m, p, n)|
  {
    var last := set j | j in RowOf(m, p, n) :: (n, j);
    SameSize(RowOf(m, p, n), n);
    assert Pairs(n + 1, m, p) == Pairs(n, m, p) + last;
    assert Pairs(n, m, p) !! last;
  }

  /** The triples (k, i, j), with i below a size of its own for each k. */
  ghost function Triples(k: nat, sizes: int -> nat, m: nat, p: (int, int, int) -> bool): set<(int, int, int)> {
    set h, i, j | 0 <= h < k && 0 <= i < sizes(h) && 0 <= j < m && p(h, i, j) :: (h, i, j)
  }

  function Slice(p: (int, int, int) -> bool, h: int): (int, int) -> bool { (i: int, j: int) => p(h, i, j) }

  lemma {:induction false} SamePairs(pairs: set<(int, int)>, h: int)
    ensures |set x | x in pairs :: (h, x.0, x.1)| == |pairs|
    decreases |pairs|
  {
    var all := set x | x in pairs :: (h, x.0, x.1);
    if pairs == {} {
      assert all == {};
    } else {
      var x :| x in pairs;
      SamePairs(pairs - {x}, h);
      assert all == (set y | y in pairs - {x} :: (h, y.0, y.1)) + {(h, x.0, x.1)};
    }
  }

  lemma {:induction false} TriplesMore(k: nat, sizes: int -> nat, m: nat, p: (int, int, int) -> bool)
    ensures |Triples(k + 1, sizes, m, p)| == |Triples(k, sizes, m, p)| + |Pairs(sizes(k), m, Slice(p, k))|
  {
    var last := set x | x in Pairs(sizes(k), m, Slice(p, k)) :: (k, x.0, x.1);
    SamePairs(Pairs(sizes(k), m, Slice(p, k)), k);
    var before, after := Triples(k, sizes, m, p), Triples(k + 1, sizes, m, p);
    forall h, i, j ensures (h, i, j) in last <==> h == k && (i, j) in Pairs(sizes(k), m, Slice(p, k)) {
      if (h, i, j) in last {
        var x :| x in Pairs(sizes(k), m, Slice(p, k)) && (k, x.0, x.1) == (h, i, j);
        assert x == (i, j);
      }
      if h == k && (i, j) in Pairs(sizes(k), m, Slice(p, k)) { assert (k, (i, j).0, (i, j).1) in last; }
    }
    assert after == before + last;
    assert before !! last;
  }

  // ----- the calls of one journey

  /** A call of a group at a point counts, by the j-th element, an assignment of
      the point. */
  ghost predicate CountsBy(
    places: Places, lines: Lines, g: Group, point: Id, st: seq<Structure>, j: int, root: Id, mode: CallMode)
  {
    && 0 <= j < |st| && st[j].Assignment? && st[j].point == point && point != ""
    && !(st[j].place.0 == "" && st[j].place.1 == "")
    && StationMode(places, lines, (st[j].place, g)) == Some(mode)
    && Root(places, StopPlaceOf(places, st[j].place)) == root
  }

  /** The calls a call makes at a station. */
  function Weight(places: Places, lines: Lines, st: seq<Structure>, root: Id, mode: CallMode): Call -> seq<()> {
    Then(PlacesOf(st), OneIfCounts(places, lines, root, mode))
  }

  lemma {:induction false} NormCounts(places: Places, lines: Lines, place: Place, g: Group)
    ensures StationMode(places, lines, (place, Norm(lines, g))) == StationMode(places, lines, (place, g))
  {
    NormOnce(lines, g);
  }

  /** A call counts once for each assignment that counts it. */
  lemma {:induction false} WeightIs(
    places: Places, lines: Lines, st: seq<Structure>, root: Id, mode: CallMode, point: Id, g: Group)
    ensures |Weight(places, lines, st, root, mode)((point, Norm(lines, g)))| ==
      |set j | 0 <= j < |st| && CountsBy(places, lines, g, point, st, j, root, mode)|
  {
    hide Flat, StationMode, Norm, StopPlaceOf, Root;
    var c := (point, Norm(lines, g));
    var one := OneIfCounts(places, lines, root, mode);
    var f := Then(PlacedBy(c), one);
    FlatFlat(st, PlacedBy(c), one);
    forall a ensures f(a) == if Assigns(a, point) && CountsAt(places, lines, (a.place, c.1), root, mode) then [()]
      else [] {
      if Assigns(a, point) {
        assert PlacedBy(c)(a) == [(a.place, c.1)];
        FlatOne((a.place, c.1), one);
      } else {
        assert PlacedBy(c)(a) == [];
        FlatNothing<Use, ()>([], one);
      }
    }
    FlatSize(st, f, |st|);
    assert st[..|st|] == st;
    forall j | 0 <= j < |st| ensures |f(st[j])| == 1 <==> CountsBy(places, lines, g, point, st, j, root, mode) {
      if st[j].Assignment? { NormCounts(places, lines, st[j].place, g); }
    }
    assert Marked(st, f, |st|) == set j | 0 <= j < |st| && CountsBy(places, lines, g, point, st, j, root, mode);
  }

  ghost function CountedBy(
    places: Places, lines: Lines, g: Group, points: seq<Id>, st: seq<Structure>, root: Id, mode: CallMode)
    : (int, int) -> bool
  {
    (i: int, j: int) => 0 <= i < |points| && CountsBy(places, lines, g, points[i], st, j, root, mode)
  }

  /** The calls at a list of points. */
  lemma {:induction false} CallsAtCount(
    places: Places, lines: Lines, st: seq<Structure>, root: Id, mode: CallMode, points: seq<Id>, n: nat, g: Group)
    requires n <= |points|
    ensures |Flat(CallsAt(points, Norm(lines, g))[..n], Weight(places, lines, st, root, mode))| ==
      |Pairs(n, |st|, CountedBy(places, lines, g, points, st, root, mode))|
    decreases n
  {
    hide Flat, Norm, CountsBy, Weight;
    var calls, w := CallsAt(points, Norm(lines, g)), Weight(places, lines, st, root, mode);
    var p := CountedBy(places, lines, g, points, st, root, mode);
    if n > 0 {
      var k := n - 1;
      CallsAtCount(places, lines, st, root, mode, points, k, g);
      assert calls[..n] == calls[..k] + [calls[k]];
      FlatLast(calls[..k], calls[k], w);
      WeightIs(places, lines, st, root, mode, points[k], g);
      assert RowOf(|st|, p, k) == set j | 0 <= j < |st| && CountsBy(places, lines, g, points[k], st, j, root, mode);
      PairsMore(k, |st|, p);
    } else {
      assert calls[..0] == [] && Pairs(0, |st|, p) == {};
      FlatNothing([], w);
    }
  }

  lemma {:induction false} NotKeptCounts(
    places: Places, lines: Lines, st: seq<Structure>, root: Id, mode: CallMode, points: seq<Id>, g: Group)
    requires !IsKept(lines, g)
    ensures Pairs(|points|, |st|, CountedBy(places, lines, g, points, st, root, mode)) == {}
  {
    forall i, j ensures !CountedBy(places, lines, g, points, st, root, mode)(i, j) {
      if 0 <= j < |st| && st[j].Assignment? { assert StationMode(places, lines, (st[j].place, g)) == None; }
    }
  }

  // ----- one more journey

  lemma {:induction false} NoNewLine(tt: seq<Timetable>, e: Timetable)
    requires e.Journey?
    ensures LinesOf(tt + [e]) == LinesOf(tt) && RoutesOf(tt + [e]) == RoutesOf(tt)
  {
    assert (tt + [e])[..|tt|] == tt;
  }

  lemma {:induction false} TotalIs(
    places: Places, lines: Lines, st: seq<Structure>, calls: seq<Call>, root: Id, mode: CallMode)
    ensures StationCalls(places, lines, Flat(calls, PlacesOf(st)), root, mode) ==
      |Flat(calls, Weight(places, lines, st, root, mode))|
  {
    FlatFlat(calls, PlacesOf(st), OneIfCounts(places, lines, root, mode));
  }

  /** A journey without a pattern adds, to the calls of a station by a mode, one
      for each of its calls and each assignment of the point called at that
      leads there and counts so. */
  lemma {:induction false} OneMoreJourney(
    tt: seq<Timetable>, e: Timetable, st: seq<Structure>, railByDefault: bool, root: Id, mode: CallMode)
    requires e.Journey? && e.pattern == ""
    ensures var places, lines := PlacesIn(st, railByDefault), LinesOf(tt);
      StationOrder.CallsOfStation(tt + [e], st, railByDefault, root, mode) ==
        StationOrder.CallsOfStation(tt, st, railByDefault, root, mode)
        + |set i, j | 0 <= i < |e.calls| && 0 <= j < |st|
             && CountsBy(places, lines, e.group, e.calls[i], st, j, root, mode) :: (i, j)|
  {
    hide Flat, LinesOf, RoutesOf, PlacesIn, IsKept, Norm, CountsBy, Weight, StationCalls, CallsOfPattern;
    NoNewLine(tt, e);
    var places, lines, routes := PlacesIn(st, railByDefault), LinesOf(tt), RoutesOf(tt);
    var w, g := Weight(places, lines, st, root, mode), e.group;
    var p := CountedBy(places, lines, g, e.calls, st, root, mode);
    FlatLast(tt, e, DirectCalls(lines));
    FlatLast(tt, e, PatternCalls(lines));
    var more := DirectCalls(lines)(e);
    assert PatternCalls(lines)(e) == [];
    var direct, byPattern := Flat(tt, DirectCalls(lines)), Flat(tt, PatternCalls(lines));
    assert byPattern + [] == byPattern;
    var rest := Flat(st, CallsOfPattern(lines, routes, byPattern));
    TotalIs(places, lines, st, direct + rest, root, mode);
    TotalIs(places, lines, st, direct + more + rest, root, mode);
    FlatConcat(direct, rest, w);
    FlatConcat(direct + more, rest, w);
    FlatConcat(direct, more, w);
    if IsKept(lines, g) {
      CallsAtCount(places, lines, st, root, mode, e.calls, |e.calls|, g);
      assert CallsAt(e.calls, Norm(lines, g))[..|e.calls|] == more;
    } else {
      NotKeptCounts(places, lines, st, root, mode, e.calls, g);
      FlatNothing([], w);
    }
    assert Pairs(|e.calls|, |st|, p) == set i, j | 0 <= i < |e.calls| && 0 <= j < |st|
      && CountsBy(places, lines, g, e.calls[i], st, j, root, mode) :: (i, j);
  }

  /** The group of a journey of a pattern: without a Line it takes the
      pattern's. */
  ghost function OfPattern(routes: map<Id, Id>, p: Structure, g: Group): Group
    requires p.Pattern?
  {
    if g.line == "" then g.(line := PatternLine(routes, p)) else g
  }

  ghost predicate CountsOnPattern(
    places: Places, lines: Lines, routes: map<Id, Id>, e: Timetable, st: seq<Structure>, k: int, i: int, j: int,
    root: Id, mode: CallMode)
    requires e.Journey?
  {
    && 0 <= k < |st| && st[k].Pattern? && st[k].id == e.pattern && 0 <= i < |st[k].served|
    && CountsBy(places, lines, OfPattern(routes, st[k], e.group), st[k].served[i], st, j, root, mode)
  }

  ghost function CountedOnPattern(
    places: Places, lines: Lines, routes: map<Id, Id>, e: Timetable, st: seq<Structure>, root: Id, mode: CallMode)
    : (int, int, int) -> bool
    requires e.Journey?
  {
    (k: int, i: int, j: int) => CountsOnPattern(places, lines, routes, e, st, k, i, j, root, mode)
  }

  ghost function ServedSize(st: seq<Structure>): int -> nat {
    (k: int) => if 0 <= k < |st| && st[k].Pattern? then |st[k].served| else 0
  }

  /** A group without a Line is completed by its pattern's Line only. */
  lemma {:induction false} ResolvedIs(lines: Lines, routes: map<Id, Id>, p: Structure, g: Group)
    requires p.Pattern? && "" !in lines
    ensures var resolved := Resolve(Norm(lines, g), PatternLine(routes, p));
      && Norm(lines, resolved) == Norm(lines, OfPattern(routes, p, g))
      && IsKept(lines, resolved) == IsKept(lines, OfPattern(routes, p, g))
    ensures IsKept(lines, OfPattern(routes, p, g)) ==> IsKept(lines, g)
  {
    hide PatternLine;
    NormOnce(lines, g);
  }

  /** What one journey of a pattern adds there. */
  function Added(lines: Lines, routes: map<Id, Id>, c: Call): Structure -> seq<Call> {
    (p: Structure) => if p.Pattern? then ServedBy(lines, routes, p)(c) else []
  }

  lemma {:induction false} AddedIs(lines: Lines, routes: map<Id, Id>, c: Call, p: Structure)
    requires p.Pattern?
    ensures var g := Resolve(c.1, PatternLine(routes, p));
      Added(lines, routes, c)(p) == if c.0 == p.id && IsKept(lines, g) then CallsAt(p.served, Norm(lines, g)) else []
  {
    hide IsKept, Norm, CallsAt;
    assert Added(lines, routes, c)(p) == ServedBy(lines, routes, p)(c);
  }

  lemma {:induction false} AddedAt(
    places: Places, lines: Lines, routes: map<Id, Id>, e: Timetable, st: seq<Structure>, k: nat, root: Id,
    mode: CallMode)
    requires e.Journey? && k < |st| && IsKept(lines, e.group) && "" !in lines
    ensures var c, p := (e.pattern, Norm(lines, e.group)), CountedOnPattern(places, lines, routes, e, st, root, mode);
      |Flat(Added(lines, routes, c)(st[k]), Weight(places, lines, st, root, mode))| ==
        |Pairs(ServedSize(st)(k), |st|, Slice(p, k))|
  {
    hide Flat, CountsBy, Weight, Norm, IsKept, PatternLine;
    var c, p := (e.pattern, Norm(lines, e.group)), CountedOnPattern(places, lines, routes, e, st, root, mode);
    var w, q := Weight(places, lines, st, root, mode), st[k];
    var none := Flat<Call, ()>([], w);
    FlatNothing([], w);
    if q.Pattern? { AddedIs(lines, routes, c, q); }
    if q.Pattern? && q.id == e.pattern {
      var g := OfPattern(routes, q, e.group);
      ResolvedIs(lines, routes, q, e.group);
      var r := CountedBy(places, lines, g, q.served, st, root, mode);
      if IsKept(lines, g) {
        CallsAtCount(places, lines, st, root, mode, q.served, |q.served|, g);
        assert CallsAt(q.served, Norm(lines, g))[..|q.served|] == CallsAt(q.served, Norm(lines, g));
      } else {
        NotKeptCounts(places, lines, st, root, mode, q.served, g);
      }
      assert Pairs(|q.served|, |st|, Slice(p, k)) == Pairs(|q.served|, |st|, r);
    } else {
      assert Added(lines, routes, c)(q) == [];
      assert Pairs(ServedSize(st)(k), |st|, Slice(p, k)) == {};
    }
  }

  lemma {:induction false} AddedCount(
    places: Places, lines: Lines, routes: map<Id, Id>, e: Timetable, st: seq<Structure>, n: nat, root: Id,
    mode: CallMode)
    requires e.Journey? && n <= |st| && IsKept(lines, e.group) && "" !in lines
    ensures var c, p := (e.pattern, Norm(lines, e.group)), CountedOnPattern(places, lines, routes, e, st, root, mode);
      |Flat(Flat(st[..n], Added(lines, routes, c)), Weight(places, lines, st, root, mode))| ==
        |Triples(n, ServedSize(st), |st|, p)|
    decreases n
  {
    hide Flat, CountsOnPattern, Weight, Norm, IsKept, Added, Slice, ServedSize;
    var c, p := (e.pattern, Norm(lines, e.group)), CountedOnPattern(places, lines, routes, e, st, root, mode);
    var f, w := Added(lines, routes, c), Weight(places, lines, st, root, mode);
    if n > 0 {
      var k := n - 1;
      AddedCount(places, lines, routes, e, st, k, root, mode);
      assert st[..n] == st[..k] + [st[k]];
      FlatLast(st[..k], st[k], f);
      FlatConcat(Flat(st[..k], f), f(st[k]), w);
      AddedAt(places, lines, routes, e, st, k, root, mode);
      TriplesMore(k, ServedSize(st), |st|, p);
    } else {
      assert st[..0] == [] && Triples(0, ServedSize(st), |st|, p) == {};
      FlatNothing([], f);
      FlatNothing([], w);
    }
  }

  lemma {:induction false} SizesAdd<A, B, C>(
    list: seq<A>, f: A -> seq<B>, g: A -> seq<B>, h: A -> seq<B>, w: B -> seq<C>)
    requires forall x <- list :: h(x) == f(x) + g(x)
    ensures |Flat(Flat(list, h), w)| == |Flat(Flat(list, f), w)| + |Flat(Flat(list, g), w)|
  {
    if list != [] {
      var x := list[0];
      assert x in list;
      SizesAdd(list[1..], f, g, h, w);
      FlatConcat(h(x), Flat(list[1..], h), w);
      FlatConcat(f(x), Flat(list[1..], f), w);
      FlatConcat(g(x), Flat(list[1..], g), w);
      FlatConcat(f(x), g(x), w);
    }
  }

  lemma {:induction false} NoneOfPattern(
    places: Places, lines: Lines, routes: map<Id, Id>, e: Timetable, st: seq<Structure>, root: Id, mode: CallMode)
    requires e.Journey? && !IsKept(lines, e.group) && "" !in lines
    ensures Triples(
      |st|, ServedSize(st), |st|, CountedOnPattern(places, lines, routes, e, st, root, mode)) == {}
  {
    hide PatternLine, IsKept, Norm;
    forall k, i, j ensures !CountsOnPattern(places, lines, routes, e, st, k, i, j, root, mode) {
      if 0 <= k < |st| && st[k].Pattern? && 0 <= i < |st[k].served| && 0 <= j < |st| && st[j].Assignment? {
        ResolvedIs(lines, routes, st[k], e.group);
        NotKeptNowhere(places, lines, OfPattern(routes, st[k], e.group), st[j].place);
      }
    }
  }

  lemma NotKeptNowhere(places: Places, lines: Lines, g: Group, place: Place)
    requires !IsKept(lines, g)
    ensures StationMode(places, lines, (place, g)) == None
  {
  }

  lemma {:induction false} ByPatternMore(
    lines: Lines, routes: map<Id, Id>, byPattern: seq<Call>, c: Call, p: Structure)
    ensures CallsOfPattern(lines, routes, byPattern + [c])(p) ==
      CallsOfPattern(lines, routes, byPattern)(p) + Added(lines, routes, c)(p)
  {
    if p.Pattern? { FlatLast(byPattern, c, ServedBy(lines, routes, p)); }
  }

  /** A journey that follows a pattern adds one call for each pattern of that
      id, each point it serves and each assignment of the point that leads to
      the station and counts so; without a Line it takes the pattern's. */
  lemma {:induction false} OneMoreOnPattern(
    tt: seq<Timetable>, e: Timetable, st: seq<Structure>, railByDefault: bool, root: Id, mode: CallMode)
    requires e.Journey? && e.pattern != ""
    ensures var places, lines, routes := PlacesIn(st, railByDefault), LinesOf(tt), RoutesOf(tt);
      StationOrder.CallsOfStation(tt + [e], st, railByDefault, root, mode) ==
        StationOrder.CallsOfStation(tt, st, railByDefault, root, mode)
        + |Triples(|st|, ServedSize(st), |st|, CountedOnPattern(places, lines, routes, e, st, root, mode))|
  {
    hide Flat, LinesOf, RoutesOf, PlacesIn, IsKept, Norm, CountsOnPattern, Weight, StationCalls, CallsOfPattern, Added,
      ServedBy;
    NoNewLine(tt, e);
    var places, lines, routes := PlacesIn(st, railByDefault), LinesOf(tt), RoutesOf(tt);
    StationOrder.LineMember(tt, "");
    var w, c := Weight(places, lines, st, root, mode), (e.pattern, Norm(lines, e.group));
    FlatLast(tt, e, DirectCalls(lines));
    FlatLast(tt, e, PatternCalls(lines));
    assert DirectCalls(lines)(e) == [];
    var direct, byPattern := Flat(tt, DirectCalls(lines)), Flat(tt, PatternCalls(lines));
    assert direct + [] == direct;
    var f := CallsOfPattern(lines, routes, byPattern);
    TotalIs(places, lines, st, direct + Flat(st, f), root, mode);
    FlatConcat(direct, Flat(st, f), w);
    if IsKept(lines, e.group) {
      var h := CallsOfPattern(lines, routes, byPattern + [c]);
      TotalIs(places, lines, st, direct + Flat(st, h), root, mode);
      FlatConcat(direct, Flat(st, h), w);
      forall p | p in st ensures h(p) == f(p) + Added(lines, routes, c)(p) {
        ByPatternMore(lines, routes, byPattern, c, p);
      }
      SizesAdd(st, f, Added(lines, routes, c), h, w);
      AddedCount(places, lines, routes, e, st, |st|, root, mode);
      assert st[..|st|] == st;
    } else {
      NoneOfPattern(places, lines, routes, e, st, root, mode);
      assert byPattern + [] == byPattern;
    }
  }

  /** Without journeys nothing is called at. */
  lemma {:induction false} NoJourneys(
    tt: seq<Timetable>, st: seq<Structure>, railByDefault: bool, root: Id, mode: CallMode)
    requires forall e <- tt :: !e.Journey?
    ensures StationOrder.CallsOfStation(tt, st, railByDefault, root, mode) == 0
  {
    hide LinesOf, RoutesOf, PlacesIn, Flat;
    var lines, routes := LinesOf(tt), RoutesOf(tt);
    FlatNothing(tt, DirectCalls(lines));
    FlatNothing(tt, PatternCalls(lines));
    var f := CallsOfPattern(lines, routes, []);
    forall p | p in st ensures f(p) == [] {
      if p.Pattern? { FlatNothing([], ServedBy(lines, routes, p)); }
    }
    FlatNothing(st, f);
    assert PointCalls(tt, st) == [];
    FlatNothing([], PlacesOf(st));
    FlatNothing([], OneIfCounts(PlacesIn(st, railByDefault), lines, root, mode));
  }

  // ----- operators

  lemma {:induction false} FlatMember<A(!new), B(!new)>(list: seq<A>, f: A -> seq<B>, y: B)
    ensures y in Flat(list, f) <==> exists x <- list :: y in f(x)
  {
    if list != [] {
      FlatMember(list[1..], f, y);
      assert list == [list[0]] + list[1..];
    }
  }

  /** The journey calls at the point itself. */
  ghost predicate CallsAlone(lines: Lines, e: Timetable, point: Id, g: Group) {
    e.Journey? && e.pattern == "" && IsKept(lines, e.group) && g == Norm(lines, e.group) && point in e.calls
  }

  /** The journey calls at a point its pattern serves. */
  ghost predicate CallsServed(
    lines: Lines, routes: map<Id, Id>, e: Timetable, p: Structure, point: Id, g: Group)
  {
    && e.Journey? && e.pattern != "" && p.Pattern? && p.id == e.pattern && point in p.served
    && IsKept(lines, OfPattern(routes, p, e.group)) && g == Norm(lines, OfPattern(routes, p, e.group))
  }

  lemma {:induction false} CallIn(tt: seq<Timetable>, st: seq<Structure>, point: Id, g: Group)
    ensures var lines, routes := LinesOf(tt), RoutesOf(tt);
      (point, g) in PointCalls(tt, st) <==>
        || (exists e <- tt :: CallsAlone(lines, e, point, g))
        || (exists e <- tt, p <- st :: CallsServed(lines, routes, e, p, point, g))
  {
    hide Flat, LinesOf, RoutesOf, IsKept, Norm, OfPattern, Resolve, PatternLine;
    var lines, routes, c := LinesOf(tt), RoutesOf(tt), (point, g);
    StationOrder.LineMember(tt, "");
    var byPattern := Flat(tt, PatternCalls(lines));
    FlatMember(tt, DirectCalls(lines), c);
    FlatMember(st, CallsOfPattern(lines, routes, byPattern), c);
    forall e ensures c in DirectCalls(lines)(e) <==> CallsAlone(lines, e, point, g) {
      if e.Journey? { CallAt(e.calls, Norm(lines, e.group), point, g); }
    }
    forall p ensures c in CallsOfPattern(lines, routes, byPattern)(p) <==>
      exists e <- tt :: CallsServed(lines, routes, e, p, point, g)
    {
      if p.Pattern? { ServedIn(tt, lines, routes, p, point, g); }
    }
  }

  lemma {:induction false} CallAt(points: seq<Id>, own: Group, point: Id, g: Group)
    ensures (point, g) in CallsAt(points, own) <==> g == own && point in points
  {
    if point in points {
      var i :| 0 <= i < |points| && points[i] == point;
      assert CallsAt(points, own)[i] == (point, own);
    }
  }

  lemma {:induction false} ServedIn(
    tt: seq<Timetable>, lines: Lines, routes: map<Id, Id>, p: Structure, point: Id, g: Group)
    requires p.Pattern? && "" !in lines
    ensures (point, g) in CallsOfPattern(lines, routes, Flat(tt, PatternCalls(lines)))(p) <==>
      exists e <- tt :: CallsServed(lines, routes, e, p, point, g)
  {
    hide Flat, IsKept, Norm, OfPattern, Resolve, PatternLine;
    var byPattern, c, f := Flat(tt, PatternCalls(lines)), (point, g), ServedBy(lines, routes, p);
    FlatMember(byPattern, f, c);
    forall b ensures b in byPattern <==> exists e <- tt :: b in PatternCalls(lines)(e) {
      FlatMember(tt, PatternCalls(lines), b);
    }
    forall e: Timetable ensures e.Journey? && e.pattern != "" && IsKept(lines, e.group) ==>
      (c in f((e.pattern, Norm(lines, e.group))) <==> CallsServed(lines, routes, e, p, point, g))
    {
      if e.Journey? {
        ResolvedIs(lines, routes, p, e.group);
        CallAt(p.served, Norm(lines, OfPattern(routes, p, e.group)), point, g);
      }
    }
    forall e ensures CallsServed(lines, routes, e, p, point, g) ==> IsKept(lines, e.group) {
      if e.Journey? { ResolvedIs(lines, routes, p, e.group); }
    }
    if e :| e in tt && CallsServed(lines, routes, e, p, point, g) {
      var b := (e.pattern, Norm(lines, e.group));
      assert b in PatternCalls(lines)(e);
      assert b in byPattern && c in f(b);
    }
  }

  ghost predicate AssignedTo(a: Structure, place: Place) {
    a.Assignment? && a.place == place && a.point != "" && !(place.0 == "" && place.1 == "")
  }

  /** A group calls at a place when it calls at a point assigned to it. */
  lemma {:induction false} UseIn(tt: seq<Timetable>, st: seq<Structure>, place: Place, g: Group)
    ensures (place, g) in PlaceCalls(tt, st) <==>
      exists a <- st :: AssignedTo(a, place) && (a.point, g) in PointCalls(tt, st)
  {
    hide Flat, PointCalls;
    var calls := PointCalls(tt, st);
    FlatMember(calls, PlacesOf(st), (place, g));
    forall c ensures (place, g) in PlacesOf(st)(c) <==> exists a <- st :: (place, g) in PlacedBy(c)(a) {
      FlatMember(st, PlacedBy(c), (place, g));
    }
    if a :| a in st && AssignedTo(a, place) && (a.point, g) in calls {
      assert (place, g) in PlacedBy((a.point, g))(a);
    }
  }

  /** Under what a group's calls and operators are kept, None for a group that
      is not. */
  lemma GivenIs(lines: Lines, g: Group)
    ensures var n := Norm(lines, g);
      UseMode(lines, g) ==
        match n.mode
        case Other(_) => None
        case Rail => Some(if IsSuburban(n.submode) then Suburban else Main)
        case NoMode =>
          if n.submode.Given? && n.submode.notRail then Some(UnknownNotRail)
          else if IsSuburban(n.submode) then Some(UnknownSuburban)
          else Some(Unknown)
  {
  }

  /** A group brings its operators, its own and its Line's, to a station where
      another at the same place counts by a mode: if it is kept under that mode,
      or as the other is, or, for main rail, without a mode. */
  lemma {:induction false} BringsWhen(
    places: Places, lines: Lines, place: Place, g: Group, h: Group, root: Id, operator: Id)
    ensures Brings(places, lines, (place, g), (place, h), root, operator) <==>
      && StationMode(places, lines, (place, g)).Some? && Root(places, StopPlaceOf(places, place)) == root
      && (operator in h.operators || (h.line in lines && operator in lines[h.line].operators))
      && UseMode(lines, h).Some?
      && (UseMode(lines, h) == StationMode(places, lines, (place, g))
          || UseMode(lines, h) == UseMode(lines, g)
          || (StationMode(places, lines, (place, g)) == Some(Main) && Norm(lines, h).mode == NoMode))
  {
    hide Root, StopPlaceOf, Norm;
  }

  /** A station has exactly the operators brought there. */
  lemma {:induction false} OperatorsAre(
    tt: seq<Timetable>, st: seq<Structure>, railByDefault: bool, root: Id, operator: Id)
    ensures var places, lines := PlacesIn(st, railByDefault), LinesOf(tt);
      StationOrder.OperatorOfStation(tt, st, railByDefault, root, operator) <==>
        exists place, g, h ::
          && (place, g) in PlaceCalls(tt, st) && (place, h) in PlaceCalls(tt, st)
          && Brings(places, lines, (place, g), (place, h), root, operator)
  {
    hide PlacesIn, LinesOf, PlaceCalls, Brings;
    var places, lines := PlacesIn(st, railByDefault), LinesOf(tt);
    if a, b :| a in PlaceCalls(tt, st) && b in PlaceCalls(tt, st) && Brings(places, lines, a, b, root, operator) {
      SamePlace(places, lines, a, b, root, operator);
      assert a == (a.0, a.1) && b == (a.0, b.1);
    }
  }

  lemma SamePlace(places: Places, lines: Lines, a: Use, b: Use, root: Id, operator: Id)
    requires Brings(places, lines, a, b, root, operator)
    ensures a.0 == b.0
  {
  }
}
