/** The NeTEx station reader (app/station_extract_netex.py): the calls by
    mode and the operators of each station, as a meaning of the archive. */
module StationSpec {
  import opened Bytes
  import opened StationLists

  type Id = string

  datatype Mode = NoMode | Rail | Other(name: string)

  /** A submode may be given in an element of another mode than rail. */
  datatype Submode = NoSubmode | Given(word: string, notRail: bool, suburban: bool)

  datatype LineInfo = LineInfo(mode: Mode, submode: Submode, operators: seq<Id>)

  /** A group of journeys: their Line, mode, submode and operators. */
  datatype Group = Group(line: Id, mode: Mode, submode: Submode, operators: seq<Id>)

  /** What the first pass reads; an absent reference is the empty string. */
  datatype Timetable =
    | Line(id: Id, info: LineInfo)
    | Route(id: Id, line: Id)
    | Journey(group: Group, pattern: Id, calls: seq<Id>)

  type Place = (Id, Id)

  /** What the second pass reads; an assignment's place is its Quay and its
      StopPlace. */
  datatype Structure =
    | Pattern(id: Id, line: Id, route: Id, served: seq<Id>)
    | Assignment(point: Id, place: Place)
    | StopPlace(id: Id, parent: Id, rail: bool, modeless: bool, quays: seq<Id>)

  // ----- a journey's mode, completed from its Line

  type Lines = map<Id, LineInfo>

  function WithLine(mode: Mode, submode: Submode, info: Option<LineInfo>): (Mode, Submode) {
    if info.None? then (mode, submode)
    else if mode.NoMode? then
      (info.value.mode, if !info.value.mode.NoMode? || submode.NoSubmode? then info.value.submode else submode)
    else if mode == info.value.mode && submode.NoSubmode? then (mode, info.value.submode)
    else (mode, submode)
  }

  function LineOf(lines: Lines, line: Id): Option<LineInfo> { if line in lines then Some(lines[line]) else None }

  /** The group with the mode and submode its Line gives it. */
  function Norm(lines: Lines, g: Group): Group {
    var (mode, submode) := WithLine(g.mode, g.submode, LineOf(lines, g.line));
    g.(mode := mode, submode := submode)
  }

  /** Completing twice is completing once. */
  lemma NormOnce(lines: Lines, g: Group)
    ensures Norm(lines, Norm(lines, g)) == Norm(lines, g)
  {
  }

  /** The mode of calls: main or suburban rail, or not given (and then maybe
      with a submode that tells). */
  datatype CallMode = Main | Suburban | Unknown | UnknownNotRail | UnknownSuburban

  function ModeOf(mode: Mode, submode: Submode): Option<CallMode> {
    if mode.NoMode? then Some(Unknown)
    else if mode != Rail then None
    else if submode.Given? && submode.suburban then Some(Suburban)
    else Some(Main)
  }

  predicate IsKept(lines: Lines, g: Group) { var n := Norm(lines, g); ModeOf(n.mode, n.submode).Some? }

  function UseMode(lines: Lines, g: Group): Option<CallMode> {
    var n := Norm(lines, g);
    var mode := ModeOf(n.mode, n.submode);
    if mode != Some(Unknown) then mode
    else if n.submode.Given? && n.submode.notRail then Some(UnknownNotRail)
    else if n.submode.Given? && n.submode.suburban then Some(UnknownSuburban)
    else mode
  }

  function OperatorsOf(lines: Lines, g: Group): seq<Id> {
    g.operators + if g.line in lines then lines[g.line].operators else []
  }

  // ----- the maps the passes build

  function LinesOf(items: seq<Timetable>): Lines {
    if items == [] then map[]
    else
      var lines, last := LinesOf(items[..|items| - 1]), items[|items| - 1];
      if last.Line? && last.id != "" then lines[last.id := last.info] else lines
  }

  function RoutesOf(items: seq<Timetable>): map<Id, Id> {
    if items == [] then map[]
    else
      var routes, last := RoutesOf(items[..|items| - 1]), items[|items| - 1];
      if last.Route? && last.id != "" && last.line != "" then routes[last.id := last.line] else routes
  }

  function ParentsOf(items: seq<Structure>): map<Id, Id> {
    if items == [] then map[]
    else
      var parents, last := ParentsOf(items[..|items| - 1]), items[|items| - 1];
      if last.StopPlace? && last.id != "" && last.parent != "" then parents[last.id := last.parent] else parents
  }

  function QuaysIn(quays: map<Id, Id>, ids: seq<Id>, place: Id): map<Id, Id> {
    if ids == [] then quays
    else
      var before, last := QuaysIn(quays, ids[..|ids| - 1], place), ids[|ids| - 1];
      if last != "" then before[last := place] else before
  }

  function QuaysOf(items: seq<Structure>): map<Id, Id> {
    if items == [] then map[]
    else
      var quays, last := QuaysOf(items[..|items| - 1]), items[|items| - 1];
      if last.StopPlace? && last.id != "" then QuaysIn(quays, last.quays, last.id) else quays
  }

  function DefinedBy(items: seq<Structure>): set<Id> {
    set item <- items | item.StopPlace? && item.id != "" :: item.id
  }

  function RailPlaces(items: seq<Structure>): set<Id> {
    set item <- items | item.StopPlace? && item.id != "" && item.rail :: item.id
  }

  /** Only with rail by default: the StopPlaces without mode and type. */
  function ModelessPlaces(items: seq<Structure>, railByDefault: bool): set<Id> {
    set item <- items | railByDefault && item.StopPlace? && item.id != "" && !item.rail && item.modeless :: item.id
  }

  // ----- the calls, as lists without regard to order

  type Call = (Id, Group)

  /** The journeys that follow a pattern, with the group they end with. */
  function PatternCalls(lines: Lines): Timetable -> seq<Call> {
    (e: Timetable) =>
      if e.Journey? && e.pattern != "" && IsKept(lines, e.group) then [(e.pattern, Norm(lines, e.group))] else []
  }

  /** The points called at by the journeys without a pattern. */
  function DirectCalls(lines: Lines): Timetable -> seq<Call> {
    (e: Timetable) =>
      if e.Journey? && e.pattern == "" && IsKept(lines, e.group)
      then CallsAt(e.calls, Norm(lines, e.group)) else []
  }

  function CallsAt(points: seq<Id>, g: Group): (r: seq<Call>)
    ensures |r| == |points| && forall i :: 0 <= i < |r| ==> r[i] == (points[i], g)
  {
    seq(|points|, i requires 0 <= i < |points| => (points[i], g))
  }

  function PatternLine(routes: map<Id, Id>, p: Structure): Id
    requires p.Pattern?
  {
    if p.line != "" then p.line else if p.route in routes then routes[p.route] else ""
  }

  /** A group without a Line takes its pattern's. */
  function Resolve(g: Group, line: Id): Group { if g.line == "" && line != "" then g.(line := line) else g }

  /** One journey of a pattern calls at each point the pattern serves. */
  function ServedBy(lines: Lines, routes: map<Id, Id>, p: Structure): Call -> seq<Call>
    requires p.Pattern?
  {
    (c: Call) =>
      var g := Resolve(c.1, PatternLine(routes, p));
      if c.0 == p.id && IsKept(lines, g) then CallsAt(p.served, Norm(lines, g)) else []
  }

  function CallsOfPattern(lines: Lines, routes: map<Id, Id>, byPattern: seq<Call>): Structure -> seq<Call> {
    (p: Structure) => if p.Pattern? then Flat(byPattern, ServedBy(lines, routes, p)) else []
  }

  /** Every call of a kept journey, at its scheduled stop point. */
  function PointCalls(tt: seq<Timetable>, st: seq<Structure>): seq<Call> {
    var lines, routes := LinesOf(tt), RoutesOf(tt);
    Flat(tt, DirectCalls(lines)) + Flat(st, CallsOfPattern(lines, routes, Flat(tt, PatternCalls(lines))))
  }

  type Use = (Place, Group)

  predicate Assigns(a: Structure, point: Id) {
    a.Assignment? && a.point == point && point != "" && (a.place.0 != "" || a.place.1 != "")
  }

  function PlacedBy(c: Call): Structure -> seq<Use> {
    (a: Structure) => if Assigns(a, c.0) then [(a.place, c.1)] else []
  }

  /** A call counts at every place its point is assigned to. */
  function PlacesOf(st: seq<Structure>): Call -> seq<Use> {
    (c: Call) => Flat(st, PlacedBy(c))
  }

  function PlaceCalls(tt: seq<Timetable>, st: seq<Structure>): seq<Use> {
    Flat(PointCalls(tt, st), PlacesOf(st))
  }

  // ----- stations

  /** The StopPlace structure once the whole archive has been read. */
  datatype Places = Places(defined: set<Id>, parents: map<Id, Id>, quays: map<Id, Id>, rail: set<Id>, modeless: set<Id>)

  function PlacesIn(st: seq<Structure>, railByDefault: bool): Places {
    Places(DefinedBy(st), ParentsOf(st), QuaysOf(st), RailPlaces(st), ModelessPlaces(st, railByDefault))
  }

  function RefPlace(places: Places, ref: Id): Id {
    if ref in places.defined then ref else if ref in places.quays then places.quays[ref] else ref
  }

  function StopPlaceOf(places: Places, place: Place): Id {
    if place.0 in places.quays then places.quays[place.0] else RefPlace(places, place.1)
  }

  const PARENT_DEPTH := 16

  /** The parent that counts: one the archive defines. */
  function ParentOf(places: Places, place: Id): Option<Id> {
    if place in places.parents && places.parents[place] != "" && places.parents[place] in places.defined
    then Some(places.parents[place]) else None
  }

  /** `_root` after the places of `seen`, with `left` steps to go. */
  function RootFrom(places: Places, place: Id, current: Id, seen: set<Id>, left: nat): Id
    decreases left
  {
    if left == 0 then current
    else
      var parent := ParentOf(places, current);
      if parent.None? then current
      else if parent.value in seen then place
      else RootFrom(places, place, parent.value, seen + {parent.value}, left - 1)
  }

  function Root(places: Places, place: Id): Id { RootFrom(places, place, place, {place}, PARENT_DEPTH) }

  predicate IsUnknown(mode: CallMode) { mode.Unknown? || mode.UnknownNotRail? || mode.UnknownSuburban? }

  function CallModeAt(places: Places, given: CallMode, place: Id): Option<CallMode> {
    if !IsUnknown(given) then Some(given)
    else if place in places.rail then Some(Main)
    else if place !in places.modeless || given == UnknownNotRail then None
    else if given == UnknownSuburban then Some(Suburban)
    else Some(Main)
  }

  /** The mode a call counts with at a station, None when not at all. */
  function StationMode(places: Places, lines: Lines, use: Use): Option<CallMode> {
    var place, given := StopPlaceOf(places, use.0), UseMode(lines, use.1);
    if place == "" || given.None? then None else CallModeAt(places, given.value, place)
  }

  predicate CountsAt(places: Places, lines: Lines, use: Use, root: Id, mode: CallMode) {
    StationMode(places, lines, use) == Some(mode) && Root(places, StopPlaceOf(places, use.0)) == root
  }

  function OneIfCounts(places: Places, lines: Lines, root: Id, mode: CallMode): Use -> seq<()> {
    (use: Use) => if CountsAt(places, lines, use, root, mode) then [()] else []
  }

  /** The calls of a mode at a station. */
  function StationCalls(places: Places, lines: Lines, uses: seq<Use>, root: Id, mode: CallMode): nat {
    |Flat(uses, OneIfCounts(places, lines, root, mode))|
  }

  /** The operators of which modes count for calls given as `given` that
      count as `mode`. */
  predicate OperatorMode(mode: CallMode, given: CallMode, key: CallMode) {
    key == mode || key == given || (mode == Main && IsUnknown(key))
  }

  /** A group at a place brings its operator to the station, by a group there
      that counts. */
  predicate Brings(places: Places, lines: Lines, a: Use, b: Use, root: Id, operator: Id) {
    && a.0 == b.0 && StationMode(places, lines, a).Some? && Root(places, StopPlaceOf(places, a.0)) == root
    && UseMode(lines, a.1).Some? && UseMode(lines, b.1).Some?
    && OperatorMode(StationMode(places, lines, a).value, UseMode(lines, a.1).value, UseMode(lines, b.1).value)
    && operator in OperatorsOf(lines, b.1)
  }

  ghost predicate HasOperator(places: Places, lines: Lines, uses: seq<Use>, root: Id, operator: Id) {
    exists a, b :: a in uses && b in uses && Brings(places, lines, a, b, root, operator)
  }
}
