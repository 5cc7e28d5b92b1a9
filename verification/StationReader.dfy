/** The passes of the NeTEx station reader over its dictionaries
    (app/station_extract_netex.py), proved against the order-free meaning. */
module StationReader {
  import opened Bytes
  import opened StationLists
  import opened StationSpec
  import opened StationTally
  import StationOrder

  const GROUPS_MAX := 1_000_000

  type Log = seq<(Id, int)>

  ghost predicate InRange(log: Log, groups: seq<Group>) { forall x <- log :: 0 <= x.1 < |groups| }

  predicate IsRail(lines: Lines, groups: seq<Group>, n: int) { 0 <= n < |groups| && IsKept(lines, groups[n]) }

  /** A call of the log with the group it ends with, if it ends as rail. */
  function Ends(lines: Lines, groups: seq<Group>): ((Id, int)) -> seq<Call> {
    (x: (Id, int)) => if IsRail(lines, groups, x.1) then [(x.0, Norm(lines, groups[x.1]))] else []
  }

  lemma {:induction false} EndsGrow(log: Log, lines: Lines, groups: seq<Group>, more: seq<Group>)
    requires InRange(log, groups) && groups <= more
    ensures Flat(log, Ends(lines, more)) == Flat(log, Ends(lines, groups))
  {
    if log != [] {
      assert log[0] in log;
      EndsGrow(log[1..], lines, groups, more);
    }
  }

  // ----- early and late filtering

  /** What is known of a group's Line when its journey is read is what will be
      known in the end, or nothing. */
  predicate KnownSoFar(soFar: Lines, lines: Lines, line: Id) {
    line in soFar ==> line in lines && soFar[line] == lines[line]
  }

  /** Dropping a journey by what is known of its Line drops only what the
      whole archive would drop, and completing it early changes nothing. */
  lemma EarlyIsLate(soFar: Lines, lines: Lines, g: Group)
    requires KnownSoFar(soFar, lines, g.line)
    ensures !IsKept(soFar, g) ==> !IsKept(lines, g)
    ensures IsKept(lines, Norm(soFar, g)) == IsKept(lines, g) && Norm(lines, Norm(soFar, g)) == Norm(lines, g)
  {
  }

  /** An element as it is read when the Lines before it are known: a journey
      completed from its Line, or passed over. */
  function Seen(lines: Lines, e: Timetable): Timetable {
    if !e.Journey? then e
    else if IsKept(lines, e.group) then e.(group := Norm(lines, e.group))
    else Route("", "")
  }

  function AsRead(tt: seq<Timetable>): (r: seq<Timetable>)
    ensures |r| == |tt|
  {
    if tt == [] then []
    else
      var n := |tt| - 1;
      AsRead(tt[..n]) + [Seen(LinesOf(tt[..n]), tt[n])]
  }

  lemma {:induction false} AsReadAt(tt: seq<Timetable>, i: nat)
    requires i < |tt|
    ensures AsRead(tt)[i] == Seen(LinesOf(tt[..i]), tt[i])
  {
    hide LinesOf;
    var n := |tt| - 1;
    if i < n {
      AsReadAt(tt[..n], i);
      assert tt[..n][..i] == tt[..i];
    }
  }

  /** Passing journeys over leaves the Lines and Routes. */
  lemma {:induction false} LinesAsRead(tt: seq<Timetable>)
    ensures LinesOf(AsRead(tt)) == LinesOf(tt) && RoutesOf(AsRead(tt)) == RoutesOf(tt)
  {
    if tt != [] {
      var n := |tt| - 1;
      LinesAsRead(tt[..n]);
      assert AsRead(tt)[..n] == AsRead(tt[..n]);
    }
  }

  /** No Line is given anew, and differently, after a journey that names it. */
  ghost predicate LinesSettled(tt: seq<Timetable>) {
    forall i :: 0 <= i < |tt| && tt[i].Journey? ==> KnownSoFar(LinesOf(tt[..i]), LinesOf(tt), tt[i].group.line)
  }

  lemma {:induction false} SeenIsSame(soFar: Lines, lines: Lines, e: Timetable)
    requires e.Journey? ==> KnownSoFar(soFar, lines, e.group.line)
    ensures PatternCalls(lines)(Seen(soFar, e)) == PatternCalls(lines)(e)
    ensures DirectCalls(lines)(Seen(soFar, e)) == DirectCalls(lines)(e)
  {
    hide Norm, IsKept, CallsAt;
    if e.Journey? { EarlyIsLate(soFar, lines, e.group); }
  }

  lemma {:induction false} SettledUpTo(tt: seq<Timetable>, i: nat)
    requires LinesSettled(tt) && i <= |tt|
    ensures Flat(AsRead(tt)[..i], PatternCalls(LinesOf(tt))) == Flat(tt[..i], PatternCalls(LinesOf(tt)))
    ensures Flat(AsRead(tt)[..i], DirectCalls(LinesOf(tt))) == Flat(tt[..i], DirectCalls(LinesOf(tt)))
    decreases i
  {
    hide Flat, LinesOf, PatternCalls, DirectCalls, Seen, KnownSoFar;
    if i > 0 {
      var n := i - 1;
      SettledUpTo(tt, n);
      AsReadAt(tt, n);
      SeenIsSame(LinesOf(tt[..n]), LinesOf(tt), tt[n]);
      assert tt[..i] == tt[..n] + [tt[n]] && AsRead(tt)[..i] == AsRead(tt)[..n] + [AsRead(tt)[n]];
      FlatLast(tt[..n], tt[n], PatternCalls(LinesOf(tt)));
      FlatLast(tt[..n], tt[n], DirectCalls(LinesOf(tt)));
      FlatLast(AsRead(tt)[..n], AsRead(tt)[n], PatternCalls(LinesOf(tt)));
      FlatLast(AsRead(tt)[..n], AsRead(tt)[n], DirectCalls(LinesOf(tt)));
    } else {
      assert tt[..0] == [] && AsRead(tt)[..0] == [];
    }
  }

  /** With Lines settled, journeys read as they come are the journeys of the
      archive. */
  lemma {:induction false} SettledIsAsRead(tt: seq<Timetable>, st: seq<Structure>)
    requires LinesSettled(tt)
    ensures LinesOf(AsRead(tt)) == LinesOf(tt) && PointCalls(AsRead(tt), st) == PointCalls(tt, st)
  {
    hide Flat, LinesOf, RoutesOf, PatternCalls, DirectCalls, LinesSettled, CallsOfPattern;
    LinesAsRead(tt);
    SettledUpTo(tt, |tt|);
    assert tt[..|tt|] == tt && AsRead(tt)[..|tt|] == AsRead(tt);
  }

  /** Ids that name one Line settle it, whatever the order. */
  lemma {:induction false} UniqueIsSettled(tt: seq<Timetable>)
    requires StationOrder.UniqueTimetable(tt)
    ensures LinesSettled(tt)
  {
    hide LinesOf;
    forall i | 0 <= i < |tt| && tt[i].Journey? ensures KnownSoFar(LinesOf(tt[..i]), LinesOf(tt), tt[i].group.line) {
      StationOrder.LineMember(tt[..i], tt[i].group.line);
      StationOrder.LineMember(tt, tt[i].group.line);
    }
  }

  const BUS := LineInfo(Other("bus"), NoSubmode, [])
  const TRAIN := LineInfo(Rail, NoSubmode, [])
  const CALLING := Journey(Group("L", NoMode, NoSubmode, []), "", ["p"])

  /** A Line given as a bus, then named by a journey, then given as rail. */
  const REDEFINED: seq<Timetable> := [Line("L", BUS), CALLING, Line("L", TRAIN)]

  /** The journey is passed over, although its Line is rail in the end. */
  lemma {:induction false} RedefinedLine()
    ensures PointCalls(AsRead(REDEFINED), []) == [] && |PointCalls(REDEFINED, [])| == 1
  {
    hide LinesOf, RoutesOf, AsRead, DirectCalls, PatternCalls, CallsOfPattern;
    RedefinedLines();
    RedefinedAsRead();
    LinesAsRead(REDEFINED);
    RedefinedCalls();
  }

  lemma {:induction false} RedefinedAsRead()
    ensures AsRead(REDEFINED) == [Line("L", BUS), Route("", ""), Line("L", TRAIN)]
  {
    hide LinesOf, AsRead;
    RedefinedLines();
    AsReadAt(REDEFINED, 0);
    AsReadAt(REDEFINED, 1);
    AsReadAt(REDEFINED, 2);
  }

  lemma {:induction false} RedefinedCalls()
    ensures var f := DirectCalls(map["L" := TRAIN]);
      && Flat([Line("L", BUS), Route("", ""), Line("L", TRAIN)], f) == []
      && Flat(REDEFINED, f) == [("p", Norm(map["L" := TRAIN], CALLING.group))]
  {
    hide Flat;
    var f, first, last := DirectCalls(map["L" := TRAIN]), Line("L", BUS), Line("L", TRAIN);
    FlatNothing([first, Route("", ""), last], f);
    assert REDEFINED == [first] + [CALLING] + [last];
    FlatConcat([first] + [CALLING], [last], f);
    FlatConcat([first], [CALLING], f);
    FlatOne(CALLING, f);
    FlatNothing([first], f);
    FlatNothing([last], f);
    assert f(CALLING) == [("p", Norm(map["L" := TRAIN], CALLING.group))];
  }

  lemma {:induction false} RedefinedLines()
    ensures LinesOf(REDEFINED[..1]) == map["L" := BUS] && LinesOf(REDEFINED) == map["L" := TRAIN]
  {
    LinesStep(REDEFINED, 0);
    LinesStep(REDEFINED, 1);
    LinesStep(REDEFINED, 2);
    assert REDEFINED[..0] == [] && REDEFINED[..3] == REDEFINED;
  }

  // ----- the numbers of groups

  /** Each group has one number, and its number names it. */
  ghost predicate AreNumbers(ids: map<Group, int>, groups: seq<Group>) {
    && (forall g :: g in ids ==> 0 <= ids[g] < |groups| && groups[ids[g]] == g)
    && forall i :: 0 <= i < |groups| ==> groups[i] in ids && ids[groups[i]] == i
  }

  ghost predicate AllDiffer(groups: seq<Group>) { forall i, j :: 0 <= i < j < |groups| ==> groups[i] != groups[j] }

  ghost predicate AddedOnly(was: seq<Group>, now: seq<Group>, g: Group) { forall x <- now :: x in was || x == g }

  /** A million groups are numbered, and this is another. */
  ghost predicate IsFull(groups: seq<Group>, g: Group) {
    |groups| == 1_000_000 && g !in groups && AllDiffer(groups)
  }

  lemma NumbersDiffer(ids: map<Group, int>, groups: seq<Group>, g: Group)
    requires AreNumbers(ids, groups)
    ensures AllDiffer(groups) && (g !in ids ==> g !in groups)
  {
  }

  /** A group of the archive: of a journey as it was read, or that group with
      the Line of a pattern. */
  ghost predicate OfArchive(read: seq<Timetable>, st: seq<Structure>, g: Group) {
    exists e <- read :: e.Journey? && (g == e.group || IsResolved(read, st, e.group, g))
  }

  ghost predicate IsResolved(read: seq<Timetable>, st: seq<Structure>, h: Group, g: Group) {
    exists p <- st :: p.Pattern? && g == Resolve(h, PatternLine(RoutesOf(read), p))
  }

  ghost predicate AllOfArchive(read: seq<Timetable>, st: seq<Structure>, groups: seq<Group>) {
    forall g <- groups :: OfArchive(read, st, g)
  }

  /** More than a million groups. */
  ghost predicate TooMany(read: seq<Timetable>, st: seq<Structure>) {
    exists groups :: |groups| > 1_000_000 && AllDiffer(groups) && AllOfArchive(read, st, groups)
  }

  lemma {:induction false} FullIsTooMany(read: seq<Timetable>, st: seq<Structure>, groups: seq<Group>, g: Group)
    requires IsFull(groups, g) && AllOfArchive(read, st, groups) && OfArchive(read, st, g)
    ensures TooMany(read, st)
  {
    hide OfArchive;
    var all := groups + [g];
    assert |all| > 1_000_000 && AllDiffer(all) && AllOfArchive(read, st, all);
  }

  lemma {:induction false} WithStructure(read: seq<Timetable>, st: seq<Structure>)
    ensures TooMany(read, []) ==> TooMany(read, st)
    ensures forall groups :: AllOfArchive(read, [], groups) ==> AllOfArchive(read, st, groups)
  {
    forall g ensures OfArchive(read, [], g) ==> OfArchive(read, st, g) {}
    if TooMany(read, []) {
      var groups :| |groups| > 1_000_000 && AllDiffer(groups) && AllOfArchive(read, [], groups);
      assert AllOfArchive(read, st, groups);
    }
  }

  /** Only groups of the archive are added when a pattern is read. */
  lemma {:induction false} ResolvedOfArchive(read: seq<Timetable>, st: seq<Structure>, h: Group, p: Structure)
    requires OfArchive(read, st, h) && p in st && p.Pattern?
    ensures OfArchive(read, st, Resolve(h, PatternLine(RoutesOf(read), p)))
  {
    hide PatternLine, RoutesOf;
    var e :| e in read && e.Journey? && (h == e.group || IsResolved(read, st, e.group, h));
    var g := Resolve(h, PatternLine(RoutesOf(read), p));
    if h == e.group {
      assert IsResolved(read, st, e.group, g);
    } else {
      assert g == h;
    }
  }

  class Journeys {
    var lines: Lines
    var routes: map<Id, Id>
    var ids: map<Group, int>
    var groups: seq<Group>
    var byPattern: map<Id, Tally>
    var points: map<Id, Tally>
    /** The single calls the tables count. */
    ghost var patternLog: Log
    ghost var pointLog: Log

    ghost predicate Valid()
      reads this
    {
      && |groups| <= GROUPS_MAX && AreNumbers(ids, groups)
      && Stands(byPattern, patternLog) && Stands(points, pointLog)
      && InRange(patternLog, groups) && InRange(pointLog, groups)
      && AllProper(byPattern, |groups|) && AllProper(points, |groups|)
    }

    constructor ()
      ensures Valid() && lines == map[] && routes == map[] && patternLog == [] && pointLog == [] && groups == []
    {
      lines, routes, ids, groups, byPattern, points := map[], map[], map[], [], map[], map[];
      patternLog, pointLog := [], [];
    }

    /** The number of a group, None when there are too many. */
    method IdOf(g: Group) returns (n: Option<int>)
      requires Valid()
      modifies this`ids, this`groups
      ensures Valid() && old(groups) <= groups && AddedOnly(old(groups), groups, g)
      ensures n.Some? ==> 0 <= n.value < |groups| && groups[n.value] == g
      ensures n.None? ==> IsFull(groups, g)
    {
      if g in ids { return Some(ids[g]); }
      if |groups| >= GROUPS_MAX {
        NumbersDiffer(ids, groups, g);
        return None;
      }
      ids := ids[g := |groups|];
      groups := groups + [g];
      return Some(|groups| - 1);
    }

    method AddPattern(pattern: Id, n: int)
      requires Valid() && 0 <= n < |groups|
      modifies this`byPattern, this`patternLog
      ensures Valid() && patternLog == old(patternLog) + [(pattern, n)]
    {
      AddStands(byPattern, patternLog, pattern, n, 1);
      AddProper(byPattern, pattern, n, 1, |groups|);
      byPattern := TallyAdd(byPattern, pattern, n, 1);
      patternLog := patternLog + Repeat((pattern, n), 1);
    }

    method AddPoint(point: Id, n: int, count: nat)
      requires Valid() && 0 <= n < |groups| && count > 0
      modifies this`points, this`pointLog
      ensures Valid() && pointLog == old(pointLog) + Repeat((point, n), count)
    {
      AddStands(points, pointLog, point, n, count);
      AddProper(points, point, n, count, |groups|);
      points := TallyAdd(points, point, n, count);
      pointLog := pointLog + Repeat((point, n), count);
    }

    method AddCalls(calls: seq<Id>, n: int)
      requires Valid() && 0 <= n < |groups|
      modifies this`points, this`pointLog
      ensures Valid() && pointLog == old(pointLog) + Numbered(calls, n)
    {
      hide Journeys.Valid, Numbered, Repeat;
      NumberedMore(calls, 0, n);
      assert pointLog + [] == pointLog;
      for i := 0 to |calls|
        invariant Valid() && pointLog == old(pointLog) + Numbered(calls[..i], n)
      {
        NumberedMore(calls, i, n);
        AddPoint(calls[i], n, 1);
      }
      assert calls[..|calls|] == calls;
    }

    /** `_journey`: kept unless its mode, as far as it is known, is not rail.
        False when there are too many groups. */
    method ReadJourney(e: Timetable) returns (ok: bool)
      requires Valid() && e.Journey?
      modifies this`ids, this`groups, this`byPattern, this`points, this`patternLog, this`pointLog
      ensures Valid() && old(groups) <= groups
      ensures ok ==> JourneyRead(lines, e, groups, old(patternLog), patternLog, old(pointLog), pointLog)
      ensures if IsKept(lines, e.group) then AddedOnly(old(groups), groups, Norm(lines, e.group))
        else groups == old(groups)
      ensures !ok ==> IsKept(lines, e.group) && IsFull(groups, Norm(lines, e.group))
    {
      hide Journeys.Valid, Norm, IsKept, IsFull, AddedOnly, Numbered;
      var early := Norm(lines, e.group);
      if !IsKept(lines, e.group) { return true; }
      var n := IdOf(early);
      if n.None? { return false; }
      if e.pattern != "" {
        AddPattern(e.pattern, n.value);
      } else {
        AddCalls(e.calls, n.value);
      }
      return true;
    }
  }

  lemma {:induction false} NumberedMore(points: seq<Id>, i: nat, n: int)
    requires i <= |points|
    ensures Numbered(points[..0], n) == []
    ensures i < |points| ==> Numbered(points[..i + 1], n) == Numbered(points[..i], n) + Repeat((points[i], n), 1)
  {
  }

  function Numbered(points: seq<Id>, n: int): (r: Log)
    ensures |r| == |points| && forall i :: 0 <= i < |r| ==> r[i] == (points[i], n)
  {
    seq(|points|, i requires 0 <= i < |points| => (points[i], n))
  }

  /** What reading one journey adds to the logs. */
  ghost predicate JourneyRead(
    lines: Lines, e: Timetable, groups: seq<Group>, patternLog: Log, patternLog': Log, pointLog: Log, pointLog': Log)
    requires e.Journey?
  {
    if !IsKept(lines, e.group) then patternLog' == patternLog && pointLog' == pointLog
    else exists n ::
      && 0 <= n < |groups| && groups[n] == Norm(lines, e.group)
      && patternLog' == patternLog + (if e.pattern != "" then [(e.pattern, n)] else [])
      && pointLog' == pointLog + (if e.pattern != "" then [] else Numbered(e.calls, n))
  }

  // ----- what pass 1 has read

  /** The logs, with the groups they end with, are the reference calls. */
  ghost predicate LogsAre(
    tt: seq<Timetable>, i: nat, lines: Lines, groups: seq<Group>, patternLog: Log, pointLog: Log)
    requires i <= |tt|
  {
    && multiset(Flat(patternLog, Ends(lines, groups))) == multiset(Flat(tt[..i], PatternCalls(lines)))
    && multiset(Flat(pointLog, Ends(lines, groups))) == multiset(Flat(tt[..i], DirectCalls(lines)))
  }

  lemma {:induction false} NumberedEnds(points: seq<Id>, n: int, lines: Lines, groups: seq<Group>)
    requires 0 <= n < |groups|
    ensures Flat(Numbered(points, n), Ends(lines, groups)) ==
      if IsRail(lines, groups, n) then CallsAt(points, Norm(lines, groups[n])) else []
  {
    hide IsKept, Norm;
    var f := Ends(lines, groups);
    if points != [] {
      NumberedEnds(points[1..], n, lines, groups);
      assert Numbered(points, n)[1..] == Numbered(points[1..], n);
      assert f((points[0], n)) == if IsRail(lines, groups, n) then [(points[0], Norm(lines, groups[n]))] else [];
      CallsAtFirst(points, Norm(lines, groups[n]));
    }
  }

  lemma {:induction false} CallsAtFirst(points: seq<Id>, g: Group)
    requires points != []
    ensures CallsAt(points, g) == [(points[0], g)] + CallsAt(points[1..], g)
  {
  }

  /** The calls the reference gives one journey as read are those its log entry
      ends with. */
  lemma {:induction false} JourneyEnds(soFar: Lines, lines: Lines, e: Timetable, groups: seq<Group>, n: int)
    requires e.Journey? && (IsKept(soFar, e.group) ==> 0 <= n < |groups| && groups[n] == Norm(soFar, e.group))
    ensures PatternCalls(lines)(Seen(soFar, e)) ==
      if IsKept(soFar, e.group) && e.pattern != "" then Ends(lines, groups)((e.pattern, n)) else []
    ensures DirectCalls(lines)(Seen(soFar, e)) ==
      if IsKept(soFar, e.group) && e.pattern == "" && IsRail(lines, groups, n)
      then CallsAt(e.calls, Norm(lines, groups[n])) else []
  {
    hide Norm, CallsAt, IsKept;
  }

  lemma {:induction false} LogGrows(
    list: seq<Timetable>, e: Timetable, f: Timetable -> seq<Call>, log: Log, more: Log, g: ((Id, int)) -> seq<Call>)
    requires multiset(Flat(log, g)) == multiset(Flat(list, f)) && Flat(more, g) == f(e)
    ensures multiset(Flat(log + more, g)) == multiset(Flat(list + [e], f))
  {
    FlatLast(list, e, f);
    FlatConcat(log, more, g);
  }

  /** One journey, whatever is known of its Line by then. */
  lemma {:induction false} JourneyStep(
    tt: seq<Timetable>, i: nat, e: Timetable, soFar: Lines, lines: Lines, groups: seq<Group>, groups': seq<Group>,
    patternLog: Log, patternLog': Log, pointLog: Log, pointLog': Log)
    requires i < |tt| && e.Journey? && tt[i] == Seen(soFar, e)
    requires InRange(patternLog, groups) && InRange(pointLog, groups) && groups <= groups'
    requires LogsAre(tt, i, lines, groups, patternLog, pointLog)
    requires JourneyRead(soFar, e, groups', patternLog, patternLog', pointLog, pointLog')
    ensures LogsAre(tt, i + 1, lines, groups', patternLog', pointLog')
  {
    hide Flat, IsKept, Norm, PatternCalls, DirectCalls, Ends, Seen, InRange, Numbered, CallsAt;
    EndsGrow(patternLog, lines, groups, groups');
    EndsGrow(pointLog, lines, groups, groups');
    var n := 0;
    if IsKept(soFar, e.group) { n := NumberRead(soFar, e, groups', patternLog, patternLog', pointLog, pointLog'); }
    var here := IsKept(soFar, e.group);
    var morePattern := if here && e.pattern != "" then [(e.pattern, n)] else [];
    var morePoint := if here && e.pattern == "" then Numbered(e.calls, n) else [];
    assert patternLog' == patternLog + morePattern && pointLog' == pointLog + morePoint;
    JourneyEnds(soFar, lines, e, groups', n);
    MoreEnds(e, n, lines, groups', here);
    assert tt[..i + 1] == tt[..i] + [tt[i]];
    LogGrows(tt[..i], tt[i], PatternCalls(lines), patternLog, morePattern, Ends(lines, groups'));
    LogGrows(tt[..i], tt[i], DirectCalls(lines), pointLog, morePoint, Ends(lines, groups'));
  }

  lemma {:induction false} MoreEnds(e: Timetable, n: int, lines: Lines, groups: seq<Group>, here: bool)
    requires e.Journey? && (here ==> 0 <= n < |groups|)
    ensures Flat<(Id, int), Call>([], Ends(lines, groups)) == []
    ensures Flat([(e.pattern, n)], Ends(lines, groups)) == Ends(lines, groups)((e.pattern, n))
    ensures here ==>
      Flat(Numbered(e.calls, n), Ends(lines, groups)) ==
        (if IsRail(lines, groups, n) then CallsAt(e.calls, Norm(lines, groups[n])) else [])
  {
    FlatOne((e.pattern, n), Ends(lines, groups));
    if here { NumberedEnds(e.calls, n, lines, groups); }
  }

  ghost function NumberRead(
    lines: Lines, e: Timetable, groups: seq<Group>, patternLog: Log, patternLog': Log, pointLog: Log,
    pointLog': Log): (n: int)
    requires e.Journey? && IsKept(lines, e.group)
    requires JourneyRead(lines, e, groups, patternLog, patternLog', pointLog, pointLog')
    ensures 0 <= n < |groups| && groups[n] == Norm(lines, e.group)
    ensures patternLog' == patternLog + (if e.pattern != "" then [(e.pattern, n)] else [])
    ensures pointLog' == pointLog + (if e.pattern != "" then [] else Numbered(e.calls, n))
  {
    var n :| 0 <= n < |groups| && groups[n] == Norm(lines, e.group)
      && patternLog' == patternLog + (if e.pattern != "" then [(e.pattern, n)] else [])
      && pointLog' == pointLog + (if e.pattern != "" then [] else Numbered(e.calls, n));
    n
  }

  lemma {:induction false} OtherStep(
    tt: seq<Timetable>, i: nat, lines: Lines, groups: seq<Group>, patternLog: Log, pointLog: Log)
    requires i < |tt| && !tt[i].Journey? && LogsAre(tt, i, lines, groups, patternLog, pointLog)
    ensures LogsAre(tt, i + 1, lines, groups, patternLog, pointLog)
  {
    hide Flat;
    assert tt[..i + 1] == tt[..i] + [tt[i]];
    FlatLast(tt[..i], tt[i], PatternCalls(lines));
    FlatLast(tt[..i], tt[i], DirectCalls(lines));
  }

  lemma {:induction false} LinesStep(tt: seq<Timetable>, i: nat)
    requires i < |tt|
    ensures LinesOf(tt[..i + 1]) ==
      if tt[i].Line? && tt[i].id != "" then LinesOf(tt[..i])[tt[i].id := tt[i].info] else LinesOf(tt[..i])
    ensures RoutesOf(tt[..i + 1]) ==
      if tt[i].Route? && tt[i].id != "" && tt[i].line != "" then RoutesOf(tt[..i])[tt[i].id := tt[i].line]
      else RoutesOf(tt[..i])
  {
    assert tt[..i + 1][..i] == tt[..i];
  }

  /** `_read_journeys` up to the late filtering. */
  method ReadElements(tt: seq<Timetable>) returns (found: Journeys, ok: bool)
    ensures fresh(found) && found.Valid()
    ensures ok ==> found.lines == LinesOf(tt) && found.routes == RoutesOf(tt)
    ensures ok ==> LogsAre(AsRead(tt), |tt|, LinesOf(tt), found.groups, found.patternLog, found.pointLog)
    ensures if ok then AllOfArchive(AsRead(tt), [], found.groups) else TooMany(AsRead(tt), [])
  {
    hide LinesOf, RoutesOf, LogsAre, JourneyRead, Seen, OfArchive, IsFull, TooMany;
    found := new Journeys();
    ghost var lines, read := LinesOf(tt), AsRead(tt);
    NothingRead(tt, lines);
    NothingRead(read, lines);
    for i := 0 to |tt|
      invariant fresh(found) && found.Valid()
      invariant found.lines == LinesOf(tt[..i]) && found.routes == RoutesOf(tt[..i])
      invariant LogsAre(read, i, lines, found.groups, found.patternLog, found.pointLog)
      invariant AllOfArchive(read, [], found.groups)
    {
      LinesStep(tt, i);
      AsReadAt(tt, i);
      SeenOfArchive(read, i, found.lines, tt[i]);
      if tt[i].Journey? {
        ghost var groups, patternLog, pointLog := found.groups, found.patternLog, found.pointLog;
        ok := found.ReadJourney(tt[i]);
        if !ok {
          FullIsTooMany(read, [], found.groups, Norm(found.lines, tt[i].group));
          return;
        }
        JourneyStep(
          read, i, tt[i], found.lines, lines, groups, found.groups, patternLog, found.patternLog, pointLog,
          found.pointLog);
      } else {
        SeenOther(found.lines, tt[i]);
        OtherStep(read, i, lines, found.groups, found.patternLog, found.pointLog);
        if tt[i].Line? {
          if tt[i].id != "" { found.lines := found.lines[tt[i].id := tt[i].info]; }
        } else if tt[i].id != "" && tt[i].line != "" {
          found.routes := found.routes[tt[i].id := tt[i].line];
        }
      }
    }
    ok := true;
    assert tt[..|tt|] == tt;
  }

  lemma {:induction false} SeenOfArchive(read: seq<Timetable>, i: nat, lines: Lines, e: Timetable)
    requires i < |read| && read[i] == Seen(lines, e)
    ensures e.Journey? && IsKept(lines, e.group) ==> OfArchive(read, [], Norm(lines, e.group))
  {
    if e.Journey? && IsKept(lines, e.group) {
      assert read[i] in read && read[i].Journey? && read[i].group == Norm(lines, e.group);
    }
  }

  lemma {:induction false} SeenOther(lines: Lines, e: Timetable)
    requires !e.Journey?
    ensures Seen(lines, e) == e
  {
  }

  lemma {:induction false} NothingRead(tt: seq<Timetable>, lines: Lines)
    ensures LogsAre(tt, 0, lines, [], [], []) && LinesOf(tt[..0]) == map[] && RoutesOf(tt[..0]) == map[]
  {
    assert tt[..0] == [];
  }

  // ----- the late filtering

  /** The part of a tally whose groups end as rail. */
  method RailPart(t: Tally, lines: Lines, groups: seq<Group>) returns (kept: map<int, nat>)
    requires Proper(t, |groups|)
    ensures forall n :: n in kept ==> IsRail(lines, groups, n) && kept[n] == CountOf(t, n) > 0 && 0 <= n < |groups|
    ensures forall n :: IsRail(lines, groups, n) && CountOf(t, n) > 0 ==> n in kept
  {
    hide IsRail;
    var items := TallyItems(t);
    kept := map[];
    for i := 0 to |items|
      invariant forall n :: n in kept ==> IsRail(lines, groups, n) && kept[n] == CountOf(t, n) > 0 && 0 <= n < |groups|
      invariant forall j :: 0 <= j < i && IsRail(lines, groups, items[j].0) ==> items[j].0 in kept
    {
      if IsRail(lines, groups, items[i].0) { kept := kept[items[i].0 := items[i].1]; }
    }
    forall n | IsRail(lines, groups, n) && CountOf(t, n) > 0 ensures n in kept {
      assert HasItem(items, n);
      var j :| 0 <= j < |items| && items[j].0 == n;
    }
  }

  method TheOnly(kept: map<int, nat>) returns (n: int)
    requires |kept| == 1
    ensures n in kept && forall m :: m in kept ==> m == n
  {
    assert kept.Keys != {} && |kept.Keys| == 1;
    n := Pick(kept.Keys);
    assert |kept.Keys - {n}| == 0;
    assert kept.Keys == {n};
  }

  ghost predicate RailOnly(before: Tally, after: Tally, lines: Lines, groups: seq<Group>) {
    forall n :: CountOf(after, n) == if IsRail(lines, groups, n) then CountOf(before, n) else 0
  }

  /** One entry of `_keep_rail`; None when nothing of it is left. */
  method KeepEntry(t: Tally, lines: Lines, groups: seq<Group>) returns (r: Option<Tally>)
    requires |groups| <= GROUPS_MAX && Proper(t, |groups|)
    ensures r.Some? ==> RailOnly(t, r.value, lines, groups) && Proper(r.value, |groups|)
    ensures r.None? ==> forall n :: IsRail(lines, groups, n) ==> CountOf(t, n) == 0
  {
    var kept := RailPart(t, lines, groups);
    if kept == map[] { return None; }
    if |kept| == 1 {
      var n := TheOnly(kept);
      return Some(One(Pack(kept[n], n)));
    }
    return Some(Many(kept));
  }

  /** `_keep_rail`: the entries replaced in the loop, those left with nothing
      removed after it. */
  method KeepRail(table: map<Id, Tally>, lines: Lines, groups: seq<Group>) returns (after: map<Id, Tally>)
    requires |groups| <= GROUPS_MAX && AllProper(table, |groups|)
    ensures AllProper(after, |groups|)
    ensures forall k, n :: CountAt(after, k, n) == if IsRail(lines, groups, n) then CountAt(table, k, n) else 0
  {
    hide IsRail, CountOf, Proper;
    after := table;
    var emptied: set<Id> := {};
    var left := table.Keys;
    while left != {}
      invariant left <= table.Keys && after.Keys == table.Keys && emptied <= table.Keys - left
      invariant forall k :: k in left ==> after[k] == table[k]
      invariant forall k :: k in table && k !in left && k !in emptied ==> RailOnly(table[k], after[k], lines, groups)
      invariant AllProper(after, |groups|)
      invariant forall k :: k in emptied ==> forall n :: IsRail(lines, groups, n) ==> CountOf(table[k], n) == 0
      decreases |left|
    {
      var key := Pick(left);
      left := left - {key};
      var entry := KeepEntry(table[key], lines, groups);
      if entry.None? {
        emptied := emptied + {key};
      } else {
        after := after[key := entry.value];
      }
    }
    after := after - emptied;
  }

  function IfRail(lines: Lines, groups: seq<Group>): ((Id, int)) -> seq<(Id, int)> {
    (x: (Id, int)) => if IsRail(lines, groups, x.1) then [x] else []
  }

  lemma {:induction false} RailLog(log: Log, lines: Lines, groups: seq<Group>, k: Id, n: int)
    ensures multiset(Flat(log, IfRail(lines, groups)))[(k, n)] ==
      if IsRail(lines, groups, n) then multiset(log)[(k, n)] else 0
  {
    hide IsRail;
    if log != [] {
      RailLog(log[1..], lines, groups, k, n);
      assert log == [log[0]] + log[1..];
    }
  }

  lemma {:induction false} RailLogStands(
    table: map<Id, Tally>, after: map<Id, Tally>, log: Log, lines: Lines, groups: seq<Group>)
    requires Stands(table, log)
    requires forall k, n :: CountAt(after, k, n) == if IsRail(lines, groups, n) then CountAt(table, k, n) else 0
    ensures Stands(after, Flat(log, IfRail(lines, groups)))
  {
    hide IsRail, CountAt, Flat;
    forall k: Id, n: int ensures multiset(Flat(log, IfRail(lines, groups)))[(k, n)] == CountAt(after, k, n) {
      RailLog(log, lines, groups, k, n);
      StandsAt(table, log, k, n);
    }
  }

  lemma {:induction false} RailLogEnds(log: Log, lines: Lines, groups: seq<Group>)
    ensures Flat(Flat(log, IfRail(lines, groups)), Ends(lines, groups)) == Flat(log, Ends(lines, groups))
    ensures forall x <- Flat(log, IfRail(lines, groups)) :: x in log && IsRail(lines, groups, x.1)
  {
    if log != [] {
      RailLogEnds(log[1..], lines, groups);
      var first := IfRail(lines, groups)(log[0]);
      FlatConcat(first, Flat(log[1..], IfRail(lines, groups)), Ends(lines, groups));
      if first != [] { FlatOne(log[0], Ends(lines, groups)); }
    }
  }

  ghost predicate AllRail(log: Log, lines: Lines, groups: seq<Group>) { forall x <- log :: IsRail(lines, groups, x.1) }

  /** `_read_journeys`: what is left is the journeys, as read when they came,
      that the whole archive would keep, each with the group it ends with,
      wherever its Line stood. */
  method ReadJourneys(tt: seq<Timetable>) returns (found: Journeys, ok: bool)
    ensures fresh(found) && found.Valid()
    ensures ok ==> found.lines == LinesOf(tt) && found.routes == RoutesOf(tt)
    ensures ok ==> LogsAre(AsRead(tt), |tt|, LinesOf(tt), found.groups, found.patternLog, found.pointLog)
    ensures ok ==>
      AllRail(found.patternLog, found.lines, found.groups) && AllRail(found.pointLog, found.lines, found.groups)
    ensures if ok then AllOfArchive(AsRead(tt), [], found.groups) else TooMany(AsRead(tt), [])
  {
    hide Stands, IsRail, Flat, AllOfArchive, TooMany;
    found, ok := ReadElements(tt);
    if !ok { return; }
    ghost var f := IfRail(found.lines, found.groups);
    RailLogEnds(found.patternLog, found.lines, found.groups);
    RailLogEnds(found.pointLog, found.lines, found.groups);
    var patterns := KeepRail(found.byPattern, found.lines, found.groups);
    RailLogStands(found.byPattern, patterns, found.patternLog, found.lines, found.groups);
    found.byPattern, found.patternLog := patterns, Flat(found.patternLog, f);
    var points := KeepRail(found.points, found.lines, found.groups);
    RailLogStands(found.points, points, found.pointLog, found.lines, found.groups);
    found.points, found.pointLog := points, Flat(found.pointLog, f);
  }
}
