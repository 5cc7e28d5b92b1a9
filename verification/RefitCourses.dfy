/** `_refit_courses` (app/netex_motis_repair.py): the state filled course by
    course, then applied to the bytes of the file. */
module RefitCourses {
  import opened Bytes
  import opened CourseRefit
  import opened RefitEdits
  import opened RefitPass

  // ----- the lists of points met so far

  lemma {:induction false} IndexIs(keeps: seq<Times>, i: nat)
    requires i < |keeps| && forall a, b :: 0 <= a < b < |keeps| ==> keeps[a] != keeps[b]
    ensures IndexOf(keeps, keeps[i]) == i
  {
    var j := IndexOf(keeps, keeps[i]);
    assert keeps[j] == keeps[i];
  }

  lemma {:induction false} KeepsGrow(items: seq<Item>, n: nat, m: nat, pid: Text)
    requires n <= m <= |items|
    ensures Keeps(items, n, pid) <= Keeps(items, m, pid)
    decreases m
  {
    if n < m { KeepsGrow(items, n, m - 1, pid); }
  }

  /** The number of a derived pattern is known when it is first met. */
  lemma {:induction false} IndexStays(items: seq<Item>, n: nat, m: nat, pid: Text, times: Times)
    requires n <= m <= |items| && times in Keeps(items, n, pid)
    ensures times in Keeps(items, m, pid)
      && IndexOf(Keeps(items, m, pid), times) == IndexOf(Keeps(items, n, pid), times)
  {
    KeepsGrow(items, n, m, pid);
    var i := IndexOf(Keeps(items, n, pid), times);
    assert Keeps(items, m, pid)[i] == times;
    IndexIs(Keeps(items, m, pid), i);
  }

  predicate IsRefitted(items: seq<Item>, n: nat) {
    n < |items| && items[n].Course? && OutcomeOf(items, items[n]) == Refitted
  }

  predicate MeetsNew(items: seq<Item>, n: nat) {
    IsRefitted(items, n) && items[n].times !in Keeps(items, n, items[n].pattern)
  }

  lemma {:induction false} KeepsStep(items: seq<Item>, n: nat, pid: Text)
    requires n < |items|
    ensures Keeps(items, n + 1, pid) ==
      if MeetsNew(items, n) && items[n].pattern == pid then Keeps(items, n, pid) + [items[n].times]
      else Keeps(items, n, pid)
  {
  }

  // ----- what the state holds

  type DerivedIds = map<(Text, Times), Text>

  ghost predicate DerivedHold(items: seq<Item>, n: nat, derived: DerivedIds)
    requires n <= |items|
  {
    && (forall key :: key in derived <==> key.1 in Keeps(items, n, key.0))
    && forall key :: key in derived ==> derived[key] == NewId(key.0, IndexOf(Keeps(items, n, key.0), key.1) + 1)
  }

  function PrintEach(items: seq<Item>): (r: seq<Text>)
    ensures |r| == |items| && forall i :: 0 <= i < |r| ==> r[i] == PrintItem(items[i])
  {
    seq(|items|, i requires 0 <= i < |items| => PrintItem(items[i]))
  }

  ghost predicate OrderHolds(blocks: map<Text, seq<Text>>, order: seq<Text>) {
    AllDifferent(order) && forall pid :: pid in order <==> pid in blocks
  }

  ghost predicate BlockHolds(items: seq<Item>, n: nat, blocks: map<Text, seq<Text>>, pid: Text)
    requires n <= |items|
  {
    && (pid in blocks <==> Keeps(items, n, pid) != [])
    && (pid in blocks ==>
          && PatternOf(items, pid).Some?
          && blocks[pid] == PrintEach(DerivedAll(PatternOf(items, pid).value, Keeps(items, n, pid))))
  }

  ghost predicate BlocksHold(items: seq<Item>, n: nat, blocks: map<Text, seq<Text>>, order: seq<Text>)
    requires n <= |items|
  {
    OrderHolds(blocks, order) && forall pid :: BlockHolds(items, n, blocks, pid)
  }

  ghost function DroppedUpTo(items: seq<Item>, n: nat): set<Text>
    requires n <= |items|
  {
    if n == 0 then {}
    else
      var item := items[n - 1];
      DroppedUpTo(items, n - 1) + if IsDropped(items, item) && item.cid.Some? then {item.cid.value} else {}
  }

  lemma {:induction false} DroppedAll(items: seq<Item>, n: nat, id: Text)
    requires n <= |items|
    ensures id in DroppedUpTo(items, n) <==> exists k ::
      0 <= k < n && IsDropped(items, items[k]) && items[k].cid == Some(id)
  {
    if n > 0 {
      DroppedAll(items, n - 1, id);
      assert IsDropped(items, items[n - 1]) ==> items[n - 1].Course?;
    }
  }

  lemma {:induction false} DroppedIsAll(items: seq<Item>)
    ensures DroppedUpTo(items, |items|) == DroppedIds(items)
  {
    hide OutcomeOf;
    forall id ensures id in DroppedUpTo(items, |items|) <==> id in DroppedIds(items) {
      DroppedAll(items, |items|, id);
      if id in DroppedIds(items) {
        var item :| item in items && IsDropped(items, item) && item.cid.Some? && item.cid.value == id;
        var k :| 0 <= k < |items| && items[k] == item;
      }
    }
  }

  // ----- one more course

  lemma {:induction false} NoNewDerived(items: seq<Item>, n: nat, derived: DerivedIds)
    requires n < |items| && !MeetsNew(items, n) && DerivedHold(items, n, derived)
    ensures DerivedHold(items, n + 1, derived)
  {
    hide MeetsNew, Keeps, NewId, IndexOf;
    forall pid ensures Keeps(items, n + 1, pid) == Keeps(items, n, pid) { KeepsStep(items, n, pid); }
  }

  lemma {:induction false} NoNewBlock(items: seq<Item>, n: nat, blocks: map<Text, seq<Text>>, order: seq<Text>)
    requires n < |items| && !MeetsNew(items, n) && BlocksHold(items, n, blocks, order)
    ensures BlocksHold(items, n + 1, blocks, order)
  {
    hide MeetsNew, BlockHolds;
    var m := n + 1;
    forall pid ensures BlockHolds(items, m, blocks, pid) {
      assert BlockHolds(items, n, blocks, pid);
      OldSiblings(items, n, blocks, blocks, pid);
    }
  }

  lemma {:induction false} NewDerived(items: seq<Item>, n: nat, derived: DerivedIds)
    requires MeetsNew(items, n) && DerivedHold(items, n, derived)
    ensures var pid, times := items[n].pattern, items[n].times;
      DerivedHold(items, n + 1, derived[(pid, times) := NewId(pid, |Keeps(items, n, pid)| + 1)])
  {
    hide Keeps, NewId, OutcomeOf;
    var pid, times := items[n].pattern, items[n].times;
    var derived' := derived[(pid, times) := NewId(pid, |Keeps(items, n, pid)| + 1)];
    forall key: (Text, Times) ensures key in derived' <==> key.1 in Keeps(items, n + 1, key.0) {
      KeepsStep(items, n, key.0);
      assert key == (key.0, key.1);
    }
    forall key | key in derived' ensures derived'[key] == NewId(key.0, IndexOf(Keeps(items, n + 1, key.0), key.1) + 1) {
      KeepsStep(items, n, key.0);
      if key == (pid, times) {
        IndexIs(Keeps(items, n + 1, pid), |Keeps(items, n, pid)|);
      } else {
        IndexStays(items, n, n + 1, key.0, key.1);
      }
    }
  }

  lemma {:induction false} NewBlock(
    items: seq<Item>, n: nat, blocks: map<Text, seq<Text>>, order: seq<Text>, block: Text)
    requires MeetsNew(items, n) && BlocksHold(items, n, blocks, order)
    requires var pid := items[n].pattern;
      && PatternOf(items, pid).Some?
      && block == PrintItem(Derived(PatternOf(items, pid).value, items[n].times,
        NewId(pid, |Keeps(items, n, pid)| + 1)))
    ensures var pid := items[n].pattern;
      var siblings := if pid in blocks then blocks[pid] else [];
      BlocksHold(items, n + 1, blocks[pid := siblings + [block]], if pid in blocks then order else order + [pid])
  {
    hide Keeps, NewId, OutcomeOf, PrintItem, Derived, DerivedAll, PrintEach, BlockHolds;
    var pid := items[n].pattern;
    var siblings := if pid in blocks then blocks[pid] else [];
    var after := blocks[pid := siblings + [block]];
    var m := n + 1;
    forall p ensures BlockHolds(items, m, after, p) {
      assert BlockHolds(items, n, blocks, p);
      if p == pid { NewSibling(items, n, blocks, block); } else { OldSiblings(items, n, blocks, after, p); }
    }
  }

  lemma {:induction false} OldSiblings(
    items: seq<Item>, n: nat, blocks: map<Text, seq<Text>>, after: map<Text, seq<Text>>, p: Text)
    requires n < |items| && BlockHolds(items, n, blocks, p)
    requires (p in after <==> p in blocks) && (p in blocks ==> after[p] == blocks[p])
    requires MeetsNew(items, n) ==> items[n].pattern != p
    ensures BlockHolds(items, n + 1, after, p)
  {
    hide Keeps, OutcomeOf, DerivedAll, PrintEach;
    KeepsStep(items, n, p);
  }

  lemma {:induction false} NewSibling(items: seq<Item>, n: nat, blocks: map<Text, seq<Text>>, block: Text)
    requires MeetsNew(items, n) && BlockHolds(items, n, blocks, items[n].pattern)
    requires var pid := items[n].pattern;
      && PatternOf(items, pid).Some?
      && block == PrintItem(Derived(PatternOf(items, pid).value, items[n].times,
        NewId(pid, |Keeps(items, n, pid)| + 1)))
    ensures var pid := items[n].pattern;
      var siblings := if pid in blocks then blocks[pid] else [];
      BlockHolds(items, n + 1, blocks[pid := siblings + [block]], pid)
  {
    hide Keeps, NewId, OutcomeOf, PrintItem, Derived;
    var pid := items[n].pattern;
    KeepsStep(items, n, pid);
    MorePrints(PatternOf(items, pid).value, Keeps(items, n, pid), items[n].times, block);
  }

  lemma {:induction false} MorePrints(pattern: Item, keeps: seq<Times>, times: Times, block: Text)
    requires pattern.Pattern? && block == PrintItem(Derived(pattern, times, NewId(pattern.pid, |keeps| + 1)))
    ensures PrintEach(DerivedAll(pattern, keeps)) + [block] == PrintEach(DerivedAll(pattern, keeps + [times]))
  {
    hide NewId, PrintItem, Derived;
  }

  /** The edits of a course. */
  lemma {:induction false} CourseEdits(items: seq<Item>, n: nat)
    requires n < |items|
    ensures EditsOf(items, n + 1, Courses) == EditsOf(items, n, Courses) +
      if items[n].Course? then ItemEdits(items, n) else []
  {
    hide ItemEdits;
  }

  lemma {:induction false} MovedId(items: seq<Item>, n: nat, derived: DerivedIds)
    requires IsRefitted(items, n) && DerivedHold(items, n + 1, derived)
    ensures (items[n].pattern, items[n].times) in derived
    ensures Moved(items, n) == items[n].(pattern := derived[(items[n].pattern, items[n].times)])
  {
    hide Keeps, NewId;
    KeptIsListed(items, n, n + 1);
    IndexStays(items, n + 1, |items|, items[n].pattern, items[n].times);
  }

  class State {
    var edits: seq<Edit>
    var derived: DerivedIds
    var blocks: map<Text, seq<Text>>
    /** The keys of `blocks` in the order they were added. */
    var order: seq<Text>
    var dropped: set<Text>

    ghost predicate Holds(items: seq<Item>, n: nat)
      requires n <= |items|
      reads this
    {
      && edits == EditsOf(items, n, Courses) && DerivedHold(items, n, derived)
      && BlocksHold(items, n, blocks, order) && dropped == DroppedUpTo(items, n)
    }

    constructor (ghost items: seq<Item>)
      ensures Holds(items, 0)
    {
      edits, derived, blocks, order, dropped := [], map[], map[], [], {};
    }

    /** `_course`: the n-th item, at its place in the bytes. */
    method Course(data: Text, items: seq<Item>, n: nat, at: nat)
      requires n < |items| && items[n].Course? && data == Print(items) && at == StartOf(items, n) && Holds(items, n)
      modifies this
      ensures Holds(items, n + 1)
    {
      hide Print, StartOf, ItemEdits, EditsOf, DerivedHold, BlocksHold, Keeps, NewId, DroppedUpTo, PrintItem;
      var course := items[n];
      CourseEdits(items, n);
      CourseParts(items, n);
      var pattern := PatternOf(items, course.pattern);
      if pattern.None? || pattern.value.other || Reads(course.times, pattern.value) {
        NoNewDerived(items, n, derived);
        NoNewBlock(items, n, blocks, order);
        return;
      }
      var readable := Readable(course.times, PointIds(pattern.value.pieces));
      if !readable {
        NoNewDerived(items, n, derived);
        NoNewBlock(items, n, blocks, order);
        edits := edits + [Edit(at, at + |PrintItem(course)|, [])];
        if course.cid.Some? { dropped := dropped + {course.cid.value}; }
        return;
      }
      var id := DerivedId(data, items, n);
      edits := edits + [Edit(at + |course.before|, at + |course.before| + |course.pattern|, id)];
    }

    /** The pattern a refitted course gets, derived when it is the first. */
    method DerivedId(data: Text, items: seq<Item>, n: nat) returns (id: Text)
      requires IsRefitted(items, n) && data == Print(items)
      requires DerivedHold(items, n, derived) && BlocksHold(items, n, blocks, order)
      modifies this`derived, this`blocks, this`order
      ensures DerivedHold(items, n + 1, derived) && BlocksHold(items, n + 1, blocks, order)
      ensures id == Moved(items, n).pattern
    {
      hide Print, DerivedHold, BlocksHold, Keeps, NewId, PrintItem;
      var course := items[n];
      var key := (course.pattern, course.times);
      DerivedKey(items, n, derived, blocks, order);
      if key !in derived {
        var siblings := if course.pattern in blocks then blocks[course.pattern] else [];
        id := NewId(course.pattern, |siblings| + 1);
        var k := FindPattern(items, course.pattern);
        var block := Derive(data, items, k, SpansOf(items, k), course.times, id);
        NewBlock(items, n, blocks, order, block);
        NewDerived(items, n, derived);
        order := if course.pattern in blocks then order else order + [course.pattern];
        blocks := blocks[course.pattern := siblings + [block]];
        derived := derived[key := id];
      } else {
        NoNewDerived(items, n, derived);
        NoNewBlock(items, n, blocks, order);
        id := derived[key];
      }
      MovedId(items, n, derived);
    }
  }

  /** The edit and the dropped id of each kind of outcome. */
  lemma {:induction false} CourseParts(items: seq<Item>, n: nat)
    requires n < |items| && items[n].Course?
    ensures var course, at, outcome := items[n], StartOf(items, n), OutcomeOf(items, items[n]);
      && ItemEdits(items, n) ==
           (match outcome
            case Left => []
            case Dropped => [Edit(at, at + |PrintItem(course)|, [])]
            case Refitted => [Edit(at + |course.before|, at + |course.before| + |course.pattern|,
              Moved(items, n).pattern)])
      && DroppedUpTo(items, n + 1) == DroppedUpTo(items, n) +
           (if outcome == Dropped && course.cid.Some? then {course.cid.value} else {})
  {
    hide OutcomeOf, Keeps, NewId, StartOf;
  }

  /** A list of points is known when it has been met before. */
  lemma {:induction false} DerivedKey(
    items: seq<Item>, n: nat, derived: DerivedIds, blocks: map<Text, seq<Text>>, order: seq<Text>)
    requires IsRefitted(items, n) && DerivedHold(items, n, derived) && BlocksHold(items, n, blocks, order)
    ensures (items[n].pattern, items[n].times) in derived <==> !MeetsNew(items, n)
    ensures var pid := items[n].pattern;
      |if pid in blocks then blocks[pid] else []| == |Keeps(items, n, pid)|
  {
    hide OutcomeOf, NewId, Keeps;
    assert BlockHolds(items, n, blocks, items[n].pattern);
  }

  method Readable(times: Times, ids: Times) returns (r: bool)
    ensures r == ReadableSubset(times, ids)
  {
    var subsequence := IsSubsequence(times, ids);
    r := (forall t <- times :: t.Some?) && |times| >= 2 && Distinct(times) && subsequence;
  }

  /** The dictionary of patterns: the last one of an id. */
  method FindPattern(items: seq<Item>, id: Text) returns (k: nat)
    requires PatternOf(items, id).Some?
    ensures k < |items| && items[k].Pattern? && Some(items[k]) == PatternOf(items, id)
  {
    k := |items|;
    assert items[..k] == items;
    while true
      invariant 0 < k <= |items| && PatternOf(items[..k], id) == PatternOf(items, id)
      decreases k
    {
      k := k - 1;
      assert items[..k + 1][..k] == items[..k];
      if items[k].Pattern? && items[k].pid == id { return; }
      assert items[..0] == [];
    }
  }

  // ----- the whole file

  lemma {:induction false} OtherItemHolds(items: seq<Item>, n: nat)
    requires n < |items| && !items[n].Course?
    ensures EditsOf(items, n + 1, Courses) == EditsOf(items, n, Courses)
    ensures DroppedUpTo(items, n + 1) == DroppedUpTo(items, n) && !MeetsNew(items, n)
  {
  }

  lemma {:induction false} ConcatPrints(items: seq<Item>)
    ensures Concat(PrintEach(items)) == Print(items)
  {
    if items != [] {
      ConcatPrints(items[1..]);
      assert PrintEach(items)[1..] == PrintEach(items[1..]);
    }
  }

  /** The patterns others are derived from, in the order met or in the file's. */
  lemma {:induction false} OrderIsSources(items: seq<Item>, blocks: map<Text, seq<Text>>, order: seq<Text>)
    requires BlocksHold(items, |items|, blocks, order)
    ensures multiset(InsertsFor(items, order)) == multiset(EditsOf(items, |items|, Patterns))
  {
    hide Keeps, InsertsFor, EditsOf, PrintEach, DerivedAll;
    SourceEdits(items, |items|);
    SourcesDiffer(items, |items|);
    forall pid ensures pid in order <==> pid in Sources(items, |items|) {
      assert BlockHolds(items, |items|, blocks, pid);
      if pid in order {
        var k := LastPatternExists(items, pid);
        assert IsSource(items, k);
      }
      if pid in Sources(items, |items|) {
        var k :| 0 <= k < |items| && IsSource(items, k) && items[k].pid == pid;
      }
    }
    SameInserts(items, order, Sources(items, |items|));
  }

  lemma {:induction false} InsertIs(items: seq<Item>, blocks: map<Text, seq<Text>>, order: seq<Text>, pid: Text)
    requires BlocksHold(items, |items|, blocks, order) && pid in order
    ensures pid in blocks && InsertFor(items, pid).text == Concat(blocks[pid])
  {
    hide Keeps, Print, PatternEnd, DerivedAll, PrintEach, PatternOf, Concat;
    assert BlockHolds(items, |items|, blocks, pid);
    ConcatPrints(DerivedAll(PatternOf(items, pid).value, Keeps(items, |items|, pid)));
  }

  method Inserts(items: seq<Item>, blocks: map<Text, seq<Text>>, order: seq<Text>) returns (edits: seq<Edit>)
    requires BlocksHold(items, |items|, blocks, order)
    ensures edits == InsertsFor(items, order)
  {
    hide BlocksHold, PatternEnd, DerivedText, Concat;
    edits := [];
    for i := 0 to |order|
      invariant |edits| == i && forall j :: 0 <= j < i ==> edits[j] == InsertFor(items, order[j])
    {
      var end := PatternEnd(items, |items|, order[i]);
      InsertIs(items, blocks, order, order[i]);
      edits := edits + [Edit(end, end, Concat(blocks[order[i]]))];
    }
  }

  lemma {:induction false} LinkEdit(items: seq<Item>, n: nat)
    requires n < |items| && items[n].Link?
    ensures var at := StartOf(items, n);
      ItemEdits(items, n) == if items[n].refs !! DroppedIds(items) then []
        else [Edit(at, at + |PrintItem(items[n])|, [])]
  {
    hide DroppedIds, StartOf;
  }

  /** `_drop_links`, one expression: the links that name a dropped course. */
  method DropLinks(items: seq<Item>, dropped: set<Text>, meetings: bool) returns (edits: seq<Edit>)
    requires dropped == DroppedIds(items)
    ensures edits == EditsOf(items, |items|, if meetings then Meetings else Interchanges)
  {
    hide ItemEdits, StartOf, DroppedIds, PrintItem;
    edits := [];
    ghost var kind := if meetings then Meetings else Interchanges;
    var at := 0;
    StartOfNothing(items);
    for n := 0 to |items|
      invariant at == StartOf(items, n) && edits == EditsOf(items, n, kind)
    {
      ItemBytes(items, n);
      if items[n].Link? && items[n].meeting == meetings {
        LinkEdit(items, n);
        if !(items[n].refs !! dropped) { edits := edits + [Edit(at, at + |PrintItem(items[n])|, [])]; }
      }
      at := at + |PrintItem(items[n])|;
    }
  }

  lemma {:induction false} NoCourseEdited(items: seq<Item>, n: nat)
    requires n <= |items| && EditsOf(items, n, Courses) == []
    ensures forall k :: 0 <= k < n && items[k].Course? ==> OutcomeOf(items, items[k]) == Left
    decreases n
  {
    hide OutcomeOf, NewId, StartOf, Keeps;
    if n > 0 {
      NoCourseEdited(items, n - 1);
      CourseEdits(items, n - 1);
      if items[n - 1].Course? { CourseParts(items, n - 1); }
    }
  }

  /** Without an edit of a course there is nothing to do. */
  lemma {:induction false} NothingQueued(items: seq<Item>)
    requires EditsOf(items, |items|, Courses) == []
    ensures Refit(items) == items
  {
    hide RefitUpTo, EditsOf;
    NoCourseEdited(items, |items|);
    forall c | c in items && c.Course? ensures ReadsIn(items, c) {
      var k :| 0 <= k < |items| && items[k] == c;
    }
    NothingToRefit(items, |items|);
    assert items[..|items|] == items;
  }

  lemma {:induction false} AllQueued(items: seq<Item>, edits: seq<Edit>, inserts: seq<Edit>)
    requires multiset(inserts) == multiset(EditsOf(items, |items|, Patterns))
    requires edits == EditsOf(items, |items|, Courses) + inserts
      + (EditsOf(items, |items|, Meetings) + EditsOf(items, |items|, Interchanges))
    ensures multiset(edits) == multiset(EditsFrom(items, 0))
  {
    hide EditsOf, AllEdits, EditsFrom;
    AllEditsSplit(items, |items|);
    NoneAfter(items);
    assert AllEdits(items, |items|) + [] == AllEdits(items, |items|);
    forall e ensures multiset(edits)[e] == multiset(EditsFrom(items, 0))[e] { KindsTogether(items, |items|, e); }
  }

  lemma {:induction false} NoneAfter(items: seq<Item>)
    ensures EditsFrom(items, |items|) == []
  {
  }

  lemma {:induction false} NoLinkEdits(items: seq<Item>, n: nat, kind: Kind)
    requires n <= |items| && DroppedIds(items) == {} && (kind == Meetings || kind == Interchanges)
    ensures EditsOf(items, n, kind) == []
    decreases n
  {
    hide DroppedIds, ItemEdits;
    if n > 0 {
      NoLinkEdits(items, n - 1, kind);
      if items[n - 1].Link? { LinkEdit(items, n - 1); }
    }
  }

  /** `_refit_courses`: the bytes of the file become those of the file
      refitted. */
  method RefitFile(items: seq<Item>) returns (out: Text)
    requires Sound(items)
    ensures out == Print(Refit(items))
  {
    hide *;
    var data := Print(items);
    var state := new State(items);
    EachCourse(state, data, items);
    HoldsParts(state, items);
    if state.edits == [] {
      NothingQueued(items);
      return data;
    }
    var inserts := Inserts(items, state.blocks, state.order);
    OrderIsSources(items, state.blocks, state.order);
    DroppedIsAll(items);
    var meetings, interchanges := [], [];
    if state.dropped != {} {
      meetings := DropLinks(items, state.dropped, true);
      interchanges := DropLinks(items, state.dropped, false);
    } else {
      NoLinkEdits(items, |items|, Meetings);
      NoLinkEdits(items, |items|, Interchanges);
    }
    var edits := state.edits + inserts + (meetings + interchanges);
    AllQueued(items, edits, inserts);
    EditsGiveRefit(items, edits);
    out := Apply(data, edits);
  }

  lemma {:induction false} HoldsParts(state: State, items: seq<Item>)
    requires state.Holds(items, |items|)
    ensures state.edits == EditsOf(items, |items|, Courses)
    ensures BlocksHold(items, |items|, state.blocks, state.order) && state.dropped == DroppedUpTo(items, |items|)
  {
  }

  method EachCourse(state: State, data: Text, items: seq<Item>)
    requires data == Print(items) && state.Holds(items, 0)
    modifies state
    ensures state.Holds(items, |items|)
  {
    hide Print, PrintItem, StartOf, EditsOf, DerivedHold, BlocksHold, DroppedUpTo;
    var at := 0;
    StartOfNothing(items);
    for n := 0 to |items|
      invariant state.Holds(items, n) && at == StartOf(items, n)
    {
      ItemBytes(items, n);
      if items[n].Course? {
        state.Course(data, items, n, at);
      } else {
        OtherItemHolds(items, n);
        NoNewDerived(items, n, state.derived);
        NoNewBlock(items, n, state.blocks, state.order);
      }
      at := at + |PrintItem(items[n])|;
    }
  }
}
