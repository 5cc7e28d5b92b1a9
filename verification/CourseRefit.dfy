/** The refit of courses to their journey patterns
    (app/netex_motis_repair.py): the file as the items the expressions find,
    and the file it becomes. MOTIS pairs the passing times of a course with
    the points of its pattern by position. */
module CourseRefit {
  import opened Bytes

  /** Between the points of a pattern the text is kept as it is. */
  datatype Piece = Gap(text: Text) | Point(text: Text, id: Option<Text>)

  /** A pattern or course is cut where the id, or the pattern's id, stands;
      a link is a journey meeting or an interchange. Courses without body or
      passing times or pattern, or with calls, are `Raw`. */
  datatype Item =
    | Raw(text: Text)
    | Pattern(before: Text, pid: Text, pieces: seq<Piece>, other: bool)
    | Course(before: Text, pattern: Text, after: Text, cid: Option<Text>, times: seq<Option<Text>>)
    | Link(text: Text, refs: set<Text>, meeting: bool)

  type Times = seq<Option<Text>>

  function PrintPieces(pieces: seq<Piece>): Text {
    if pieces == [] then [] else pieces[0].text + PrintPieces(pieces[1..])
  }

  function PrintItem(item: Item): Text {
    match item
    case Raw(text) => text
    case Pattern(before, pid, pieces, _) => before + pid + PrintPieces(pieces)
    case Course(before, pattern, after, _, _) => before + pattern + after
    case Link(text, _, _) => text
  }

  function Print(items: seq<Item>): Text {
    if items == [] then [] else PrintItem(items[0]) + Print(items[1..])
  }

  function PointIds(pieces: seq<Piece>): Times {
    if pieces == [] then []
    else (if pieces[0].Point? then [pieces[0].id] else []) + PointIds(pieces[1..])
  }

  /** The last pattern of that id. */
  function PatternOf(items: seq<Item>, id: Text): (r: Option<Item>)
    ensures r.Some? ==> r.value.Pattern? && r.value.pid == id && r.value in items
  {
    if items == [] then None
    else
      var last := items[|items| - 1];
      if last.Pattern? && last.pid == id then Some(last) else PatternOf(items[..|items| - 1], id)
  }

  // ----- subsequences

  function Subsequence(part: Times, whole: Times): bool {
    part == [] || (whole != [] && Subsequence(if part[0] == whole[0] then part[1..] else part, whole[1..]))
  }

  function Filter(whole: Times, keep: Times): Times {
    if whole == [] then [] else (if whole[0] in keep then [whole[0]] else []) + Filter(whole[1..], keep)
  }

  predicate Distinct(list: Times) { forall i, j :: 0 <= i < j < |list| ==> list[i] != list[j] }

  predicate OnceIn(list: Times, x: Option<Text>) { multiset(list)[x] == 1 }

  lemma {:induction false} FilterCounts(whole: Times, keep: Times, x: Option<Text>)
    ensures multiset(Filter(whole, keep))[x] == if x in keep then multiset(whole)[x] else 0
  {
    if whole != [] {
      FilterCounts(whole[1..], keep, x);
      assert whole == [whole[0]] + whole[1..];
    }
  }

  lemma {:induction false} DistinctCounts(list: Times, x: Option<Text>)
    requires Distinct(list)
    ensures multiset(list)[x] == if x in list then 1 else 0
  {
    if list != [] {
      DistinctCounts(list[1..], x);
      assert list == [list[0]] + list[1..];
    }
  }

  lemma {:induction false} SubsequenceOfFilter(part: Times, whole: Times, keep: Times)
    requires Subsequence(part, whole) && forall x <- part :: x in keep
    ensures Subsequence(part, Filter(whole, keep))
    decreases |whole|
  {
    if part != [] {
      SubsequenceOfFilter(if part[0] == whole[0] then part[1..] else part, whole[1..], keep);
      var rest := Filter(whole[1..], keep);
      if whole[0] in keep { assert Filter(whole, keep)[1..] == rest; } else { assert Filter(whole, keep) == rest; }
    }
  }

  lemma {:induction false} SubsequenceShorter(part: Times, whole: Times)
    requires Subsequence(part, whole)
    ensures |part| <= |whole| && (|part| == |whole| ==> part == whole)
    decreases |whole|
  {
    if part != [] {
      SubsequenceShorter(if part[0] == whole[0] then part[1..] else part, whole[1..]);
      if |part| == |whole| { assert part == [part[0]] + part[1..] && whole == [whole[0]] + whole[1..]; }
    }
  }

  lemma {:induction false} SameMembers(a: Times, b: Times)
    requires forall x :: multiset(a)[x] == multiset(b)[x]
    ensures |a| == |b|
  {
    assert multiset(a) == multiset(b);
    assert |a| == |multiset(a)| && |b| == |multiset(b)|;
  }

  lemma {:induction false} OnceGivesFilter(part: Times, whole: Times)
    requires Subsequence(part, whole) && Distinct(part) && forall x <- part :: OnceIn(whole, x)
    ensures Filter(whole, part) == part
  {
    hide Filter, Subsequence, Distinct;
    var kept := Filter(whole, part);
    forall x ensures multiset(kept)[x] == multiset(part)[x] {
      FilterCounts(whole, part, x);
      DistinctCounts(part, x);
    }
    SameMembers(kept, part);
    SubsequenceOfFilter(part, whole, part);
    SubsequenceShorter(part, kept);
  }

  /** A distinct subsequence is the filter by its own members exactly when
      each member stands once in the whole. */
  lemma {:induction false} FilterIsSubsequence(part: Times, whole: Times)
    requires Subsequence(part, whole) && Distinct(part)
    ensures Filter(whole, part) == part <==> forall x <- part :: OnceIn(whole, x)
  {
    hide Filter, Subsequence, Distinct;
    if forall x <- part :: OnceIn(whole, x) { OnceGivesFilter(part, whole); }
    if Filter(whole, part) == part {
      forall x | x in part ensures OnceIn(whole, x) {
        FilterCounts(whole, part, x);
        DistinctCounts(part, x);
      }
    }
  }

  // ----- one course

  datatype Outcome = Left | Dropped | Refitted

  /** MOTIS reads the course: as many passing times as points, the same ones. */
  predicate Reads(times: Times, pattern: Item)
    requires pattern.Pattern?
  {
    times == PointIds(pattern.pieces) && |times| >= 2
  }

  /** Points named once each and in order, at least two. */
  predicate ReadableSubset(times: Times, ids: Times) {
    (forall t <- times :: t.Some?) && |times| >= 2 && Distinct(times) && Subsequence(times, ids)
  }

  function OutcomeOf(items: seq<Item>, course: Item): Outcome
    requires course.Course?
  {
    var pattern := PatternOf(items, course.pattern);
    if pattern.None? || pattern.value.other || Reads(course.times, pattern.value) then Left
    else if ReadableSubset(course.times, PointIds(pattern.value.pieces)) then Refitted
    else Dropped
  }

  // ----- the derived patterns

  const VIATOR: Text := [0x2D, 0x76, 0x69, 0x61, 0x74, 0x6F, 0x72, 0x2D]

  function Digits(n: nat): (d: Text)
    ensures |d| > 0 && forall b <- d :: 0x30 <= b <= 0x39
  {
    if n < 10 then [(0x30 + n) as byte] else Digits(n / 10) + [(0x30 + n % 10) as byte]
  }

  function NewId(pid: Text, n: nat): Text { pid + VIATOR + Digits(n) }

  lemma {:induction false} DigitsDiffer(m: nat, n: nat)
    requires Digits(m) == Digits(n)
    ensures m == n
    decreases m
  {
    var d := Digits(m);
    assert d[|d| - 1] == (0x30 + m % 10) as byte && d[|d| - 1] == (0x30 + n % 10) as byte;
    if m >= 10 && n >= 10 {
      assert Digits(m / 10) == d[..|d| - 1] && Digits(n / 10) == d[..|d| - 1];
      DigitsDiffer(m / 10, n / 10);
    }
  }

  lemma {:induction false} LastDash(pid: Text, n: nat)
    ensures var id := NewId(pid, n);
      |pid| + 8 <= |id| && id[|pid| + 7] == DASH && forall k :: |pid| + 8 <= k < |id| ==> id[k] != DASH
  {
    var id, d := NewId(pid, n), Digits(n);
    assert |VIATOR| == 8 && VIATOR[7] == DASH;
    forall k | |pid| + 8 <= k < |id| ensures id[k] != DASH {
      assert id[k] == d[k - |pid| - 8] && d[k - |pid| - 8] in d;
    }
  }

  lemma {:induction false} NewIdsDiffer(p: Text, m: nat, q: Text, n: nat)
    requires NewId(p, m) == NewId(q, n)
    ensures p == q && m == n
  {
    var id := NewId(p, m);
    LastDash(p, m);
    LastDash(q, n);
    assert |p| == |q|;
    assert id[..|p|] == p && id[..|q|] == q;
    assert id[|p| + 8..] == Digits(m) && id[|q| + 8..] == Digits(n);
    DigitsDiffer(m, n);
  }

  /** The distinct lists of points kept by the courses of a pattern refitted
      among the first `n` items, in the order they are met. */
  function Keeps(items: seq<Item>, n: nat, pid: Text): (keeps: seq<Times>)
    requires n <= |items|
    ensures forall i, j :: 0 <= i < j < |keeps| ==> keeps[i] != keeps[j]
  {
    if n == 0 then []
    else
      var keeps, item := Keeps(items, n - 1, pid), items[n - 1];
      if item.Course? && item.pattern == pid && OutcomeOf(items, item) == Refitted && item.times !in keeps
      then keeps + [item.times] else keeps
  }

  function IndexOf(keeps: seq<Times>, times: Times): (i: nat)
    requires times in keeps
    ensures i < |keeps| && keeps[i] == times
  {
    if keeps[0] == times then 0 else 1 + IndexOf(keeps[1..], times)
  }

  /** The points kept, with all the text around them. */
  function KeptPieces(pieces: seq<Piece>, keep: Times): seq<Piece> {
    if pieces == [] then []
    else
      (if pieces[0].Point? && pieces[0].id !in keep then [] else [pieces[0]]) + KeptPieces(pieces[1..], keep)
  }

  function Derived(pattern: Item, keep: Times, id: Text): Item
    requires pattern.Pattern?
  {
    pattern.(pid := id, pieces := KeptPieces(pattern.pieces, keep))
  }

  function DerivedAll(pattern: Item, keeps: seq<Times>): (r: seq<Item>)
    requires pattern.Pattern?
    ensures |r| == |keeps| && forall i :: 0 <= i < |r| ==> r[i] == Derived(pattern, keeps[i], NewId(pattern.pid, i + 1))
  {
    seq(|keeps|, i requires 0 <= i < |keeps| => Derived(pattern, keeps[i], NewId(pattern.pid, i + 1)))
  }

  lemma {:induction false} KeptPoints(pieces: seq<Piece>, keep: Times)
    ensures PointIds(KeptPieces(pieces, keep)) == Filter(PointIds(pieces), keep)
  {
    if pieces != [] {
      KeptPoints(pieces[1..], keep);
      var first, rest := pieces[0], KeptPieces(pieces[1..], keep);
      if first.Point? {
        assert PointIds(pieces)[1..] == PointIds(pieces[1..]);
        if first.id in keep {
          assert KeptPieces(pieces, keep)[1..] == rest;
        } else {
          assert KeptPieces(pieces, keep) == rest;
        }
      } else {
        assert KeptPieces(pieces, keep)[1..] == rest && PointIds(pieces) == PointIds(pieces[1..]);
      }
    }
  }

  // ----- the file refitted

  predicate IsLastPattern(items: seq<Item>, k: nat) {
    k < |items| && items[k].Pattern? && forall j :: k < j < |items| && items[j].Pattern? ==>
      items[j].pid != items[k].pid
  }

  predicate IsDropped(items: seq<Item>, item: Item) { item.Course? && OutcomeOf(items, item) == Dropped }

  ghost function DroppedIds(items: seq<Item>): set<Text> {
    set item <- items | IsDropped(items, item) && item.cid.Some? :: item.cid.value
  }

  ghost function RefitItem(items: seq<Item>, k: nat): seq<Item>
    requires k < |items|
  {
    var item := items[k];
    match item
    case Raw(_) => [item]
    case Link(_, refs, _) => if refs !! DroppedIds(items) then [item] else []
    case Pattern(_, pid, _, _) =>
      [item] + if IsLastPattern(items, k) then DerivedAll(item, Keeps(items, |items|, pid)) else []
    case Course(_, pattern, _, _, times) =>
      match OutcomeOf(items, item)
      case Left => [item]
      case Dropped => []
      case Refitted =>
        KeptIsListed(items, k, |items|);
        [item.(pattern := NewId(pattern, IndexOf(Keeps(items, |items|, pattern), times) + 1))]
  }

  lemma {:induction false} KeptIsListed(items: seq<Item>, k: nat, n: nat)
    requires k < n <= |items| && items[k].Course? && OutcomeOf(items, items[k]) == Refitted
    ensures items[k].times in Keeps(items, n, items[k].pattern)
    decreases n
  {
    if k < n - 1 { KeptIsListed(items, k, n - 1); }
  }

  ghost function RefitUpTo(items: seq<Item>, n: nat): seq<Item>
    requires n <= |items|
  {
    if n == 0 then [] else RefitUpTo(items, n - 1) + RefitItem(items, n - 1)
  }

  /** `_refit_courses`. */
  ghost function Refit(items: seq<Item>): seq<Item> { RefitUpTo(items, |items|) }

  // ----- the patterns of the refitted file

  /** The n-th pattern derived from pattern `p` gets this id. */
  ghost predicate IsMade(items: seq<Item>, p: Text, n: nat, id: Text) {
    0 < n <= |Keeps(items, |items|, p)| && id == NewId(p, n)
  }

  /** Some derived pattern gets this id. */
  ghost predicate IsNew(items: seq<Item>, id: Text) { exists p, n: nat :: IsMade(items, p, n, id) }

  /** No pattern has, and no course names, an id derived patterns get. */
  ghost predicate FreshIds(items: seq<Item>) {
    forall item <- items ::
      (item.Pattern? ==> !IsNew(items, item.pid)) && (item.Course? ==> !IsNew(items, item.pattern))
  }

  lemma {:induction false} PatternOfConcat(a: seq<Item>, b: seq<Item>, id: Text)
    ensures PatternOf(a + b, id) == if PatternOf(b, id).Some? then PatternOf(b, id) else PatternOf(a, id)
  {
    if b == [] {
      assert a + b == a;
    } else {
      assert (a + b)[..|a + b| - 1] == a + b[..|b| - 1];
      PatternOfConcat(a, b[..|b| - 1], id);
    }
  }

  lemma {:induction false} NoPatternOf(items: seq<Item>, id: Text)
    requires forall item <- items :: item.Pattern? ==> item.pid != id
    ensures PatternOf(items, id) == None
  {
    if items != [] { NoPatternOf(items[..|items| - 1], id); }
  }

  lemma {:induction false} PatternOfMember(items: seq<Item>, k: nat)
    requires k < |items| && items[k].Pattern?
    ensures PatternOf(items, items[k].pid).Some?
    ensures IsLastPattern(items, k) ==> PatternOf(items, items[k].pid) == Some(items[k])
    decreases |items|
  {
    var n := |items| - 1;
    if k < n && !(items[n].Pattern? && items[n].pid == items[k].pid) {
      assert items[..n][k] == items[k];
      PatternOfMember(items[..n], k);
    }
  }

  lemma {:induction false} LastPatternExists(items: seq<Item>, id: Text) returns (k: nat)
    requires PatternOf(items, id).Some?
    ensures IsLastPattern(items, k) && items[k].pid == id
  {
    var n := |items| - 1;
    if items[n].Pattern? && items[n].pid == id {
      k := n;
    } else {
      k := LastPatternExists(items[..n], id);
    }
  }

  /** A pattern stays, with those derived from it behind it. */
  lemma {:induction false} PatternItem(items: seq<Item>, k: nat)
    requires k < |items| && items[k].Pattern?
    ensures RefitItem(items, k) == [items[k]] +
      if IsLastPattern(items, k) then DerivedAll(items[k], Keeps(items, |items|, items[k].pid)) else []
  {
  }

  lemma {:induction false} OtherItem(items: seq<Item>, k: nat)
    requires k < |items| && !items[k].Pattern?
    ensures forall x <- RefitItem(items, k) :: !x.Pattern?
  {
  }

  lemma {:induction false} OnlyOne(item: Item, id: Text)
    requires item.Pattern?
    ensures PatternOf([item], id) == if item.pid == id then Some(item) else None
  {
    assert [item][..0] == [];
  }

  lemma {:induction false} DerivedNotOld(pattern: Item, keeps: seq<Times>, id: Text)
    requires pattern.Pattern? && forall n: nat :: 0 < n <= |keeps| ==> id != NewId(pattern.pid, n)
    ensures PatternOf(DerivedAll(pattern, keeps), id) == None
  {
    hide NewId;
    NoPatternOf(DerivedAll(pattern, keeps), id);
  }

  lemma {:induction false} OldPatternOfItem(items: seq<Item>, k: nat, id: Text)
    requires k < |items| && !IsNew(items, id)
    ensures PatternOf(RefitItem(items, k), id) ==
      if items[k].Pattern? && items[k].pid == id then Some(items[k]) else None
  {
    hide RefitItem, DerivedAll, Keeps, PatternOf, NewId;
    var item := items[k];
    if item.Pattern? {
      PatternOfMember(items, k);
      PatternItem(items, k);
      OnlyOne(item, id);
      var more := DerivedAll(item, Keeps(items, |items|, item.pid));
      forall n: nat | 0 < n <= |Keeps(items, |items|, item.pid)| ensures id != NewId(item.pid, n) {
        assert !IsMade(items, item.pid, n, id);
      }
      DerivedNotOld(item, Keeps(items, |items|, item.pid), id);
      PatternOfConcat([item], more, id);
      assert [item] + [] == [item];
    } else {
      OtherItem(items, k);
      NoPatternOf(RefitItem(items, k), id);
    }
  }

  lemma {:induction false} PatternOfLast(items: seq<Item>, n: nat, id: Text)
    requires n < |items|
    ensures PatternOf(items[..n + 1], id) ==
      if items[n].Pattern? && items[n].pid == id then Some(items[n]) else PatternOf(items[..n], id)
  {
    assert items[..n + 1][..n] == items[..n];
  }

  /** An id that no derived pattern gets names the pattern it named. */
  lemma {:induction false} OldPatternKept(items: seq<Item>, n: nat, id: Text)
    requires n <= |items| && !IsNew(items, id)
    ensures PatternOf(RefitUpTo(items, n), id) == PatternOf(items[..n], id)
    decreases n
  {
    hide RefitItem, PatternOf, IsNew;
    if n > 0 {
      OldPatternKept(items, n - 1, id);
      PatternOfConcat(RefitUpTo(items, n - 1), RefitItem(items, n - 1), id);
      PatternOfLast(items, n - 1, id);
      OldPatternOfItem(items, n - 1, id);
    } else {
      assert items[..0] == [];
    }
  }

  /** The derived pattern with a given id, and none beside it. */
  lemma {:induction false} DerivedOf(pattern: Item, keeps: seq<Times>, i: nat)
    requires pattern.Pattern? && i < |keeps|
    ensures PatternOf(DerivedAll(pattern, keeps), NewId(pattern.pid, i + 1)) ==
      Some(Derived(pattern, keeps[i], NewId(pattern.pid, i + 1)))
  {
    hide NewId;
    var all, id := DerivedAll(pattern, keeps), NewId(pattern.pid, i + 1);
    assert all[i].pid == id;
    forall j | i < j < |all| ensures all[j].pid != id {
      if NewId(pattern.pid, j + 1) == id { NewIdsDiffer(pattern.pid, j + 1, pattern.pid, i + 1); }
    }
    PatternOfMember(all, i);
  }

  lemma {:induction false} NewPatternOfItem(items: seq<Item>, k: nat, p: nat, i: nat)
    requires FreshIds(items) && k < |items| && IsLastPattern(items, p) && i < |Keeps(items, |items|, items[p].pid)|
    ensures var id := NewId(items[p].pid, i + 1);
      PatternOf(RefitItem(items, k), id) ==
        if k == p then Some(Derived(items[p], Keeps(items, |items|, items[p].pid)[i], id)) else None
  {
    hide RefitItem, DerivedAll, Keeps, PatternOf, NewId;
    var item, id := items[k], NewId(items[p].pid, i + 1);
    PatternOfMember(items, p);
    if item.Pattern? {
      assert item in items && IsMade(items, items[p].pid, i + 1, id) && IsNew(items, id);
      OnlyOne(item, id);
      PatternItem(items, k);
      var keeps := Keeps(items, |items|, item.pid);
      PatternOfConcat([item], DerivedAll(item, keeps), id);
      if k == p {
        DerivedOf(item, keeps, i);
      } else if IsLastPattern(items, k) {
        forall n: nat | 0 < n <= |keeps| ensures id != NewId(item.pid, n) {
          if id == NewId(item.pid, n) { NewIdsDiffer(items[p].pid, i + 1, item.pid, n); }
        }
        DerivedNotOld(item, keeps, id);
      } else {
        assert [item] + [] == [item];
      }
    } else {
      OtherItem(items, k);
      NoPatternOf(RefitItem(items, k), id);
    }
  }

  /** A derived id names the pattern derived for it. */
  lemma {:induction false} NewPatternFound(items: seq<Item>, n: nat, p: nat, i: nat)
    requires FreshIds(items) && n <= |items| && IsLastPattern(items, p) && i < |Keeps(items, |items|, items[p].pid)|
    ensures var id := NewId(items[p].pid, i + 1);
      PatternOf(RefitUpTo(items, n), id) ==
        if p < n then Some(Derived(items[p], Keeps(items, |items|, items[p].pid)[i], id)) else None
    decreases n
  {
    hide RefitItem, PatternOf, FreshIds, NewId, Keeps;
    var id := NewId(items[p].pid, i + 1);
    if n > 0 {
      NewPatternFound(items, n - 1, p, i);
      PatternOfConcat(RefitUpTo(items, n - 1), RefitItem(items, n - 1), id);
      NewPatternOfItem(items, n - 1, p, i);
    } else {
      NoPatternOf([], id);
    }
  }

  // ----- what the refit achieves

  /** MOTIS can pair the times with the pattern their id names, if any. */
  predicate Fits(times: Times, pattern: Option<Item>)
    requires pattern.Some? ==> pattern.value.Pattern?
  {
    pattern.None? || pattern.value.other || Reads(times, pattern.value)
  }

  predicate ReadsIn(items: seq<Item>, course: Item)
    requires course.Course?
  {
    Fits(course.times, PatternOf(items, course.pattern))
  }

  /** Every course that names a pattern of the file with no other kind of
      point in it has, as a list, the points of that pattern, at least two. */
  ghost predicate AllRead(items: seq<Item>) { forall c <- items :: c.Course? ==> ReadsIn(items, c) }

  /** The pattern of a refitted course has each point the course keeps once. */
  predicate ExactCourse(items: seq<Item>, course: Item)
    requires course.Course?
  {
    OutcomeOf(items, course) == Refitted ==>
      forall x <- course.times :: OnceIn(PointIds(PatternOf(items, course.pattern).value.pieces), x)
  }

  ghost predicate Exact(items: seq<Item>) { forall c <- items :: c.Course? ==> ExactCourse(items, c) }

  lemma {:induction false} FromItem(items: seq<Item>, n: nat, x: Item) returns (k: nat)
    requires n <= |items| && x in RefitUpTo(items, n)
    ensures k < n && x in RefitItem(items, k)
    decreases n
  {
    hide RefitItem;
    if x in RefitItem(items, n - 1) { k := n - 1; } else { k := FromItem(items, n - 1, x); }
  }

  lemma {:induction false} IntoFile(items: seq<Item>, n: nat, k: nat, x: Item)
    requires k < n <= |items| && x in RefitItem(items, k)
    ensures x in RefitUpTo(items, n)
    decreases n
  {
    hide RefitItem;
    if k < n - 1 { IntoFile(items, n - 1, k, x); }
  }

  /** A course left alone reads as before. */
  lemma {:induction false} LeftReads(items: seq<Item>, course: Item)
    requires FreshIds(items) && course in items && course.Course? && OutcomeOf(items, course) == Left
    ensures ReadsIn(Refit(items), course)
  {
    hide IsNew, RefitUpTo;
    OldPatternKept(items, |items|, course.pattern);
    assert items[..|items|] == items;
  }

  function Moved(items: seq<Item>, k: nat): Item
    requires k < |items| && items[k].Course? && OutcomeOf(items, items[k]) == Refitted
  {
    KeptIsListed(items, k, |items|);
    items[k].(pattern :=
      NewId(items[k].pattern, IndexOf(Keeps(items, |items|, items[k].pattern), items[k].times) + 1))
  }

  /** A refitted course reads exactly when its pattern has its points once. */
  lemma {:induction false} MovedReads(items: seq<Item>, k: nat)
    requires FreshIds(items) && k < |items| && items[k].Course? && OutcomeOf(items, items[k]) == Refitted
    ensures ReadsIn(Refit(items), Moved(items, k)) <==> ExactCourse(items, items[k])
  {
    hide FreshIds, RefitUpTo, NewId, Keeps, Filter, Subsequence, Distinct, PointIds, KeptPieces, OnceIn;
    var course := items[k];
    var p := LastPatternExists(items, course.pattern);
    PatternOfMember(items, p);
    KeptIsListed(items, k, |items|);
    var i := IndexOf(Keeps(items, |items|, course.pattern), course.times);
    NewPatternFound(items, |items|, p, i);
    KeptPoints(items[p].pieces, course.times);
    FilterIsSubsequence(course.times, PointIds(items[p].pieces));
  }

  lemma {:induction false} CourseItem(items: seq<Item>, k: nat, x: Item)
    requires k < |items| && x in RefitItem(items, k) && x.Course?
    ensures items[k].Course? && items[k] in items && OutcomeOf(items, items[k]) != Dropped
    ensures OutcomeOf(items, items[k]) == Left ==> x == items[k]
    ensures OutcomeOf(items, items[k]) == Refitted ==> x == Moved(items, k)
  {
  }

  /** After the refit MOTIS can pair every course with its pattern, exactly
      when no pattern of a refitted course repeats a point the course keeps. */
  lemma {:induction false} RefitReads(items: seq<Item>)
    requires FreshIds(items)
    ensures AllRead(Refit(items)) <==> Exact(items)
  {
    hide RefitItem, FreshIds, ReadsIn, ExactCourse, RefitUpTo, OutcomeOf;
    if Exact(items) {
      forall c | c in Refit(items) && c.Course? ensures ReadsIn(Refit(items), c) {
        var k := FromItem(items, |items|, c);
        CourseItem(items, k, c);
        if OutcomeOf(items, items[k]) == Left { LeftReads(items, c); } else { MovedReads(items, k); }
      }
    }
    if AllRead(Refit(items)) {
      forall c | c in items && c.Course? ensures ExactCourse(items, c) {
        var k :| 0 <= k < |items| && items[k] == c;
        if OutcomeOf(items, c) == Refitted { MovedExact(items, k); } else { NotMovedExact(items, c); }
      }
    }
  }

  lemma {:induction false} NotMovedExact(items: seq<Item>, course: Item)
    requires course.Course? && OutcomeOf(items, course) != Refitted
    ensures ExactCourse(items, course)
  {
  }

  lemma {:induction false} MovedExact(items: seq<Item>, k: nat)
    requires FreshIds(items) && AllRead(Refit(items))
    requires k < |items| && items[k].Course? && OutcomeOf(items, items[k]) == Refitted
    ensures ExactCourse(items, items[k])
  {
    MovedThere(items, k);
    IntoFile(items, |items|, k, Moved(items, k));
    MovedReads(items, k);
  }

  lemma {:induction false} MovedThere(items: seq<Item>, k: nat)
    requires k < |items| && items[k].Course? && OutcomeOf(items, items[k]) == Refitted
    ensures Moved(items, k) in RefitItem(items, k)
  {
  }

  /** The pattern a, b, a with a course that calls at a and b: the course is
      refitted, the pattern derived for it keeps both a, and it still does not
      read. */
  const REPEATED: seq<Item> := [
    Pattern([1], [65], [Point([2], Some([97])), Point([3], Some([98])), Point([4], Some([97]))], false),
    Course([5], [65], [6], None, [Some([97]), Some([98])])]

  lemma {:induction false} RepeatedPattern()
    ensures PatternOf(REPEATED, [65]) == Some(REPEATED[0])
    ensures PointIds(REPEATED[0].pieces) == [Some([97]), Some([98]), Some([97])]
  {
    var course, pieces := REPEATED[1], REPEATED[0].pieces;
    assert REPEATED[..1] == [REPEATED[0]] && !course.Pattern?;
    assert PointIds(pieces[1..][1..][1..]) == [];
    assert PointIds(pieces[1..][1..]) == [Some([97])];
    assert PointIds(pieces[1..]) == [Some([98]), Some([97])];
  }

  lemma {:induction false} RepeatedIsRefitted()
    ensures OutcomeOf(REPEATED, REPEATED[1]) == Refitted
  {
    RepeatedPattern();
    var times, ids := REPEATED[1].times, PointIds(REPEATED[0].pieces);
    assert times[1..] == [Some([98])] && times[1..][1..] == [];
    assert ids[1..][0] == Some([98]);
    assert Subsequence(times[1..], ids[1..]);
  }

  lemma {:induction false} RepeatedIsFresh()
    ensures FreshIds(REPEATED)
  {
    forall p, n: nat ensures !IsMade(REPEATED, p, n, [65]) {
      assert |NewId(p, n)| >= 8;
    }
  }

  /** A pattern that calls at a, b and a again, with a course that calls at a
      and b: the course is refitted and still does not match. */
  lemma {:induction false} RepeatedPoint()
    ensures FreshIds(REPEATED) && OutcomeOf(REPEATED, REPEATED[1]) == Refitted && !AllRead(Refit(REPEATED))
  {
    hide FreshIds, AllRead, RefitUpTo, OutcomeOf;
    RepeatedIsFresh();
    RepeatedIsRefitted();
    RepeatedPattern();
    RefitReads(REPEATED);
    var ids := PointIds(REPEATED[0].pieces);
    assert multiset(ids)[Some([97])] == 2;
    assert Some([97]) in REPEATED[1].times && !OnceIn(ids, Some([97]));
    assert REPEATED[1] in REPEATED && !ExactCourse(REPEATED, REPEATED[1]);
  }

  /** No course that was dropped and no link to one is left. */
  lemma {:induction false} LinksGone(items: seq<Item>, x: Item)
    requires x in Refit(items)
    ensures x.Link? ==> x.refs !! DroppedIds(items) && x in items
    ensures x.Course? ==> exists c <- items :: c.Course? && !IsDropped(items, c) && c.cid == x.cid && c.times == x.times
  {
    var k := FromItem(items, |items|, x);
    if x.Course? { CourseItem(items, k, x); }
  }

  /** Everything else stays: other text, patterns, and the links and courses
      that are not dropped. */
  lemma {:induction false} RestStays(items: seq<Item>, k: nat)
    requires k < |items|
    ensures items[k].Raw? || items[k].Pattern? ==> items[k] in Refit(items)
    ensures items[k].Link? && items[k].refs !! DroppedIds(items) ==> items[k] in Refit(items)
    ensures items[k].Course? && OutcomeOf(items, items[k]) == Left ==> items[k] in Refit(items)
    ensures items[k].Course? && OutcomeOf(items, items[k]) == Refitted ==> Moved(items, k) in Refit(items)
  {
    forall x | x in RefitItem(items, k) ensures x in Refit(items) { IntoFile(items, |items|, k, x); }
    if items[k].Course? && OutcomeOf(items, items[k]) == Refitted { MovedThere(items, k); }
  }

  // ----- a second refit

  lemma {:induction false} ReadIsLeft(items: seq<Item>, course: Item)
    requires AllRead(items) && course in items && course.Course?
    ensures OutcomeOf(items, course) == Left
  {
    assert ReadsIn(items, course);
  }

  lemma {:induction false} NothingKept(items: seq<Item>, n: nat, pid: Text)
    requires AllRead(items) && n <= |items|
    ensures Keeps(items, n, pid) == []
    decreases n
  {
    if n > 0 {
      NothingKept(items, n - 1, pid);
      if items[n - 1].Course? { ReadIsLeft(items, items[n - 1]); }
    }
  }

  lemma {:induction false} NothingDropped(items: seq<Item>)
    requires AllRead(items)
    ensures DroppedIds(items) == {}
  {
    forall item | item in items ensures !IsDropped(items, item) {
      if item.Course? { ReadIsLeft(items, item); }
    }
  }

  lemma {:induction false} ItemUnchanged(items: seq<Item>, k: nat)
    requires AllRead(items) && k < |items|
    ensures RefitItem(items, k) == [items[k]]
  {
    NothingDropped(items);
    if items[k].Course? { ReadIsLeft(items, items[k]); }
    if items[k].Pattern? {
      NothingKept(items, |items|, items[k].pid);
      PatternItem(items, k);
    }
  }

  lemma {:induction false} NothingToRefit(items: seq<Item>, n: nat)
    requires AllRead(items) && n <= |items|
    ensures RefitUpTo(items, n) == items[..n]
    decreases n
  {
    hide RefitItem, AllRead;
    if n > 0 {
      NothingToRefit(items, n - 1);
      ItemUnchanged(items, n - 1);
    }
  }

  function CourseCount(items: seq<Item>): nat {
    if items == [] then 0 else CourseCount(items[..|items| - 1]) + if items[|items| - 1].Course? then 1 else 0
  }

  /** The bytes of the pattern ids the courses name. */
  function NamedBytes(items: seq<Item>): nat {
    if items == [] then 0
    else
      var last := items[|items| - 1];
      NamedBytes(items[..|items| - 1]) + if last.Course? then |last.pattern| else 0
  }

  lemma {:induction false} CountsTogether(a: seq<Item>, b: seq<Item>)
    ensures CourseCount(a + b) == CourseCount(a) + CourseCount(b) && NamedBytes(a + b) == NamedBytes(a) + NamedBytes(b)
  {
    if b == [] {
      assert a + b == a;
    } else {
      assert (a + b)[..|a + b| - 1] == a + b[..|b| - 1];
      CountsTogether(a, b[..|b| - 1]);
    }
  }

  lemma {:induction false} NoCourses(items: seq<Item>)
    requires forall x <- items :: !x.Course?
    ensures CourseCount(items) == 0 && NamedBytes(items) == 0
  {
    if items != [] { NoCourses(items[..|items| - 1]); }
  }

  lemma {:induction false} OneCounts(item: Item)
    ensures CourseCount([item]) == (if item.Course? then 1 else 0)
    ensures NamedBytes([item]) == if item.Course? then |item.pattern| else 0
  {
    assert [item][..0] == [];
  }

  /** A dropped course leaves fewer, a refitted one names a longer pattern. */
  lemma {:induction false} ItemCounts(items: seq<Item>, k: nat)
    requires k < |items|
    ensures var item, after := items[k], RefitItem(items, k);
      if item.Course? && OutcomeOf(items, item) == Dropped then CourseCount(after) == 0
      else
        && CourseCount(after) == CourseCount([item])
        && NamedBytes(after) >= NamedBytes([item])
        && (item.Course? && OutcomeOf(items, item) == Refitted ==> NamedBytes(after) > NamedBytes([item]))
  {
    hide OutcomeOf, CourseCount, NamedBytes, Keeps;
    var item, after := items[k], RefitItem(items, k);
    OneCounts(item);
    if item.Course? && OutcomeOf(items, item) != Dropped {
      OneCounts(after[0]);
      assert after == [after[0]];
    } else {
      NoCourses(after);
    }
  }

  lemma {:induction false} FewerCourses(items: seq<Item>, n: nat)
    requires n <= |items|
    ensures CourseCount(RefitUpTo(items, n)) <= CourseCount(items[..n])
    ensures CourseCount(RefitUpTo(items, n)) == CourseCount(items[..n]) ==>
      forall k :: 0 <= k < n ==> !IsDropped(items, items[k])
    decreases n
  {
    hide OutcomeOf, CourseCount, NamedBytes, RefitItem;
    if n > 0 {
      FewerCourses(items, n - 1);
      ItemCounts(items, n - 1);
      CountsTogether(RefitUpTo(items, n - 1), RefitItem(items, n - 1));
      CountsTogether(items[..n - 1], [items[n - 1]]);
      OneCounts(items[n - 1]);
      assert items[..n] == items[..n - 1] + [items[n - 1]];
    } else {
      assert items[..0] == [];
    }
  }

  lemma {:induction false} LongerNames(items: seq<Item>, n: nat)
    requires n <= |items| && forall k :: 0 <= k < n ==> !IsDropped(items, items[k])
    ensures NamedBytes(RefitUpTo(items, n)) >= NamedBytes(items[..n])
    ensures NamedBytes(RefitUpTo(items, n)) == NamedBytes(items[..n]) ==>
      forall k :: 0 <= k < n && items[k].Course? ==> OutcomeOf(items, items[k]) == Left
    decreases n
  {
    hide OutcomeOf, CourseCount, NamedBytes, RefitItem;
    if n > 0 {
      LongerNames(items, n - 1);
      ItemCounts(items, n - 1);
      CountsTogether(RefitUpTo(items, n - 1), RefitItem(items, n - 1));
      CountsTogether(items[..n - 1], [items[n - 1]]);
      assert items[..n] == items[..n - 1] + [items[n - 1]];
    } else {
      assert items[..0] == [];
    }
  }

  lemma {:induction false} LeftIsRead(items: seq<Item>, course: Item)
    requires course.Course? && OutcomeOf(items, course) == Left
    ensures ReadsIn(items, course)
  {
  }

  /** A file is left as it is exactly when MOTIS can read all its courses. */
  lemma {:induction false} UnchangedIsRead(items: seq<Item>)
    ensures Refit(items) == items <==> AllRead(items)
  {
    hide OutcomeOf, RefitUpTo, ReadsIn, CourseCount, NamedBytes;
    assert items[..|items|] == items;
    if AllRead(items) { NothingToRefit(items, |items|); }
    if Refit(items) == items {
      FewerCourses(items, |items|);
      LongerNames(items, |items|);
      forall c | c in items && c.Course? ensures ReadsIn(items, c) {
        var k :| 0 <= k < |items| && items[k] == c;
        LeftIsRead(items, c);
      }
    }
  }

  // ----- ids made that the file already holds

  ghost predicate MadeAt(items: seq<Item>, k: nat, i: nat, id: Text)
    requires k < |items| && items[k].Pattern?
  {
    IsLastPattern(items, k) && i < |Keeps(items, |items|, items[k].pid)| && id == NewId(items[k].pid, i + 1)
  }

  /** The pattern an id names among the k-th pattern and those derived of it. */
  ghost function NamedAt(items: seq<Item>, k: nat, id: Text): (r: Option<Item>)
    requires k < |items|
    ensures r.Some? ==> r.value.Pattern?
  {
    if !items[k].Pattern? then None
    else if exists i: nat :: MadeAt(items, k, i, id) then
      var i: nat :| MadeAt(items, k, i, id);
      Some(Derived(items[k], Keeps(items, |items|, items[k].pid)[i], id))
    else if items[k].pid == id then Some(items[k])
    else None
  }

  /** The pattern an id names in the end: of the patterns of that id, old or
      derived behind the pattern they come from, the last. */
  ghost function NamedIn(items: seq<Item>, n: nat, id: Text): (r: Option<Item>)
    requires n <= |items|
    ensures r.Some? ==> r.value.Pattern?
  {
    if n == 0 then None
    else if NamedAt(items, n - 1, id).Some? then NamedAt(items, n - 1, id) else NamedIn(items, n - 1, id)
  }

  lemma {:induction false} NamedByItem(items: seq<Item>, k: nat, id: Text)
    requires k < |items|
    ensures PatternOf(RefitItem(items, k), id) == NamedAt(items, k, id)
  {
    hide RefitItem, DerivedAll, Keeps, PatternOf, NewId;
    var item := items[k];
    if item.Pattern? {
      PatternItem(items, k);
      OnlyOne(item, id);
      var keeps := Keeps(items, |items|, item.pid);
      PatternOfConcat([item], DerivedAll(item, keeps), id);
      if i: nat :| MadeAt(items, k, i, id) {
        DerivedOf(item, keeps, i);
        forall j: nat | MadeAt(items, k, j, id) ensures j == i { NewIdsDiffer(item.pid, i + 1, item.pid, j + 1); }
      } else if IsLastPattern(items, k) {
        forall n: nat | 0 < n <= |keeps| ensures id != NewId(item.pid, n) {
          var i := n - 1;
          assert !MadeAt(items, k, i, id);
        }
        DerivedNotOld(item, keeps, id);
      } else {
        assert [item] + [] == [item];
      }
    } else {
      OtherItem(items, k);
      NoPatternOf(RefitItem(items, k), id);
    }
  }

  lemma {:induction false} NamedAfter(items: seq<Item>, n: nat, id: Text)
    requires n <= |items|
    ensures PatternOf(RefitUpTo(items, n), id) == NamedIn(items, n, id)
    decreases n
  {
    hide RefitItem, PatternOf, NamedAt;
    if n > 0 {
      NamedAfter(items, n - 1, id);
      PatternOfConcat(RefitUpTo(items, n - 1), RefitItem(items, n - 1), id);
      NamedByItem(items, n - 1, id);
    } else {
      NoPatternOf([], id);
    }
  }

  /** The pattern a course names after the refit. */
  ghost function Target(items: seq<Item>, k: nat): Text
    requires k < |items| && items[k].Course?
  {
    if OutcomeOf(items, items[k]) == Refitted then Moved(items, k).pattern else items[k].pattern
  }

  ghost predicate Fitting(items: seq<Item>, k: nat)
    requires k < |items|
  {
    items[k].Course? && OutcomeOf(items, items[k]) != Dropped ==>
      Fits(items[k].times, NamedIn(items, |items|, Target(items, k)))
  }

  lemma {:induction false} CourseThere(items: seq<Item>, k: nat)
    requires k < |items| && items[k].Course? && OutcomeOf(items, items[k]) != Dropped
    ensures items[k].(pattern := Target(items, k)) in RefitItem(items, k)
    ensures forall x <- RefitItem(items, k) :: x == items[k].(pattern := Target(items, k))
  {
  }

  lemma {:induction false} NoCourseThere(items: seq<Item>, k: nat, x: Item)
    requires k < |items| && x in RefitItem(items, k) && x.Course?
    ensures items[k].Course? && OutcomeOf(items, items[k]) != Dropped
  {
  }

  /** Whatever ids the file holds: MOTIS can pair every course with its pattern
      after the refit exactly when each course left fits the pattern its id
      names in the end. */
  lemma {:induction false} RefitReadsAlways(items: seq<Item>)
    ensures AllRead(Refit(items)) <==> forall k :: 0 <= k < |items| ==> Fitting(items, k)
  {
    hide RefitItem, Fits, RefitUpTo, OutcomeOf, PatternOf, NamedIn, Target, Moved;
    var after := Refit(items);
    if AllRead(after) {
      forall k | 0 <= k < |items| ensures Fitting(items, k) {
        if items[k].Course? && OutcomeOf(items, items[k]) != Dropped {
          var c := items[k].(pattern := Target(items, k));
          CourseThere(items, k);
          IntoFile(items, |items|, k, c);
          assert ReadsIn(after, c);
          NamedAfter(items, |items|, c.pattern);
        }
      }
    }
    if forall k :: 0 <= k < |items| ==> Fitting(items, k) {
      forall c | c in after && c.Course? ensures ReadsIn(after, c) {
        var k := FromItem(items, |items|, c);
        NoCourseThere(items, k, c);
        CourseThere(items, k);
        NamedAfter(items, |items|, c.pattern);
        assert Fitting(items, k);
      }
    }
  }

  /** A file whose later pattern already has the id the refit makes: the
      course is moved to that pattern, which is not its own. */
  const TAKEN: seq<Item> := [
    Pattern([1], [65], [Point([2], Some([97])), Point([3], Some([98])), Point([4], Some([99]))], false),
    Course([5], [65], [6], None, [Some([97]), Some([98])]),
    Pattern([1], [65] + VIATOR + [0x31], [Point([2], Some([120])), Point([3], Some([121]))], false)]

  // ----- a second refit, decided

  /** A second refit changes nothing exactly when the first made every course
      readable. */
  lemma {:induction false} SecondRefit(items: seq<Item>)
    ensures FreshIds(items) ==> (Refit(Refit(items)) == Refit(items) <==> Exact(items))
    ensures Refit(Refit(items)) == Refit(items) <==> forall k :: 0 <= k < |items| ==> Fitting(items, k)
  {
    hide *;
    if FreshIds(items) { RefitReads(items); }
    RefitReadsAlways(items);
    UnchangedIsRead(Refit(items));
  }

  /** The course with the repeated point is moved again. */
  lemma {:induction false} RepeatedAgain()
    ensures FreshIds(REPEATED) && Refit(Refit(REPEATED)) != Refit(REPEATED)
  {
    hide *;
    RepeatedPoint();
    UnchangedIsRead(Refit(REPEATED));
  }

  lemma {:induction false} TakenPatterns()
    ensures PatternOf(TAKEN, [65]) == Some(TAKEN[0])
    ensures PointIds(TAKEN[0].pieces) == [Some([97]), Some([98]), Some([99])]
    ensures PointIds(TAKEN[2].pieces) == [Some([120]), Some([121])]
  {
    var p, q := TAKEN[0].pieces, TAKEN[2].pieces;
    assert TAKEN[..2] == [TAKEN[0], TAKEN[1]] && TAKEN[..2][..1] == [TAKEN[0]];
    assert |TAKEN[2].pid| != |TAKEN[0].pid| && !TAKEN[1].Pattern?;
    assert PatternOf([TAKEN[0]], [65]) == Some(TAKEN[0]);
    assert PatternOf([TAKEN[0], TAKEN[1]], [65]) == Some(TAKEN[0]);
    assert PointIds(p[1..][1..][1..]) == [] && PointIds(p[1..][1..]) == [Some([99])];
    assert PointIds(p[1..]) == [Some([98]), Some([99])];
    assert PointIds(q[1..][1..]) == [] && PointIds(q[1..]) == [Some([121])];
  }

  lemma {:induction false} TakenIsRefitted()
    ensures OutcomeOf(TAKEN, TAKEN[1]) == Refitted
  {
    TakenPatterns();
    var times, ids := TAKEN[1].times, PointIds(TAKEN[0].pieces);
    assert times[1..] == [Some([98])] && times[1..][1..] == [];
    assert ids[1..][0] == Some([98]);
    assert Subsequence(times[1..], ids[1..]);
  }

  lemma {:induction false} TakenTarget()
    ensures OutcomeOf(TAKEN, TAKEN[1]) == Refitted && Target(TAKEN, 1) == TAKEN[2].pid
  {
    TakenIsRefitted();
    hide OutcomeOf;
    assert Keeps(TAKEN, 0, [65]) == [] && Keeps(TAKEN, 1, [65]) == [];
    assert Keeps(TAKEN, 2, [65]) == [TAKEN[1].times];
    assert Keeps(TAKEN, 3, [65]) == [TAKEN[1].times];
    assert Digits(1) == [0x31];
  }

  /** Each point the course keeps stands once in its pattern, and still the
      course does not match the pattern it names in the end. */
  lemma {:induction false} TakenId()
    ensures ExactCourse(TAKEN, TAKEN[1]) && !AllRead(Refit(TAKEN))
  {
    hide OutcomeOf, Keeps, NewId, AllRead, Target;
    TakenTarget();
    TakenPatterns();
    RefitReadsAlways(TAKEN);
    TakenNamed();
    assert !Fitting(TAKEN, 1);
  }

  lemma {:induction false} TakenNamed()
    ensures NamedIn(TAKEN, 3, TAKEN[2].pid) == Some(TAKEN[2])
  {
    hide Keeps, NewId;
    forall i: nat ensures !MadeAt(TAKEN, 2, i, TAKEN[2].pid) {
      assert TAKEN[2].pid != NewId(TAKEN[2].pid, i + 1) by { LastDash(TAKEN[2].pid, i + 1); }
    }
  }
}
