/** The edits of a refit and their application to the bytes of the file
    (app/netex_motis_repair.py). */
module RefitEdits {
  import opened Bytes
  import opened CourseRefit

  /** Bytes [start, end) become `text`. */
  datatype Edit = Edit(start: nat, end: nat, text: Text)

  predicate Within(e: Edit, data: Text) { e.start <= e.end <= |data| }

  predicate Before(a: Edit, b: Edit) { a.start < b.start || (a.start == b.start && a.end < b.end) }

  // ----- sorting

  ghost predicate Ordered(edits: seq<Edit>) {
    forall i, j :: 0 <= i < j < |edits| ==> !Before(edits[j], edits[i])
  }

  ghost predicate Ascending(edits: seq<Edit>) {
    forall i, j :: 0 <= i < j < |edits| ==> Before(edits[i], edits[j])
  }

  function Insert(e: Edit, edits: seq<Edit>): seq<Edit> {
    if edits == [] then [e]
    else if !Before(edits[0], e) then [e] + edits
    else [edits[0]] + Insert(e, edits[1..])
  }

  function Sorted(edits: seq<Edit>): seq<Edit> {
    if edits == [] then [] else Insert(edits[0], Sorted(edits[1..]))
  }

  lemma {:induction false} FirstAndRest(edits: seq<Edit>)
    requires edits != []
    ensures multiset(edits) == multiset{edits[0]} + multiset(edits[1..])
  {
    assert edits == [edits[0]] + edits[1..];
  }

  lemma {:induction false} InsertKeeps(e: Edit, edits: seq<Edit>)
    ensures multiset(Insert(e, edits)) == multiset{e} + multiset(edits)
  {
    if edits != [] && Before(edits[0], e) {
      InsertKeeps(e, edits[1..]);
      FirstAndRest(edits);
      FirstAndRest(Insert(e, edits));
      assert Insert(e, edits)[1..] == Insert(e, edits[1..]);
    }
  }

  lemma {:induction false} InsertMember(e: Edit, edits: seq<Edit>, x: Edit)
    ensures x in Insert(e, edits) <==> x == e || x in edits
  {
    if edits != [] && Before(edits[0], e) { InsertMember(e, edits[1..], x); }
  }

  lemma {:induction false} InsertOrders(e: Edit, edits: seq<Edit>)
    requires Ordered(edits)
    ensures Ordered(Insert(e, edits))
  {
    if edits != [] && Before(edits[0], e) {
      var rest := Insert(e, edits[1..]);
      InsertOrders(e, edits[1..]);
      forall i | 0 <= i < |rest| ensures !Before(rest[i], edits[0]) { InsertMember(e, edits[1..], rest[i]); }
    } else if edits != [] {
      forall i | 0 <= i < |edits| ensures !Before(edits[i], e) { assert i > 0 ==> !Before(edits[i], edits[0]); }
    }
  }

  lemma {:induction false} SortedIs(edits: seq<Edit>)
    ensures Ordered(Sorted(edits)) && multiset(Sorted(edits)) == multiset(edits)
  {
    if edits != [] {
      SortedIs(edits[1..]);
      InsertOrders(edits[0], Sorted(edits[1..]));
      InsertKeeps(edits[0], Sorted(edits[1..]));
      FirstAndRest(edits);
    }
  }

  lemma {:induction false} SameFirst(a: seq<Edit>, b: seq<Edit>)
    requires Ordered(a) && Ascending(b) && multiset(a) == multiset(b) && a != [] && b != []
    ensures a[0] == b[0]
  {
    assert a[0] in multiset(a) && b[0] in multiset(b);
    var i :| 0 <= i < |b| && b[i] == a[0];
    var j :| 0 <= j < |a| && a[j] == b[0];
    assert i > 0 ==> Before(b[0], b[i]);
    assert j > 0 ==> !Before(a[j], a[0]);
  }

  /** Edits no two of which begin and end alike have one order. */
  lemma {:induction false} OneOrder(a: seq<Edit>, b: seq<Edit>)
    requires Ordered(a) && Ascending(b) && multiset(a) == multiset(b)
    ensures a == b
    decreases |a|
  {
    assert |a| == |multiset(a)| == |multiset(b)| == |b|;
    if a != [] {
      SameFirst(a, b);
      RestsAgree(a, b);
      OneOrder(a[1..], b[1..]);
      assert a == [a[0]] + a[1..] && b == [b[0]] + b[1..];
    }
  }

  lemma {:induction false} RestsAgree(a: seq<Edit>, b: seq<Edit>)
    requires a != [] && b != [] && a[0] == b[0] && multiset(a) == multiset(b)
    ensures multiset(a[1..]) == multiset(b[1..])
  {
    FirstAndRest(a);
    FirstAndRest(b);
    assert multiset(a[1..]) == multiset(a) - multiset{a[0]};
    assert multiset(b[1..]) == multiset(b) - multiset{b[0]};
  }

  // ----- application

  predicate AllWithin(edits: seq<Edit>, data: Text) { forall i :: 0 <= i < |edits| ==> Within(edits[i], data) }

  /** `_apply` from byte `pos` on: an edit that begins before it is skipped. */
  function Applied(data: Text, pos: nat, edits: seq<Edit>): Text
    requires pos <= |data| && AllWithin(edits, data)
    decreases |edits|
  {
    if edits == [] then data[pos..]
    else if edits[0].start < pos then Applied(data, pos, edits[1..])
    else data[pos..edits[0].start] + edits[0].text + Applied(data, edits[0].end, edits[1..])
  }

  lemma {:induction false} SortedWithin(edits: seq<Edit>, data: Text)
    requires AllWithin(edits, data)
    ensures AllWithin(Sorted(edits), data)
  {
    SortedIs(edits);
    forall i | 0 <= i < |Sorted(edits)| ensures Within(Sorted(edits)[i], data) {
      assert Sorted(edits)[i] in multiset(edits);
    }
  }

  method Apply(data: Text, edits: seq<Edit>) returns (out: Text)
    requires AllWithin(edits, data)
    ensures AllWithin(Sorted(edits), data) && out == Applied(data, 0, Sorted(edits))
  {
    SortedWithin(edits, data);
    var sorted := Sorted(edits);
    var pieces: Text, pos := [], 0;
    assert sorted[0..] == sorted;
    for i := 0 to |sorted|
      invariant 0 <= pos <= |data|
      invariant Applied(data, 0, sorted) == pieces + Applied(data, pos, sorted[i..])
    {
      assert sorted[i..][0] == sorted[i] && sorted[i..][1..] == sorted[i + 1..];
      if sorted[i].start >= pos {
        pieces := pieces + (data[pos..sorted[i].start] + sorted[i].text);
        pos := sorted[i].end;
      }
    }
    out := pieces + data[pos..];
  }

  /** Bytes before every edit are copied. */
  lemma {:induction false} CopiedUpTo(data: Text, pos: nat, until: nat, edits: seq<Edit>)
    requires pos <= until <= |data| && AllWithin(edits, data) && forall i :: 0 <= i < |edits| ==>
      until <= edits[i].start
    ensures Applied(data, pos, edits) == data[pos..until] + Applied(data, until, edits)
  {
    if edits == [] {
      assert data[pos..] == data[pos..until] + data[until..];
    } else {
      var first := edits[0];
      Associate(data, pos, until, first.start, first.text, Applied(data, first.end, edits[1..]));
    }
  }

  lemma {:induction false} Associate(data: Text, a: nat, b: nat, c: nat, text: Text, rest: Text)
    requires a <= b <= c <= |data|
    ensures data[a..c] + text + rest == data[a..b] + (data[b..c] + text + rest)
  {
    assert data[a..c] == data[a..b] + data[b..c];
  }

  // ----- the edits of a file, in document order

  function StartOf(items: seq<Item>, k: nat): nat
    requires k <= |items|
  {
    |Print(items[..k])|
  }

  /** Tags have bytes around what is replaced in them. */
  predicate WellFormed(item: Item) {
    match item
    case Raw(_) => true
    case Pattern(before, _, _, _) => before != []
    case Course(before, _, after, _, _) => before != [] && after != []
    case Link(text, _, _) => text != []
  }

  ghost function ItemEdits(items: seq<Item>, k: nat): seq<Edit>
    requires k < |items|
  {
    var item, at := items[k], StartOf(items, k);
    var end := at + |PrintItem(item)|;
    match item
    case Raw(_) => []
    case Link(_, refs, _) => if refs !! DroppedIds(items) then [] else [Edit(at, end, [])]
    case Pattern(_, pid, _, _) =>
      if IsLastPattern(items, k) && Keeps(items, |items|, pid) != []
      then [Edit(end, end, Print(DerivedAll(item, Keeps(items, |items|, pid))))] else []
    case Course(before, pattern, _, _, _) =>
      match OutcomeOf(items, item)
      case Left => []
      case Dropped => [Edit(at, end, [])]
      case Refitted => [Edit(at + |before|, at + |before| + |pattern|, Moved(items, k).pattern)]
  }

  ghost function EditsFrom(items: seq<Item>, k: nat): seq<Edit>
    requires k <= |items|
    decreases |items| - k
  {
    if k == |items| then [] else ItemEdits(items, k) + EditsFrom(items, k + 1)
  }

  lemma {:induction false} PrintConcat(a: seq<Item>, b: seq<Item>)
    ensures Print(a + b) == Print(a) + Print(b)
  {
    if a == [] {
      assert a + b == b;
    } else {
      assert (a + b)[1..] == a[1..] + b;
      PrintConcat(a[1..], b);
    }
  }

  /** The bytes of an item stand where it starts. */
  lemma {:induction false} ItemBytes(items: seq<Item>, k: nat)
    requires k < |items|
    ensures StartOf(items, k + 1) == StartOf(items, k) + |PrintItem(items[k])| <= |Print(items)|
    ensures Print(items)[StartOf(items, k)..StartOf(items, k + 1)] == PrintItem(items[k])
  {
    var a, b := items[..k], items[k + 1..];
    assert items == a + [items[k]] + b && items[..k + 1] == a + [items[k]];
    PrintConcat(a + [items[k]], b);
    PrintConcat(a, [items[k]]);
    assert Print([items[k]]) == PrintItem(items[k]) + Print([]);
  }

  lemma {:induction false} StartsRise(items: seq<Item>, j: nat, k: nat)
    requires j <= k <= |items|
    ensures StartOf(items, j) <= StartOf(items, k) <= |Print(items)|
    decreases k - j
  {
    assert items[..|items|] == items;
    if j < k {
      ItemBytes(items, j);
      StartsRise(items, j + 1, k);
    } else if k < |items| {
      ItemBytes(items, k);
    }
  }

  /** An item has at most one edit, inside its bytes. */
  lemma {:induction false} ItemEditInside(items: seq<Item>, k: nat)
    requires k < |items| && WellFormed(items[k])
    ensures |ItemEdits(items, k)| <= 1
    ensures var edits := ItemEdits(items, k); edits != [] ==>
      && StartOf(items, k) <= edits[0].start <= edits[0].end <= StartOf(items, k + 1)
      && (edits[0].start == edits[0].end ==> StartOf(items, k) < edits[0].start)
  {
    ItemBytes(items, k);
  }

  ghost predicate Sound(items: seq<Item>) { forall item <- items :: WellFormed(item) }

  /** The edits from an item on come one after the other, from its start on. */
  lemma {:induction false} EditsAscend(items: seq<Item>, k: nat)
    requires k <= |items| && Sound(items)
    ensures Ascending(EditsFrom(items, k)) && AllWithin(EditsFrom(items, k), Print(items))
    ensures forall i :: 0 <= i < |EditsFrom(items, k)| ==> StartOf(items, k) <= EditsFrom(items, k)[i].start
    ensures forall i :: 0 <= i < |EditsFrom(items, k)| && EditsFrom(items, k)[i].start == StartOf(items, k) ==>
      EditsFrom(items, k)[i].end > StartOf(items, k)
    decreases |items| - k
  {
    hide ItemEdits, StartOf;
    if k < |items| {
      EditsAscend(items, k + 1);
      ItemEditInside(items, k);
      StartsRise(items, k, k + 1);
      FirstThenRest(
        ItemEdits(items, k), EditsFrom(items, k + 1), StartOf(items, k), StartOf(items, k + 1), |Print(items)|);
    }
  }

  lemma {:induction false} FirstThenRest(first: seq<Edit>, rest: seq<Edit>, lo: nat, mid: nat, n: nat)
    requires |first| <= 1 && lo <= mid <= n && Ascending(rest)
    requires first != [] ==>
      lo <= first[0].start <= first[0].end <= mid && (first[0].start == first[0].end ==> lo < first[0].start)
    requires forall i :: 0 <= i < |rest| ==>
      mid <= rest[i].start <= rest[i].end <= n && (rest[i].start == mid ==> rest[i].end > mid)
    ensures var all := first + rest;
      Ascending(all) && forall i :: 0 <= i < |all| ==>
        lo <= all[i].start <= all[i].end <= n && (all[i].start == lo ==> all[i].end > lo)
  {
    if first != [] {
      forall i | 0 <= i < |rest| ensures Before(first[0], rest[i]) {}
    }
  }

  ghost function RefitFrom(items: seq<Item>, k: nat): seq<Item>
    requires k <= |items|
    decreases |items| - k
  {
    if k == |items| then [] else RefitItem(items, k) + RefitFrom(items, k + 1)
  }

  lemma {:induction false} RefitSplit(items: seq<Item>, k: nat)
    requires k <= |items|
    ensures RefitUpTo(items, k) + RefitFrom(items, k) == Refit(items)
    decreases |items| - k
  {
    hide RefitItem;
    if k < |items| {
      RefitSplit(items, k + 1);
      assert RefitUpTo(items, k) + (RefitItem(items, k) + RefitFrom(items, k + 1)) ==
        RefitUpTo(items, k) + RefitItem(items, k) + RefitFrom(items, k + 1);
    }
  }

  // ----- one item's edit turns its bytes into those of its refit

  lemma {:induction false} PrintOne(item: Item)
    ensures Print([item]) == PrintItem(item)
  {
    assert Print([item]) == PrintItem(item) + Print([]);
  }

  /** The bytes of an item with its edit applied. */
  ghost function Edited(items: seq<Item>, k: nat): Text
    requires k < |items|
  {
    var data, lo, hi, edits := Print(items), StartOf(items, k), StartOf(items, k + 1), ItemEdits(items, k);
    if edits == [] then PrintItem(items[k])
    else if lo <= edits[0].start <= edits[0].end <= hi <= |data|
    then data[lo..edits[0].start] + edits[0].text + data[edits[0].end..hi]
    else []
  }

  lemma {:induction false} PatternEdited(items: seq<Item>, k: nat)
    requires k < |items| && items[k].Pattern?
    ensures Edited(items, k) == Print(RefitItem(items, k))
  {
    hide StartOf, IsLastPattern, Keeps, DerivedAll, PrintItem, Print, RefitItem;
    ItemBytes(items, k);
    var item := items[k];
    var more := DerivedAll(item, Keeps(items, |items|, item.pid));
    PatternItem(items, k);
    PrintOne(item);
    assert [item] + [] == [item];
    if IsLastPattern(items, k) && more != [] {
      PrintConcat([item], more);
      EditedIs(items, k, ItemEdits(items, k)[0]);
      assert PrintItem(item) + Print(more) + [] == PrintItem(item) + Print(more);
    }
  }

  lemma {:induction false} RefittedCourse(items: seq<Item>, k: nat)
    requires k < |items| && items[k].Course? && OutcomeOf(items, items[k]) == Refitted
    ensures RefitItem(items, k) == [Moved(items, k)]
    ensures var at := StartOf(items, k) + |items[k].before|;
      ItemEdits(items, k) == [Edit(at, at + |items[k].pattern|, Moved(items, k).pattern)]
  {
    hide OutcomeOf, NewId, StartOf, Keeps;
  }

  lemma {:induction false} MovedEdited(items: seq<Item>, k: nat)
    requires k < |items| && items[k].Course? && OutcomeOf(items, items[k]) == Refitted
    ensures Edited(items, k) == Print(RefitItem(items, k))
  {
    hide *;
    ItemBytes(items, k);
    RefittedCourse(items, k);
    PrintOne(Moved(items, k));
    PrintMoved(items, k);
    CourseCut(Print(items), StartOf(items, k), StartOf(items, k + 1), items[k]);
    EditedIs(items, k, ItemEdits(items, k)[0]);
  }

  lemma {:induction false} PrintMoved(items: seq<Item>, k: nat)
    requires k < |items| && items[k].Course? && OutcomeOf(items, items[k]) == Refitted
    ensures Moved(items, k).Course? &&
      PrintItem(Moved(items, k)) == items[k].before + Moved(items, k).pattern + items[k].after
  {
    hide OutcomeOf, NewId, Keeps;
  }

  lemma {:induction false} EditedIs(items: seq<Item>, k: nat, e: Edit)
    requires k < |items| && ItemEdits(items, k) == [e]
    requires StartOf(items, k) <= e.start <= e.end <= StartOf(items, k + 1) <= |Print(items)|
    ensures Edited(items, k) ==
      Print(items)[StartOf(items, k)..e.start] + e.text + Print(items)[e.end..StartOf(items, k + 1)]
  {
    hide ItemEdits, StartOf, Print;
  }

  lemma {:induction false} CourseEdited(items: seq<Item>, k: nat)
    requires k < |items| && items[k].Course?
    ensures Edited(items, k) == Print(RefitItem(items, k))
  {
    hide StartOf, Keeps, OutcomeOf, NewId;
    if OutcomeOf(items, items[k]) == Refitted {
      MovedEdited(items, k);
    } else {
      ItemBytes(items, k);
      PrintOne(items[k]);
    }
  }

  lemma {:induction false} CourseCut(data: Text, lo: nat, hi: nat, course: Item)
    requires course.Course? && lo <= hi <= |data| && data[lo..hi] == PrintItem(course)
    ensures var at := lo + |course.before|;
      && at + |course.pattern| <= hi
      && data[lo..at] == course.before && data[at + |course.pattern|..hi] == course.after
  {
    var at := lo + |course.before|;
    assert data[lo..at] == data[lo..hi][..|course.before|];
    assert data[at + |course.pattern|..hi] == data[lo..hi][|course.before| + |course.pattern|..];
  }

  lemma {:induction false} ItemEdited(items: seq<Item>, k: nat)
    requires k < |items|
    ensures Edited(items, k) == Print(RefitItem(items, k))
  {
    if items[k].Pattern? {
      PatternEdited(items, k);
    } else if items[k].Course? {
      CourseEdited(items, k);
    } else {
      ItemBytes(items, k);
      PrintOne(items[k]);
    }
  }

  /** Applied from an item on, the edits print the refit from there on. */
  lemma {:induction false} AppliedFrom(items: seq<Item>, k: nat)
    requires k <= |items| && Sound(items)
    ensures StartOf(items, k) <= |Print(items)| && AllWithin(EditsFrom(items, k), Print(items))
    ensures Applied(Print(items), StartOf(items, k), EditsFrom(items, k)) == Print(RefitFrom(items, k))
    decreases |items| - k
  {
    hide *;
    EditsAscend(items, k);
    StartsRise(items, k, k);
    FromStep(items, k);
    if k < |items| {
      AppliedFrom(items, k + 1);
      ItemEdited(items, k);
      PrintConcat(RefitItem(items, k), RefitFrom(items, k + 1));
      ItemBytes(items, k);
      ItemEditInside(items, k);
      EditsAscend(items, k + 1);
      OneEdit(Print(items), StartOf(items, k), StartOf(items, k + 1), ItemEdits(items, k), EditsFrom(items, k + 1));
    } else {
      StartOfAll(items);
      AppliedNone(Print(items));
    }
  }

  lemma {:induction false} AppliedNone(data: Text)
    ensures AllWithin([], data) && Applied(data, |data|, []) == []
  {
  }

  /** One item off the edits and off the refit. */
  lemma {:induction false} FromStep(items: seq<Item>, k: nat)
    requires k <= |items| && Sound(items)
    ensures k == |items| ==> EditsFrom(items, k) == [] && RefitFrom(items, k) == []
    ensures k < |items| ==>
      && EditsFrom(items, k) == ItemEdits(items, k) + EditsFrom(items, k + 1)
      && RefitFrom(items, k) == RefitItem(items, k) + RefitFrom(items, k + 1)
      && WellFormed(items[k])
      && Edited(items, k) ==
           var data, lo, hi, edits := Print(items), StartOf(items, k), StartOf(items, k + 1), ItemEdits(items, k);
           if edits == [] then PrintItem(items[k])
           else if lo <= edits[0].start <= edits[0].end <= hi <= |data|
           then data[lo..edits[0].start] + edits[0].text + data[edits[0].end..hi]
           else []
  {
    hide ItemEdits, RefitItem, StartOf, Print, PrintItem, WellFormed;
  }

  lemma {:induction false} StartOfAll(items: seq<Item>)
    ensures StartOf(items, |items|) == |Print(items)| && Print([]) == []
  {
    assert items[..|items|] == items;
  }

  lemma {:induction false} OneEdit(data: Text, lo: nat, hi: nat, first: seq<Edit>, rest: seq<Edit>)
    requires lo <= hi <= |data| && |first| <= 1 && AllWithin(first + rest, data) && AllWithin(rest, data)
    requires first != [] ==> lo <= first[0].start <= first[0].end <= hi
    requires forall i :: 0 <= i < |rest| ==> hi <= rest[i].start
    ensures Applied(data, lo, first + rest) ==
      (if first == [] then data[lo..hi] else data[lo..first[0].start] + first[0].text + data[first[0].end..hi])
        + Applied(data, hi, rest)
  {
    if first == [] {
      assert first + rest == rest;
      CopiedUpTo(data, lo, hi, rest);
    } else {
      var e := first[0];
      assert (first + rest)[0] == e && (first + rest)[1..] == rest;
      CopiedUpTo(data, e.end, hi, rest);
    }
  }

  /** Whatever order the edits are queued in, applying them to the bytes of the
      file gives the bytes of the refitted file. */
  lemma {:induction false} EditsGiveRefit(items: seq<Item>, edits: seq<Edit>)
    requires Sound(items) && multiset(edits) == multiset(EditsFrom(items, 0))
    ensures AllWithin(edits, Print(items)) && AllWithin(Sorted(edits), Print(items))
    ensures Applied(Print(items), 0, Sorted(edits)) == Print(Refit(items))
  {
    hide EditsFrom, Print, Sorted, Applied, WellFormed;
    EditsAscend(items, 0);
    SortedIs(edits);
    OneOrder(Sorted(edits), EditsFrom(items, 0));
    forall i | 0 <= i < |edits| ensures Within(edits[i], Print(items)) {
      assert edits[i] in multiset(edits);
    }
    AppliedFrom(items, 0);
    StartOfNothing(items);
    RefitSplit(items, 0);
    assert [] + RefitFrom(items, 0) == RefitFrom(items, 0);
  }

  lemma {:induction false} StartOfNothing(items: seq<Item>)
    ensures StartOf(items, 0) == 0 && RefitUpTo(items, 0) == []
  {
    assert items[..0] == [];
  }
}
