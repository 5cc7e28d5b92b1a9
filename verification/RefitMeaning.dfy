/** Which courses a refit moves and which it drops, said of the points of their
    patterns by position (app/netex_motis_repair.py). */
module RefitMeaning {
  import opened Bytes
  import opened CourseRefit

  // ----- the pattern a course names

  /** The k-th item is the last pattern of that id. */
  ghost predicate IsNamed(items: seq<Item>, k: int, id: Text) {
    && 0 <= k < |items| && items[k].Pattern? && items[k].pid == id
    && forall j :: k < j < |items| && items[j].Pattern? ==> items[j].pid != id
  }

  lemma {:induction false} NamedIs(items: seq<Item>, id: Text)
    ensures PatternOf(items, id).Some? ==> exists k :: IsNamed(items, k, id) && items[k] == PatternOf(items, id).value
    ensures PatternOf(items, id).None? ==> forall item <- items :: !(item.Pattern? && item.pid == id)
  {
    if items != [] {
      var n := |items| - 1;
      var before := items[..n];
      assert items == before + [items[n]];
      NamedIs(before, id);
      if items[n].Pattern? && items[n].pid == id {
        assert IsNamed(items, n, id);
      } else if PatternOf(before, id).Some? {
        var k :| IsNamed(before, k, id) && before[k] == PatternOf(before, id).value;
        assert IsNamed(items, k, id) && items[k] == before[k];
      }
    }
  }

  // ----- the points of a pattern

  /** The points of a pattern are those of its pieces, in order. */
  lemma {:induction false} PointsAre(a: seq<Piece>, b: seq<Piece>)
    ensures PointIds(a + b) == PointIds(a) + PointIds(b)
  {
    if a == [] {
      assert a + b == b;
    } else {
      var first := PointIds([a[0]]);
      PointsAre(a[1..], b);
      FirstPoint(a);
      FirstPoint(a + b);
      assert (a + b)[1..] == a[1..] + b && (a + b)[0] == a[0];
      assert first + (PointIds(a[1..]) + PointIds(b)) == first + PointIds(a[1..]) + PointIds(b);
    }
  }

  lemma {:induction false} FirstPoint(a: seq<Piece>)
    requires a != []
    ensures PointIds(a) == PointIds([a[0]]) + PointIds(a[1..])
  {
    OnePoint(a[0].text, if a[0].Point? then a[0].id else None);
  }

  lemma {:induction false} OnePoint(text: Text, id: Option<Text>)
    ensures PointIds([Point(text, id)]) == [id] && PointIds([Gap(text)]) == [] && PointIds([]) == []
  {
    assert [Point(text, id)][1..] == [] && [Gap(text)][1..] == [];
  }

  /** A derived pattern keeps all text between points, and the points kept. */
  lemma {:induction false} KeptAre(a: seq<Piece>, b: seq<Piece>, keep: Times)
    ensures KeptPieces(a + b, keep) == KeptPieces(a, keep) + KeptPieces(b, keep)
  {
    if a == [] {
      assert a + b == b;
    } else {
      var first := KeptPieces([a[0]], keep);
      KeptAre(a[1..], b, keep);
      KeptFirst(a, keep);
      KeptFirst(a + b, keep);
      assert (a + b)[1..] == a[1..] + b && (a + b)[0] == a[0];
      assert first + (KeptPieces(a[1..], keep) + KeptPieces(b, keep)) ==
        first + KeptPieces(a[1..], keep) + KeptPieces(b, keep);
    }
  }

  lemma {:induction false} KeptFirst(a: seq<Piece>, keep: Times)
    requires a != []
    ensures KeptPieces(a, keep) == KeptPieces([a[0]], keep) + KeptPieces(a[1..], keep)
  {
    KeptOne(keep, a[0].text, if a[0].Point? then a[0].id else None);
  }

  lemma {:induction false} KeptOne(keep: Times, text: Text, id: Option<Text>)
    ensures KeptPieces([Gap(text)], keep) == [Gap(text)] && KeptPieces([], keep) == []
    ensures KeptPieces([Point(text, id)], keep) == if id in keep then [Point(text, id)] else []
  {
    assert [Point(text, id)][1..] == [] && [Gap(text)][1..] == [];
  }

  // ----- positions in a pattern

  /** The times are the points at these positions, one after the other. */
  ghost predicate ReadsAt(times: Times, ids: Times, at: seq<int>) {
    && |at| == |times|
    && (forall i :: 0 <= i < |at| ==> 0 <= at[i] < |ids| && ids[at[i]] == times[i])
    && forall i, j :: 0 <= i < j < |at| ==> at[i] < at[j]
  }

  /** A subsequence is read at strictly increasing positions. */
  lemma {:induction false} SubsequenceIs(times: Times, ids: Times)
    ensures Subsequence(times, ids) <==> exists at :: ReadsAt(times, ids, at)
    decreases |ids|
  {
    if times == [] {
      assert ReadsAt(times, ids, []);
    } else if ids == [] {
      forall at ensures !ReadsAt(times, ids, at) { NoPlace(times, at); }
    } else {
      var part := if times[0] == ids[0] then times[1..] else times;
      SubsequenceIs(part, ids[1..]);
      if Subsequence(times, ids) {
        var at :| ReadsAt(part, ids[1..], at);
        Prepended(times, ids, at);
      }
      if at :| ReadsAt(times, ids, at) { Dropped0(times, ids, at); }
    }
  }

  lemma NoPlace(times: Times, at: seq<int>)
    requires times != []
    ensures !ReadsAt(times, [], at)
  {
    var none: Times := [];
    if ReadsAt(times, none, at) {
      FirstPlace(times, none, at);
    }
  }

  lemma FirstPlace(times: Times, ids: Times, at: seq<int>)
    requires times != [] && ReadsAt(times, ids, at)
    ensures |ids| > 0
  {
    assert 0 <= at[0] < |ids|;
  }

  lemma {:induction false} Prepended(times: Times, ids: Times, at: seq<int>)
    requires times != [] && ids != [] && ReadsAt(if times[0] == ids[0] then times[1..] else times, ids[1..], at)
    ensures exists all :: ReadsAt(times, ids, all)
  {
    hide ReadsAt;
    var part := if times[0] == ids[0] then times[1..] else times;
    var moved := OneOn(part, ids, at);
    if times[0] == ids[0] { WithFirst(times, ids, moved); }
  }

  /** Read one place on, behind a first point. */
  lemma {:induction false} OneOn(part: Times, ids: Times, at: seq<int>) returns (moved: seq<int>)
    requires ids != [] && ReadsAt(part, ids[1..], at)
    ensures ReadsAt(part, ids, moved) && forall i :: 0 <= i < |moved| ==> 1 <= moved[i]
  {
    moved := seq(|at|, i requires 0 <= i < |at| => at[i] + 1);
    forall i | 0 <= i < |at| ensures 1 <= moved[i] < |ids| && ids[moved[i]] == part[i] {
      assert ids[1..][at[i]] == part[i];
    }
  }

  lemma {:induction false} WithFirst(times: Times, ids: Times, at: seq<int>)
    requires times != [] && ids != [] && times[0] == ids[0] && ReadsAt(times[1..], ids, at)
    requires forall i :: 0 <= i < |at| ==> 1 <= at[i]
    ensures ReadsAt(times, ids, [0] + at)
  {
    var all := [0] + at;
    forall i | 0 <= i < |all| ensures 0 <= all[i] < |ids| && ids[all[i]] == times[i] {
      if i > 0 { assert all[i] == at[i - 1] && times[i] == times[1..][i - 1]; }
    }
    forall i, j | 0 <= i < j < |all| ensures all[i] < all[j] {
      assert all[j] == at[j - 1] && (i > 0 ==> all[i] == at[i - 1]);
    }
  }

  lemma {:induction false} Dropped0(times: Times, ids: Times, at: seq<int>)
    requires times != [] && ids != [] && ReadsAt(times, ids, at)
    ensures var part := if times[0] == ids[0] then times[1..] else times;
      exists rest :: ReadsAt(part, ids[1..], rest)
  {
    var moved := seq(|at|, i requires 0 <= i < |at| => at[i] - 1);
    if times[0] == ids[0] {
      var rest := moved[1..];
      forall i | 0 <= i < |rest| ensures 0 <= rest[i] < |ids[1..]| && ids[1..][rest[i]] == times[1..][i] {
        assert rest[i] == at[i + 1] - 1 && at[0] < at[i + 1] && ids[at[i + 1]] == times[i + 1];
      }
      assert ReadsAt(times[1..], ids[1..], rest);
    } else {
      forall i | 0 <= i < |moved| ensures 0 <= moved[i] < |ids[1..]| && ids[1..][moved[i]] == times[i] {
        assert ids[at[i]] == times[i] && at[0] != 0 && (i > 0 ==> at[0] < at[i]);
      }
      assert ReadsAt(times, ids[1..], moved);
    }
  }

  // ----- the courses

  /** A pattern of the file is the course's, and its times are not its points,
      or are fewer than two. */
  ghost predicate Mismatched(items: seq<Item>, course: Item)
    requires course.Course?
  {
    exists k :: IsNamed(items, k, course.pattern) && !items[k].other
      && !(course.times == PointIds(items[k].pieces) && |course.times| >= 2)
  }

  /** Some points of the pattern, at least two, each named once, in its order,
      are the course's times. */
  ghost predicate PartOfPattern(items: seq<Item>, course: Item)
    requires course.Course?
  {
    exists k, at :: IsNamed(items, k, course.pattern) && ReadsAt(course.times, PointIds(items[k].pieces), at)
      && |at| >= 2 && (forall t <- course.times :: t.Some?)
      && forall i, j :: 0 <= i < j < |at| ==> course.times[i] != course.times[j]
  }

  /** A course stays as it is unless it does not match its pattern; then it is
      moved if it is part of it, else dropped. */
  lemma {:induction false} OutcomeIs(items: seq<Item>, course: Item)
    requires course.Course?
    ensures OutcomeOf(items, course) ==
      if !Mismatched(items, course) then Left else if PartOfPattern(items, course) then Refitted else Dropped
  {
    hide PatternOf, Subsequence, PointIds, ReadsAt;
    NamedIs(items, course.pattern);
    var pattern := PatternOf(items, course.pattern);
    if pattern.Some? {
      var n :| IsNamed(items, n, course.pattern) && items[n] == pattern.value;
      assert forall k :: IsNamed(items, k, course.pattern) ==> k == n;
      var ids := PointIds(items[n].pieces);
      SubsequenceIs(course.times, ids);
      forall at | ReadsAt(course.times, ids, at) ensures |at| == |course.times| { SameSize(course.times, ids, at); }
    } else {
      forall k ensures !IsNamed(items, k, course.pattern) { NoneNamed(items, k, course.pattern); }
    }
  }

  lemma SameSize(times: Times, ids: Times, at: seq<int>)
    requires ReadsAt(times, ids, at)
    ensures |at| == |times|
  {
  }

  lemma NoneNamed(items: seq<Item>, k: int, id: Text)
    requires forall item <- items :: !(item.Pattern? && item.pid == id)
    ensures !IsNamed(items, k, id)
  {
    if 0 <= k < |items| { assert items[k] in items; }
  }

  // ----- the file

  function Shown(item: Item): (Option<Text>, Text, Text, Times)
    requires item.Course?
  {
    (item.cid, item.before, item.after, item.times)
  }

  /** What the refit makes of the k-th item, a course: nothing exactly when it
      does not match its pattern and is no part of it; else the course, its
      pattern changed exactly when it does not match. */
  lemma {:induction false} CourseBecomes(items: seq<Item>, k: nat)
    requires k < |items| && items[k].Course?
    ensures var after := RefitItem(items, k);
      if Mismatched(items, items[k]) && !PartOfPattern(items, items[k]) then after == []
      else
        && |after| == 1 && after[0].Course? && Shown(after[0]) == Shown(items[k])
        && (after[0].pattern != items[k].pattern <==> Mismatched(items, items[k]))
  {
    hide Mismatched, PartOfPattern, OutcomeOf, NewId, Keeps;
    OutcomeIs(items, items[k]);
    if OutcomeOf(items, items[k]) == Refitted {
      KeptIsListed(items, k, |items|);
      LongerId(
        items[k].pattern, IndexOf(Keeps(items, |items|, items[k].pattern), items[k].times) + 1);
    }
  }

  lemma LongerId(pid: Text, n: nat)
    ensures NewId(pid, n) != pid
  {
    assert |NewId(pid, n)| > |pid|;
  }

  /** A link is dropped exactly when it names a dropped course. */
  lemma {:induction false} LinkBecomes(items: seq<Item>, k: nat)
    requires k < |items| && items[k].Link?
    ensures RefitItem(items, k) ==
      if exists c <- items ::
           c.Course? && c.cid.Some? && c.cid.value in items[k].refs && Mismatched(items, c) && !PartOfPattern(items, c)
      then [] else [items[k]]
  {
    hide Mismatched, PartOfPattern, OutcomeOf;
    forall c | c in items && c.Course? ensures IsDropped(items, c) <==>
      Mismatched(items, c) && !PartOfPattern(items, c) {
      OutcomeIs(items, c);
    }
    forall id ensures id in DroppedIds(items) <==> exists c <- items :: IsDropped(items, c) && c.cid == Some(id) {
    }
  }
}
