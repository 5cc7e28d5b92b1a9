/** The pass over a file that refits its courses (app/netex_motis_repair.py):
    the edits queued as courses are met, and the bytes they give. */
module RefitPass {
  import opened Bytes
  import opened CourseRefit
  import opened RefitEdits

  /** `_is_subsequence`: each element is looked for behind the one before. */
  method IsSubsequence(part: Times, whole: Times) returns (r: bool)
    ensures r == Subsequence(part, whole)
  {
    var left := whole;
    for i := 0 to |part|
      invariant Subsequence(part, whole) == Subsequence(part[i..], left)
    {
      var found := false;
      while left != [] && !found
        invariant found ==> Subsequence(part, whole) == Subsequence(part[i + 1..], left)
        invariant !found ==> Subsequence(part, whole) == Subsequence(part[i..], left)
        decreases |left|, !found
      {
        found := left[0] == part[i];
        assert part[i..][0] == part[i] && part[i..][1..] == part[i + 1..];
        left := left[1..];
      }
      if !found {
        assert part[i..] != [];
        return false;
      }
    }
    return true;
  }

  // ----- the text of a derived pattern

  /** Where a pattern, its id and its points stand in the file. */
  datatype Spans = Spans(start: nat, idStart: nat, idEnd: nat, end: nat, points: seq<(nat, nat, Option<Text>)>)

  function PointSpans(pieces: seq<Piece>, at: nat): seq<(nat, nat, Option<Text>)> {
    if pieces == [] then []
    else
      var end := at + |pieces[0].text|;
      (if pieces[0].Point? then [(at, end, pieces[0].id)] else []) + PointSpans(pieces[1..], end)
  }

  function SpansOf(items: seq<Item>, k: nat): Spans
    requires k < |items| && items[k].Pattern?
  {
    var at := StartOf(items, k);
    var idEnd := at + |items[k].before| + |items[k].pid|;
    Spans(at, at + |items[k].before|, idEnd, at + |PrintItem(items[k])|, PointSpans(items[k].pieces, idEnd))
  }

  /** The bytes from `pos` on without the points not kept. */
  function WithoutPoints(data: Text, pos: nat, points: seq<(nat, nat, Option<Text>)>, keep: Times, end: nat): Text
    decreases |points|
  {
    if points == [] then Slice(data, pos, end)
    else if points[0].2 in keep then WithoutPoints(data, pos, points[1..], keep, end)
    else Slice(data, pos, points[0].0) + WithoutPoints(data, points[0].1, points[1..], keep, end)
  }

  function Slice(data: Text, a: nat, b: nat): Text { if a <= b <= |data| then data[a..b] else [] }

  lemma {:induction false} Peel(data: Text, pos: nat, at: nat, end: nat, first: Text, rest: Text)
    requires pos <= at <= end <= |data| && data[at..end] == first + rest
    ensures var next := at + |first|;
      next <= end && data[at..next] == first && data[next..end] == rest && data[pos..next] == data[pos..at] + first
  {
    var next := at + |first|;
    assert data[at..next] == data[at..end][..|first|] && data[next..end] == data[at..end][|first|..];
  }

  lemma {:induction false} WithoutFirst(
    data: Text, pos: nat, point: (nat, nat, Option<Text>), more: seq<(nat, nat, Option<Text>)>, keep: Times, end: nat)
    ensures WithoutPoints(data, pos, [point] + more, keep, end) ==
      if point.2 in keep then WithoutPoints(data, pos, more, keep, end)
      else Slice(data, pos, point.0) + WithoutPoints(data, point.1, more, keep, end)
  {
    assert ([point] + more)[1..] == more;
  }

  lemma {:induction false} WithoutNone(data: Text, pos: nat, keep: Times, end: nat)
    ensures WithoutPoints(data, pos, [], keep, end) == Slice(data, pos, end)
  {
  }

  lemma {:induction false} CutGrows(a: Text, b: Text, c: Text)
    ensures a + (b + c) == a + b + c
  {
  }

  lemma {:induction false} PrintKept(pieces: seq<Piece>, keep: Times)
    requires pieces != []
    ensures PrintPieces(KeptPieces(pieces, keep)) ==
      (if pieces[0].Point? && pieces[0].id !in keep then [] else pieces[0].text)
        + PrintPieces(KeptPieces(pieces[1..], keep))
  {
    var rest := KeptPieces(pieces[1..], keep);
    if pieces[0].Point? && pieces[0].id !in keep {
      assert KeptPieces(pieces, keep) == rest;
    } else {
      assert KeptPieces(pieces, keep)[1..] == rest;
    }
  }

  lemma {:induction false} SpansStep(pieces: seq<Piece>, at: nat)
    requires pieces != []
    ensures var next := at + |pieces[0].text|;
      PointSpans(pieces, at) ==
        if pieces[0].Point? then [(at, next, pieces[0].id)] + PointSpans(pieces[1..], next)
        else PointSpans(pieces[1..], next)
  {
  }

  lemma {:induction false} NoPieces(data: Text, at: nat, pos: nat, keep: Times, end: nat)
    requires pos <= at <= end <= |data|
    ensures PrintPieces([]) == [] && KeptPieces([], keep) == []
    ensures WithoutPoints(data, pos, PointSpans([], at), keep, end) == data[pos..end]
  {
  }

  lemma {:induction false} PrintFirst(pieces: seq<Piece>)
    requires pieces != []
    ensures PrintPieces(pieces) == pieces[0].text + PrintPieces(pieces[1..])
  {
  }

  lemma {:induction false} NothingKept(data: Text, at: nat, rest: Text)
    requires at <= |data|
    ensures data[at..at] + rest == rest && [] + rest == rest
  {
  }

  lemma {:induction false} KeptWith(a: Text, b: Text, c: Text)
    ensures a + b + c == a + (b + c)
  {
  }

  lemma {:induction false} PiecesPrinted(data: Text, pieces: seq<Piece>, at: nat, pos: nat, keep: Times, end: nat)
    requires pos <= at <= end <= |data| && data[at..end] == PrintPieces(pieces)
    ensures WithoutPoints(data, pos, PointSpans(pieces, at), keep, end) ==
      data[pos..at] + PrintPieces(KeptPieces(pieces, keep))
    decreases |pieces|
  {
    hide PointSpans, KeptPieces, WithoutPoints, PrintPieces;
    NoPieces(data, at, pos, keep, end);
    if pieces != [] {
      PrintFirst(pieces);
      var piece, next := pieces[0], at + |pieces[0].text|;
      Peel(data, pos, at, end, piece.text, PrintPieces(pieces[1..]));
      SpansStep(pieces, at);
      PrintKept(pieces, keep);
      WithoutFirst(data, pos, (at, next, if piece.Point? then piece.id else None), PointSpans(pieces[1..], next), keep,
        end);
      var rest := PrintPieces(KeptPieces(pieces[1..], keep));
      if piece.Point? && piece.id !in keep {
        PiecesPrinted(data, pieces[1..], next, next, keep, end);
        NothingKept(data, next, rest);
      } else {
        PiecesPrinted(data, pieces[1..], next, pos, keep, end);
        KeptWith(data[pos..at], piece.text, rest);
      }
    }
  }

  /** The parts of a pattern's bytes. */
  lemma {:induction false} PatternBytes(items: seq<Item>, k: nat)
    requires k < |items| && items[k].Pattern?
    ensures var data, item, spans := Print(items), items[k], SpansOf(items, k);
      && spans.start <= spans.idStart <= spans.idEnd <= spans.end <= |data|
      && data[spans.start..spans.idStart] == item.before && data[spans.idEnd..spans.end] == PrintPieces(item.pieces)
  {
    hide PrintPieces, Print, StartOf, PointSpans;
    ItemBytes(items, k);
    var item, spans := items[k], SpansOf(items, k);
    Peel(Print(items), spans.start, spans.start, spans.end, item.before + item.pid, PrintPieces(item.pieces));
    Peel(Print(items), spans.start, spans.start, spans.idEnd, item.before, item.pid);
  }

  lemma {:induction false} PointsInside(pieces: seq<Piece>, at: nat)
    ensures var points := PointSpans(pieces, at);
      && (forall i :: 0 <= i < |points| ==> at <= points[i].0 <= points[i].1 <= at + |PrintPieces(pieces)|)
      && forall i, j :: 0 <= i < j < |points| ==> points[i].1 <= points[j].0
  {
    if pieces != [] {
      var next := at + |pieces[0].text|;
      PointsInside(pieces[1..], next);
      PointsInsideMore(pieces, at, next);
    }
  }

  lemma {:induction false} PointsInsideMore(pieces: seq<Piece>, at: nat, next: nat)
    requires pieces != [] && next == at + |pieces[0].text|
    requires var points := PointSpans(pieces[1..], next);
      && (forall i :: 0 <= i < |points| ==> next <= points[i].0 <= points[i].1 <= next + |PrintPieces(pieces[1..])|)
      && forall i, j :: 0 <= i < j < |points| ==> points[i].1 <= points[j].0
    ensures var points := PointSpans(pieces, at);
      && (forall i :: 0 <= i < |points| ==> at <= points[i].0 <= points[i].1 <= at + |PrintPieces(pieces)|)
      && forall i, j :: 0 <= i < j < |points| ==> points[i].1 <= points[j].0
  {
    hide PointSpans, PrintPieces;
    SpansStep(pieces, at);
    PrintFirst(pieces);
  }

  /** `_derive`: the bytes of the pattern, with the new id and without the
      points not kept, are those of the derived pattern. */
  method Derive(
    data: Text, ghost items: seq<Item>, ghost k: nat, spans: Spans, keep: Times, id: Text)
    returns (out: Text)
    requires k < |items| && items[k].Pattern? && data == Print(items) && spans == SpansOf(items, k)
    ensures out == PrintItem(Derived(items[k], keep, id))
  {
    hide Print, PrintPieces, KeptPieces, PointSpans, StartOf, WithoutPoints;
    ghost var item := items[k];
    PatternBytes(items, k);
    PiecesPrinted(data, item.pieces, spans.idEnd, spans.idEnd, keep, spans.end);
    PointsInside(item.pieces, spans.idEnd);
    ghost var kept := PrintPieces(KeptPieces(item.pieces, keep));
    assert [] + kept == kept;
    var rest := Cut(data, spans.idEnd, spans.points, keep, spans.end);
    out := data[spans.start..spans.idStart] + id + rest;
  }

  method Cut(data: Text, from: nat, points: seq<(nat, nat, Option<Text>)>, keep: Times, end: nat) returns (out: Text)
    requires from <= end <= |data|
    requires forall i :: 0 <= i < |points| ==> from <= points[i].0 <= points[i].1 <= end
    requires forall i, j :: 0 <= i < j < |points| ==> points[i].1 <= points[j].0
    ensures out == WithoutPoints(data, from, points, keep, end)
  {
    hide WithoutPoints;
    out := [];
    var pos := from;
    assert points[0..] == points;
    for i := 0 to |points|
      invariant from <= pos <= end && forall j :: i <= j < |points| ==> pos <= points[j].0
      invariant out + WithoutPoints(data, pos, points[i..], keep, end) == WithoutPoints(data, from, points, keep, end)
    {
      var (start, stop, ident) := points[i];
      assert points[i..] == [points[i]] + points[i + 1..];
      WithoutFirst(data, pos, points[i], points[i + 1..], keep, end);
      if ident !in keep {
        assert Slice(data, pos, start) == data[pos..start];
        CutGrows(out, data[pos..start], WithoutPoints(data, stop, points[i + 1..], keep, end));
        out := out + data[pos..start];
        pos := stop;
      }
    }
    assert points[|points|..] == [];
    WithoutNone(data, pos, keep, end);
    out := out + data[pos..end];
  }

  // ----- the edits by kind

  datatype Kind = Texts | Courses | Patterns | Meetings | Interchanges

  function KindOf(item: Item): Kind {
    match item
    case Raw(_) => Texts
    case Course(_, _, _, _, _) => Courses
    case Pattern(_, _, _, _) => Patterns
    case Link(_, _, meeting) => if meeting then Meetings else Interchanges
  }

  /** The edits of the first `n` items of one kind. */
  ghost function EditsOf(items: seq<Item>, n: nat, kind: Kind): seq<Edit>
    requires n <= |items|
  {
    if n == 0 then []
    else EditsOf(items, n - 1, kind) + if KindOf(items[n - 1]) == kind then ItemEdits(items, n - 1) else []
  }

  ghost function AllEdits(items: seq<Item>, n: nat): seq<Edit>
    requires n <= |items|
  {
    if n == 0 then [] else AllEdits(items, n - 1) + ItemEdits(items, n - 1)
  }

  lemma {:induction false} AllEditsSplit(items: seq<Item>, n: nat)
    requires n <= |items|
    ensures AllEdits(items, n) + EditsFrom(items, n) == EditsFrom(items, 0)
    decreases n
  {
    hide ItemEdits;
    if n > 0 {
      AllEditsSplit(items, n - 1);
      assert AllEdits(items, n - 1) + (ItemEdits(items, n - 1) + EditsFrom(items, n)) ==
        AllEdits(items, n - 1) + ItemEdits(items, n - 1) + EditsFrom(items, n);
    }
  }

  ghost function Count(items: seq<Item>, n: nat, kind: Kind, e: Edit): nat
    requires n <= |items|
  {
    multiset(EditsOf(items, n, kind))[e]
  }

  lemma {:induction false} KindsTogether(items: seq<Item>, n: nat, e: Edit)
    requires n <= |items|
    ensures multiset(AllEdits(items, n))[e] ==
      Count(items, n, Courses, e) + Count(items, n, Patterns, e) + Count(items, n, Meetings, e)
        + Count(items, n, Interchanges, e)
    decreases n
  {
    hide AllEdits, Count, ItemEdits;
    if n > 0 {
      KindsTogether(items, n - 1, e);
      LastEdits(items, n);
      OneKind(items, n, Courses, e);
      OneKind(items, n, Patterns, e);
      OneKind(items, n, Meetings, e);
      OneKind(items, n, Interchanges, e);
    } else {
      NoEdits(items, e);
    }
  }

  lemma {:induction false} LastEdits(items: seq<Item>, n: nat)
    requires 0 < n <= |items|
    ensures multiset(AllEdits(items, n)) == multiset(AllEdits(items, n - 1)) + multiset(ItemEdits(items, n - 1))
    ensures KindOf(items[n - 1]) == Texts ==> ItemEdits(items, n - 1) == []
  {
  }

  lemma {:induction false} NoEdits(items: seq<Item>, e: Edit)
    ensures AllEdits(items, 0) == [] && forall kind :: Count(items, 0, kind, e) == 0
  {
  }

  lemma {:induction false} OneKind(items: seq<Item>, n: nat, kind: Kind, e: Edit)
    requires 0 < n <= |items|
    ensures Count(items, n, kind, e) == Count(items, n - 1, kind, e) +
      if KindOf(items[n - 1]) == kind then multiset(ItemEdits(items, n - 1))[e] else 0
  {
    hide ItemEdits;
  }

  // ----- the patterns that others are derived from

  predicate IsSource(items: seq<Item>, k: nat) {
    IsLastPattern(items, k) && Keeps(items, |items|, items[k].pid) != []
  }

  ghost function Sources(items: seq<Item>, n: nat): seq<Text>
    requires n <= |items|
  {
    if n == 0 then [] else Sources(items, n - 1) + if IsSource(items, n - 1) then [items[n - 1].pid] else []
  }

  ghost predicate AllDifferent(pids: seq<Text>) { forall i, j :: 0 <= i < j < |pids| ==> pids[i] != pids[j] }

  /** The end of the last pattern of that id. */
  function PatternEnd(items: seq<Item>, n: nat, pid: Text): nat
    requires n <= |items|
  {
    if n == 0 then 0
    else if items[n - 1].Pattern? && items[n - 1].pid == pid then StartOf(items, n)
    else PatternEnd(items, n - 1, pid)
  }

  function DerivedText(items: seq<Item>, pid: Text): Text {
    var pattern := PatternOf(items, pid);
    if pattern.None? then [] else Print(DerivedAll(pattern.value, Keeps(items, |items|, pid)))
  }

  function InsertFor(items: seq<Item>, pid: Text): Edit {
    var at := PatternEnd(items, |items|, pid);
    Edit(at, at, DerivedText(items, pid))
  }

  function InsertsFor(items: seq<Item>, pids: seq<Text>): (r: seq<Edit>)
    ensures |r| == |pids| && forall i :: 0 <= i < |r| ==> r[i] == InsertFor(items, pids[i])
  {
    seq(|pids|, i requires 0 <= i < |pids| => InsertFor(items, pids[i]))
  }

  lemma {:induction false} PatternEndIs(items: seq<Item>, k: nat, n: nat)
    requires IsLastPattern(items, k) && k < n <= |items|
    ensures PatternEnd(items, n, items[k].pid) == StartOf(items, k + 1)
    decreases n
  {
    hide StartOf;
    if k < n - 1 { PatternEndIs(items, k, n - 1); }
  }

  lemma {:induction false} SourceEdit(items: seq<Item>, k: nat)
    requires k < |items| && items[k].Pattern?
    ensures ItemEdits(items, k) == if IsSource(items, k) then [InsertFor(items, items[k].pid)] else []
  {
    hide Keeps, DerivedAll, StartOf, PrintItem;
    if IsLastPattern(items, k) {
      PatternEndIs(items, k, |items|);
      PatternOfMember(items, k);
      ItemBytes(items, k);
    }
  }

  lemma {:induction false} SourceEdits(items: seq<Item>, n: nat)
    requires n <= |items|
    ensures EditsOf(items, n, Patterns) == InsertsFor(items, Sources(items, n))
    decreases n
  {
    hide ItemEdits, IsSource;
    if n > 0 {
      SourceEdits(items, n - 1);
      if items[n - 1].Pattern? { SourceEdit(items, n - 1); } else { NotSource(items, n - 1); }
    }
  }

  lemma {:induction false} NotSource(items: seq<Item>, k: nat)
    requires k < |items| && !items[k].Pattern?
    ensures !IsSource(items, k)
  {
  }

  lemma {:induction false} SourcesDiffer(items: seq<Item>, n: nat)
    requires n <= |items|
    ensures AllDifferent(Sources(items, n))
    ensures forall pid <- Sources(items, n) :: exists k :: 0 <= k < n && IsSource(items, k) && items[k].pid == pid
    ensures forall k :: 0 <= k < n && IsSource(items, k) ==> items[k].pid in Sources(items, n)
    decreases n
  {
    hide Keeps;
    if n > 0 {
      SourcesDiffer(items, n - 1);
      var before := Sources(items, n - 1);
      forall i | 0 <= i < |before| ensures IsSource(items, n - 1) ==> before[i] != items[n - 1].pid {
        assert before[i] in before;
        var k :| 0 <= k < n - 1 && IsSource(items, k) && items[k].pid == before[i];
      }
    }
  }

  lemma {:induction false} InsertsConcat(items: seq<Item>, a: seq<Text>, b: seq<Text>)
    ensures InsertsFor(items, a + b) == InsertsFor(items, a) + InsertsFor(items, b)
  {
    hide InsertFor;
  }

  lemma {:induction false} SomeMember(pids: seq<Text>)
    ensures pids != [] ==> exists pid :: pid in pids
  {
    if pids != [] { assert pids[0] in pids; }
  }

  /** The order of the patterns does not change which edits there are. */
  lemma {:induction false} SameInserts(items: seq<Item>, a: seq<Text>, b: seq<Text>)
    requires AllDifferent(a) && AllDifferent(b) && forall pid :: pid in a <==> pid in b
    ensures multiset(InsertsFor(items, a)) == multiset(InsertsFor(items, b))
    decreases |a|
  {
    hide InsertFor, InsertsFor;
    if a == [] {
      SomeMember(b);
    } else {
      assert a[0] in a;
      var i :| 0 <= i < |b| && b[i] == a[0];
      var before, after := b[..i], b[i + 1..];
      assert a == [a[0]] + a[1..] && b == before + [a[0]] + after;
      OneLess(a, b, i);
      SameInserts(items, a[1..], before + after);
      InsertsConcat(items, [a[0]], a[1..]);
      InsertsConcat(items, before + [a[0]], after);
      InsertsConcat(items, before, [a[0]]);
      InsertsConcat(items, before, after);
    }
  }

  lemma {:induction false} OneLess(a: seq<Text>, b: seq<Text>, i: nat)
    requires AllDifferent(a) && AllDifferent(b) && (forall pid :: pid in a <==> pid in b)
    requires a != [] && i < |b| && b[i] == a[0]
    ensures AllDifferent(a[1..]) && AllDifferent(b[..i] + b[i + 1..])
    ensures forall pid :: pid in a[1..] <==> pid in b[..i] + b[i + 1..]
  {
    forall pid ensures pid in a[1..] <==> pid in a && pid != a[0] {}
    forall pid ensures pid in b[..i] + b[i + 1..] <==> pid in b && pid != b[i] {
      assert b == b[..i] + [b[i]] + b[i + 1..];
    }
  }
}
