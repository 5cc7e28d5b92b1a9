/** Texts made of whole tags, and what the calendar's expressions find in
    them (app/netex_calendar.py). */
module FrameTags {
  import opened Bytes
  import opened FrameEdit
  import FrameStream

  ghost predicate ClosedAfter(s: Text, i: nat) { exists j :: i < j < |s| && s[j] == GT }

  /** Every tag begun ends. */
  ghost predicate Whole(s: Text) { forall i :: 0 <= i < |s| && s[i] == LT ==> ClosedAfter(s, i) }

  /** Whole tags, none of which the expression finds. */
  ghost predicate Free(p: Pattern, s: Text) { Whole(s) && forall i: nat :: i < |s| ==> MatchAt(p, s, i).None? }

  lemma {:induction false} EndInWhole(p: Pattern, s: Text, rest: Text, i: nat)
    requires IsTagName(p.name) && Whole(s) && i < |s| && MatchAt(p, s + rest, i).Some?
    ensures MatchAt(p, s + rest, i).value.end <= |s|
  {
    var doc := s + rest;
    AtByte(doc, i, Lead(p), 0);
    assert doc[i] == s[i] && ClosedAfter(s, i);
    var j :| i < j < |s| && s[j] == GT;
    assert doc[j] == GT;
    if j < i + |Lead(p)| {
      AtByte(doc, i, Lead(p), j - i);
      LeadByte(p, j - i);
    }
  }

  /** Within whole tags a match does not depend on what follows. */
  lemma {:induction false} MatchInWhole(p: Pattern, s: Text, rest: Text, i: nat)
    requires IsTagName(p.name) && Whole(s) && i < |s|
    ensures MatchAt(p, s + rest, i) == MatchAt(p, s, i)
  {
    hide MatchAt, Whole, IsTagName;
    var doc := s + rest;
    assert doc[0..|s|] == s;
    MatchSliced(p, doc, 0, |s|, i);
    if MatchAt(p, doc, i).Some? { EndInWhole(p, s, rest, i); }
  }

  /** After bytes that are gone. */
  lemma {:induction false} MatchShifted(p: Pattern, gone: Text, text: Text, i: nat)
    ensures MatchAt(p, gone + text, |gone| + i) == MovedHit(MatchAt(p, text, i), |gone|)
  {
    hide MatchAt;
    var doc := gone + text;
    assert doc[|gone|..|doc|] == text;
    MatchSliced(p, doc, |gone|, |doc|, i);
  }

  lemma {:induction false} SearchSkips(p: Pattern, gone: Text, rest: Text)
    requires IsTagName(p.name) && Free(p, gone)
    ensures Search(p, gone + rest) == MovedFound(Search(p, rest), |gone|)
  {
    hide MatchAt, IsTagName, Whole;
    var doc, r := gone + rest, Search(p, rest);
    forall i: nat | i < |gone| ensures MatchAt(p, doc, i).None? { MatchInWhole(p, gone, rest, i); }
    forall i: nat ensures MatchAt(p, doc, |gone| + i) == MovedHit(MatchAt(p, rest, i), |gone|) {
      MatchShifted(p, gone, rest, i);
    }
    forall i: nat | |gone| <= i < |gone| + (if r.Some? then r.value.at else |rest|) ensures MatchAt(p, doc, i).None? {
      var k: nat := i - |gone|;
      assert i == |gone| + k && MatchAt(p, rest, k).None?;
    }
    if r.Some? { SearchIs(p, doc, |gone| + r.value.at); }
  }

  lemma {:induction false} SearchHere(p: Pattern, s: Text, rest: Text)
    requires IsTagName(p.name) && Whole(s) && Search(p, s).Some?
    ensures Search(p, s + rest) == Search(p, s)
  {
    hide MatchAt, IsTagName, Whole;
    var at := Search(p, s).value.at;
    forall i: nat | i <= at ensures MatchAt(p, s + rest, i) == MatchAt(p, s, i) { MatchInWhole(p, s, rest, i); }
    SearchIs(p, s + rest, at);
  }

  lemma {:induction false} FreeIsNotFound(p: Pattern, s: Text)
    requires Free(p, s)
    ensures Search(p, s).None?
  {
  }

  // ----- texts put together

  lemma {:induction false} WholeTogether(a: Text, b: Text)
    requires Whole(a) && Whole(b)
    ensures Whole(a + b)
  {
    var s := a + b;
    forall i | 0 <= i < |s| && s[i] == LT ensures ClosedAfter(s, i) {
      if i < |a| {
        assert ClosedAfter(a, i);
        var j :| i < j < |a| && a[j] == GT;
        assert s[j] == GT;
      } else {
        assert ClosedAfter(b, i - |a|);
        var j :| i - |a| < j < |b| && b[j] == GT;
        assert s[|a| + j] == GT;
      }
    }
  }

  lemma {:induction false} FreeTogether(p: Pattern, a: Text, b: Text)
    requires IsTagName(p.name) && Free(p, a) && Free(p, b)
    ensures Free(p, a + b)
  {
    hide MatchAt, IsTagName, Whole;
    WholeTogether(a, b);
    forall i: nat | i < |a + b| ensures MatchAt(p, a + b, i).None? {
      if i < |a| {
        MatchInWhole(p, a, b, i);
      } else {
        var k: nat := i - |a|;
        MatchShifted(p, a, b, k);
      }
    }
  }

  lemma {:induction false} FreeNothing(p: Pattern)
    ensures Free(p, [])
  {
  }

  // ----- single tags

  function OpenTag(name: Text): Text { [LT] + name + [GT] }

  function CloseTag(name: Text): Text { [LT, SLASH] + name + [GT] }

  lemma {:induction false} TagByte(name: Text, k: nat)
    requires IsTagName(name)
    ensures k < |OpenTag(name)| ==> (OpenTag(name)[k] == LT <==> k == 0)
    ensures k < |CloseTag(name)| ==> (CloseTag(name)[k] == LT <==> k == 0)
  {
    if 0 < k <= |name| { assert OpenTag(name)[k] == name[k - 1] && name[k - 1] in name; }
    if 1 < k <= |name| + 1 { assert CloseTag(name)[k] == name[k - 2] && name[k - 2] in name; }
  }

  lemma {:induction false} TagsWhole(name: Text)
    requires IsTagName(name)
    ensures Whole(OpenTag(name)) && Whole(CloseTag(name))
  {
    forall i | 0 <= i < |OpenTag(name)| && OpenTag(name)[i] == LT ensures ClosedAfter(OpenTag(name), i) {
      TagByte(name, i);
      assert OpenTag(name)[|name| + 1] == GT;
    }
    forall i | 0 <= i < |CloseTag(name)| && CloseTag(name)[i] == LT ensures ClosedAfter(CloseTag(name), i) {
      TagByte(name, i);
      assert CloseTag(name)[|name| + 2] == GT;
    }
  }

  /** A tag is found only at its start. */
  lemma {:induction false} OnlyAtStart(p: Pattern, name: Text)
    requires IsTagName(name)
    ensures MatchAt(p, OpenTag(name), 0).None? ==> Free(p, OpenTag(name))
    ensures MatchAt(p, CloseTag(name), 0).None? ==> Free(p, CloseTag(name))
  {
    TagsWhole(name);
    forall i: nat ensures 0 < i < |OpenTag(name)| ==> MatchAt(p, OpenTag(name), i).None? {
      if 0 < i < |OpenTag(name)| { TagByte(name, i); AtByte(OpenTag(name), i, Lead(p), 0); }
    }
    forall i: nat ensures 0 < i < |CloseTag(name)| ==> MatchAt(p, CloseTag(name), i).None? {
      if 0 < i < |CloseTag(name)| { TagByte(name, i); AtByte(CloseTag(name), i, Lead(p), 0); }
    }
  }

  /** An opening tag is no closing one, and the other way round. */
  lemma {:induction false} OtherKind(name: Text, other: Text)
    requires IsTagName(name) && IsTagName(other)
    ensures Free(Closing(name), OpenTag(other)) && Free(Opening(name), CloseTag(other))
  {
    hide Free, MatchAt;
    OnlyAtStart(Closing(name), other);
    OnlyAtStart(Opening(name), other);
    assert other[0] in other && name[0] in name;
    SecondByteDiffers(Closing(name), OpenTag(other));
    SecondByteDiffers(Opening(name), CloseTag(other));
  }

  lemma {:induction false} SecondByteDiffers(p: Pattern, text: Text)
    requires |Lead(p)| > 1 && |text| > 1 && Lead(p)[1] != text[1]
    ensures MatchAt(p, text, 0).None?
  {
    AtByte(text, 0, Lead(p), 1);
  }

  /** Where one name begins the other, a word byte follows. */
  ghost predicate Differs(name: Text, other: Text) {
    name != other && (|name| < |other| && other[..|name|] == name ==> FrameStream.IsWord(other[|name|]))
  }

  lemma {:induction false} OtherName(name: Text, other: Text)
    requires IsTagName(name) && IsTagName(other) && Differs(name, other)
    ensures Free(Opening(name), OpenTag(other)) && Free(Closing(name), CloseTag(other))
  {
    hide Free;
    OnlyAtStart(Opening(name), other);
    OnlyAtStart(Closing(name), other);
    NotAtStart(Opening(name), [LT], other);
    NotAtStart(Closing(name), [LT, SLASH], other);
  }

  lemma {:induction false} NotAtStart(p: Pattern, lead: Text, other: Text)
    requires IsTagName(p.name) && IsTagName(other) && Differs(p.name, other) && Lead(p) == lead + p.name
    ensures MatchAt(p, lead + other + [GT], 0).None?
  {
    hide At, IsTagName, TagEnd;
    var text, n := lead + other + [GT], |lead| + |p.name|;
    assert text == lead + (other + [GT]);
    AtSplit(text, 0, lead, p.name);
    FrameStream.AtShifted(lead, other + [GT], 0, p.name);
    if At(other + [GT], 0, p.name) && n < |text| {
      BeginsWith(other, p.name);
      assert text[n] == other[|p.name|];
      WordEndsNothing(p, text, n);
    }
  }

  lemma {:induction false} WordEndsNothing(p: Pattern, text: Text, from: nat)
    requires from == |Lead(p)| < |text| && FrameStream.IsWord(text[from])
    ensures MatchAt(p, text, 0).None?
  {
  }

  lemma {:induction false} BeginsWith(other: Text, name: Text)
    requires At(other + [GT], 0, name) && |name| <= |other| && Differs(name, other)
    ensures |name| < |other| && other[..|name|] == name
  {
    AtSlice(other + [GT], 0, name);
    assert (other + [GT])[0..|name|] == other[..|name|];
    assert other[..|other|] == other;
  }

  lemma {:induction false} QualifiedDiffer(prefix: Text, a: Text, b: Text)
    requires FrameStream.IsName(a) && FrameStream.IsName(b) && a != b
    ensures Differs(Qualified(prefix, a), Qualified(prefix, b))
  {
    var name, other := Qualified(prefix, a), Qualified(prefix, b);
    var head := if prefix == [] then [] else prefix + [COLON];
    assert name == head + a && other == head + b;
    assert name[|head|..] == a && other[|head|..] == b;
    if |name| < |other| { assert other[|name|] == b[|a|] && b[|a|] in b; }
  }

  /** A tag found in itself. */
  lemma {:induction false} FoundInItself(name: Text)
    requires IsTagName(name)
    ensures MatchAt(Opening(name), OpenTag(name), 0) == Some(Hit(|OpenTag(name)|, false))
    ensures MatchAt(Closing(name), CloseTag(name), 0) == Some(Hit(|CloseTag(name)|, false))
  {
    AtStart(OpenTag(name), [LT] + name);
    AtStart(CloseTag(name), [LT, SLASH] + name);
  }

  lemma {:induction false} AtStart(text: Text, word: Text)
    requires word <= text
    ensures At(text, 0, word)
  {
  }
}
