/** Physical lines and columns of GTFS tables (app/station_extract_gtfs.py). */
module GtfsLines {
  import opened Bytes

  predicate IsEnd(c: char) { c == '\r' || c == '\n' }

  /** The characters `str.splitlines` also splits at. */
  predicate IsOtherBreak(c: char) {
    c == '\U{0B}' || c == '\U{0C}' || '\U{1C}' <= c <= '\U{1E}' || c == '\U{85}' || c == '\U{2028}' || c == '\U{2029}'
  }

  // ----- the lines of a text

  /** Where the first line ends: behind `\r\n`, `\r` or `\n`, or at the end. */
  function LineEnd(text: string, from: nat): (end: nat)
    requires from <= |text|
    ensures from <= end <= |text| && (from < |text| ==> from < end)
    decreases |text| - from
  {
    if from == |text| then from
    else if text[from] == '\r' && from + 1 < |text| && text[from + 1] == '\n' then from + 2
    else if IsEnd(text[from]) then from + 1
    else LineEnd(text, from + 1)
  }

  function LinesOf(text: string): seq<string> {
    if text == "" then [] else [text[..LineEnd(text, 0)]] + LinesOf(text[LineEnd(text, 0)..])
  }

  function Join(lines: seq<string>): string { if lines == [] then "" else lines[0] + Join(lines[1..]) }

  /** Nothing is lost or added. */
  lemma {:induction false} LinesJoin(text: string)
    ensures Join(LinesOf(text)) == text
    decreases |text|
  {
    if text != "" {
      var n := LineEnd(text, 0);
      LinesJoin(text[n..]);
      assert text == text[..n] + text[n..];
    }
  }

  /** The line ends with its ending, or is the last without one. */
  lemma {:induction false} LineEndIs(text: string, from: nat)
    requires from < |text|
    ensures var end := LineEnd(text, from);
      && (forall k :: from <= k < end - 2 ==> text[k] != '\r' && text[k] != '\n')
      && (from <= end - 2 && (text[end - 2] == '\r' || text[end - 2] == '\n') ==>
            text[end - 2] == '\r' && text[end - 1] == '\n')
      && (text[end - 1] == '\r' || text[end - 1] == '\n' || end == |text|)
      && (text[end - 1] == '\r' && end < |text| ==> text[end] != '\n')
    decreases |text| - from
  {
    if from + 1 < |text| && !IsEnd(text[from]) { LineEndIs(text, from + 1); }
  }

  /** More text does not move the end of a line that has one, unless the text
      stopped between `\r` and what follows. */
  lemma {:induction false} LineEndExtended(text: string, rest: string, from: nat)
    requires from < |text|
    requires var end := LineEnd(text, from); IsEnd(text[end - 1]) && (text[end - 1] == '\r' ==> end < |text|)
    ensures LineEnd(text + rest, from) == LineEnd(text, from)
    decreases |text| - from
  {
    if from + 1 < |text| { assert (text + rest)[from + 1] == text[from + 1]; }
    assert (text + rest)[from] == text[from];
    if !IsEnd(text[from]) { LineEndExtended(text, rest, from + 1); }
  }

  /** A text without a whole line stays the beginning of its first line. */
  lemma {:induction false} LineEndLater(text: string, rest: string, from: nat)
    requires from < |text| && LineEnd(text, from) == |text|
    ensures LineEnd(text + rest, from) >= |text|
    decreases |text| - from
  {
    if from + 1 < |text| { assert (text + rest)[from + 1] == text[from + 1]; }
    assert (text + rest)[from] == text[from];
    if from + 1 < |text| && !IsEnd(text[from]) { LineEndLater(text, rest, from + 1); }
  }

  // ----- a block split into whole lines and what is left

  predicate IsWhole(text: string, end: nat)
    requires 0 < end <= |text|
  {
    IsEnd(text[end - 1]) && (text[end - 1] == '\r' ==> end < |text|)
  }

  /** A last `\r` may be the first half of `\r\n`. */
  function Split(block: string): (r: (seq<string>, string)) {
    if block == "" then ([], "")
    else
      var end := LineEnd(block, 0);
      if !IsWhole(block, end) then ([], block)
      else var (lines, carry) := Split(block[end..]); ([block[..end]] + lines, carry)
  }

  /** The whole lines and what is left are the block. */
  lemma {:induction false} SplitJoins(block: string)
    ensures block == Join(Split(block).0) + Split(block).1
    decreases |block|
  {
    hide LineEnd, Join, IsWhole;
    JoinNone();
    if block != "" && IsWhole(block, LineEnd(block, 0)) {
      var end := LineEnd(block, 0);
      SplitJoins(block[end..]);
      JoinMore(block[..end], Split(block[end..]).0);
      assert block == block[..end] + block[end..];
    }
  }

  lemma {:induction false} JoinNone()
    ensures Join([]) == ""
  {
  }

  /** What is left is no whole line. */
  lemma {:induction false} SplitLeaves(block: string)
    ensures var carry := Split(block).1; carry != "" ==> LineEnd(carry, 0) == |carry|
    decreases |block|
  {
    if block != "" {
      LineEndIs(block, 0);
      if IsWhole(block, LineEnd(block, 0)) { SplitLeaves(block[LineEnd(block, 0)..]); }
    }
  }

  lemma {:induction false} JoinMore(first: string, lines: seq<string>)
    ensures Join([first] + lines) == first + Join(lines)
  {
    assert ([first] + lines)[1..] == lines;
  }

  lemma {:induction false} CutBlock(block: string, rest: string, end: nat)
    requires end <= |block|
    ensures (block + rest)[..end] == block[..end] && (block + rest)[end..] == block[end..] + rest
  {
  }

  /** Whatever comes next, the whole lines of a block are lines of the text. */
  lemma {:induction false} SplitExtends(block: string, rest: string)
    ensures var (lines, carry) := Split(block); LinesOf(block + rest) == lines + LinesOf(carry + rest)
    decreases |block|
  {
    if block == "" {
      assert block + rest == rest && "" + rest == rest;
    } else {
      var end, text := LineEnd(block, 0), block + rest;
      if IsWhole(block, end) {
        LineEndExtended(block, rest, 0);
        SplitExtends(block[end..], rest);
        CutBlock(block, rest, end);
      }
    }
  }

  lemma {:induction false} CarryIsLine(carry: string)
    requires carry != "" && LineEnd(carry, 0) == |carry|
    ensures LinesOf(carry) == [carry]
  {
    assert carry[..|carry|] == carry && carry[|carry|..] == "";
  }

  /** The first line to come begins with what is carried. */
  lemma {:induction false} CarryBegins(carry: string, rest: string)
    requires carry != "" && LineEnd(carry, 0) == |carry|
    ensures LinesOf(carry + rest) != [] && |LinesOf(carry + rest)[0]| >= |carry|
  {
    LineEndLater(carry, rest, 0);
  }

  // ----- the two ways to split

  /** Where `str.splitlines` splits. */
  predicate IsLineBoundary(c: char) {
    || c == '\n' || c == '\r' || c == '\U{0B}' || c == '\U{0C}' || c == '\U{1C}' || c == '\U{1D}' || c == '\U{1E}'
    || c == '\U{85}' || c == '\U{2028}' || c == '\U{2029}'
  }

  /** `str.splitlines(keepends=True)`. */
  function BreakEnd(text: string, from: nat): (end: nat)
    requires from <= |text|
    ensures from <= end <= |text| && (from < |text| ==> from < end)
    decreases |text| - from
  {
    if from == |text| then from
    else if text[from] == '\r' && from + 1 < |text| && text[from + 1] == '\n' then from + 2
    else if IsLineBoundary(text[from]) then from + 1
    else BreakEnd(text, from + 1)
  }

  function SplitLines(text: string): seq<string> {
    if text == "" then [] else [text[..BreakEnd(text, 0)]] + SplitLines(text[BreakEnd(text, 0)..])
  }

  lemma {:induction false} SameEnd(text: string, from: nat)
    requires from <= |text| && forall c <- text :: !IsOtherBreak(c)
    ensures BreakEnd(text, from) == LineEnd(text, from)
    decreases |text| - from
  {
    if from < |text| {
      assert text[from] in text;
      SameEnd(text, from + 1);
    }
  }

  /** Without the other breaks, `splitlines` splits as the endings do. */
  lemma {:induction false} SplitLinesIs(text: string)
    requires forall c <- text :: !IsOtherBreak(c)
    ensures SplitLines(text) == LinesOf(text)
    decreases |text|
  {
    if text != "" {
      SameEnd(text, 0);
      var end := LineEnd(text, 0);
      forall c | c in text[end..] ensures c in text {}
      SplitLinesIs(text[end..]);
    }
  }

  /** What both branches end with: the last line goes back when it may not be
      whole. */
  function PopLast(lines: seq<string>): (seq<string>, string) {
    if lines == [] then ([], "")
    else
      var last := lines[|lines| - 1];
      if last == "" || !IsEnd(last[|last| - 1]) || last[|last| - 1] == '\r' then (lines[..|lines| - 1], last)
      else (lines, "")
  }

  lemma {:induction false} PopStep(first: string, rest: seq<string>)
    requires rest != []
    ensures PopLast([first] + rest) == ([first] + PopLast(rest).0, PopLast(rest).1)
  {
    var all := [first] + rest;
    assert all[|all| - 1] == rest[|rest| - 1];
    assert all[..|all| - 1] == [first] + rest[..|rest| - 1];
  }

  lemma {:induction false} PopIsSplit(block: string)
    ensures PopLast(LinesOf(block)) == Split(block)
    decreases |block|
  {
    hide PopLast;
    if block != "" {
      var end := LineEnd(block, 0);
      LineEndIs(block, 0);
      if end == |block| {
        LastLine(block);
      } else {
        PopIsSplit(block[end..]);
        PopStep(block[..end], LinesOf(block[end..]));
      }
    } else {
      NoLine();
    }
  }

  lemma {:induction false} NoLine()
    ensures PopLast([]) == ([], "")
  {
  }

  lemma {:induction false} LastLine(block: string)
    requires block != "" && LineEnd(block, 0) == |block|
    ensures PopLast(LinesOf(block)) == Split(block)
  {
    CarryIsLine(block);
    assert block[..|block|] == block && block[|block|..] == "";
    assert [block][..0] == [];
  }

  /** `_split`: by `splitlines` or ending by ending, the same lines. */
  method SplitBlock(block: string) returns (lines: seq<string>, carry: string)
    ensures (lines, carry) == Split(block)
  {
    PopIsSplit(block);
    if forall c <- block :: !IsOtherBreak(c) {
      SplitLinesIs(block);
      lines := SplitLines(block);
    } else {
      lines := AtEndings(block);
    }
    var popped := PopLast(lines);
    return popped.0, popped.1;
  }

  /** The endings found one after the other; what is left is a line too. */
  method AtEndings(block: string) returns (lines: seq<string>)
    ensures lines == LinesOf(block)
  {
    lines := [];
    var start := 0;
    assert block[0..] == block;
    while start < |block|
      invariant 0 <= start <= |block| && LinesOf(block) == lines + LinesOf(block[start..])
      decreases |block| - start
    {
      var end := start + LineEnd(block[start..], 0);
      assert block[start..][..end - start] == block[start..end] && block[start..][end - start..] == block[end..];
      lines := lines + [block[start..end]];
      start := end;
    }
  }

  // ----- records

  /** `ends(i)`: the csv reader ends a record with line `i`. */
  type Records = nat -> bool

  predicate Starts(ends: Records, i: nat) { i == 0 || ends(i - 1) }

  /** The size of the record up to line `i`. */
  function SizeAt(lines: seq<string>, ends: Records, i: nat): nat
    requires i < |lines|
    decreases i
  {
    if Starts(ends, i) then |lines[i]| else SizeAt(lines, ends, i - 1) + |lines[i]|
  }

  predicate Quoted(line: string) { '"' in line }

  /** Without a quote a line that begins a record is the whole record. */
  ghost predicate EndsUnquoted(lines: seq<string>, ends: Records) {
    forall i: nat {:trigger lines[i]} :: i < |lines| && Starts(ends, i) && !Quoted(lines[i]) ==> ends(i)
  }

  /** The size counted so far, before line `i`. */
  predicate SizeIs(lines: seq<string>, ends: Records, i: nat, size: nat)
    requires i <= |lines|
  {
    size == if Starts(ends, i) then 0 else SizeAt(lines, ends, i - 1)
  }

  /** What has been yielded: the first lines, all within the bound. */
  ghost predicate Yielded(lines: seq<string>, ends: Records, max: nat, out: seq<string>) {
    out <= lines && forall i: nat :: i < |out| ==> SizeAt(lines, ends, i) <= max
  }

  /** Refused at the first record past the bound. */
  ghost predicate RefusedAt(lines: seq<string>, ends: Records, max: nat, out: seq<string>) {
    Yielded(lines, ends, max, out) && |out| < |lines| && SizeAt(lines, ends, |out|) > max
  }

  lemma RefusedIs(lines: seq<string>, ends: Records, max: nat, out: seq<string>)
    requires RefusedAt(lines, ends, max, out)
    ensures out <= lines && |out| < |lines| && SizeAt(lines, ends, |out|) > max
    ensures forall i: nat :: i < |out| ==> SizeAt(lines, ends, i) <= max
  {
  }

  lemma YieldedIs(lines: seq<string>, ends: Records, max: nat, out: seq<string>)
    requires Yielded(lines, ends, max, out)
    ensures out <= lines && forall i: nat :: i < |out| ==> SizeAt(lines, ends, i) <= max
  {
  }

  /** What is counted at a line is the text of its record so far. */
  lemma {:induction false} SizeOfRecord(lines: seq<string>, ends: Records, start: nat, i: nat)
    requires start <= i < |lines| && (start == 0 || ends(start - 1)) && forall k: nat :: start <= k < i ==> !ends(k)
    ensures SizeAt(lines, ends, i) == |Join(lines[start..i + 1])|
    decreases i
  {
    if start < i {
      SizeOfRecord(lines, ends, start, i - 1);
      assert lines[start..i + 1] == lines[start..i] + [lines[i]];
      JoinSizes(lines[start..i], lines[i]);
    } else {
      assert lines[start..i + 1] == [lines[i]];
      JoinSizes([], lines[i]);
      assert [] + [lines[i]] == [lines[i]];
    }
  }

  lemma {:induction false} JoinSizes(lines: seq<string>, last: string)
    ensures |Join(lines + [last])| == |Join(lines)| + |last|
  {
    if lines == [] {
      assert [] + [last] == [last] && [last][1..] == [];
    } else {
      JoinSizes(lines[1..], last);
      assert (lines + [last])[1..] == lines[1..] + [last];
    }
  }

  lemma {:induction false} SizeMore(lines: seq<string>, ends: Records, i: nat, size: nat)
    requires i < |lines| && SizeIs(lines, ends, i, size)
    ensures SizeAt(lines, ends, i) == size + |lines[i]|
  {
  }

  lemma {:induction false} YieldMore(lines: seq<string>, ends: Records, max: nat, out: seq<string>)
    requires Yielded(lines, ends, max, out) && |out| < |lines| && SizeAt(lines, ends, |out|) <= max
    ensures Yielded(lines, ends, max, out + [lines[|out|]])
  {
    hide SizeAt;
    OneMoreLine(lines, out);
  }

  /** `_counted`: one line at a time, each added to the record's size. */
  method Counted(ghost lines: seq<string>, ends: Records, max: nat, out: seq<string>, more: seq<string>, size: nat)
    returns (out': seq<string>, size': nat, ok: bool)
    requires Yielded(lines, ends, max, out) && out + more <= lines && SizeIs(lines, ends, |out|, size)
    ensures ok ==> out' == out + more && Yielded(lines, ends, max, out') && SizeIs(lines, ends, |out'|, size')
    ensures !ok ==> RefusedAt(lines, ends, max, out')
  {
    hide Yielded, SizeAt;
    out', size', ok := out, size, true;
    for i := 0 to |more|
      invariant out' == out + more[..i] && |out'| <= |lines|
      invariant Yielded(lines, ends, max, out') && SizeIs(lines, ends, |out'|, size')
    {
      ghost var n := |out| + i;
      assert (out + more)[n] == more[i] && lines[n] == more[i];
      SizeMore(lines, ends, n, size');
      size' := size' + |more[i]|;
      if size' > max { return out', size', false; }
      YieldMore(lines, ends, max, out');
      out' := out' + [more[i]];
      assert out' == out + more[..i + 1];
      if ends(|out'| - 1) { size' := 0; }
    }
    assert more[..|more|] == more;
  }

  lemma {:induction false} ZeroStarts(lines: seq<string>, ends: Records, i: nat)
    requires i <= |lines| && SizeIs(lines, ends, i, 0) && forall l <- lines :: l != ""
    ensures Starts(ends, i)
  {
    if i > 0 { assert lines[i - 1] in lines; }
  }

  lemma {:induction false} UnquotedStep(lines: seq<string>, ends: Records, max: nat, out: seq<string>)
    requires Yielded(lines, ends, max, out) && |out| < |lines| && Starts(ends, |out|) && EndsUnquoted(lines, ends)
    requires |lines[|out|]| <= max && !Quoted(lines[|out|])
    ensures Yielded(lines, ends, max, out + [lines[|out|]]) && Starts(ends, |out| + 1)
  {
    hide SizeAt, Quoted;
    var n := |out|;
    StartSize(lines, ends, n);
    assert ends(n);
    YieldMore(lines, ends, max, out);
  }

  lemma {:induction false} StartSize(lines: seq<string>, ends: Records, i: nat)
    requires i < |lines| && Starts(ends, i)
    ensures SizeAt(lines, ends, i) == |lines[i]|
  {
  }

  lemma {:induction false} OneMoreLine(lines: seq<string>, out: seq<string>)
    requires out <= lines && |out| < |lines|
    ensures out + [lines[|out|]] <= lines
  {
  }

  /** A block without a quote, at the start of a record, whose lines fit the
      bound, is handed over as it is. */
  lemma {:induction false} Unquoted(lines: seq<string>, ends: Records, max: nat, out: seq<string>, more: seq<string>)
    requires Yielded(lines, ends, max, out) && out + more <= lines && Starts(ends, |out|) && EndsUnquoted(lines, ends)
    requires forall l <- more :: |l| <= max && !Quoted(l)
    ensures Yielded(lines, ends, max, out + more) && Starts(ends, |out + more|)
    decreases |more|
  {
    hide Yielded, EndsUnquoted, Starts;
    if more == [] {
      assert out + more == out;
    } else {
      assert (out + more)[|out|] == more[0] && lines[|out|] == more[0];
      UnquotedStep(lines, ends, max, out);
      assert out + more == out + [more[0]] + more[1..];
      Unquoted(lines, ends, max, out + [more[0]], more[1..]);
    }
  }

  predicate NoQuote(block: string) { '"' !in block }

  lemma {:induction false} NoQuoteInLines(block: string)
    requires NoQuote(block)
    ensures forall l <- Split(block).0 :: !Quoted(l)
    ensures !Quoted(Split(block).1)
    decreases |block|
  {
    if block != "" {
      var end := LineEnd(block, 0);
      if IsWhole(block, end) { NoQuoteInLines(block[end..]); }
    }
  }

  lemma {:induction false} LinesNotEmpty(text: string)
    ensures forall l <- LinesOf(text) :: l != ""
    decreases |text|
  {
    if text != "" { LinesNotEmpty(text[LineEnd(text, 0)..]); }
  }

  /** What is yielded and what is to come are the lines of the text. */
  ghost predicate Midway(lines: seq<string>, out: seq<string>, ahead: string) { lines == out + LinesOf(ahead) }

  lemma {:induction false} NothingYielded(lines: seq<string>, ends: Records, max: nat, text: string)
    requires lines == LinesOf(text)
    ensures Midway(lines, [], text) && Yielded(lines, ends, max, []) && SizeIs(lines, ends, 0, 0)
  {
  }

  lemma {:induction false} JoinFirst(blocks: seq<string>, carry: string)
    requires blocks != []
    ensures carry + Join(blocks) == carry + blocks[0] + Join(blocks[1..])
  {
  }

  /** The whole lines of a block go out. */
  lemma {:induction false} BlockStep(lines: seq<string>, out: seq<string>, block: string, rest: string)
    requires Midway(lines, out, block + rest)
    ensures out + Split(block).0 <= lines && Midway(lines, out + Split(block).0, Split(block).1 + rest)
  {
    SplitExtends(block, rest);
    assert out + (Split(block).0 + LinesOf(Split(block).1 + rest)) ==
      out + Split(block).0 + LinesOf(Split(block).1 + rest);
  }

  lemma {:induction false} LastStep(lines: seq<string>, out: seq<string>, carry: string)
    requires Midway(lines, out, carry) && carry != "" && LineEnd(carry, 0) == |carry|
    ensures out + [carry] == lines && Midway(lines, out + [carry], "")
  {
    CarryIsLine(carry);
  }

  lemma {:induction false} TooLong(
    lines: seq<string>, ends: Records, max: nat, out: seq<string>, carry: string, rest: string)
    requires Midway(lines, out, carry + rest) && Yielded(lines, ends, max, out)
    requires |carry| > max && LineEnd(carry, 0) == |carry|
    ensures RefusedAt(lines, ends, max, out)
  {
    hide LinesOf, LineEnd;
    CarryBegins(carry, rest);
    assert lines[|out|] == LinesOf(carry + rest)[0];
  }

  lemma {:induction false} AllYielded(lines: seq<string>, out: seq<string>)
    requires Midway(lines, out, "")
    ensures out == lines
  {
  }

  lemma {:induction false} StartsZero(lines: seq<string>, ends: Records, i: nat)
    requires i <= |lines| && Starts(ends, i)
    ensures SizeIs(lines, ends, i, 0)
  {
  }

  /** Some lines go out: at once, or counted. */
  method Hand(
    ghost lines: seq<string>, ends: Records, max: nat, out: seq<string>, block: string, more: seq<string>, size: nat)
    returns (out': seq<string>, size': nat, ok: bool)
    requires Yielded(lines, ends, max, out) && out + more <= lines && SizeIs(lines, ends, |out|, size)
    requires EndsUnquoted(lines, ends) && (forall l <- lines :: l != "")
    requires NoQuote(block) ==> forall l <- more :: !Quoted(l)
    ensures ok ==> out' == out + more && |out'| <= |lines| && Yielded(lines, ends, max, out')
    ensures ok ==> SizeIs(lines, ends, |out'|, size')
    ensures !ok ==> RefusedAt(lines, ends, max, out')
  {
    hide Yielded, EndsUnquoted, SizeIs, Starts, Quoted, NoQuote;
    if size == 0 && NoQuote(block) && (forall l <- more :: |l| <= max) {
      ZeroStarts(lines, ends, |out|);
      Unquoted(lines, ends, max, out, more);
      StartsZero(lines, ends, |out + more|);
      return out + more, 0, true;
    }
    out', size', ok := Counted(lines, ends, max, out, more, size);
  }

  /** `_lines`: whatever the blocks, the lines of the text, up to the first
      record past the bound. */
  method Lines(blocks: seq<string>, max: nat, ends: Records) returns (out: seq<string>, ok: bool)
    requires (forall b <- blocks :: b != "") && EndsUnquoted(LinesOf(Join(blocks)), ends)
    ensures var lines := LinesOf(Join(blocks));
      && out <= lines && (ok <==> out == lines) && (forall i: nat :: i < |out| ==> SizeAt(lines, ends, i) <= max)
      && (!ok ==> |out| < |lines| && SizeAt(lines, ends, |out|) > max)
  {
    hide *;
    ghost var lines := LinesOf(Join(blocks));
    LinesNotEmpty(Join(blocks));
    var carry, size, coming := "", 0, blocks;
    out := [];
    NothingYielded(lines, ends, max, Join(blocks));
    assert "" + Join(blocks) == Join(blocks);
    while coming != []
      invariant Midway(lines, out, carry + Join(coming)) && (carry != "" ==> LineEnd(carry, 0) == |carry|)
        && |carry| <= max
      invariant |out| <= |lines| && Yielded(lines, ends, max, out) && SizeIs(lines, ends, |out|, size)
      decreases |coming|
    {
      var block := carry + coming[0];
      JoinFirst(coming, carry);
      coming := coming[1..];
      BlockStep(lines, out, block, Join(coming));
      SplitLeaves(block);
      var more: seq<string>;
      more, carry := SplitBlock(block);
      if NoQuote(block) { NoQuoteInLines(block); }
      out, size, ok := Hand(lines, ends, max, out, block, more, size);
      if !ok {
        RefusedIs(lines, ends, max, out);
        return;
      }
      if |carry| > max {
        TooLong(lines, ends, max, out, carry, Join(coming));
        RefusedIs(lines, ends, max, out);
        return out, false;
      }
    }
    NoBlocks(carry);
    if carry != "" {
      LastStep(lines, out, carry);
      QuoteInCarry(carry);
      out, size, ok := Hand(lines, ends, max, out, carry, [carry], size);
      if !ok {
        RefusedIs(lines, ends, max, out);
        return;
      }
    }
    AllYielded(lines, out);
    YieldedIs(lines, ends, max, out);
    ok := true;
  }

  lemma {:induction false} NoBlocks(carry: string)
    ensures carry + Join([]) == carry
  {
  }

  lemma {:induction false} QuoteInCarry(carry: string)
    ensures NoQuote(carry) ==> !Quoted(carry)
  {
  }

  // ----- columns

  /** The dictionary of a header and a record: the last place of a name wins. */
  function Dict(header: seq<string>, record: seq<string>, n: nat): map<string, string>
    requires n <= |header| && n <= |record|
  {
    if n == 0 then map[] else Dict(header, record, n - 1)[header[n - 1] := record[n - 1]]
  }

  class Columns {
    const header: seq<string>
    var places: map<string, seq<nat>>

    /** The places of each name, in order. */
    ghost predicate Valid()
      reads this
    {
      PlacesOf(header, |header|, places)
    }

    constructor (header: seq<string>)
      ensures Valid() && this.header == header
    {
      this.header := header;
      var found: map<string, seq<nat>> := map[];
      for i := 0 to |header|
        invariant PlacesOf(header, i, found)
      {
        PlacesMore(header, i, found);
        var name := header[i];
        found := found[name := (if name in found then found[name] else []) + [i]];
      }
      places := found;
    }

    /** `place`: the last place of the name within a record of that length. */
    method Place(name: string, length: nat) returns (r: Option<nat>)
      requires Valid()
      ensures r.Some? ==> r.value < |header| && r.value < length && header[r.value] == name
      ensures r.Some? ==> forall i :: r.value < i < |header| && i < length ==> header[i] != name
      ensures r.None? ==> forall i :: 0 <= i < |header| && i < length ==> header[i] != name
    {
      hide PlacesOfName;
      if name !in places { return None; }
      var list := places[name];
      assert PlacesOfName(header, |header|, name, list);
      var k := |list|;
      while k > 0
        invariant 0 <= k <= |list| && forall j :: k <= j < |list| ==> list[j] >= length
      {
        k := k - 1;
        if list[k] < length {
          LastPlace(header, name, list, k, length);
          return Some(list[k]);
        }
      }
      NoPlaceWithin(header, name, list, length);
      return None;
    }
  }

  lemma LastPlace(header: seq<string>, name: string, list: seq<nat>, k: nat, length: nat)
    requires PlacesOfName(header, |header|, name, list) && k < |list| && list[k] < length
    requires forall j :: k < j < |list| ==> list[j] >= length
    ensures list[k] < |header| && header[list[k]] == name
    ensures forall i :: list[k] < i < |header| && i < length ==> header[i] != name
  {
    forall x | x in list ensures x <= list[k] || x >= length {
      var j :| 0 <= j < |list| && list[j] == x;
      assert j < k ==> list[j] < list[k];
    }
    forall i: nat | list[k] < i < |header| && i < length ensures header[i] != name {
      assert header[i] == name ==> i in list;
    }
  }

  lemma NoPlaceWithin(header: seq<string>, name: string, list: seq<nat>, length: nat)
    requires PlacesOfName(header, |header|, name, list) && forall x <- list :: x >= length
    ensures forall i :: 0 <= i < |header| && i < length ==> header[i] != name
  {
    forall i: nat | i < |header| && i < length ensures header[i] != name {
      assert header[i] == name ==> i in list;
    }
  }

  ghost predicate PlacesOfName(header: seq<string>, n: nat, name: string, list: seq<nat>)
    requires n <= |header|
  {
    && (forall i, j :: 0 <= i < j < |list| ==> list[i] < list[j])
    && (forall i :: 0 <= i < |list| ==> list[i] < n && header[list[i]] == name)
    && (forall p: nat :: p < n && header[p] == name ==> p in list)
  }

  ghost predicate PlacesOf(header: seq<string>, n: nat, places: map<string, seq<nat>>)
    requires n <= |header|
  {
    && (forall name <- places :: PlacesOfName(header, n, name, places[name]))
    && (forall p: nat :: p < n ==> header[p] in places)
  }

  lemma {:induction false} PlacesMore(header: seq<string>, n: nat, places: map<string, seq<nat>>)
    requires n < |header| && PlacesOf(header, n, places)
    ensures var name := header[n];
      PlacesOf(header, n + 1, places[name := (if name in places then places[name] else []) + [n]])
  {
    hide PlacesOfName;
    NoPlaces(header, n, header[n], places);
    var name := header[n];
    var before := if name in places then places[name] else [];
    var after := places[name := before + [n]];
    forall name' | name' in after ensures PlacesOfName(header, n + 1, name', after[name']) {
      if name' == name { NameMore(header, n, name, before); } else { NameSame(header, n, name', places[name']); }
    }
  }

  lemma {:induction false} NoPlaces(header: seq<string>, n: nat, name: string, places: map<string, seq<nat>>)
    requires n < |header| && PlacesOf(header, n, places)
    ensures name !in places ==> PlacesOfName(header, n, name, [])
  {
  }

  lemma {:induction false} NameSame(header: seq<string>, n: nat, name: string, list: seq<nat>)
    requires n < |header| && header[n] != name && PlacesOfName(header, n, name, list)
    ensures PlacesOfName(header, n + 1, name, list)
  {
  }

  lemma {:induction false} NameMore(header: seq<string>, n: nat, name: string, list: seq<nat>)
    requires n < |header| && header[n] == name && PlacesOfName(header, n, name, list)
    ensures PlacesOfName(header, n + 1, name, list + [n])
  {
    var more := list + [n];
    assert more[|list|] == n && forall i :: 0 <= i < |list| ==> more[i] == list[i];
    forall p: nat | p < n + 1 && header[p] == name ensures p in more {
      if p < n { assert p in list; }
    }
  }

  lemma {:induction false} DictHolds(header: seq<string>, record: seq<string>, n: nat, name: string, place: Option<nat>)
    requires n <= |header| && n <= |record|
    requires place.Some? ==> place.value < n && header[place.value] == name
    requires place.Some? ==> forall i :: place.value < i < n ==> header[i] != name
    requires place.None? ==> forall i :: 0 <= i < n ==> header[i] != name
    ensures place.Some? ==> name in Dict(header, record, n) && Dict(header, record, n)[name] == record[place.value]
    ensures place.None? ==> name !in Dict(header, record, n)
    decreases n
  {
    if n > 0 && !(place.Some? && place.value == n - 1) { DictHolds(header, record, n - 1, name, place); }
  }

  /** The place found is where a dictionary of the record would look. */
  method ValueOf(columns: Columns, record: seq<string>, name: string) returns (r: Option<string>)
    requires columns.Valid()
    ensures var dict := Dict(columns.header, record, Min(|columns.header|, |record|));
      r == if name in dict then Some(dict[name]) else None
  {
    var place := columns.Place(name, |record|);
    DictHolds(columns.header, record, Min(|columns.header|, |record|), name, place);
    r := if place.Some? then Some(record[place.value]) else None;
  }
}
