/** Why a chunk is enough: what the skip filter's scanner does at an index is
    settled by the bytes it can see, and moves compose. */
module SkipLocality {
  import opened Bytes
  import opened SkipSpec

  function Longest(names: seq<Text>): (r: nat)
    ensures forall n <- names :: |n| <= r
  {
    if names == [] then 0 else Max(|names[0]|, Longest(names[1..]))
  }

  /** The bytes a match may need beyond its first one, with room to spare. */
  function Lookahead(cfg: Config): nat {
    Max(LONGEST_OPENER + 1, |cfg.qualifier| + Longest(cfg.names) + 4)
  }

  /** What may follow the buffer: anything, or nothing once it is the last. */
  ghost predicate Ahead(final: bool, rest: Text) { final ==> rest == [] }

  /** The bytes seen decide whether a token begins at `i`: the buffer reaches
      far enough, or it is the last one, or a later `<` cuts any token off. */
  ghost predicate Settled(buffer: Text, final: bool, i: nat, reach: nat) {
    final || i + reach <= |buffer| || exists j :: i < j < |buffer| && buffer[j] == LT
  }

  predicate OneLT(w: Text) {
    |w| > 0 && w[0] == LT && forall k :: 1 <= k < |w| ==> w[k] != LT
  }

  lemma ShortOfLT(d: Text, i: nat, w: Text, j: nat)
    requires At(d, i, w) && OneLT(w) && i < j < |d| && d[j] == LT
    ensures i + |w| <= j
  {
    if j < i + |w| {
      AtByte(d, i, w, j - i);
      assert false;
    }
  }

  /** A token text `w` (with `extra` bytes after it that are no `<`) standing
      in the whole document stands in the buffer where that is settled. */
  lemma SeenInBuffer(buffer: Text, rest: Text, final: bool, i: nat, w: Text, extra: nat, reach: nat)
    requires Ahead(final, rest) && Settled(buffer, final, i, reach)
    requires OneLT(w) && |w| + extra <= reach && extra <= 1
    ensures At(buffer + rest, i, w)
            && (extra == 1 ==> i + |w| < |buffer + rest| && (buffer + rest)[i + |w|] != LT)
            ==> i + |w| + extra <= |buffer| && At(buffer, i, w)
  {
    var d := buffer + rest;
    AtExtended(buffer, rest, i, w);
    if At(d, i, w) && !final && i + reach > |buffer| {
      var j :| i < j < |buffer| && buffer[j] == LT;
      assert d[j] == LT;
      ShortOfLT(d, i, w, j);
    }
  }

  lemma SameWord(d: Text, at: nat, v: Text, w: Text)
    requires NamedAt(d, at, [LT] + v) && NamedAt(d, at, [LT] + w)
    requires NameBytes(v) && NameBytes(w)
    ensures v == w
  {
    if |v| < |w| {
      AtByte(d, at, [LT] + w, |v| + 1);
    } else if |w| < |v| {
      AtByte(d, at, [LT] + v, |w| + 1);
    }
    forall k | 0 <= k < |v| ensures |v| == |w| && v[k] == w[k] {
      assert ([LT] + v)[k + 1] == v[k];
      assert ([LT] + w)[k + 1] == w[k];
    }
  }

  lemma OpenerExtended(buffer: Text, rest: Text, final: bool, i: nat)
    requires Ahead(final, rest)
    ensures OpenerAt(buffer, i).Some? ==> OpenerAt(buffer + rest, i) == OpenerAt(buffer, i)
    ensures OpenerAt(buffer, i).None? && Settled(buffer, final, i, LONGEST_OPENER)
            ==> OpenerAt(buffer + rest, i).None?
  {
    var d := buffer + rest;
    AtExtended(buffer, rest, i, COMMENT);
    AtExtended(buffer, rest, i, CDATA);
    AtExtended(buffer, rest, i, INSTRUCTION);
    AtByte(d, i, CDATA, 2);
    AtByte(d, i, COMMENT, 2);
    AtByte(d, i, INSTRUCTION, 1);
    AtByte(d, i, COMMENT, 1);
    AtByte(d, i, CDATA, 1);
    if Settled(buffer, final, i, LONGEST_OPENER) {
      SeenInBuffer(buffer, rest, final, i, COMMENT, 0, LONGEST_OPENER);
      SeenInBuffer(buffer, rest, final, i, CDATA, 0, LONGEST_OPENER);
      SeenInBuffer(buffer, rest, final, i, INSTRUCTION, 0, LONGEST_OPENER);
    }
  }

  /** A name found in the buffer is the name the whole document has there;
      one not found where that is settled is not in the document either. */
  lemma NameExtended(cfg: Config, buffer: Text, rest: Text, final: bool, i: nat)
    requires ValidConfig(cfg) && Ahead(final, rest)
    ensures NameAt(cfg, buffer, i).Some? ==> NameAt(cfg, buffer + rest, i) == NameAt(cfg, buffer, i)
    ensures NameAt(cfg, buffer, i).None? && Settled(buffer, final, i, Lookahead(cfg))
            ==> NameAt(cfg, buffer + rest, i).None?
  {
    var d := buffer + rest;
    var seen := NameAt(cfg, buffer, i);
    var whole := NameAt(cfg, d, i);
    if seen.Some? {
      var needle := [LT] + cfg.qualifier + seen.value;
      AtExtended(buffer, rest, i, needle);
      assert NamedAt(d, i, needle);
      assert needle == [LT] + (cfg.qualifier + seen.value);
      assert [LT] + cfg.qualifier + whole.value == [LT] + (cfg.qualifier + whole.value);
      SameWord(d, i, cfg.qualifier + seen.value, cfg.qualifier + whole.value);
      assert seen.value == (cfg.qualifier + seen.value)[|cfg.qualifier|..];
      assert whole.value == (cfg.qualifier + whole.value)[|cfg.qualifier|..];
    } else if Settled(buffer, final, i, Lookahead(cfg)) {
      forall n <- cfg.names ensures !NamedAt(d, i, [LT] + cfg.qualifier + n) {
        SeenInBuffer(buffer, rest, final, i, [LT] + cfg.qualifier + n, 1, Lookahead(cfg));
      }
    }
  }

  predicate OutsideEvent(cfg: Config, d: Text, i: nat) {
    OpenerAt(d, i).Some? || NameAt(cfg, d, i).Some?
  }

  lemma OutsideSettled(cfg: Config, buffer: Text, rest: Text, final: bool, i: nat)
    requires ValidConfig(cfg) && Ahead(final, rest)
    requires !OutsideEvent(cfg, buffer, i) && Settled(buffer, final, i, Lookahead(cfg))
    ensures !OutsideEvent(cfg, buffer + rest, i)
  {
    if !final && i + Lookahead(cfg) > |buffer| {
      var j :| i < j < |buffer| && buffer[j] == LT;
      assert Settled(buffer, final, i, LONGEST_OPENER);
    }
    assert Settled(buffer, final, i, LONGEST_OPENER);
    OpenerExtended(buffer, rest, final, i);
    NameExtended(cfg, buffer, rest, final, i);
  }

  /** The four things that matter inside a dropped element. */
  datatype Key = End | Start | Bang | Mark

  function Needle(word: Text, key: Key): Text {
    match key
    case End => CloseTag(word)
    case Start => OpenTag(word)
    case Bang => DECLARATION
    case Mark => INSTRUCTION
  }

  predicate EventAt(word: Text, key: Key, d: Text, i: nat) {
    if key.End? || key.Start? then TagAt(d, i, Needle(word, key)) else At(d, i, Needle(word, key))
  }

  predicate Quiet(word: Text, d: Text, i: nat) {
    forall key: Key :: !EventAt(word, key, d, i)
  }

  lemma EventIsLT(word: Text, key: Key, d: Text, i: nat)
    requires Word(word)
    ensures EventAt(word, key, d, i) ==> i + 1 < |d| && d[i] == LT
    ensures EventAt(word, key, d, i) ==>
      d[i + 1] == match key case End => SLASH case Start => word[0] case Bang => BANG case Mark => QUESTION
  {
    NeedleShape(word, key);
    AtByte(d, i, Needle(word, key), 0);
    AtByte(d, i, Needle(word, key), 1);
  }

  lemma EventExtended(word: Text, key: Key, buffer: Text, rest: Text, i: nat)
    requires EventAt(word, key, buffer, i)
    ensures EventAt(word, key, buffer + rest, i)
  {
    AtExtended(buffer, rest, i, Needle(word, key));
  }

  lemma NeedleShape(word: Text, key: Key)
    requires Word(word)
    ensures OneLT(Needle(word, key)) && 2 <= |Needle(word, key)| <= |word| + 2
  {
  }

  lemma EventSettled(cfg: Config, word: Text, key: Key, buffer: Text, rest: Text, final: bool, i: nat)
    requires Word(word) && |word| + 4 <= Lookahead(cfg) && Ahead(final, rest)
    requires !EventAt(word, key, buffer, i) && Settled(buffer, final, i, Lookahead(cfg))
    ensures !EventAt(word, key, buffer + rest, i)
  {
    NeedleShape(word, key);
    var needle := Needle(word, key);
    if key.End? || key.Start? {
      SeenInBuffer(buffer, rest, final, i, needle, 1, Lookahead(cfg));
    } else {
      SeenInBuffer(buffer, rest, final, i, needle, 0, Lookahead(cfg));
    }
  }

  lemma QuietSettled(cfg: Config, word: Text, buffer: Text, rest: Text, final: bool, i: nat)
    requires Word(word) && |word| + 4 <= Lookahead(cfg) && Ahead(final, rest)
    requires Quiet(word, buffer, i) && Settled(buffer, final, i, Lookahead(cfg))
    ensures Quiet(word, buffer + rest, i)
  {
    forall key: Key ensures !EventAt(word, key, buffer + rest, i) {
      EventSettled(cfg, word, key, buffer, rest, final, i);
    }
  }

  // ----- moves over a stretch where nothing happens

  predicate Keeps(m: Mode) { m.Outside? || m.Passing? }

  function StretchOutput(d: Text, p: nat, stop: nat, parsed: nat, m: Mode): Output
    requires p <= stop <= |d|
  {
    Output(if Keeps(m) then Kept(d, p, stop, parsed) else [], [])
  }

  lemma NothingThen(o: Output)
    ensures NOTHING.Then(o) == o && o.Then(NOTHING) == o
  {
    assert [] + o.kept == o.kept && [] + o.cuts == o.cuts;
    assert o.kept + [] == o.kept && o.cuts + [] == o.cuts;
  }

  lemma ThenAssociates(a: Output, b: Output, c: Output)
    ensures a.Then(b).Then(c) == a.Then(b.Then(c))
  {
    assert a.kept + b.kept + c.kept == a.kept + (b.kept + c.kept);
    assert a.cuts + b.cuts + c.cuts == a.cuts + (b.cuts + c.cuts);
  }

  lemma ScanMove(cfg: Config, d: Text, p: nat, parsed: nat, m: Mode, s: Move)
    requires ValidConfig(cfg) && ValidMode(m) && p < |d| && Step(cfg, d, p, parsed, m) == s
    ensures p < s.next <= |d| && ValidMode(s.mode)
    ensures Scan(cfg, d, p, parsed, m) == MoveOutput(d, p, parsed, s).Then(Scan(cfg, d, s.next, parsed, s.mode))
  {
    hide Step, Output.Then, MoveOutput, ValidMode, ValidConfig;
  }

  lemma {:induction false} KeptGrows(d: Text, p: nat, stop: nat, parsed: nat)
    requires p < stop <= |d|
    ensures Kept(d, p, p + 1, parsed) + Kept(d, p + 1, stop, parsed) == Kept(d, p, stop, parsed)
  {
    if parsed <= p {
      assert d[p..stop] == d[p..p + 1] + d[p + 1..stop];
    }
  }

  lemma {:induction false} StretchGrows(d: Text, p: nat, stop: nat, parsed: nat, m: Mode)
    requires p < stop <= |d|
    ensures MoveOutput(d, p, parsed, Move(p + 1, m, Keeps(m), None)).Then(StretchOutput(d, p + 1, stop, parsed, m))
            == StretchOutput(d, p, stop, parsed, m)
  {
    hide Kept;
    KeptGrows(d, p, stop, parsed);
  }

  lemma {:induction false} Stretch(cfg: Config, d: Text, p: nat, stop: nat, parsed: nat, m: Mode)
    requires ValidConfig(cfg) && ValidMode(m) && p <= stop <= |d|
    requires forall i: nat :: p <= i < stop ==> Step(cfg, d, i, parsed, m) == Move(i + 1, m, Keeps(m), None)
    ensures Scan(cfg, d, p, parsed, m) == StretchOutput(d, p, stop, parsed, m).Then(Scan(cfg, d, stop, parsed, m))
    decreases stop - p
  {
    hide Step, Output.Then, StretchOutput, MoveOutput;
    if p < stop {
      Stretch(cfg, d, p + 1, stop, parsed, m);
      StretchGrows(d, p, stop, parsed, m);
      assert Step(cfg, d, p, parsed, m) == Move(p + 1, m, Keeps(m), None);
      ThenAssociates(MoveOutput(d, p, parsed, Move(p + 1, m, Keeps(m), None)),
                     StretchOutput(d, p + 1, stop, parsed, m), Scan(cfg, d, stop, parsed, m));
    } else {
      EmptyStretch(d, p, parsed, m);
      NothingThen(Scan(cfg, d, stop, parsed, m));
    }
  }

  lemma EmptyStretch(d: Text, p: nat, parsed: nat, m: Mode)
    requires p <= |d|
    ensures StretchOutput(d, p, p, parsed, m) == NOTHING
  {
  }

  lemma TagPlainStep(cfg: Config, d: Text, p: nat, parsed: nat, m: Mode)
    requires ValidConfig(cfg) && ValidMode(m) && m.Tag? && p < |d|
    requires if m.quote.Some? then d[p] != m.quote.value else !TagMark(d[p])
    ensures Step(cfg, d, p, parsed, m) == Move(p + 1, Tag(m.word, m.depth, m.quote, d[p]), false, None)
  {
  }

  /** Bytes of a start tag that neither quote nor end it change only the byte
      before the next one. */
  lemma {:induction false} TagStretch(cfg: Config, d: Text, p: nat, stop: nat, parsed: nat, m: Mode)
    requires ValidConfig(cfg) && ValidMode(m) && m.Tag? && p < stop <= |d|
    requires forall i :: p <= i < stop ==>
      if m.quote.Some? then d[i] != m.quote.value else !TagMark(d[i])
    ensures Scan(cfg, d, p, parsed, m) == Scan(cfg, d, stop, parsed, m.(before := d[stop - 1]))
    decreases stop - p
  {
    hide Step, Scan, ValidConfig, Output.Then;
    var m' := Tag(m.word, m.depth, m.quote, d[p]);
    TagPlainStep(cfg, d, p, parsed, m);
    ScanMove(cfg, d, p, parsed, m, Move(p + 1, m', false, None));
    NothingThen(Scan(cfg, d, p + 1, parsed, m'));
    if p + 1 < stop { TagStretch(cfg, d, p + 1, stop, parsed, m'); }
  }

  // ----- moves of a chunk

  /** Whatever follows the buffer, the scan from `p` in mode `m` gives `out`
      and then what the scan from `p'` in mode `m'` gives. */
  ghost predicate Advances(
    cfg: Config, buffer: Text, final: bool, parsed: nat, p: nat, m: Mode, out: Output, p': nat, m': Mode)
  {
    && ValidConfig(cfg) && ValidMode(m) && ValidMode(m')
    && forall rest: Text :: Ahead(final, rest) ==>
         Scan(cfg, buffer + rest, p, parsed, m) == out.Then(Scan(cfg, buffer + rest, p', parsed, m'))
  }

  lemma Stay(cfg: Config, buffer: Text, final: bool, parsed: nat, p: nat, m: Mode)
    requires ValidConfig(cfg) && ValidMode(m)
    ensures Advances(cfg, buffer, final, parsed, p, m, NOTHING, p, m)
  {
    forall rest: Text | Ahead(final, rest)
      ensures Scan(cfg, buffer + rest, p, parsed, m) == NOTHING.Then(Scan(cfg, buffer + rest, p, parsed, m))
    {
      var o := Scan(cfg, buffer + rest, p, parsed, m);
      assert [] + o.kept == o.kept && [] + o.cuts == o.cuts;
    }
  }

  lemma AdvancesTwice(
    cfg: Config, buffer: Text, final: bool, parsed: nat, p: nat, m: Mode, o: Output, p': nat, m': Mode, o': Output,
    p'': nat, m'': Mode)
    requires Advances(cfg, buffer, final, parsed, p, m, o, p', m')
    requires Advances(cfg, buffer, final, parsed, p', m', o', p'', m'')
    ensures Advances(cfg, buffer, final, parsed, p, m, o.Then(o'), p'', m'')
  {
    forall rest: Text | Ahead(final, rest)
      ensures Scan(cfg, buffer + rest, p, parsed, m) == o.Then(o').Then(Scan(cfg, buffer + rest, p'', parsed, m''))
    {
      ThenAssociates(o, o', Scan(cfg, buffer + rest, p'', parsed, m''));
    }
  }

  /** One move, the same whatever follows the buffer. */
  lemma AdvanceMove(cfg: Config, buffer: Text, final: bool, parsed: nat, p: nat, m: Mode, s: Move)
    requires ValidConfig(cfg) && ValidMode(m) && p < |buffer| && p < s.next <= |buffer|
    requires forall rest: Text :: Ahead(final, rest) ==> Step(cfg, buffer + rest, p, parsed, m) == s
    ensures Advances(cfg, buffer, final, parsed, p, m, MoveOutput(buffer, p, parsed, s), s.next, s.mode)
  {
    hide Step, Scan, Output.Then, ValidMode, ValidConfig, Kept;
    assert Step(cfg, buffer + [], p, parsed, m) == s;
    forall rest: Text | Ahead(final, rest)
      ensures Scan(cfg, buffer + rest, p, parsed, m) ==
              MoveOutput(buffer, p, parsed, s).Then(Scan(cfg, buffer + rest, s.next, parsed, s.mode))
    {
      ScanMove(cfg, buffer + rest, p, parsed, m, s);
      KeptInBuffer(buffer, rest, p, s.next, parsed);
    }
  }

  lemma KeptInBuffer(buffer: Text, rest: Text, from: nat, stop: nat, parsed: nat)
    requires from <= stop <= |buffer|
    ensures Kept(buffer + rest, from, stop, parsed) == Kept(buffer, from, stop, parsed)
  {
    var start := Max(from, parsed);
    if start < stop { assert (buffer + rest)[start..stop] == buffer[start..stop]; }
  }

  lemma AdvanceStretch(cfg: Config, buffer: Text, final: bool, parsed: nat, p: nat, stop: nat, m: Mode)
    requires ValidConfig(cfg) && ValidMode(m) && p <= stop <= |buffer|
    requires forall rest: Text, i: nat :: Ahead(final, rest) && p <= i < stop ==>
      Step(cfg, buffer + rest, i, parsed, m) == Move(i + 1, m, Keeps(m), None)
    ensures Advances(cfg, buffer, final, parsed, p, m, StretchOutput(buffer, p, stop, parsed, m), stop, m)
  {
    forall rest: Text | Ahead(final, rest)
      ensures Scan(cfg, buffer + rest, p, parsed, m) ==
              StretchOutput(buffer, p, stop, parsed, m).Then(Scan(cfg, buffer + rest, stop, parsed, m))
    {
      Stretch(cfg, buffer + rest, p, stop, parsed, m);
      KeptInBuffer(buffer, rest, p, stop, parsed);
    }
  }

  // ----- going on with the rest of a buffer alone

  lemma AtShift(d: Text, p: nat, q: nat, w: Text)
    requires p <= |d|
    ensures At(d[p..], q, w) == At(d, p + q, w)
  {
    if p + q + |w| <= |d| { assert d[p..][q..q + |w|] == d[p + q..p + q + |w|]; }
  }

  lemma {:induction false} NameShift(names: seq<Text>, qualifier: Text, d: Text, p: nat, q: nat)
    requires p <= |d|
    ensures NameAmong(names, qualifier, d[p..], q) == NameAmong(names, qualifier, d, p + q)
  {
    if names != [] {
      AtShift(d, p, q, [LT] + qualifier + names[0]);
      NameShift(names[1..], qualifier, d, p, q);
    }
  }

  function Shifted(s: Move, p: nat): Move
  {
    s.(next := s.next + p)
  }

  lemma OpenerShift(d: Text, p: nat, q: nat)
    requires p <= |d|
    ensures OpenerAt(d[p..], q) == OpenerAt(d, p + q)
  {
    AtShift(d, p, q, COMMENT);
    AtShift(d, p, q, CDATA);
    AtShift(d, p, q, INSTRUCTION);
  }

  lemma StepShift(cfg: Config, d: Text, p: nat, q: nat, parsed: nat, m: Mode)
    requires ValidConfig(cfg) && ValidMode(m) && p + q < |d|
    ensures Step(cfg, d, p + q, parsed, m) == Shifted(Step(cfg, d[p..], q, Max(0, parsed - p), m), p)
  {
    match m
    case Outside =>
      OpenerShift(d, p, q);
      NameShift(cfg.names, cfg.qualifier, d, p, q);
    case Passing(e) => AtShift(d, p, q, e);
    case Tag(_, _, _, _) =>
    case Cut(w, _) =>
      OpenerShift(d, p, q);
      AtShift(d, p, q, CloseTag(w));
      AtShift(d, p, q, OpenTag(w));
      AtShift(d, p, q, DECLARATION);
      AtShift(d, p, q, INSTRUCTION);
    case Hidden(_, _, e) => AtShift(d, p, q, e);
  }

  lemma KeptShift(d: Text, p: nat, from: nat, stop: nat, parsed: nat)
    requires p <= |d| && from <= stop <= |d| - p
    ensures Kept(d, p + from, p + stop, parsed) == Kept(d[p..], from, stop, Max(0, parsed - p))
  {
    var a, b := Max(p + from, parsed), Max(from, Max(0, parsed - p));
    if a < p + stop { assert d[p..][b..stop] == d[a..p + stop]; }
  }

  /** The scan looks only ahead: cutting off the bytes behind it changes nothing. */
  lemma {:induction false} ScanShift(cfg: Config, d: Text, p: nat, q: nat, parsed: nat, m: Mode)
    requires ValidConfig(cfg) && ValidMode(m) && p <= |d|
    ensures Scan(cfg, d, p + q, parsed, m) == Scan(cfg, d[p..], q, Max(0, parsed - p), m)
    decreases |d| - p - q
  {
    hide Step, Output.Then, Kept, ValidMode, ValidConfig;
    if p + q < |d| {
      var s := Step(cfg, d[p..], q, Max(0, parsed - p), m);
      StepShift(cfg, d, p, q, parsed, m);
      ScanShift(cfg, d, p, s.next, parsed, s.mode);
      KeptShift(d, p, q, s.next, parsed);
      assert MoveOutput(d, p + q, parsed, Shifted(s, p)) == MoveOutput(d[p..], q, Max(0, parsed - p), s);
      assert Shifted(s, p).next == p + s.next && Shifted(s, p).mode == s.mode;
    }
  }
}
