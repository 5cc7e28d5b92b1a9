/** The moves of the chunked filter, each proved to be moves of the scanner
    whatever bytes follow the buffer. */
module SkipMoves {
  import opened Bytes
  import opened SkipSpec
  import opened SkipLocality

  lemma KeptJoin(d: Text, p: nat, q: nat, r: nat, parsed: nat)
    requires p <= q <= r <= |d|
    ensures Kept(d, p, q, parsed) + Kept(d, q, r, parsed) == Kept(d, p, r, parsed)
  {
  }

  // ----- outside dropped elements

  lemma OutsideQuiet(cfg: Config, buffer: Text, final: bool, parsed: nat, p: nat, stop: nat)
    requires ValidConfig(cfg) && p <= stop <= |buffer|
    requires forall i: nat :: p <= i < stop ==>
      !OutsideEvent(cfg, buffer, i) && Settled(buffer, final, i, Lookahead(cfg))
    ensures Advances(cfg, buffer, final, parsed, p, Outside, Output(Kept(buffer, p, stop, parsed), []), stop, Outside)
  {
    hide Lookahead, Settled;
    forall rest: Text, i: nat | Ahead(final, rest) && p <= i < stop
      ensures Step(cfg, buffer + rest, i, parsed, Outside) == Move(i + 1, Outside, true, None)
    {
      OutsideSettled(cfg, buffer, rest, final, i);
    }
    AdvanceStretch(cfg, buffer, final, parsed, p, stop, Outside);
  }

  lemma OutsideOpener(cfg: Config, buffer: Text, final: bool, parsed: nat, p: nat)
    requires ValidConfig(cfg) && OpenerAt(buffer, p).Some?
    ensures Advances(cfg, buffer, final, parsed, p, Outside,
                     Output(Kept(buffer, p, p + OpenerAt(buffer, p).value.length, parsed), []),
                     p + OpenerAt(buffer, p).value.length, Passing(OpenerAt(buffer, p).value.terminator))
  {
    hide OpenerAt, Step, Advances, ValidConfig;
    var o := OpenerAt(buffer, p).value;
    var s := Move(p + o.length, Passing(o.terminator), true, None);
    forall rest: Text | Ahead(final, rest) ensures Step(cfg, buffer + rest, p, parsed, Outside) == s {
      OpenerStep(cfg, buffer, rest, final, parsed, p);
    }
    AdvanceMove(cfg, buffer, final, parsed, p, Outside, s);
  }

  lemma OpenerStep(cfg: Config, buffer: Text, rest: Text, final: bool, parsed: nat, p: nat)
    requires ValidConfig(cfg) && OpenerAt(buffer, p).Some? && Ahead(final, rest)
    ensures var o := OpenerAt(buffer, p).value;
      Step(cfg, buffer + rest, p, parsed, Outside) == Move(p + o.length, Passing(o.terminator), true, None)
  {
    hide OpenerAt, NameAt;
    OpenerExtended(buffer, rest, final, p);
  }

  lemma NameOpensNothing(cfg: Config, d: Text, p: nat, name: Text)
    requires ValidConfig(cfg) && name in cfg.names && NamedAt(d, p, [LT] + cfg.qualifier + name)
    ensures OpenerAt(d, p).None?
  {
    AtByte(d, p, [LT] + cfg.qualifier + name, 1);
    AtByte(d, p, COMMENT, 1);
    AtByte(d, p, CDATA, 1);
    AtByte(d, p, INSTRUCTION, 1);
  }

  /** A name of the set begins to be dropped, or is passed when its tag began
      in the bytes parsed before. */
  lemma OutsideName(cfg: Config, buffer: Text, final: bool, parsed: nat, p: nat, name: Text)
    requires ValidConfig(cfg) && NameAt(cfg, buffer, p) == Some(name)
    ensures p + |OpenTag(cfg.qualifier + name)| < |buffer|
    ensures p < parsed ==>
      Advances(cfg, buffer, final, parsed, p, Outside,
               Output(Kept(buffer, p, p + |OpenTag(cfg.qualifier + name)|, parsed), []),
               p + |OpenTag(cfg.qualifier + name)|, Outside)
    ensures p >= parsed ==>
      Advances(cfg, buffer, final, parsed, p, Outside, Output([], [name]),
               p + |OpenTag(cfg.qualifier + name)|,
               Tag(cfg.qualifier + name, 0, None, buffer[p + |cfg.qualifier + name|]))
  {
    var word := cfg.qualifier + name;
    assert [LT] + cfg.qualifier + name == OpenTag(word);
    assert Word(word);
    AtByte(buffer, p, OpenTag(word), |word|);
    hide Step, NameAt, Advances, ValidConfig, NamedAt, Word;
    NameAdvances(cfg, buffer, final, parsed, p, name);
  }

  lemma NameAdvances(cfg: Config, buffer: Text, final: bool, parsed: nat, p: nat, name: Text)
    requires ValidConfig(cfg) && NameAt(cfg, buffer, p) == Some(name)
    requires name in cfg.names && NamedAt(buffer, p, [LT] + cfg.qualifier + name)
    requires |cfg.qualifier + name| > 0 && p + |OpenTag(cfg.qualifier + name)| <= |buffer|
    ensures var s := NameMove(cfg, p, parsed, name);
      Advances(cfg, buffer, final, parsed, p, Outside, MoveOutput(buffer, p, parsed, s), s.next, s.mode)
  {
    var s := NameMove(cfg, p, parsed, name);
    assert p < s.next <= |buffer|;
    hide *;
    forall rest: Text | Ahead(final, rest) ensures Step(cfg, buffer + rest, p, parsed, Outside) == s {
      NameStep(cfg, buffer, rest, final, parsed, p, name);
    }
    AdvanceMove(cfg, buffer, final, parsed, p, Outside, s);
  }

  function NameMove(cfg: Config, p: nat, parsed: nat, name: Text): Move
    requires |cfg.qualifier + name| > 0
  {
    var word := cfg.qualifier + name;
    if p < parsed then Move(p + |OpenTag(word)|, Outside, true, None)
    else Move(p + |OpenTag(word)|, Tag(word, 0, None, word[|word| - 1]), false, Some(name))
  }

  lemma NameStep(cfg: Config, buffer: Text, rest: Text, final: bool, parsed: nat, p: nat, name: Text)
    requires ValidConfig(cfg) && NameAt(cfg, buffer, p) == Some(name) && Ahead(final, rest)
    requires name in cfg.names && NamedAt(buffer, p, [LT] + cfg.qualifier + name)
    ensures Step(cfg, buffer + rest, p, parsed, Outside) == NameMove(cfg, p, parsed, name)
  {
    NameExtended(cfg, buffer, rest, final, p);
    AtExtended(buffer, rest, p, [LT] + cfg.qualifier + name);
    NameOpensNothing(cfg, buffer + rest, p, name);
    hide OpenerAt, NameAt, NamedAt;
  }

  // ----- looking for a terminator

  predicate Awaits(m: Mode) { m.Passing? || m.Hidden? }

  lemma AwaitQuiet(cfg: Config, buffer: Text, final: bool, parsed: nat, p: nat, stop: nat, m: Mode)
    requires ValidConfig(cfg) && ValidMode(m) && Awaits(m) && p <= stop <= |buffer|
    requires forall i: nat :: p <= i < stop ==> !At(buffer, i, m.end) && (final || i + |m.end| <= |buffer|)
    ensures Advances(cfg, buffer, final, parsed, p, m, StretchOutput(buffer, p, stop, parsed, m), stop, m)
  {
    forall rest: Text, i: nat | Ahead(final, rest) && p <= i < stop
      ensures Step(cfg, buffer + rest, i, parsed, m) == Move(i + 1, m, Keeps(m), None)
    {
      AtExtended(buffer, rest, i, m.end);
      if final { assert buffer + rest == buffer; }
    }
    AdvanceStretch(cfg, buffer, final, parsed, p, stop, m);
  }

  function AfterEnd(m: Mode): Mode
    requires Awaits(m)
  {
    if m.Passing? then Outside else AfterHidden(m.word, m.depth, m.end)
  }

  lemma AwaitFound(cfg: Config, buffer: Text, final: bool, parsed: nat, p: nat, at: nat, m: Mode)
    requires ValidConfig(cfg) && ValidMode(m) && Awaits(m) && p <= at && At(buffer, at, m.end)
    requires forall i: nat :: p <= i < at ==> !At(buffer, i, m.end)
    ensures Advances(cfg, buffer, final, parsed, p, m,
                     StretchOutput(buffer, p, at + |m.end|, parsed, m), at + |m.end|, AfterEnd(m))
  {
    hide Advances;
    AwaitQuiet(cfg, buffer, final, parsed, p, at, m);
    AwaitMove(cfg, buffer, final, parsed, at, m);
    KeptJoin(buffer, p, at, at + |m.end|, parsed);
    assert StretchOutput(buffer, p, at, parsed, m).Then(StretchOutput(buffer, at, at + |m.end|, parsed, m))
        == StretchOutput(buffer, p, at + |m.end|, parsed, m);
    AdvancesTwice(cfg, buffer, final, parsed, p, m, StretchOutput(buffer, p, at, parsed, m), at, m,
                  StretchOutput(buffer, at, at + |m.end|, parsed, m), at + |m.end|, AfterEnd(m));
  }

  lemma AwaitMove(cfg: Config, buffer: Text, final: bool, parsed: nat, at: nat, m: Mode)
    requires ValidConfig(cfg) && ValidMode(m) && Awaits(m) && At(buffer, at, m.end)
    ensures Advances(cfg, buffer, final, parsed, at, m,
                     StretchOutput(buffer, at, at + |m.end|, parsed, m), at + |m.end|, AfterEnd(m))
  {
    var s := Move(at + |m.end|, AfterEnd(m), Keeps(m), None);
    assert |m.end| > 0 && MoveOutput(buffer, at, parsed, s) == StretchOutput(buffer, at, at + |m.end|, parsed, m);
    hide Step, Advances, MoveOutput, StretchOutput, AfterEnd, Keeps;
    forall rest: Text | Ahead(final, rest) ensures Step(cfg, buffer + rest, at, parsed, m) == s {
      AwaitStep(cfg, buffer, rest, parsed, at, m);
    }
    AdvanceMove(cfg, buffer, final, parsed, at, m, s);
  }

  lemma AwaitStep(cfg: Config, buffer: Text, rest: Text, parsed: nat, at: nat, m: Mode)
    requires ValidConfig(cfg) && ValidMode(m) && Awaits(m) && At(buffer, at, m.end)
    ensures Step(cfg, buffer + rest, at, parsed, m) == Move(at + |m.end|, AfterEnd(m), Keeps(m), None)
  {
    AtExtended(buffer, rest, at, m.end);
    hide At, OutsideStep, CutStep, TagStep;
  }

  // ----- inside a start tag of the dropped name

  predicate PlainInTag(m: Mode, b: byte)
    requires m.Tag?
  {
    if m.quote.Some? then b != m.quote.value else !TagMark(b)
  }

  lemma TagQuiet(cfg: Config, buffer: Text, final: bool, parsed: nat, p: nat, stop: nat, m: Mode)
    requires ValidConfig(cfg) && ValidMode(m) && m.Tag? && p < stop <= |buffer|
    requires forall i :: p <= i < stop ==> PlainInTag(m, buffer[i])
    ensures Advances(cfg, buffer, final, parsed, p, m, NOTHING, stop, m.(before := buffer[stop - 1]))
  {
    forall rest: Text | Ahead(final, rest)
      ensures Scan(cfg, buffer + rest, p, parsed, m) ==
              NOTHING.Then(Scan(cfg, buffer + rest, stop, parsed, m.(before := buffer[stop - 1])))
    {
      TagStretch(cfg, buffer + rest, p, stop, parsed, m);
      NothingThen(Scan(cfg, buffer + rest, stop, parsed, m.(before := buffer[stop - 1])));
    }
  }

  lemma TagMove(cfg: Config, buffer: Text, final: bool, parsed: nat, p: nat, m: Mode)
    requires ValidConfig(cfg) && ValidMode(m) && m.Tag? && p < |buffer|
    ensures Advances(cfg, buffer, final, parsed, p, m, NOTHING, p + 1, TagStep(buffer, p, m).mode)
  {
    AdvanceMove(cfg, buffer, final, parsed, p, m, TagStep(buffer, p, m));
  }

  // ----- inside a dropped element

  /** `r` is the first event of `key` in `buffer[p..limit]`, negative for none. */
  ghost predicate FirstIn(word: Text, key: Key, buffer: Text, p: nat, limit: nat, r: int) {
    && (r >= 0 ==> p <= r < limit && EventAt(word, key, buffer, r))
    && forall i: nat :: p <= i < (if r >= 0 then r else limit) ==> !EventAt(word, key, buffer, i)
  }

  lemma CutQuiet(cfg: Config, buffer: Text, final: bool, parsed: nat, p: nat, stop: nat, m: Mode)
    requires ValidConfig(cfg) && ValidMode(m) && m.Cut? && p <= stop <= |buffer|
    requires |m.word| + 4 <= Lookahead(cfg)
    requires forall i: nat :: p <= i < stop ==>
      Quiet(m.word, buffer, i) && Settled(buffer, final, i, Lookahead(cfg))
    ensures Advances(cfg, buffer, final, parsed, p, m, NOTHING, stop, m)
  {
    hide Lookahead, Settled;
    forall rest: Text, i: nat | Ahead(final, rest) && p <= i < stop
      ensures Step(cfg, buffer + rest, i, parsed, m) == Move(i + 1, m, false, None)
    {
      QuietSettled(cfg, m.word, buffer, rest, final, i);
      QuietStep(buffer + rest, i, m);
    }
    AdvanceStretch(cfg, buffer, final, parsed, p, stop, m);
  }

  lemma QuietStep(d: Text, i: nat, m: Mode)
    requires ValidMode(m) && m.Cut? && i < |d| && Quiet(m.word, d, i)
    ensures CutStep(d, i, m) == Move(i + 1, m, false, None)
  {
    assert !EventAt(m.word, End, d, i) && !EventAt(m.word, Start, d, i);
    assert !EventAt(m.word, Bang, d, i) && !EventAt(m.word, Mark, d, i);
  }

  /** Where an event of the buffer leads. */
  function EventMode(m: Mode, key: Key, before: byte): Mode
    requires m.Cut? && (key.End? || key.Start?)
  {
    if key.End? then Hidden(m.word, m.depth - 1, TAG_END) else Tag(m.word, m.depth, None, before)
  }

  lemma CutTagEvent(cfg: Config, buffer: Text, final: bool, parsed: nat, p: nat, m: Mode, key: Key)
    requires ValidConfig(cfg) && ValidMode(m) && m.Cut?
    requires (key.End? || key.Start?) && EventAt(m.word, key, buffer, p)
    ensures p + |Needle(m.word, key)| <= |buffer|
    ensures Advances(cfg, buffer, final, parsed, p, m, NOTHING, p + |Needle(m.word, key)|,
                     EventMode(m, key, buffer[p + |Needle(m.word, key)| - 1]))
  {
    var needle := Needle(m.word, key);
    AtByte(buffer, p, needle, |needle| - 1);
    var s := Move(p + |needle|, EventMode(m, key, buffer[p + |needle| - 1]), false, None);
    forall rest: Text | Ahead(final, rest) ensures Step(cfg, buffer + rest, p, parsed, m) == s {
      TagEventStep(buffer, rest, p, m, key);
    }
    AdvanceMove(cfg, buffer, final, parsed, p, m, s);
  }

  lemma TagEventStep(buffer: Text, rest: Text, p: nat, m: Mode, key: Key)
    requires ValidMode(m) && m.Cut? && p < |buffer|
    requires (key.End? || key.Start?) && EventAt(m.word, key, buffer, p)
    ensures CutStep(buffer + rest, p, m) ==
            Move(p + |Needle(m.word, key)|, EventMode(m, key, m.word[|m.word| - 1]), false, None)
  {
    var d := buffer + rest;
    EventExtended(m.word, key, buffer, rest, p);
    EventIsLT(m.word, key, d, p);
    EventIsLT(m.word, End, d, p);
  }

  /** A `<!` or `<?` inside a dropped element, once its opener can be told. */
  lemma CutMarkup(cfg: Config, buffer: Text, final: bool, parsed: nat, p: nat, m: Mode, key: Key)
    requires ValidConfig(cfg) && ValidMode(m) && m.Cut?
    requires (key.Bang? || key.Mark?) && EventAt(m.word, key, buffer, p)
    requires OpenerAt(buffer, p).Some? || final || p + LONGEST_OPENER <= |buffer|
    ensures p + 2 <= |buffer|
    ensures OpenerAt(buffer, p).None? ==> Advances(cfg, buffer, final, parsed, p, m, NOTHING, p + 2, m)
    ensures OpenerAt(buffer, p).Some? ==>
      var o := OpenerAt(buffer, p).value;
      Advances(cfg, buffer, final, parsed, p, m, NOTHING, p + o.length, Hidden(m.word, m.depth, o.terminator))
  {
    var o := OpenerAt(buffer, p);
    var s := if o.Some? then Move(p + o.value.length, Hidden(m.word, m.depth, o.value.terminator), false, None)
             else Move(p + 2, m, false, None);
    assert Word(m.word);
    hide OpenerAt, Step, Advances, ValidConfig, EventAt, ValidMode;
    EventIsLT(m.word, key, buffer, p);
    forall rest: Text | Ahead(final, rest) ensures Step(cfg, buffer + rest, p, parsed, m) == s {
      MarkupStep(cfg, buffer, rest, final, parsed, p, m, key, s);
    }
    AdvanceMove(cfg, buffer, final, parsed, p, m, s);
  }

  lemma MarkupStep(
    cfg: Config, buffer: Text, rest: Text, final: bool, parsed: nat, p: nat, m: Mode, key: Key, s: Move)
    requires ValidConfig(cfg)
    requires Ahead(final, rest) && ValidMode(m) && m.Cut? && p < |buffer|
    requires (key.Bang? || key.Mark?) && EventAt(m.word, key, buffer, p)
    requires OpenerAt(buffer, p).Some? || final || p + LONGEST_OPENER <= |buffer|
    requires var o := OpenerAt(buffer, p);
      s == if o.Some? then Move(p + o.value.length, Hidden(m.word, m.depth, o.value.terminator), false, None)
           else Move(p + 2, m, false, None)
    ensures Step(cfg, buffer + rest, p, parsed, m) == s
  {
    hide OpenerAt, OutsideStep, TagStep;
    var d := buffer + rest;
    OpenerExtended(buffer, rest, final, p);
    EventExtended(m.word, key, buffer, rest, p);
    EventIsLT(m.word, key, d, p);
    NotTheTag(m.word, d, p, End);
    NotTheTag(m.word, d, p, Start);
  }

  lemma NotTheTag(word: Text, d: Text, p: nat, key: Key)
    requires Word(word) && (key.End? || key.Start?) && p + 1 < |d| && (d[p + 1] == BANG || d[p + 1] == QUESTION)
    ensures !EventAt(word, key, d, p)
  {
    EventIsLT(word, key, d, p);
  }
}
