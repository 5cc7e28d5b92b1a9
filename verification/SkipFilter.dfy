/** The streaming filter (app/station_extract_skip.py): a document comes in
    chunks, the elements of the set are cut from its bytes. */
module SkipFilter {
  import opened Bytes
  import opened SkipSpec
  import opened SkipLocality
  import opened SkipMoves

  /** The first place, from `from` on, where the pattern used outside dropped
      elements matches. */
  function SearchOutside(cfg: Config, buffer: Text, from: nat): (r: Option<nat>)
    ensures r.Some? ==> from <= r.value < |buffer| && OutsideEvent(cfg, buffer, r.value)
    ensures forall i: nat :: from <= i < (if r.Some? then r.value else |buffer|) ==> !OutsideEvent(cfg, buffer, i)
    decreases |buffer| - from
  {
    if from >= |buffer| then None
    else if OutsideEvent(cfg, buffer, from) then Some(from)
    else SearchOutside(cfg, buffer, from + 1)
  }

  /** The first `needle` in `buffer[start..stop]` followed by a byte that ends
      a name, or -1. */
  method SearchTag(buffer: Text, needle: Text, start: nat, stop: nat) returns (r: int)
    requires stop <= |buffer|
    ensures r >= 0 ==> start <= r && r + |needle| <= stop && TagAt(buffer, r, needle)
    ensures r >= 0 ==> forall i: nat :: start <= i < r ==> !TagAt(buffer, i, needle)
    ensures r < 0 ==> forall i: nat :: start <= i && i + |needle| <= stop ==> !TagAt(buffer, i, needle)
  {
    var from := start;
    while true
      invariant start <= from
      invariant forall i: nat :: start <= i < from ==> !TagAt(buffer, i, needle)
      decreases stop + 1 - from
    {
      var index := Find(buffer, needle, from, stop);
      if index.None? || index.value + |needle| >= |buffer| { return -1; }
      if EndsNameInside(buffer[index.value + |needle|]) { return index.value; }
      from := index.value + 1;
    }
  }

  /** The first `<` followed by `mark` in `buffer[start..stop]`, found by the
      rare byte, or -1. */
  method SearchMarkup(buffer: Text, mark: byte, start: nat, stop: nat) returns (r: int)
    requires stop <= |buffer|
    ensures r >= 0 ==> start <= r && r + 2 <= stop && At(buffer, r, [LT, mark])
    ensures r >= 0 ==> forall i: nat :: start <= i < r ==> !At(buffer, i, [LT, mark])
    ensures r < 0 ==> forall i: nat :: start <= i && i + 2 <= stop ==> !At(buffer, i, [LT, mark])
  {
    var index := Find(buffer, [mark], start + 1, stop);
    MarkupBefore(buffer, mark, start, start + 1, if index.Some? then index.value else stop);
    while index.Some? && buffer[index.value - 1] != LT
      invariant index.Some? ==> start < index.value < stop && At(buffer, index.value, [mark])
      invariant forall i: nat :: start <= i && i + 1 < (if index.Some? then index.value else stop) ==>
        !At(buffer, i, [LT, mark])
      decreases if index.Some? then stop - index.value else 0
    {
      var next := Find(buffer, [mark], index.value + 1, stop);
      AtByte(buffer, index.value - 1, [LT, mark], 0);
      MarkupBefore(buffer, mark, index.value, index.value + 1, if next.Some? then next.value else stop);
      index := next;
    }
    if index.None? { return -1; }
    AtByte(buffer, index.value, [mark], 0);
    assert buffer[index.value - 1..index.value + 1] == [LT, mark];
    return index.value - 1;
  }

  lemma MarkupBefore(buffer: Text, mark: byte, start: nat, from: nat, stop: nat)
    requires stop <= |buffer| && from == start + 1
    requires forall i: nat :: from <= i < stop ==> !At(buffer, i, [mark])
    ensures forall i: nat :: start <= i && i + 1 < stop ==> !At(buffer, i, [LT, mark])
  {
    forall i: nat | start <= i && i + 1 < stop ensures !At(buffer, i, [LT, mark]) {
      AtByte(buffer, i, [LT, mark], 1);
      assert !At(buffer, i + 1, [mark]);
    }
  }

  /** Where a search may stop: the end of the buffer, or a `<` of it. */
  predicate CleanLimit(buffer: Text, limit: nat) {
    limit <= |buffer| && (limit < |buffer| ==> buffer[limit] == LT)
  }

  lemma EventBeforeLimit(word: Text, key: Key, buffer: Text, i: nat, limit: nat)
    requires Word(word) && CleanLimit(buffer, limit) && i < limit
    ensures EventAt(word, key, buffer, i) ==> i + |Needle(word, key)| <= limit
  {
    NeedleShape(word, key);
    if EventAt(word, key, buffer, i) && limit < |buffer| { ShortOfLT(buffer, i, Needle(word, key), limit); }
  }

  /** A search that found nothing within a clean limit proves that no event
      begins there. */
  lemma NothingWithin(word: Text, key: Key, buffer: Text, p: nat, limit: nat)
    requires Word(word) && CleanLimit(buffer, limit)
    requires forall i: nat :: p <= i && i + |Needle(word, key)| <= limit ==> !EventAt(word, key, buffer, i)
    ensures FirstIn(word, key, buffer, p, limit, -1)
  {
    forall i: nat | p <= i < limit ensures !EventAt(word, key, buffer, i) {
      EventBeforeLimit(word, key, buffer, i, limit);
    }
  }

  /** The first quote or `>` from `from` on. */
  function SearchTagEnd(buffer: Text, from: nat): (r: Option<nat>)
    ensures r.Some? ==> from <= r.value < |buffer| && TagMark(buffer[r.value])
    ensures forall i :: from <= i < (if r.Some? then r.value else |buffer|) ==> !TagMark(buffer[i])
    decreases |buffer| - from
  {
    if from >= |buffer| then None
    else if TagMark(buffer[from]) then Some(from)
    else SearchTagEnd(buffer, from + 1)
  }

  function SearchByte(buffer: Text, b: byte, from: nat): (r: Option<nat>)
    ensures r.Some? ==> from <= r.value < |buffer| && buffer[r.value] == b
    ensures forall i :: from <= i < (if r.Some? then r.value else |buffer|) ==> buffer[i] != b
    decreases |buffer| - from
  {
    if from >= |buffer| then None else if buffer[from] == b then Some(from) else SearchByte(buffer, b, from + 1)
  }

  /** To the next byte of a start tag that matters, and over it. */
  lemma TagTo(cfg: Config, buffer: Text, final: bool, parsed: nat, p: nat, at: nat, m: Mode)
    requires ValidConfig(cfg) && ValidMode(m) && m.Tag? && p <= at < |buffer|
    requires forall i :: p <= i < at ==> PlainInTag(m, buffer[i])
    ensures var m' := if p < at then m.(before := buffer[at - 1]) else m;
      Advances(cfg, buffer, final, parsed, p, m, NOTHING, at + 1, TagStep(buffer, at, m').mode)
  {
    hide Advances, TagStep;
    NothingThen(NOTHING);
    if p < at {
      var m' := m.(before := buffer[at - 1]);
      TagQuiet(cfg, buffer, final, parsed, p, at, m);
      TagMove(cfg, buffer, final, parsed, at, m');
      AdvancesTwice(cfg, buffer, final, parsed, p, m, NOTHING, at, m', NOTHING, at + 1, TagStep(buffer, at, m').mode);
    } else {
      TagMove(cfg, buffer, final, parsed, at, m);
    }
  }

  lemma TerminatorLength(d: Text, at: nat)
    requires OpenerAt(d, at).Some?
    ensures 0 < |OpenerAt(d, at).value.terminator| <= 3
  {
  }

  /** Inside a dropped element nothing happens before its next event. */
  lemma CutTo(cfg: Config, buffer: Text, final: bool, parsed: nat, p: nat, at: nat, m: Mode)
    requires ValidConfig(cfg) && ValidMode(m) && m.Cut? && |m.word| + 4 <= Lookahead(cfg)
    requires p <= at < |buffer| && buffer[at] == LT
    requires forall key: Key, i: nat :: p <= i < at ==> !EventAt(m.word, key, buffer, i)
    ensures Advances(cfg, buffer, final, parsed, p, m, NOTHING, at, m)
  {
    hide Advances, EventAt, Lookahead;
    forall i: nat | p <= i < at ensures Quiet(m.word, buffer, i) && Settled(buffer, final, i, Lookahead(cfg)) {
    }
    CutQuiet(cfg, buffer, final, parsed, p, at, m);
  }

  lemma CutToTag(cfg: Config, buffer: Text, final: bool, parsed: nat, p: nat, at: nat, m: Mode, key: Key)
    requires ValidConfig(cfg) && ValidMode(m) && m.Cut? && |m.word| + 4 <= Lookahead(cfg)
    requires p <= at && (key.End? || key.Start?) && EventAt(m.word, key, buffer, at)
    requires forall other: Key, i: nat :: p <= i < at ==> !EventAt(m.word, other, buffer, i)
    ensures at + |Needle(m.word, key)| <= |buffer|
    ensures Advances(cfg, buffer, final, parsed, p, m, NOTHING, at + |Needle(m.word, key)|,
                     EventMode(m, key, buffer[at + |Needle(m.word, key)| - 1]))
  {
    assert Word(m.word);
    hide Advances, EventAt, Lookahead, EventMode, Needle, ValidConfig, ValidMode;
    EventIsLT(m.word, key, buffer, at);
    CutTagEvent(cfg, buffer, final, parsed, at, m, key);
    CutTo(cfg, buffer, final, parsed, p, at, m);
    CutThen(cfg, buffer, final, parsed, p, at, m, at + |Needle(m.word, key)|,
            EventMode(m, key, buffer[at + |Needle(m.word, key)| - 1]));
  }

  /** Four searches, each only up to what the ones before found, leave nothing
      before the nearest find. */
  lemma NearestFirst(word: Text, buffer: Text, p: nat, end: int, nested: int, bang: int, mark: int, at: nat)
    requires at <= |buffer|
    requires end >= 0 ==> at <= end
    requires nested >= 0 ==> at <= nested
    requires bang >= 0 ==> at <= bang
    requires mark >= 0 ==> at <= mark
    requires FirstIn(word, End, buffer, p, |buffer|, end)
    requires exists l: nat :: at <= l && FirstIn(word, Start, buffer, p, l, nested)
    requires exists l: nat :: at <= l && FirstIn(word, Bang, buffer, p, l, bang)
    requires exists l: nat :: at <= l && FirstIn(word, Mark, buffer, p, l, mark)
    ensures forall key: Key, i: nat :: p <= i < at ==> !EventAt(word, key, buffer, i)
  {
    hide EventAt;
    forall key: Key, i: nat | p <= i < at ensures !EventAt(word, key, buffer, i) {
      match key
      case End =>
      case Start => var l: nat :| at <= l && FirstIn(word, Start, buffer, p, l, nested);
      case Bang => var l: nat :| at <= l && FirstIn(word, Bang, buffer, p, l, bang);
      case Mark => var l: nat :| at <= l && FirstIn(word, Mark, buffer, p, l, mark);
    }
  }

  lemma CutThen(
    cfg: Config, buffer: Text, final: bool, parsed: nat, p: nat, at: nat, m: Mode, next: nat, m': Mode)
    requires Advances(cfg, buffer, final, parsed, p, m, NOTHING, at, m)
    requires Advances(cfg, buffer, final, parsed, at, m, NOTHING, next, m')
    ensures Advances(cfg, buffer, final, parsed, p, m, NOTHING, next, m')
  {
    hide Advances;
    NothingThen(NOTHING);
    AdvancesTwice(cfg, buffer, final, parsed, p, m, NOTHING, at, m, NOTHING, next, m');
  }

  lemma CutToOpener(cfg: Config, buffer: Text, final: bool, parsed: nat, p: nat, at: nat, m: Mode, key: Key, o: Opener)
    requires ValidConfig(cfg) && ValidMode(m) && m.Cut? && Word(m.word) && OpenerAt(buffer, at) == Some(o)
    requires (key.Bang? || key.Mark?) && EventAt(m.word, key, buffer, at)
    requires Advances(cfg, buffer, final, parsed, p, m, NOTHING, at, m)
    ensures Advances(cfg, buffer, final, parsed, p, m, NOTHING, at + o.length, Hidden(m.word, m.depth, o.terminator))
  {
    hide *;
    CutMarkup(cfg, buffer, final, parsed, at, m, key);
    CutThen(cfg, buffer, final, parsed, p, at, m, at + o.length, Hidden(m.word, m.depth, o.terminator));
  }

  lemma CutToDeclaration(cfg: Config, buffer: Text, final: bool, parsed: nat, p: nat, at: nat, m: Mode, key: Key)
    requires ValidConfig(cfg) && ValidMode(m) && m.Cut? && Word(m.word) && OpenerAt(buffer, at).None?
    requires (key.Bang? || key.Mark?) && EventAt(m.word, key, buffer, at)
    requires final || at + LONGEST_OPENER <= |buffer|
    requires Advances(cfg, buffer, final, parsed, p, m, NOTHING, at, m)
    ensures at + 2 <= |buffer| && Advances(cfg, buffer, final, parsed, p, m, NOTHING, at + 2, m)
  {
    hide *;
    CutMarkup(cfg, buffer, final, parsed, at, m, key);
    CutThen(cfg, buffer, final, parsed, p, at, m, at + 2, m);
  }

  /** Outside dropped elements, up to a match or as far as the chunk settles. */
  lemma OutsideTo(cfg: Config, buffer: Text, final: bool, parsed: nat, p: nat, at: nat)
    requires ValidConfig(cfg) && p <= at <= |buffer|
    requires forall i: nat :: p <= i < at ==> !OutsideEvent(cfg, buffer, i)
    requires final || at + Lookahead(cfg) <= |buffer| + 1 || at == p || (at < |buffer| && buffer[at] == LT)
    ensures Advances(cfg, buffer, final, parsed, p, Outside, Output(Kept(buffer, p, at, parsed), []), at, Outside)
  {
    hide Advances, OutsideEvent, Lookahead, ValidConfig, Kept;
    forall i: nat | p <= i < at ensures Settled(buffer, final, i, Lookahead(cfg)) {
    }
    OutsideQuiet(cfg, buffer, final, parsed, p, at);
  }

  lemma OutsideToOpener(cfg: Config, buffer: Text, final: bool, parsed: nat, p: nat, at: nat)
    requires ValidConfig(cfg) && p <= at < |buffer| && OpenerAt(buffer, at).Some?
    requires forall i: nat :: p <= i < at ==> !OutsideEvent(cfg, buffer, i)
    ensures var o := OpenerAt(buffer, at).value;
      Advances(cfg, buffer, final, parsed, p, Outside, Output(Kept(buffer, p, at + o.length, parsed), []),
               at + o.length, Passing(o.terminator))
  {
    hide Advances, OutsideEvent, Lookahead, ValidConfig, OpenerAt, Kept;
    var o := OpenerAt(buffer, at).value;
    OutsideTo(cfg, buffer, final, parsed, p, at);
    OutsideOpener(cfg, buffer, final, parsed, at);
    KeptJoin(buffer, p, at, at + o.length, parsed);
    assert Output(Kept(buffer, p, at, parsed), []).Then(Output(Kept(buffer, at, at + o.length, parsed), []))
        == Output(Kept(buffer, p, at + o.length, parsed), []);
    AdvancesTwice(cfg, buffer, final, parsed, p, Outside, Output(Kept(buffer, p, at, parsed), []), at, Outside,
                  Output(Kept(buffer, at, at + o.length, parsed), []), at + o.length, Passing(o.terminator));
  }

  lemma OutsidePastName(cfg: Config, buffer: Text, final: bool, parsed: nat, p: nat, at: nat, name: Text)
    requires ValidConfig(cfg) && p <= at < |buffer| && NameAt(cfg, buffer, at) == Some(name) && buffer[at] == LT
    requires at < parsed && forall i: nat :: p <= i < at ==> !OutsideEvent(cfg, buffer, i)
    ensures var end := at + |OpenTag(cfg.qualifier + name)|;
      && end < |buffer|
      && Advances(cfg, buffer, final, parsed, p, Outside, Output(Kept(buffer, p, end, parsed), []), end, Outside)
  {
    hide Advances, OutsideEvent, Lookahead, ValidConfig, NameAt, Kept;
    var end := at + |OpenTag(cfg.qualifier + name)|;
    OutsideName(cfg, buffer, final, parsed, at, name);
    OutsideTo(cfg, buffer, final, parsed, p, at);
    KeptJoin(buffer, p, at, end, parsed);
    assert Output(Kept(buffer, p, at, parsed), []).Then(Output(Kept(buffer, at, end, parsed), []))
        == Output(Kept(buffer, p, end, parsed), []);
    AdvancesTwice(cfg, buffer, final, parsed, p, Outside, Output(Kept(buffer, p, at, parsed), []), at, Outside,
                  Output(Kept(buffer, at, end, parsed), []), end, Outside);
  }

  lemma OutsideIntoCut(cfg: Config, buffer: Text, final: bool, parsed: nat, p: nat, at: nat, name: Text)
    requires ValidConfig(cfg) && p <= at < |buffer| && NameAt(cfg, buffer, at) == Some(name) && buffer[at] == LT
    requires at >= parsed && forall i: nat :: p <= i < at ==> !OutsideEvent(cfg, buffer, i)
    ensures var end := at + |OpenTag(cfg.qualifier + name)|;
      && end < |buffer|
      && Advances(cfg, buffer, final, parsed, p, Outside, Output(Kept(buffer, p, at, parsed), [name]), end,
                  Tag(cfg.qualifier + name, 0, None, buffer[end - 1]))
  {
    hide Advances, OutsideEvent, Lookahead, ValidConfig, NameAt, Kept;
    var end := at + |OpenTag(cfg.qualifier + name)|;
    OutsideName(cfg, buffer, final, parsed, at, name);
    OutsideTo(cfg, buffer, final, parsed, p, at);
    assert Kept(buffer, p, at, parsed) + [] == Kept(buffer, p, at, parsed);
    assert Output(Kept(buffer, p, at, parsed), []).Then(Output([], [name])) ==
      Output(Kept(buffer, p, at, parsed), [name]);
    AdvancesTwice(cfg, buffer, final, parsed, p, Outside, Output(Kept(buffer, p, at, parsed), []), at, Outside,
                  Output([], [name]), end, Tag(cfg.qualifier + name, 0, None, buffer[end - 1]));
  }

  lemma EventIsNamed(cfg: Config, buffer: Text, at: nat)
    requires at < |buffer| && OutsideEvent(cfg, buffer, at) && OpenerAt(buffer, at).None?
    ensures NameAt(cfg, buffer, at).Some? && NameAt(cfg, buffer, at).value in cfg.names && buffer[at] == LT
  {
    AtByte(buffer, at, [LT] + cfg.qualifier + NameAt(cfg, buffer, at).value, 0);
  }

  lemma CutWord(cfg: Config, name: Text)
    requires ValidConfig(cfg) && name in cfg.names
    ensures Word(cfg.qualifier + name) && |cfg.qualifier + name| + 4 <= Lookahead(cfg)
  {
  }

  lemma MarkupNeedsNoWord(v: Text, w: Text, key: Key, buffer: Text)
    ensures key.Bang? || key.Mark? ==> forall i: nat :: EventAt(v, key, buffer, i) == EventAt(w, key, buffer, i)
  {
  }

  lemma CutAsFarAsSettled(cfg: Config, buffer: Text, final: bool, parsed: nat, p: nat, stop: nat, m: Mode)
    requires ValidConfig(cfg) && ValidMode(m) && m.Cut? && |m.word| + 4 <= Lookahead(cfg)
    requires p <= stop <= |buffer| && (final || stop == p || stop + Lookahead(cfg) <= |buffer| + 1)
    requires forall key: Key, i: nat :: p <= i < stop ==> !EventAt(m.word, key, buffer, i)
    ensures Advances(cfg, buffer, final, parsed, p, m, NOTHING, stop, m)
  {
    hide Advances, EventAt, Lookahead, ValidConfig, ValidMode;
    forall i: nat | p <= i < stop ensures Quiet(m.word, buffer, i) && Settled(buffer, final, i, Lookahead(cfg)) {
    }
    CutQuiet(cfg, buffer, final, parsed, p, stop, m);
  }

  /** What a run over `buffer` leaves to do: whatever follows, the scan of
      `buffer` gives `out` and then what the scan of `carry` gives. */
  ghost predicate LeavesTo(
    cfg: Config, buffer: Text, final: bool, parsed: nat, m: Mode, out: Output, carry: Text, parsed': nat, m': Mode)
  {
    && ValidConfig(cfg) && ValidMode(m) && ValidMode(m')
    && forall rest: Text :: Ahead(final, rest) ==>
         Scan(cfg, buffer + rest, 0, parsed, m) == out.Then(Scan(cfg, carry + rest, 0, parsed', m'))
  }

  lemma LeavesCarry(
    cfg: Config, buffer: Text, final: bool, parsed: nat, m: Mode, out: Output, at: nat, m': Mode)
    requires at <= |buffer| && Advances(cfg, buffer, final, parsed, 0, m, out, at, m')
    ensures LeavesTo(cfg, buffer, final, parsed, m, out, buffer[at..], Max(0, parsed - at), m')
  {
    hide Scan, Output.Then, ValidMode, ValidConfig;
    forall rest: Text | Ahead(final, rest)
      ensures Scan(cfg, buffer + rest, 0, parsed, m)
           == out.Then(Scan(cfg, buffer[at..] + rest, 0, Max(0, parsed - at), m'))
    {
      ScanShift(cfg, buffer + rest, at, 0, parsed, m');
      assert (buffer + rest)[at..] == buffer[at..] + rest;
    }
  }

  /** With no bytes left, what came back is the whole scan. */
  lemma {:induction false} EndIsAll(
    cfg: Config, buffer: Text, parsed: nat, m: Mode, out: Output, parsed': nat, m': Mode)
    requires LeavesTo(cfg, buffer, true, parsed, m, out, [], parsed', m')
    ensures out == Scan(cfg, buffer, 0, parsed, m)
  {
    hide ValidConfig, ValidMode, Output.Then;
    NothingThen(out);
    assert buffer + [] == buffer && Ahead(true, []);
    assert Scan(cfg, buffer + [], 0, parsed, m) == out.Then(Scan(cfg, [] + [], 0, parsed', m'));
  }

  /** A remembered search says what a fresh one would: an index found is the
      first event from `position` on unless passed already; nothing found
      means nothing from `position` up to where the search went. */
  ghost predicate Remembers(
    found: map<Key, int>, searched: map<Key, int>, word: Text, buffer: Text, position: nat, key: Key)
  {
    key in found ==>
      && key in searched
      && (found[key] >= 0 ==>
            && found[key] < |buffer| && EventAt(word, key, buffer, found[key])
            && forall i: nat :: position <= i < found[key] ==> !EventAt(word, key, buffer, i))
      && (found[key] < 0 ==>
            forall i: nat :: position <= i < searched[key] ==> !EventAt(word, key, buffer, i))
  }

  ghost predicate Memo(found: map<Key, int>, searched: map<Key, int>, word: Text, buffer: Text, position: nat) {
    forall key: Key :: Remembers(found, searched, word, buffer, position, key)
  }

  lemma MemoLater(
    found: map<Key, int>, searched: map<Key, int>, word: Text, buffer: Text, position: nat, later: nat)
    requires Memo(found, searched, word, buffer, position) && position <= later
    ensures Memo(found, searched, word, buffer, later)
  {
    forall key: Key ensures Remembers(found, searched, word, buffer, later, key) {
      assert Remembers(found, searched, word, buffer, position, key);
    }
  }

  /** A new dropped name forgets the searches for tags; those for markup
      stay true. */
  lemma MemoForNewWord(
    found: map<Key, int>, searched: map<Key, int>, v: Text, w: Text, buffer: Text, position: nat)
    requires Memo(found, searched, v, buffer, position)
    ensures Memo(found - {End, Start}, searched, w, buffer, position)
  {
    forall key: Key ensures Remembers(found - {End, Start}, searched, w, buffer, position, key) {
      assert Remembers(found, searched, v, buffer, position, key);
      MarkupNeedsNoWord(v, w, key, buffer);
    }
  }

  class SkipFilter {
    const cfg: Config
    const lookahead: nat
    var cuts: seq<Text>          // the calls of `on_cut`, in order
    var carry: Text
    var cutting: bool
    var openTag: Text
    var closeTag: Text
    var depth: int
    var until: Option<Text>
    var inTag: bool
    var quote: Option<byte>
    var previous: byte
    var parsed: nat
    var found: map<Key, int>
    var searched: map<Key, int>
    var simple: bool
    ghost var dropped: Text      // the qualified name of the element being dropped

    ghost predicate Valid()
      reads this
    {
      && ValidConfig(cfg) && lookahead == Lookahead(cfg) && lookahead > LONGEST_OPENER
      && (cutting ==>
            && Word(dropped) && |dropped| + 4 <= lookahead
            && openTag == OpenTag(dropped) && closeTag == CloseTag(dropped))
      && (cutting ==> depth >= 0)
      && (cutting && !inTag && until != Some(TAG_END) ==> depth >= 1)
      && (inTag ==> cutting && until.None?)
      && (until.Some? ==> 0 < |until.value| <= 3)
    }

    /** The scanner's mode the fields stand for. */
    ghost function Now(): (m: Mode)
      reads this
      requires Valid()
      ensures ValidMode(m)
    {
      if until.Some? then
        if cutting then Hidden(dropped, depth, until.value) else Passing(until.value)
      else if inTag then Tag(dropped, depth, quote, previous)
      else if cutting then Cut(dropped, depth)
      else Outside
    }

    /** Inside a start tag, `previous` is the byte before `position`. */
    ghost predicate Before(buffer: Text, position: nat)
      reads this
    {
      inTag && 0 < position <= |buffer| ==> previous == buffer[position - 1]
    }

    ghost predicate MemoValid(buffer: Text, position: nat)
      reads this
    {
      Memo(found, searched, dropped, buffer, position)
    }

    constructor (names: seq<Text>, prefix: Text)
      requires names != [] && (forall n <- names :: Word(n)) && NameBytes(prefix)
      ensures Valid() && Now() == Outside && carry == [] && parsed == 0 && cuts == []
      ensures cfg == Config(names, if prefix == [] then [] else prefix + [COLON])
    {
      cfg := Config(names, if prefix == [] then [] else prefix + [COLON]);
      lookahead := Lookahead(Config(names, if prefix == [] then [] else prefix + [COLON]));
      cuts, carry, cutting := [], [], false;
      openTag, closeTag, depth := [], [], 0;
      until, inTag, quote, previous := None, false, None, 0;
      parsed, found, searched, simple := 0, map[], map[], false;
      dropped := [];
    }

    function Visible(buffer: Text, start: nat, stop: nat): Text
      reads this
      requires start <= stop <= |buffer|
    {
      Kept(buffer, start, stop, parsed)
    }

    method ToTerminator(buffer: Text, position: nat, final: bool)
      returns (next: nat, done: bool, out: Text)
      requires Valid() && until.Some? && position < |buffer|
      modifies this`until, this`cutting
      ensures Valid() && next <= |buffer| && Before(buffer, next)
      ensures done ==> next > position
      ensures !done && final ==> next == |buffer|
      ensures !done && !final ==> |buffer| - next <= lookahead
      ensures next >= position
      ensures Advances(cfg, buffer, final, parsed, position, old(Now()), Output(out, []), next, Now())
    {
      hide Advances, Kept, Lookahead, ValidConfig;
      var word := until.value;
      ghost var m := Now();
      var end := Find(buffer, word, position, |buffer|);
      if end.None? {
        var stop := if final then |buffer| else Max(position, |buffer| - |word| + 1);
        out := if cutting then [] else Visible(buffer, position, stop);
        AwaitQuiet(cfg, buffer, final, parsed, position, stop, m);
        return stop, false, out;
      }
      var stop := end.value + |word|;
      out := if cutting then [] else Visible(buffer, position, stop);
      AwaitFound(cfg, buffer, final, parsed, position, end.value, m);
      until := None;
      if cutting && word == TAG_END && depth == 0 { cutting := false; }
      return stop, true, out;
    }

    method ToTagEnd(buffer: Text, position: nat, ghost final: bool) returns (next: nat, done: bool)
      requires Valid() && inTag && position < |buffer| && Before(buffer, position)
      modifies this`quote, this`previous, this`inTag, this`depth, this`cutting
      ensures Valid() && position < next <= |buffer| && Before(buffer, next)
      ensures !done ==> next == |buffer|
      ensures Advances(cfg, buffer, final, parsed, position, old(Now()), NOTHING, next, Now())
    {
      hide Advances, Lookahead, ValidConfig;
      NothingThen(NOTHING);
      var at := position;
      ghost var m0 := Now();
      ghost var m := m0;
      Stay(cfg, buffer, final, parsed, position, m0);
      while true
        invariant Valid() && inTag && position <= at <= |buffer|
        invariant depth == old(depth) && cutting == old(cutting) && previous == old(previous)
        invariant m == Tag(dropped, depth, quote, if at > 0 then buffer[at - 1] else previous)
        invariant Advances(cfg, buffer, final, parsed, position, m0, NOTHING, at, m)
        decreases |buffer| - at
      {
        var hit := if quote.Some? then SearchByte(buffer, quote.value, at) else SearchTagEnd(buffer, at);
        if hit.None? { break; }
        ghost var m' := if at < hit.value then m.(before := buffer[hit.value - 1]) else m;
        TagTo(cfg, buffer, final, parsed, at, hit.value, m);
        AdvancesTwice(cfg, buffer, final, parsed, position, m0, NOTHING, at, m,
                      NOTHING, hit.value + 1, TagStep(buffer, hit.value, m').mode);
        if quote.Some? {
          quote := None;
        } else if buffer[hit.value] == GT {
          TagClosed(buffer, hit.value);
          return hit.value + 1, true;
        } else {
          quote := Some(buffer[hit.value]);
        }
        at := hit.value + 1;
        m := Tag(dropped, depth, quote, buffer[at - 1]);
      }
      if at < |buffer| {
        TagQuiet(cfg, buffer, final, parsed, at, |buffer|, m);
        AdvancesTwice(cfg, buffer, final, parsed, position, m0, NOTHING, at, m,
                      NOTHING, |buffer|, m.(before := buffer[|buffer| - 1]));
      }
      previous := buffer[|buffer| - 1];
      return |buffer|, false;
    }

    /** The `>` at `index` ends the start tag: the element is open unless it
        was `/>`. */
    method TagClosed(buffer: Text, index: nat)
      requires Valid() && inTag && index < |buffer|
      modifies this`inTag, this`depth, this`cutting
      ensures Valid() && !inTag
      ensures Now() == AfterTag(old(dropped), old(depth), if index > 0 then buffer[index - 1] else previous)
    {
      var before := if index > 0 then buffer[index - 1] else previous;
      inTag := false;
      if before != SLASH { depth := depth + 1; }
      if depth == 0 { cutting := false; }
    }

    /** What the searches of this chunk say of `buffer[position..limit]`. */
    method Known(key: Key, buffer: Text, position: nat, limit: nat) returns (r: Option<int>)
      requires Remembers(found, searched, dropped, buffer, position, key)
      ensures r.Some? ==> FirstIn(dropped, key, buffer, position, limit, r.value)
    {
      if key !in found { return None; }
      var at := found[key];
      if at >= position { return Some(if at < limit then at else -1); }
      if at < 0 && searched[key] >= limit { return Some(-1); }
      return None;
    }

    method FreshSearch(key: Key, buffer: Text, position: nat, limit: nat) returns (r: int)
      requires Valid() && cutting && CleanLimit(buffer, limit)
      ensures FirstIn(dropped, key, buffer, position, limit, r)
    {
      hide Lookahead, ValidConfig;
      match key {
        case End => r := SearchTag(buffer, closeTag, position, limit);
        case Start => r := SearchTag(buffer, openTag, position, limit);
        case Bang => r := SearchMarkup(buffer, BANG, position, limit);
        case Mark => r := SearchMarkup(buffer, QUESTION, position, limit);
      }
      NeedleShape(dropped, key);
      if r < 0 { NothingWithin(dropped, key, buffer, position, limit); }
    }

    /** The first event of `key`, from the memory when it answers. */
    method First(key: Key, buffer: Text, position: nat, limit: nat) returns (r: int)
      requires Valid() && cutting && CleanLimit(buffer, limit) && (key.End? ==> limit == |buffer|)
      requires MemoValid(buffer, position)
      modifies this`found, this`searched
      ensures Valid() && MemoValid(buffer, position)
      ensures FirstIn(dropped, key, buffer, position, limit, r)
    {
      hide Lookahead, ValidConfig, EventAt;
      assert Remembers(found, searched, dropped, buffer, position, key);
      var known := Known(key, buffer, position, limit);
      if known.Some? { return known.value; }
      r := FreshSearch(key, buffer, position, limit);
      found := found[key := r];
      searched := searched[key := if r < 0 then limit else r];
      forall other: Key ensures Remembers(found, searched, dropped, buffer, position, other) {
        assert Remembers(old(found), old(searched), dropped, buffer, position, other);
      }
    }

    /** An end tag or a nested start tag of the dropped name, at `at`. */
    method EnterTag(key: Key, buffer: Text, ghost position: nat, at: nat, ghost final: bool) returns (next: nat)
      requires Valid() && cutting && !inTag && until.None?
      requires position <= at && (key.End? || key.Start?) && EventAt(dropped, key, buffer, at)
      requires forall other: Key, i: nat :: position <= i < at ==> !EventAt(dropped, other, buffer, i)
      modifies this`depth, this`until, this`inTag, this`quote, this`previous
      ensures Valid() && Before(buffer, next) && position < next <= |buffer|
      ensures Advances(cfg, buffer, final, parsed, position, old(Now()), NOTHING, next, Now())
    {
      hide Advances, EventAt, Lookahead, ValidConfig;
      NeedleShape(dropped, key);
      CutToTag(cfg, buffer, final, parsed, position, at, Now(), key);
      next := at + (if key.End? then |closeTag| else |openTag|);
      if key.End? {
        depth := depth - 1;
        until := Some(TAG_END);
      } else {
        inTag := true;
        quote := None;
        previous := buffer[next - 1];
      }
    }

    method MarkupInCut(key: Key, buffer: Text, ghost position: nat, special: nat, final: bool)
      returns (next: nat, done: bool)
      requires Valid() && cutting && !inTag && until.None?
      requires position <= special && (key.Bang? || key.Mark?) && EventAt(dropped, key, buffer, special)
      requires forall other: Key, i: nat :: position <= i < special ==> !EventAt(dropped, other, buffer, i)
      modifies this`until
      ensures Valid() && position <= next <= |buffer|
      ensures done ==> position < next
      ensures !done ==> !final && |buffer| - next <= lookahead
      ensures Advances(cfg, buffer, final, parsed, position, old(Now()), NOTHING, next, Now())
    {
      hide Advances, EventAt, Lookahead, ValidConfig, OpenerAt;
      ghost var m := Now();
      EventIsLT(dropped, key, buffer, special);
      var opener := OpenerAt(buffer, special);
      CutTo(cfg, buffer, final, parsed, position, special, m);
      if opener.None? {
        if !final && special + LONGEST_OPENER > |buffer| { return special, false; }
        CutToDeclaration(cfg, buffer, final, parsed, position, special, m, key);
        return special + 2, true;
      }
      CutToOpener(cfg, buffer, final, parsed, position, special, m, key, opener.value);
      var inside := special + opener.value.length;
      var end := Find(buffer, opener.value.terminator, inside, |buffer|);
      if end.None? {
        TerminatorLength(buffer, special);
        until := Some(opener.value.terminator);
        return inside, true;
      }
      ghost var hidden := Hidden(dropped, depth, opener.value.terminator);
      AwaitFound(cfg, buffer, final, parsed, inside, end.value, hidden);
      NothingThen(NOTHING);
      AdvancesTwice(cfg, buffer, final, parsed, position, m, NOTHING, inside, hidden,
                    NOTHING, end.value + |opener.value.terminator|, m);
      return end.value + |opener.value.terminator|, true;
    }

    /** Inside a dropped element: its next end tag, unless a comment, CDATA
        section, processing instruction or nested start tag comes first. */
    method InCut(buffer: Text, position: nat, final: bool) returns (next: nat, done: bool)
      requires Valid() && cutting && !inTag && until.None? && position < |buffer| && MemoValid(buffer, position)
      modifies this`simple, this`found, this`searched, this`depth, this`until, this`inTag, this`quote, this`previous
      ensures Valid() && Before(buffer, next) && position <= next <= |buffer| && MemoValid(buffer, next)
      ensures done ==> position < next
      ensures !done && final ==> next == |buffer|
      ensures !done && !final ==> |buffer| - next <= lookahead
      ensures Advances(cfg, buffer, final, parsed, position, old(Now()), NOTHING, next, Now())
    {
      hide Advances, EventAt, Lookahead, ValidConfig, Memo;
      if simple {
        simple := false;
        var straight := StraightToEnd(buffer, position);
        if straight >= 0 {
          next := EnterTag(End, buffer, position, straight, final);
          MemoLater(found, searched, dropped, buffer, position, next);
          return next, true;
        }
      }
      var first, key := Nearest(buffer, position);
      if first < 0 {
        next := if final then |buffer| else Max(position, |buffer| - lookahead);
        CutAsFarAsSettled(cfg, buffer, final, parsed, position, next, Now());
        MemoLater(found, searched, dropped, buffer, position, next);
        return next, false;
      }
      if key.Mark? || key.Bang? {
        next, done := MarkupInCut(key, buffer, position, first, final);
      } else {
        next := EnterTag(key, buffer, position, first, final);
        done := true;
      }
      MemoLater(found, searched, dropped, buffer, position, next);
    }

    /** The nearest event, each search bounded by what the ones before found. */
    method Nearest(buffer: Text, position: nat) returns (first: int, key: Key)
      requires Valid() && cutting && MemoValid(buffer, position)
      modifies this`found, this`searched
      ensures Valid() && MemoValid(buffer, position)
      ensures first >= 0 ==> position <= first < |buffer| && EventAt(dropped, key, buffer, first)
      ensures forall other: Key, i: nat :: position <= i < (if first >= 0 then first else |buffer|) ==>
        !EventAt(dropped, other, buffer, i)
    {
      hide EventAt, Lookahead, ValidConfig, Memo;
      var end := First(End, buffer, position, |buffer|);
      var limit := LimitAfter(End, buffer, position, end, |buffer|);
      var nested := First(Start, buffer, position, limit);
      ghost var limit1 := limit;
      limit := LimitAfter(Start, buffer, position, nested, limit);
      var bang := First(Bang, buffer, position, limit);
      ghost var limit2 := limit;
      limit := LimitAfter(Bang, buffer, position, bang, limit);
      var mark := First(Mark, buffer, position, limit);
      first := if mark >= 0 then mark else if bang >= 0 then bang else if nested >= 0 then nested else end;
      ghost var at := if first >= 0 then first else |buffer|;
      assert at <= limit <= limit2 <= limit1;
      NearestFirst(dropped, buffer, position, end, nested, bang, mark, at);
      key := if first == mark then Mark else if first == bang then Bang else if first == nested then Start else End;
      if first >= 0 { EventIsLT(dropped, key, buffer, first); }
    }

    /** The limit of the next search: what was just found, or as before. */
    method LimitAfter(key: Key, buffer: Text, position: nat, at: int, limit: nat) returns (r: nat)
      requires Valid() && cutting && CleanLimit(buffer, limit)
      requires FirstIn(dropped, key, buffer, position, limit, at)
      ensures r == (if at >= 0 then at else limit) && CleanLimit(buffer, r) && r <= limit
    {
      hide EventAt, Lookahead, ValidConfig;
      if at >= 0 { EventIsLT(dropped, key, buffer, at); }
      r := if at >= 0 then at else limit;
    }

    /** The first step of a dropped element: its end tag when nothing before
        it needs care, else -1. */
    method StraightToEnd(buffer: Text, position: nat) returns (r: int)
      requires Valid() && cutting && position <= |buffer|
      ensures r >= 0 ==> position <= r && EventAt(dropped, End, buffer, r)
      ensures r >= 0 ==> forall key: Key, i: nat :: position <= i < r ==> !EventAt(dropped, key, buffer, i)
    {
      hide EventAt, Lookahead, ValidConfig;
      r := FreshSearch(End, buffer, position, |buffer|);
      if r >= 0 {
        var limit := LimitAfter(End, buffer, position, r, |buffer|);
        var nested := FreshSearch(Start, buffer, position, limit);
        var bang := FreshSearch(Bang, buffer, position, limit);
        var mark := FreshSearch(Mark, buffer, position, limit);
        if nested >= 0 || bang >= 0 || mark >= 0 { return -1; }
        NearestFirst(dropped, buffer, position, r, nested, bang, mark, r);
      }
    }

    method OutsideCut(buffer: Text, position: nat, final: bool) returns (next: nat, done: bool, out: Text)
      requires Valid() && !cutting && until.None? && position < |buffer| && MemoValid(buffer, position)
      modifies this`cuts, this`until, this`cutting, this`depth, this`openTag, this`closeTag,
               this`dropped, this`found, this`simple, this`inTag, this`quote, this`previous
      ensures Valid() && Before(buffer, next) && position <= next <= |buffer| && MemoValid(buffer, next)
      ensures done ==> position < next
      ensures !done && final ==> next == |buffer|
      ensures !done && !final ==> |buffer| - next <= lookahead
      ensures |old(cuts)| <= |cuts| && cuts[..|old(cuts)|] == old(cuts)
      ensures Advances(cfg, buffer, final, parsed, position, old(Now()),
                       Output(out, cuts[|old(cuts)|..]), next, Now())
    {
      hide Advances, OutsideEvent, Lookahead, ValidConfig, OpenerAt, NameAt, Kept, EventAt, Memo;
      assert cuts[|cuts|..] == [];
      var hit := SearchOutside(cfg, buffer, position);
      if hit.None? {
        next := if final then |buffer| else Max(position, |buffer| - lookahead);
        MemoLater(found, searched, dropped, buffer, position, next);
        OutsideTo(cfg, buffer, final, parsed, position, next);
        return next, false, Visible(buffer, position, next);
      }
      var at := hit.value;
      var opener := OpenerAt(buffer, at);
      if opener.Some? {
        OutsideToOpener(cfg, buffer, final, parsed, position, at);
        TerminatorLength(buffer, at);
        next := at + opener.value.length;
        MemoLater(found, searched, dropped, buffer, position, next);
        until := Some(opener.value.terminator);
        return next, true, Visible(buffer, position, next);
      }
      EventIsNamed(cfg, buffer, at);
      var name := NameAt(cfg, buffer, at).value;
      next := at + |OpenTag(cfg.qualifier + name)|;
      if at < parsed {
        OutsidePastName(cfg, buffer, final, parsed, position, at, name);
        MemoLater(found, searched, dropped, buffer, position, next);
        return next, true, Visible(buffer, position, next);
      }
      OutsideIntoCut(cfg, buffer, final, parsed, position, at, name);
      MemoLater(found, searched, dropped, buffer, position, next);
      BeginCut(name, buffer, next);
      return next, true, Visible(buffer, position, at);
    }

    /** The fields at the first byte after `<name` of an element to drop. */
    method BeginCut(name: Text, buffer: Text, next: nat)
      requires Valid() && !cutting && until.None? && name in cfg.names && 0 < next <= |buffer|
      requires MemoValid(buffer, next)
      modifies this`cuts, this`cutting, this`depth, this`openTag, this`closeTag,
               this`dropped, this`found, this`simple, this`inTag, this`quote, this`previous
      ensures Valid() && Before(buffer, next) && MemoValid(buffer, next)
      ensures cuts == old(cuts) + [name] && Now() == Tag(cfg.qualifier + name, 0, None, buffer[next - 1])
    {
      hide EventAt, Lookahead;
      CutWord(cfg, name);
      cuts := cuts + [name];
      cutting, depth := true, 0;
      openTag := [LT] + cfg.qualifier + name;
      closeTag := [LT, SLASH] + cfg.qualifier + name;
      found := found - {End, Start};
      simple, inTag, quote, previous := true, true, None, buffer[next - 1];
      dropped := cfg.qualifier + name;
      assert openTag == OpenTag(cfg.qualifier + name);
      assert closeTag == CloseTag(cfg.qualifier + name);
      MemoForNewWord(old(found), searched, old(dropped), dropped, buffer, next);
    }

    /** One step of a buffer, whatever the filter is inside of. */
    method Advance(buffer: Text, position: nat, final: bool) returns (next: nat, done: bool, out: Text)
      requires Valid() && position < |buffer| && Before(buffer, position) && MemoValid(buffer, position)
      modifies this`cuts, this`until, this`cutting, this`depth, this`openTag, this`closeTag,
               this`dropped, this`found, this`searched, this`simple, this`inTag, this`quote, this`previous
      ensures Valid() && Before(buffer, next) && position <= next <= |buffer| && MemoValid(buffer, next)
      ensures done ==> position < next
      ensures !done && final ==> next == |buffer|
      ensures !done && !final ==> |buffer| - next <= lookahead
      ensures |old(cuts)| <= |cuts| && cuts[..|old(cuts)|] == old(cuts)
      ensures Advances(cfg, buffer, final, parsed, position, old(Now()),
                       Output(out, cuts[|old(cuts)|..]), next, Now())
    {
      hide Advances, Lookahead, ValidConfig, Memo;
      assert cuts[|cuts|..] == [];
      out := [];
      if until.Some? {
        next, done, out := ToTerminator(buffer, position, final);
        MemoLater(found, searched, dropped, buffer, position, next);
      } else if inTag {
        next, done := ToTagEnd(buffer, position, final);
        MemoLater(found, searched, dropped, buffer, position, next);
      } else if cutting {
        next, done := InCut(buffer, position, final);
      } else {
        next, done, out := OutsideCut(buffer, position, final);
      }
    }

    /** One buffer: what it gives back, and what is carried to the next. */
    method Run(buffer: Text, final: bool) returns (kept: Text)
      requires Valid()
      modifies this
      ensures Valid() && (final ==> carry == []) && (!final ==> |carry| <= lookahead)
      ensures |old(cuts)| <= |cuts| && cuts[..|old(cuts)|] == old(cuts)
      ensures LeavesTo(cfg, buffer, final, old(parsed), old(Now()),
                       Output(kept, cuts[|old(cuts)|..]), carry, parsed, Now())
    {
      hide Advances, Lookahead, ValidConfig, LeavesTo, Memo;
      var position, done := 0, true;
      kept := [];
      found, searched := map[], map[];
      NoMemo(dropped, buffer);
      ghost var m0 := Now();
      Stay(cfg, buffer, final, parsed, 0, m0);
      assert cuts[|cuts|..] == [];
      while position < |buffer| && done
        invariant Valid() && position <= |buffer| && Before(buffer, position) && MemoValid(buffer, position)
        invariant parsed == old(parsed)
        invariant |old(cuts)| <= |cuts| && cuts[..|old(cuts)|] == old(cuts)
        invariant !done && final ==> position == |buffer|
        invariant !done && !final ==> |buffer| - position <= lookahead
        invariant Advances(cfg, buffer, final, parsed, 0, m0, Output(kept, cuts[|old(cuts)|..]), position, Now())
        decreases |buffer| - position, done
      {
        ghost var m, before, were := Now(), position, cuts;
        var out;
        position, done, out := Advance(buffer, position, final);
        Joined(kept, out, were[|old(cuts)|..], cuts[|were|..]);
        assert cuts[|old(cuts)|..] == were[|old(cuts)|..] + cuts[|were|..];
        AdvancesTwice(cfg, buffer, final, parsed, 0, m0, Output(kept, were[|old(cuts)|..]), before, m,
                      Output(out, cuts[|were|..]), position, Now());
        kept := kept + out;
      }
      LeavesCarry(cfg, buffer, final, parsed, m0, Output(kept, cuts[|old(cuts)|..]), position, Now());
      carry := buffer[position..];
      parsed := Max(0, parsed - position);
    }

    /** Read bytes parsed before by others, for the state only. */
    method Prime(bytes: Text)
      requires Valid() && carry == []
      modifies this
      ensures Valid() && |carry| <= lookahead && cuts == old(cuts)
      ensures LeavesTo(cfg, bytes, false, |bytes|, old(Now()), NOTHING, carry, parsed, Now())
    {
      hide Scan, Lookahead, LeavesTo;
      ghost var m := Now();
      parsed := |bytes|;
      var discarded := Run(bytes, false);
      PrimedGivesNothing(cfg, bytes, m, Output(discarded, cuts[|old(cuts)|..]), carry, parsed, Now());
      assert cuts == cuts[..|old(cuts)|] + cuts[|old(cuts)|..];
    }

    method Feed(data: Text) returns (out: Text)
      requires Valid()
      modifies this
      ensures Valid() && |carry| <= lookahead
      ensures |old(cuts)| <= |cuts| && cuts[..|old(cuts)|] == old(cuts)
      ensures LeavesTo(cfg, old(carry) + data, false, old(parsed), old(Now()),
                       Output(out, cuts[|old(cuts)|..]), carry, parsed, Now())
    {
      out := Run(carry + data, false);
    }

    method Finish() returns (out: Text)
      requires Valid()
      modifies this
      ensures Valid() && carry == []
      ensures |old(cuts)| <= |cuts| && cuts[..|old(cuts)|] == old(cuts)
      ensures Output(out, cuts[|old(cuts)|..]) == Scan(cfg, old(carry), 0, old(parsed), old(Now()))
    {
      hide Scan, ValidConfig, Lookahead, LeavesTo;
      ghost var m := Now();
      out := Run(carry, true);
      EndIsAll(cfg, old(carry), old(parsed), m, Output(out, cuts[|old(cuts)|..]), parsed, Now());
    }
  }

  lemma ParsedStep(cfg: Config, d: Text, p: nat, parsed: nat, m: Mode)
    requires ValidConfig(cfg) && ValidMode(m) && p < |d| <= parsed
    ensures MoveOutput(d, p, parsed, Step(cfg, d, p, parsed, m)) == NOTHING
  {
    hide OpenerAt, NameAt, At, TagAt;
  }

  /** Nothing is given back or dropped from bytes parsed before. */
  lemma {:induction false} AllParsed(cfg: Config, d: Text, p: nat, parsed: nat, m: Mode)
    requires ValidConfig(cfg) && ValidMode(m) && parsed >= |d|
    ensures Scan(cfg, d, p, parsed, m) == NOTHING
    decreases |d| - p
  {
    if p < |d| {
      var s := Step(cfg, d, p, parsed, m);
      ParsedStep(cfg, d, p, parsed, m);
      hide Step, Scan, ValidMode, ValidConfig, MoveOutput;
      ScanMove(cfg, d, p, parsed, m, s);
      AllParsed(cfg, d, s.next, parsed, s.mode);
      NothingThen(NOTHING);
    }
  }

  lemma {:induction false} LeavesRest(
    cfg: Config, buffer: Text, final: bool, parsed: nat, m: Mode, out: Output, carry: Text, parsed': nat, m': Mode,
    rest: Text)
    requires LeavesTo(cfg, buffer, final, parsed, m, out, carry, parsed', m') && Ahead(final, rest)
    ensures Scan(cfg, buffer + rest, 0, parsed, m) == out.Then(Scan(cfg, carry + rest, 0, parsed', m'))
  {
    hide Scan, Output.Then, ValidConfig, ValidMode;
  }

  lemma {:induction false} PrimedGivesNothing(
    cfg: Config, bytes: Text, m: Mode, out: Output, carry: Text, parsed: nat, m': Mode)
    requires LeavesTo(cfg, bytes, false, |bytes|, m, out, carry, parsed, m')
    ensures out == NOTHING
  {
    hide Scan, ValidConfig, ValidMode;
    LeavesRest(cfg, bytes, false, |bytes|, m, out, carry, parsed, m', []);
    assert bytes + [] == bytes;
    AllParsed(cfg, bytes, 0, |bytes|, m);
  }

  /** One more chunk fed. */
  lemma {:induction false} FeedStep(
    cfg: Config, whole: Output, out: Text, were: seq<Text>, carry: Text, chunks: seq<Text>, i: nat, parsed: nat,
    m: Mode, piece: Text, more: seq<Text>, carry': Text, parsed': nat, m': Mode)
    requires ValidConfig(cfg) && ValidMode(m) && ValidMode(m') && i < |chunks|
    requires whole == Output(out, were).Then(Scan(cfg, carry + Concat(chunks[i..]), 0, parsed, m))
    requires LeavesTo(cfg, carry + chunks[i], false, parsed, m, Output(piece, more), carry', parsed', m')
    ensures whole ==
      Output(out + piece, were + more).Then(Scan(cfg, carry' + Concat(chunks[i + 1..]), 0, parsed', m'))
  {
    hide Scan, LeavesTo, Output.Then, ValidConfig, ValidMode;
    var rest := Concat(chunks[i + 1..]);
    assert chunks[i..][1..] == chunks[i + 1..];
    assert carry + Concat(chunks[i..]) == (carry + chunks[i]) + rest;
    LeavesRest(cfg, carry + chunks[i], false, parsed, m, Output(piece, more), carry', parsed', m', rest);
    Joined(out, piece, were, more);
    ThenAssociates(Output(out, were), Output(piece, more), Scan(cfg, carry' + rest, 0, parsed', m'));
  }

  /** The whole use of the filter: `primed` read first, then the document in
      chunks. However the bytes are divided, what comes back and what is
      reported dropped is the scan of the whole document. */
  method FilterDocument(names: seq<Text>, prefix: Text, primed: Text, chunks: seq<Text>)
    returns (out: Text, cuts: seq<Text>)
    requires names != [] && (forall n <- names :: Word(n)) && NameBytes(prefix)
    ensures var cfg := Config(names, if prefix == [] then [] else prefix + [COLON]);
      Output(out, cuts) == Scan(cfg, primed + Concat(chunks), 0, |primed|, Outside)
  {
    hide Lookahead, Scan, Output.Then, LeavesTo;
    var filter := new SkipFilter(names, prefix);
    ghost var cfg, m0 := filter.cfg, filter.Now();
    filter.Prime(primed);
    ghost var whole := Scan(cfg, primed + Concat(chunks), 0, |primed|, Outside);
    out := [];
    assert chunks[0..] == chunks;
    LeavesRest(
      cfg, primed, false, |primed|, m0, NOTHING, filter.carry, filter.parsed, filter.Now(), Concat(chunks));
    for i := 0 to |chunks|
      invariant filter.Valid() && filter.cfg == cfg
      invariant whole == Output(out, filter.cuts).Then(
        Scan(cfg, filter.carry + Concat(chunks[i..]), 0, filter.parsed, filter.Now()))
    {
      ghost var carry, were, parsed, m := filter.carry, filter.cuts, filter.parsed, filter.Now();
      var piece := filter.Feed(chunks[i]);
      assert filter.cuts == were + filter.cuts[|were|..];
      FeedStep(
        cfg, whole, out, were, carry, chunks, i, parsed, m, piece, filter.cuts[|were|..], filter.carry, filter.parsed,
        filter.Now());
      out := out + piece;
    }
    ghost var carry, were := filter.carry, filter.cuts;
    var last := filter.Finish();
    assert carry + Concat(chunks[|chunks|..]) == carry;
    Joined(out, last, were, filter.cuts[|were|..]);
    assert filter.cuts == were + filter.cuts[|were|..];
    return out + last, filter.cuts;
  }

  lemma NoMemo(word: Text, buffer: Text)
    ensures Memo(map[], map[], word, buffer, 0)
  {
  }

  lemma Joined(kept: Text, out: Text, cuts: seq<Text>, more: seq<Text>)
    ensures Output(kept, cuts).Then(Output(out, more)) == Output(kept + out, cuts + more)
  {
  }
}
