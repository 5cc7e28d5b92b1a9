/** What the skip filter must do to a whole document: a scanner that moves
    through the bytes token by token, with no chunk, no memory of searches
    and no look-ahead bound. */
module SkipSpec {
  import opened Bytes

  /** The element names to drop and the qualifier (`prefix:` or nothing) of
      the root element. */
  datatype Config = Config(names: seq<Text>, qualifier: Text)

  /** A byte that can be part of an element name as far as the filter can
      tell: it ends no name, opens no markup and quotes nothing. */
  predicate NameByte(b: byte) {
    && b != TAB && b != LF && b != VT && b != FF && b != CR && b != SPACE
    && b != BANG && b != DQUOTE && b != SQUOTE && b != SLASH && b != LT && b != EQUALS && b != GT && b != QUESTION
  }

  predicate NameBytes(w: Text) {
    forall i :: 0 <= i < |w| ==> NameByte(w[i])
  }

  predicate Word(w: Text) {
    |w| > 0 && NameBytes(w)
  }

  predicate ValidConfig(cfg: Config) {
    && cfg.names != []
    && (forall n <- cfg.names :: Word(n))
    && NameBytes(cfg.qualifier)
  }

  /** What ends a name in the pattern used outside dropped elements. */
  predicate Blank(b: byte) {
    b == TAB || b == LF || b == VT || b == FF || b == CR || b == SPACE
  }

  predicate EndsNameOutside(b: byte) { Blank(b) || b == SLASH || b == GT }

  /** What ends a name inside a dropped element: two blanks fewer. */
  predicate EndsNameInside(b: byte) {
    b == TAB || b == LF || b == CR || b == SPACE || b == SLASH || b == GT
  }

  /** What matters inside a start tag: a quote, or its end. */
  predicate TagMark(b: byte) { b == GT || b == DQUOTE || b == SQUOTE }

  const COMMENT: Text := [LT, BANG, DASH, DASH]
  const COMMENT_END: Text := [DASH, DASH, GT]
  const CDATA: Text := [LT, BANG, LBRACKET, 0x43, 0x44, 0x41, 0x54, 0x41, LBRACKET]
  const CDATA_END: Text := [RBRACKET, RBRACKET, GT]
  const INSTRUCTION: Text := [LT, QUESTION]
  const INSTRUCTION_END: Text := [QUESTION, GT]
  const DECLARATION: Text := [LT, BANG]
  const TAG_END: Text := [GT]
  const LONGEST_OPENER: nat := 9

  datatype Opener = Opener(length: nat, terminator: Text)

  /** What opens at `at` and hides tags: its length and its terminator. */
  function OpenerAt(d: Text, at: nat): (r: Option<Opener>)
    ensures r.Some? ==> 2 <= r.value.length <= LONGEST_OPENER && at + r.value.length <= |d| && d[at] == LT
    ensures r.Some? ==> |r.value.terminator| > 0 && r.value.terminator != TAG_END
  {
    if At(d, at, COMMENT) then AtByte(d, at, COMMENT, 0); Some(Opener(4, COMMENT_END))
    else if At(d, at, CDATA) then AtByte(d, at, CDATA, 0); Some(Opener(9, CDATA_END))
    else if At(d, at, INSTRUCTION) then AtByte(d, at, INSTRUCTION, 0); Some(Opener(2, INSTRUCTION_END))
    else None
  }

  /** `needle` stands at `at`, followed by a byte that ends a name. */
  predicate TagAt(d: Text, at: nat, needle: Text) {
    At(d, at, needle) && at + |needle| < |d| && EndsNameInside(d[at + |needle|])
  }

  predicate NamedAt(d: Text, at: nat, needle: Text) {
    At(d, at, needle) && at + |needle| < |d| && EndsNameOutside(d[at + |needle|])
  }

  /** The qualified name, among `names`, of the start tag at `at`. */
  function NameAmong(names: seq<Text>, qualifier: Text, d: Text, at: nat): (r: Option<Text>)
    ensures r.Some? ==> r.value in names && NamedAt(d, at, [LT] + qualifier + r.value)
    ensures r.None? ==> forall n <- names :: !NamedAt(d, at, [LT] + qualifier + n)
  {
    if names == [] then None
    else if NamedAt(d, at, [LT] + qualifier + names[0]) then Some(names[0])
    else NameAmong(names[1..], qualifier, d, at)
  }

  function NameAt(cfg: Config, d: Text, at: nat): Option<Text> {
    NameAmong(cfg.names, cfg.qualifier, d, at)
  }

  function OpenTag(word: Text): Text { [LT] + word }

  function CloseTag(word: Text): Text { [LT, SLASH] + word }

  /** Where the scanner is. `word` is the qualified name of the element being
      dropped, `depth` its open elements of that name. */
  datatype Mode =
    | Outside
    | Passing(end: Text)
    | Tag(word: Text, depth: int, quote: Option<byte>, before: byte)
    | Cut(word: Text, depth: int)
    | Hidden(word: Text, depth: int, end: Text)

  predicate ValidMode(m: Mode) {
    match m
    case Outside => true
    case Passing(e) => |e| > 0
    case Tag(w, _, _, _) => Word(w)
    case Cut(w, _) => Word(w)
    case Hidden(w, _, e) => Word(w) && |e| > 0
  }

  /** One move: where it goes on, in which mode, whether the bytes it passes
      are given back, and the element it begins to drop. */
  datatype Move = Move(next: nat, mode: Mode, keep: bool, cut: Option<Text>)

  function AfterTag(word: Text, depth: int, before: byte): Mode {
    if before != SLASH then Cut(word, depth + 1)
    else if depth == 0 then Outside
    else Cut(word, depth)
  }

  function AfterHidden(word: Text, depth: int, end: Text): Mode {
    if end == TAG_END && depth == 0 then Outside else Cut(word, depth)
  }

  function OutsideStep(cfg: Config, d: Text, p: nat, parsed: nat): (r: Move)
    requires p < |d| && ValidConfig(cfg)
    ensures p < r.next <= |d| && ValidMode(r.mode)
  {
    var opener := OpenerAt(d, p);
    if opener.Some? then Move(p + opener.value.length, Passing(opener.value.terminator), true, None)
    else
      var name := NameAt(cfg, d, p);
      if name.None? then Move(p + 1, Outside, true, None)
      else
        var word := cfg.qualifier + name.value;
        assert [LT] + cfg.qualifier + name.value == OpenTag(word);
        if p < parsed then Move(p + |OpenTag(word)|, Outside, true, None)
        else
          Move(p + |OpenTag(word)|, Tag(word, 0, None, word[|word| - 1]), false, Some(name.value))
  }

  function TagStep(d: Text, p: nat, m: Mode): (r: Move)
    requires p < |d| && m.Tag? && ValidMode(m)
    ensures r.next == p + 1 && ValidMode(r.mode)
  {
    var b := d[p];
    if m.quote.Some? then
      Move(p + 1, m.(quote := if b == m.quote.value then None else m.quote, before := b), false, None)
    else if b == GT then Move(p + 1, AfterTag(m.word, m.depth, m.before), false, None)
    else if b == DQUOTE || b == SQUOTE then Move(p + 1, m.(quote := Some(b), before := b), false, None)
    else Move(p + 1, m.(before := b), false, None)
  }

  function CutStep(d: Text, p: nat, m: Mode): (r: Move)
    requires p < |d| && m.Cut? && ValidMode(m)
    ensures p < r.next <= |d| && ValidMode(r.mode)
  {
    if TagAt(d, p, CloseTag(m.word)) then
      Move(p + |CloseTag(m.word)|, Hidden(m.word, m.depth - 1, TAG_END), false, None)
    else if TagAt(d, p, OpenTag(m.word)) then
      Move(p + |OpenTag(m.word)|, Tag(m.word, m.depth, None, m.word[|m.word| - 1]), false, None)
    else if At(d, p, DECLARATION) || At(d, p, INSTRUCTION) then
      var opener := OpenerAt(d, p);
      if opener.Some? then
        Move(p + opener.value.length, Hidden(m.word, m.depth, opener.value.terminator), false, None)
      else Move(p + 2, m, false, None)
    else Move(p + 1, m, false, None)
  }

  function Step(cfg: Config, d: Text, p: nat, parsed: nat, m: Mode): (r: Move)
    requires p < |d| && ValidConfig(cfg) && ValidMode(m)
    ensures p < r.next <= |d| && ValidMode(r.mode)
  {
    match m
    case Outside => OutsideStep(cfg, d, p, parsed)
    case Passing(e) =>
      if At(d, p, e) then Move(p + |e|, Outside, true, None) else Move(p + 1, m, true, None)
    case Tag(_, _, _, _) => TagStep(d, p, m)
    case Cut(_, _) => CutStep(d, p, m)
    case Hidden(w, depth, e) =>
      if At(d, p, e) then Move(p + |e|, AfterHidden(w, depth, e), false, None)
      else Move(p + 1, m, false, None)
  }

  /** The bytes of `d[from..stop]` that were not parsed before. */
  function Kept(d: Text, from: nat, stop: nat, parsed: nat): Text
    requires from <= stop <= |d|
  {
    var start := Max(from, parsed);
    if start < stop then d[start..stop] else []
  }

  /** What the filter gives back, and the names it reports dropped. */
  datatype Output = Output(kept: Text, cuts: seq<Text>) {
    function Then(next: Output): Output {
      Output(kept + next.kept, cuts + next.cuts)
    }
  }

  const NOTHING := Output([], [])

  function MoveOutput(d: Text, p: nat, parsed: nat, s: Move): Output
    requires p <= s.next <= |d|
  {
    Output(
      if s.keep then Kept(d, p, s.next, parsed) else [],
      if s.cut.Some? then [s.cut.value] else [])
  }

  /** The whole meaning of the filter from index `p` of document `d` on, the
      first `parsed` bytes being only read. */
  function Scan(cfg: Config, d: Text, p: nat, parsed: nat, m: Mode): Output
    requires ValidConfig(cfg) && ValidMode(m)
    decreases |d| - p
  {
    if p >= |d| then NOTHING
    else
      var s := Step(cfg, d, p, parsed, m);
      MoveOutput(d, p, parsed, s).Then(Scan(cfg, d, s.next, parsed, s.mode))
  }
}
