/** Well-formed content as a tree, its printing, and what the filter makes of
    it: every outermost element of the set gone, every other byte kept. */
module SkipTree {
  import opened Bytes
  import opened SkipSpec
  import opened SkipLocality
  import opened SkipMoves
  import SkipFilter

  /** An attribute: the bytes before its value (a blank, its name, `=`), the
      quote used, and the value, where a `>` may stand. */
  datatype Attribute = Attribute(lead: Text, quote: byte, value: Text)

  datatype Node =
    | Chars(bytes: Text)
    | Comment(body: Text)
    | CData(body: Text)
    | Instruction(body: Text)
    | Element(name: Text, attributes: seq<Attribute>, trail: Text, selfClosing: bool, children: seq<Node>, blank: Text)

  function PrintAttributes(attributes: seq<Attribute>): Text {
    if attributes == [] then []
    else
      var a := attributes[0];
      a.lead + [a.quote] + a.value + [a.quote] + PrintAttributes(attributes[1..])
  }

  function TagRest(e: Node): Text
    requires e.Element?
  {
    PrintAttributes(e.attributes) + e.trail + (if e.selfClosing then [SLASH, GT] else [GT])
  }

  function StartTag(e: Node): Text
    requires e.Element?
  {
    OpenTag(e.name) + TagRest(e)
  }

  function EndTag(name: Text, blank: Text): Text { CloseTag(name) + blank + [GT] }

  function Print(node: Node): Text {
    match node
    case Chars(bytes) => bytes
    case Comment(body) => COMMENT + body + COMMENT_END
    case CData(body) => CDATA + body + CDATA_END
    case Instruction(body) => INSTRUCTION + body + INSTRUCTION_END
    case Element(name, _, _, selfClosing, children, blank) =>
      if selfClosing then StartTag(node)
      else StartTag(node) + PrintAll(children) + EndTag(name, blank)
  }

  function PrintAll(nodes: seq<Node>): Text {
    if nodes == [] then [] else Print(nodes[0]) + PrintAll(nodes[1..])
  }

  // ----- well-formedness, as far as the filter needs it

  predicate XmlBlank(b: byte) { b == TAB || b == LF || b == CR || b == SPACE }

  predicate XmlBlanks(w: Text) { forall i :: 0 <= i < |w| ==> XmlBlank(w[i]) }

  predicate NoLT(w: Text) { forall i :: 0 <= i < |w| ==> w[i] != LT }

  /** `end` stands in `body + end` for the first time at the end of `body`. */
  predicate EndsFirst(body: Text, end: Text) {
    forall i: nat :: i < |body| ==> !At(body + end, i, end)
  }

  predicate GoodAttribute(a: Attribute) {
    && |a.lead| > 0 && XmlBlank(a.lead[0])
    && (forall i :: 0 <= i < |a.lead| ==> a.lead[i] != LT && !TagMark(a.lead[i]))
    && (a.quote == DQUOTE || a.quote == SQUOTE)
    && (forall i :: 0 <= i < |a.value| ==> a.value[i] != LT && a.value[i] != a.quote)
  }

  predicate GoodAttributes(attributes: seq<Attribute>) {
    forall i :: 0 <= i < |attributes| ==> GoodAttribute(attributes[i])
  }

  predicate GoodTag(e: Node)
    requires e.Element?
  {
    && Word(e.name) && GoodAttributes(e.attributes) && XmlBlanks(e.trail) && XmlBlanks(e.blank)
    && (e.selfClosing ==> e.children == [] && e.blank == [])
  }

  predicate WellFormed(node: Node) {
    match node
    case Chars(bytes) => NoLT(bytes)
    case Comment(body) => EndsFirst(body, COMMENT_END)
    case CData(body) => EndsFirst(body, CDATA_END)
    case Instruction(body) => EndsFirst(body, INSTRUCTION_END)
    case Element(_, _, _, _, children, _) => GoodTag(node) && AllWellFormed(children)
  }

  predicate AllWellFormed(nodes: seq<Node>) {
    nodes != [] ==> WellFormed(nodes[0]) && AllWellFormed(nodes[1..])
  }

  // ----- what must come out

  /** The local name under which an element of this name is dropped. */
  function DroppedAs(names: seq<Text>, qualifier: Text, name: Text): (r: Option<Text>)
    ensures r.Some? ==> r.value in names && name == qualifier + r.value
    ensures r.None? ==> forall n <- names :: name != qualifier + n
  {
    if names == [] then None
    else if name == qualifier + names[0] then Some(names[0])
    else DroppedAs(names[1..], qualifier, name)
  }

  /** The element at index `p` of the document begins a cut: its name is in
      the set and its tag does not begin in the `parsed` bytes. */
  predicate IsCut(cfg: Config, node: Node, p: nat, parsed: nat) {
    node.Element? && p >= parsed && DroppedAs(cfg.names, cfg.qualifier, node.name).Some?
  }

  /** The tree without its outermost elements of the set that begin at or
      after index `parsed`, `p` being the index of the first node. */
  function Prune(cfg: Config, nodes: seq<Node>, p: nat, parsed: nat): seq<Node> {
    if nodes == [] then []
    else
      var rest := Prune(cfg, nodes[1..], p + |Print(nodes[0])|, parsed);
      if IsCut(cfg, nodes[0], p, parsed) then rest else [PruneNode(cfg, nodes[0], p, parsed)] + rest
  }

  function PruneNode(cfg: Config, node: Node, p: nat, parsed: nat): Node {
    if node.Element? && !node.selfClosing
    then node.(children := Prune(cfg, node.children, p + |StartTag(node)|, parsed))
    else node
  }

  /** The local names of the elements removed, in document order. */
  function Removed(cfg: Config, nodes: seq<Node>, p: nat, parsed: nat): seq<Text> {
    if nodes == [] then []
    else
      RemovedIn(cfg, nodes[0], p, parsed) + Removed(cfg, nodes[1..], p + |Print(nodes[0])|, parsed)
  }

  function RemovedIn(cfg: Config, node: Node, p: nat, parsed: nat): seq<Text> {
    if IsCut(cfg, node, p, parsed) then [DroppedAs(cfg.names, cfg.qualifier, node.name).value]
    else if node.Element? && !node.selfClosing then Removed(cfg, node.children, p + |StartTag(node)|, parsed)
    else []
  }

  // ----- moves over a whole document

  ghost predicate Goes(cfg: Config, d: Text, parsed: nat, p: nat, m: Mode, out: Output, p': nat, m': Mode) {
    Advances(cfg, d, true, parsed, p, m, out, p', m')
  }

  lemma GoesTwice(
    cfg: Config, d: Text, parsed: nat, p: nat, m: Mode, o: Output, p': nat, m': Mode, o': Output, p'': nat, m'': Mode)
    requires Goes(cfg, d, parsed, p, m, o, p', m') && Goes(cfg, d, parsed, p', m', o', p'', m'')
    ensures Goes(cfg, d, parsed, p, m, o.Then(o'), p'', m'')
  {
    hide Advances;
    AdvancesTwice(cfg, d, true, parsed, p, m, o, p', m', o', p'', m'');
  }

  /** Two moves that give nothing back. */
  lemma SilentTwice(cfg: Config, d: Text, parsed: nat, p: nat, m: Mode, p': nat, m': Mode, p'': nat, m'': Mode)
    requires Goes(cfg, d, parsed, p, m, NOTHING, p', m') && Goes(cfg, d, parsed, p', m', NOTHING, p'', m'')
    ensures Goes(cfg, d, parsed, p, m, NOTHING, p'', m'')
  {
    hide Goes;
    NothingThen(NOTHING);
    GoesTwice(cfg, d, parsed, p, m, NOTHING, p', m', NOTHING, p'', m'');
  }

  function Given(d: Text, p: nat, q: nat, parsed: nat): Output
    requires p <= q <= |d|
  {
    Output(Kept(d, p, q, parsed), [])
  }

  /** Two stretches given back whole. */
  lemma GivenTwice(cfg: Config, d: Text, parsed: nat, p: nat, m: Mode, q: nat, m': Mode, r: nat, m'': Mode)
    requires p <= q <= r <= |d|
    requires Goes(cfg, d, parsed, p, m, Given(d, p, q, parsed), q, m')
    requires Goes(cfg, d, parsed, q, m', Given(d, q, r, parsed), r, m'')
    ensures Goes(cfg, d, parsed, p, m, Given(d, p, r, parsed), r, m'')
  {
    KeptJoin(d, p, q, r, parsed);
    hide Goes, Kept;
    assert Given(d, p, q, parsed).Then(Given(d, q, r, parsed)) == Given(d, p, r, parsed);
    GoesTwice(cfg, d, parsed, p, m, Given(d, p, q, parsed), q, m', Given(d, q, r, parsed), r, m'');
  }

  lemma NoEventWithoutLT(cfg: Config, d: Text, i: nat)
    requires i < |d| && d[i] != LT
    ensures !OutsideEvent(cfg, d, i)
  {
    if NameAt(cfg, d, i).Some? {
      AtByte(d, i, [LT] + cfg.qualifier + NameAt(cfg, d, i).value, 0);
    }
  }

  lemma PlainOutside(cfg: Config, d: Text, parsed: nat, p: nat, w: Text)
    requires ValidConfig(cfg) && At(d, p, w) && NoLT(w)
    ensures Goes(cfg, d, parsed, p, Outside, Given(d, p, p + |w|, parsed), p + |w|, Outside)
  {
    hide Advances, OutsideEvent, ValidConfig, Lookahead;
    forall i: nat | p <= i < p + |w| ensures !OutsideEvent(cfg, d, i) && Settled(d, true, i, Lookahead(cfg)) {
      assert d[p + (i - p)] == w[i - p];
      NoEventWithoutLT(cfg, d, i);
    }
    OutsideQuiet(cfg, d, true, parsed, p, p + |w|);
  }

  /** A `<` that begins no token of interest, and bytes without one. */
  lemma TagPassed(cfg: Config, d: Text, parsed: nat, p: nat, w: Text)
    requires ValidConfig(cfg) && At(d, p, w) && OneLT(w) && !OutsideEvent(cfg, d, p)
    ensures Goes(cfg, d, parsed, p, Outside, Given(d, p, p + |w|, parsed), p + |w|, Outside)
  {
    hide Advances, OutsideEvent, ValidConfig, Lookahead;
    forall i: nat | p <= i < p + |w| ensures !OutsideEvent(cfg, d, i) && Settled(d, true, i, Lookahead(cfg)) {
      assert d[p + (i - p)] == w[i - p];
      if i > p { NoEventWithoutLT(cfg, d, i); }
    }
    OutsideQuiet(cfg, d, true, parsed, p, p + |w|);
  }

  // ----- the shape of tags

  lemma {:induction false} AttributesShape(attributes: seq<Attribute>)
    requires GoodAttributes(attributes)
    ensures NoLT(PrintAttributes(attributes))
    ensures attributes != [] ==>
      var w := PrintAttributes(attributes);
      |w| > 0 && XmlBlank(w[0]) && (w[|w| - 1] == DQUOTE || w[|w| - 1] == SQUOTE)
  {
    if attributes != [] { AttributesShape(attributes[1..]); }
  }

  lemma TagShape(e: Node)
    requires e.Element? && GoodTag(e)
    ensures |TagRest(e)| > 0 && EndsNameInside(TagRest(e)[0]) && NoLT(TagRest(e)) && OneLT(StartTag(e))
  {
    AttributesShape(e.attributes);
    var w, v := PrintAttributes(e.attributes), PrintAttributes(e.attributes) + e.trail;
    assert v == [] ==> TagRest(e)[0] == (if e.selfClosing then SLASH else GT);
    assert v != [] ==> TagRest(e)[0] == v[0] && XmlBlank(v[0]);
    assert NoLT(v) && NoLT(TagRest(e));
  }

  lemma EndTagShape(name: Text, blank: Text)
    requires Word(name) && XmlBlanks(blank)
    ensures OneLT(EndTag(name, blank)) && EndsNameInside((blank + [GT])[0]) && EndsFirst(blank, TAG_END)
    ensures EndTag(name, blank) == CloseTag(name) + (blank + [GT])
  {
    forall i: nat | i < |blank| ensures !At(blank + TAG_END, i, TAG_END) {
      AtByte(blank + TAG_END, i, TAG_END, 0);
    }
  }

  /** A name followed by a byte that ends it stands there as itself only. */
  lemma TagStands(d: Text, p: nat, pre: Text, name: Text, rest: Text)
    requires At(d, p, pre + name + rest) && |rest| > 0 && EndsNameInside(rest[0])
    ensures TagAt(d, p, pre + name) && NamedAt(d, p, pre + name)
  {
    AtSplit(d, p, pre + name, rest);
    AtByte(d, p + |pre + name|, rest, 0);
  }

  lemma SameName(d: Text, p: nat, pre: Text, v: Text, w: Text)
    requires NamedAt(d, p, pre + v) && NamedAt(d, p, pre + w) && NameBytes(v) && NameBytes(w)
    ensures v == w
  {
    if |v| < |w| {
      AtByte(d, p, pre + w, |pre| + |v|);
    } else if |w| < |v| {
      AtByte(d, p, pre + v, |pre| + |w|);
    }
    forall k | 0 <= k < |v| ensures |v| == |w| && v[k] == w[k] {
      assert (pre + v)[|pre| + k] == v[k];
      assert (pre + w)[|pre| + k] == w[k];
    }
  }

  /** The filter recognises a start tag exactly when its name is in the set. */
  lemma StartTagSeen(cfg: Config, d: Text, p: nat, e: Node)
    requires ValidConfig(cfg) && e.Element? && GoodTag(e) && At(d, p, StartTag(e))
    ensures OpenerAt(d, p).None? && NameAt(cfg, d, p) == DroppedAs(cfg.names, cfg.qualifier, e.name)
  {
    TagShape(e);
    TagStands(d, p, [LT], e.name, TagRest(e));
    AtByte(d, p, [LT] + e.name, 1);
    AtByte(d, p, COMMENT, 1);
    AtByte(d, p, CDATA, 1);
    AtByte(d, p, INSTRUCTION, 1);
    var seen, named := NameAt(cfg, d, p), DroppedAs(cfg.names, cfg.qualifier, e.name);
    forall n <- cfg.names ensures NamedAt(d, p, [LT] + cfg.qualifier + n) <==> e.name == cfg.qualifier + n {
      assert [LT] + cfg.qualifier + n == [LT] + (cfg.qualifier + n);
      if NamedAt(d, p, [LT] + cfg.qualifier + n) { SameName(d, p, [LT], e.name, cfg.qualifier + n); }
    }
    if seen.Some? && named.Some? {
      assert seen.value == (cfg.qualifier + seen.value)[|cfg.qualifier|..];
      assert named.value == (cfg.qualifier + named.value)[|cfg.qualifier|..];
    }
  }

  lemma EndTagUnseen(cfg: Config, d: Text, p: nat, name: Text, blank: Text)
    requires ValidConfig(cfg) && Word(name) && At(d, p, EndTag(name, blank))
    ensures !OutsideEvent(cfg, d, p)
  {
    AtByte(d, p, EndTag(name, blank), 1);
    AtByte(d, p, COMMENT, 1);
    AtByte(d, p, CDATA, 1);
    AtByte(d, p, INSTRUCTION, 1);
    forall n <- cfg.names ensures !NamedAt(d, p, [LT] + cfg.qualifier + n) {
      AtByte(d, p, [LT] + cfg.qualifier + n, 1);
    }
  }

  // ----- sections whose inside is not read: comments, CDATA, instructions

  lemma AwaitSection(cfg: Config, d: Text, parsed: nat, p: nat, m: Mode, body: Text)
    requires ValidConfig(cfg) && ValidMode(m) && Awaits(m) && At(d, p, body + m.end) && EndsFirst(body, m.end)
    ensures p + |body + m.end| <= |d|
    ensures Goes(cfg, d, parsed, p, m, StretchOutput(d, p, p + |body + m.end|, parsed, m), p + |body + m.end|,
      AfterEnd(m))
  {
    hide Advances, ValidConfig, StretchOutput, AfterEnd;
    AtSplit(d, p, body, m.end);
    forall i: nat | p <= i < p + |body| ensures !At(d, i, m.end) {
      AtWithin(d, p, body + m.end, i - p, m.end);
    }
    AwaitFound(cfg, d, true, parsed, p, p + |body|, m);
  }

  function SectionOpener(node: Node): Text
    requires !node.Chars? && !node.Element?
  {
    match node case Comment(_) => COMMENT case CData(_) => CDATA case Instruction(_) => INSTRUCTION
  }

  function SectionEnd(node: Node): Text
    requires !node.Chars? && !node.Element?
  {
    match node case Comment(_) => COMMENT_END case CData(_) => CDATA_END case Instruction(_) => INSTRUCTION_END
  }

  lemma {:induction false} SectionShape(d: Text, p: nat, node: Node)
    requires !node.Chars? && !node.Element? && WellFormed(node) && At(d, p, Print(node))
    ensures Print(node) == SectionOpener(node) + (node.body + SectionEnd(node))
    ensures At(d, p, SectionOpener(node)) && At(d, p + |SectionOpener(node)|, node.body + SectionEnd(node))
    ensures EndsFirst(node.body, SectionEnd(node)) && |SectionEnd(node)| > 0 && SectionEnd(node) != TAG_END
    ensures p + |Print(node)| <= |d| && |SectionOpener(node)| <= |Print(node)|
    ensures OpenerAt(d, p) == Some(Opener(|SectionOpener(node)|, SectionEnd(node)))
  {
    hide At, OpenerAt;
    assert Print(node) == SectionOpener(node) + (node.body + SectionEnd(node));
    AtSplit(d, p, SectionOpener(node), node.body + SectionEnd(node));
    AtReach(d, p, Print(node));
    SectionOpens(d, p, node);
  }

  lemma {:induction false} AtReach(d: Text, p: nat, w: Text)
    requires At(d, p, w)
    ensures p + |w| <= |d|
  {
  }

  /** Comment, CDATA and instruction differ in their second or third byte. */
  lemma {:induction false} SectionOpens(d: Text, p: nat, node: Node)
    requires !node.Chars? && !node.Element? && At(d, p, SectionOpener(node))
    ensures OpenerAt(d, p) == Some(Opener(|SectionOpener(node)|, SectionEnd(node)))
  {
    hide At;
    AtByte(d, p, COMMENT, 1);
    AtByte(d, p, COMMENT, 2);
    AtByte(d, p, CDATA, 1);
    AtByte(d, p, CDATA, 2);
    AtByte(d, p, INSTRUCTION, 1);
  }

  lemma PassedSection(d: Text, p: nat, q: nat, parsed: nat, end: Text)
    requires |end| > 0 && p <= q <= |d|
    ensures ValidMode(Passing(end)) && Awaits(Passing(end)) && AfterEnd(Passing(end)) == Outside
    ensures StretchOutput(d, p, q, parsed, Passing(end)) == Given(d, p, q, parsed)
  {
  }

  lemma SectionOutside(cfg: Config, d: Text, parsed: nat, p: nat, node: Node)
    requires ValidConfig(cfg) && !node.Chars? && !node.Element? && WellFormed(node) && At(d, p, Print(node))
    ensures p + |Print(node)| <= |d|
    ensures Goes(cfg, d, parsed, p, Outside, Given(d, p, p + |Print(node)|, parsed), p + |Print(node)|, Outside)
  {
    hide *;
    SectionShape(d, p, node);
    var q, r, end := p + |SectionOpener(node)|, p + |Print(node)|, SectionEnd(node);
    PassedSection(d, q, r, parsed, end);
    OpenerGoes(cfg, d, parsed, p, q, end);
    AwaitSection(cfg, d, parsed, q, Passing(end), node.body);
    GivenTwice(cfg, d, parsed, p, Outside, q, Passing(end), r, Outside);
  }

  lemma OpenerGoes(cfg: Config, d: Text, parsed: nat, p: nat, q: nat, end: Text)
    requires ValidConfig(cfg) && p <= q <= |d| && OpenerAt(d, p) == Some(Opener(q - p, end))
    ensures Goes(cfg, d, parsed, p, Outside, Given(d, p, q, parsed), q, Passing(end))
  {
    hide Advances, OpenerAt, ValidConfig;
    OutsideOpener(cfg, d, true, parsed, p);
  }

  lemma HiddenSection(d: Text, p: nat, q: nat, parsed: nat, m: Mode, end: Text)
    requires ValidMode(m) && m.Cut? && |end| > 0 && p <= q <= |d|
    ensures var h := Hidden(m.word, m.depth, end);
      ValidMode(h) && Awaits(h) && (end != TAG_END ==> AfterEnd(h) == m) && StretchOutput(d, p, q, parsed, h) == NOTHING
  {
  }

  lemma SectionInCut(cfg: Config, d: Text, parsed: nat, p: nat, m: Mode, node: Node)
    requires ValidConfig(cfg) && ValidMode(m) && m.Cut?
    requires !node.Chars? && !node.Element? && WellFormed(node) && At(d, p, Print(node))
    ensures p + |Print(node)| <= |d|
    ensures Goes(cfg, d, parsed, p, m, NOTHING, p + |Print(node)|, m)
  {
    hide *;
    SectionShape(d, p, node);
    var q, r, end := p + |SectionOpener(node)|, p + |Print(node)|, SectionEnd(node);
    HiddenSection(d, q, r, parsed, m, end);
    MarkupGoes(cfg, d, parsed, p, m, node);
    AwaitSection(cfg, d, parsed, q, Hidden(m.word, m.depth, end), node.body);
    SilentTwice(cfg, d, parsed, p, m, q, Hidden(m.word, m.depth, end), r, m);
  }

  lemma {:induction false} MarkupGoes(cfg: Config, d: Text, parsed: nat, p: nat, m: Mode, node: Node)
    requires ValidConfig(cfg) && ValidMode(m) && m.Cut? && !node.Chars? && !node.Element?
    requires At(d, p, SectionOpener(node))
    requires OpenerAt(d, p) == Some(Opener(|SectionOpener(node)|, SectionEnd(node)))
    ensures Goes(cfg, d, parsed, p, m, NOTHING, p + |SectionOpener(node)|, Hidden(m.word, m.depth, SectionEnd(node)))
  {
    hide Advances, OpenerAt, ValidConfig, At, EventAt, SectionOpener, SectionEnd;
    MarkupEvent(m.word, d, p, node);
    CutMarkup(cfg, d, true, parsed, p, m, if node.Instruction? then Mark else Bang);
  }

  lemma {:induction false} MarkupEvent(word: Text, d: Text, p: nat, node: Node)
    requires !node.Chars? && !node.Element? && At(d, p, SectionOpener(node))
    ensures EventAt(word, if node.Instruction? then Mark else Bang, d, p)
  {
    hide At;
    if !node.Instruction? {
      assert SectionOpener(node) == DECLARATION + SectionOpener(node)[2..];
      AtSplit(d, p, DECLARATION, SectionOpener(node)[2..]);
    }
  }

  // ----- the rest of a start tag of the dropped name

  /** Bytes of the tag that neither quote nor end it. */
  lemma TagPlain(cfg: Config, d: Text, parsed: nat, p: nat, m: Mode, w: Text)
    requires ValidConfig(cfg) && ValidMode(m) && m.Tag? && At(d, p, w)
    requires forall i :: 0 <= i < |w| ==> PlainInTag(m, w[i])
    ensures Goes(cfg, d, parsed, p, m, NOTHING, p + |w|, if w == [] then m else m.(before := w[|w| - 1]))
  {
    hide Advances, ValidConfig;
    if w == [] {
      Stay(cfg, d, true, parsed, p, m);
    } else {
      forall i | p <= i < p + |w| ensures PlainInTag(m, d[i]) { assert d[p + (i - p)] == w[i - p]; }
      assert d[p + (|w| - 1)] == w[|w| - 1];
      TagQuiet(cfg, d, true, parsed, p, p + |w|, m);
    }
  }

  lemma TagOne(cfg: Config, d: Text, parsed: nat, p: nat, m: Mode, b: byte)
    requires ValidConfig(cfg) && ValidMode(m) && m.Tag? && At(d, p, [b])
    ensures Goes(cfg, d, parsed, p, m, NOTHING, p + 1, TagStep([b], 0, m).mode)
  {
    hide *;
    OneByte(d, p, m, b);
    TagMoveGoes(cfg, d, parsed, p, m);
  }

  lemma OneByte(d: Text, p: nat, m: Mode, b: byte)
    requires ValidMode(m) && m.Tag? && At(d, p, [b])
    ensures p < |d| && TagStep(d, p, m).mode == TagStep([b], 0, m).mode
  {
    AtByte(d, p, [b], 0);
  }

  lemma TagMoveGoes(cfg: Config, d: Text, parsed: nat, p: nat, m: Mode)
    requires ValidConfig(cfg) && ValidMode(m) && m.Tag? && p < |d|
    ensures Goes(cfg, d, parsed, p, m, NOTHING, p + 1, TagStep(d, p, m).mode)
  {
    hide Advances, ValidConfig, TagStep;
    TagMove(cfg, d, true, parsed, p, m);
  }

  lemma {:induction false} QuotedGoes(cfg: Config, d: Text, parsed: nat, p: nat, m: Mode, quote: byte, value: Text)
    requires ValidConfig(cfg) && ValidMode(m) && m.Tag? && m.quote.None? && (quote == DQUOTE || quote == SQUOTE)
    requires forall i :: 0 <= i < |value| ==> value[i] != quote
    requires At(d, p, [quote]) && At(d, p + 1, value) && At(d, p + 1 + |value|, [quote])
    ensures Goes(cfg, d, parsed, p, m, NOTHING, p + |value| + 2, m.(before := quote))
  {
    hide *;
    var q := p + 1 + |value|;
    var m2 := m.(quote := Some(quote), before := quote);
    var m3 := if value == [] then m2 else m2.(before := value[|value| - 1]);
    QuotedFacts(m, quote, value);
    TagOne(cfg, d, parsed, p, m, quote);
    TagPlain(cfg, d, parsed, p + 1, m2, value);
    TagOne(cfg, d, parsed, q, m3, quote);
    SilentTwice(cfg, d, parsed, p, m, p + 1, m2, q, m3);
    SilentTwice(cfg, d, parsed, p, m, q, m3, q + 1, m.(before := quote));
  }

  lemma QuotedFacts(m: Mode, quote: byte, value: Text)
    requires ValidMode(m) && m.Tag? && m.quote.None? && (quote == DQUOTE || quote == SQUOTE)
    requires forall i :: 0 <= i < |value| ==> value[i] != quote
    ensures var m2 := m.(quote := Some(quote), before := quote);
      var m3 := if value == [] then m2 else m2.(before := value[|value| - 1]);
      && ValidMode(m2) && ValidMode(m3)
      && TagStep([quote], 0, m).mode == m2 && TagStep([quote], 0, m3).mode == m.(before := quote)
      && forall i :: 0 <= i < |value| ==> PlainInTag(m2, value[i])
  {
  }

  lemma AttributeFacts(d: Text, p: nat, m: Mode, a: Attribute)
    requires ValidMode(m) && m.Tag? && m.quote.None? && GoodAttribute(a)
    requires At(d, p, a.lead + [a.quote] + a.value + [a.quote])
    ensures a.lead != [] && (forall i :: 0 <= i < |a.lead| ==> PlainInTag(m, a.lead[i]))
    ensures ValidMode(m.(before := a.lead[|a.lead| - 1])) && (a.quote == DQUOTE || a.quote == SQUOTE)
    ensures forall i :: 0 <= i < |a.value| ==> a.value[i] != a.quote
    ensures var q := p + |a.lead|;
      At(d, p, a.lead) && At(d, q, [a.quote]) && At(d, q + 1, a.value) && At(d, q + 1 + |a.value|, [a.quote])
  {
    hide At;
    AtSplit(d, p, a.lead + [a.quote] + a.value, [a.quote]);
    AtSplit(d, p, a.lead + [a.quote], a.value);
    AtSplit(d, p, a.lead, [a.quote]);
  }

  lemma AttributeGoes(cfg: Config, d: Text, parsed: nat, p: nat, m: Mode, a: Attribute)
    requires ValidConfig(cfg) && ValidMode(m) && m.Tag? && m.quote.None? && GoodAttribute(a)
    requires At(d, p, a.lead + [a.quote] + a.value + [a.quote])
    ensures Goes(cfg, d, parsed, p, m, NOTHING, p + |a.lead + [a.quote] + a.value + [a.quote]|, m.(before := a.quote))
  {
    hide *;
    AttributeFacts(d, p, m, a);
    var q := p + |a.lead|;
    var m1 := m.(before := a.lead[|a.lead| - 1]);
    TagPlain(cfg, d, parsed, p, m, a.lead);
    QuotedGoes(cfg, d, parsed, q, m1, a.quote, a.value);
    SilentTwice(cfg, d, parsed, p, m, q, m1, q + |a.value| + 2, m.(before := a.quote));
  }

  lemma {:induction false} AttributesGo(cfg: Config, d: Text, parsed: nat, p: nat, m: Mode, attributes: seq<Attribute>)
    returns (before: byte)
    requires ValidConfig(cfg) && ValidMode(m) && m.Tag? && m.quote.None? && m.before != SLASH
    requires GoodAttributes(attributes) && At(d, p, PrintAttributes(attributes))
    ensures before != SLASH
    ensures Goes(cfg, d, parsed, p, m, NOTHING, p + |PrintAttributes(attributes)|, m.(before := before))
    decreases |attributes|
  {
    hide *;
    if attributes == [] {
      before := m.before;
      NoAttributes();
      StayGoes(cfg, d, parsed, p, m);
    } else {
      var a := attributes[0];
      var w := a.lead + [a.quote] + a.value + [a.quote];
      AttributesFacts(d, p, m, attributes);
      var m' := m.(before := a.quote);
      AttributeGoes(cfg, d, parsed, p, m, a);
      before := AttributesGo(cfg, d, parsed, p + |w|, m', attributes[1..]);
      SilentTwice(cfg, d, parsed, p, m, p + |w|, m', p + |PrintAttributes(attributes)|, m.(before := before));
    }
  }

  lemma NoAttributes()
    ensures PrintAttributes([]) == []
  {
  }

  lemma AttributesFacts(d: Text, p: nat, m: Mode, attributes: seq<Attribute>)
    requires ValidMode(m) && m.Tag? && attributes != [] && GoodAttributes(attributes)
    requires At(d, p, PrintAttributes(attributes))
    ensures var a := attributes[0];
      var w := a.lead + [a.quote] + a.value + [a.quote];
      && GoodAttribute(a) && GoodAttributes(attributes[1..]) && a.quote != SLASH
      && At(d, p, w) && At(d, p + |w|, PrintAttributes(attributes[1..]))
      && |PrintAttributes(attributes)| == |w| + |PrintAttributes(attributes[1..])|
      && ValidMode(m.(before := a.quote))
  {
    hide At;
    var a := attributes[0];
    AtSplit(d, p, a.lead + [a.quote] + a.value + [a.quote], PrintAttributes(attributes[1..]));
  }

  /** Where a start tag of the dropped name leads. */
  function AfterStart(word: Text, depth: int, selfClosing: bool): Mode {
    if !selfClosing then Cut(word, depth + 1) else if depth == 0 then Outside else Cut(word, depth)
  }

  lemma TagRestGoes(cfg: Config, d: Text, parsed: nat, p: nat, m: Mode, e: Node)
    requires ValidConfig(cfg) && ValidMode(m) && m.Tag? && Word(m.word) && m.quote.None? && m.before != SLASH
    requires e.Element? && GoodTag(e) && At(d, p, TagRest(e))
    ensures Goes(cfg, d, parsed, p, m, NOTHING, p + |TagRest(e)|, AfterStart(m.word, m.depth, e.selfClosing))
  {
    hide *;
    var w := PrintAttributes(e.attributes);
    TagRestParts(d, p, e);
    var before := AttributesGo(cfg, d, parsed, p, m, e.attributes);
    TrailGoes(cfg, d, parsed, p + |w|, m.(before := before), e.trail, e.selfClosing);
    SilentTwice(cfg, d, parsed, p, m, p + |w|, m.(before := before), p + |TagRest(e)|,
                AfterStart(m.word, m.depth, e.selfClosing));
  }

  lemma BlanksInTag(m: Mode, trail: Text)
    requires m.Tag? && Word(m.word) && m.quote.None? && m.before != SLASH && XmlBlanks(trail)
    ensures forall i :: 0 <= i < |trail| ==> PlainInTag(m, trail[i])
    ensures ValidMode(m)
    ensures trail != [] ==> trail[|trail| - 1] != SLASH && ValidMode(m.(before := trail[|trail| - 1]))
  {
  }

  lemma TagRestParts(d: Text, p: nat, e: Node)
    requires e.Element? && GoodTag(e) && At(d, p, TagRest(e))
    ensures var w := PrintAttributes(e.attributes);
      var close := if e.selfClosing then [SLASH, GT] else [GT];
      && GoodAttributes(e.attributes) && XmlBlanks(e.trail)
      && |TagRest(e)| == |w| + |e.trail| + |close|
      && At(d, p, w) && At(d, p + |w|, e.trail) && At(d, p + |w| + |e.trail|, close)
  {
    hide At;
    var w := PrintAttributes(e.attributes);
    AtSplit(d, p, w + e.trail, if e.selfClosing then [SLASH, GT] else [GT]);
    AtSplit(d, p, w, e.trail);
  }

  lemma TrailGoes(cfg: Config, d: Text, parsed: nat, p: nat, m: Mode, trail: Text, selfClosing: bool)
    requires ValidConfig(cfg) && m.Tag? && Word(m.word) && m.quote.None? && m.before != SLASH
    requires XmlBlanks(trail)
    requires At(d, p, trail) && At(d, p + |trail|, if selfClosing then [SLASH, GT] else [GT])
    ensures Goes(cfg, d, parsed, p, m, NOTHING, p + |trail| + (if selfClosing then 2 else 1),
                 AfterStart(m.word, m.depth, selfClosing))
  {
    hide *;
    var m' := if trail == [] then m else m.(before := trail[|trail| - 1]);
    BlanksInTag(m, trail);
    TagPlain(cfg, d, parsed, p, m, trail);
    CloseGoes(cfg, d, parsed, p + |trail|, m', selfClosing);
    SilentTwice(cfg, d, parsed, p, m, p + |trail|, m', p + |trail| + (if selfClosing then 2 else 1),
                AfterStart(m.word, m.depth, selfClosing));
  }

  lemma CloseGoes(cfg: Config, d: Text, parsed: nat, p: nat, m: Mode, selfClosing: bool)
    requires ValidConfig(cfg) && ValidMode(m) && m.Tag? && m.quote.None? && m.before != SLASH
    requires At(d, p, if selfClosing then [SLASH, GT] else [GT])
    ensures Goes(cfg, d, parsed, p, m, NOTHING, p + (if selfClosing then 2 else 1),
      AfterStart(m.word, m.depth, selfClosing))
  {
    if selfClosing {
      assert [SLASH, GT] == [SLASH] + [GT];
      AtSplit(d, p, [SLASH], [GT]);
      var m' := m.(before := SLASH);
      assert TagStep([SLASH], 0, m).mode == m' && TagStep([GT], 0, m').mode == AfterStart(m.word, m.depth, true);
      hide Goes, At, ValidConfig, TagStep;
      TagOne(cfg, d, parsed, p, m, SLASH);
      TagOne(cfg, d, parsed, p + 1, m', GT);
      SilentTwice(cfg, d, parsed, p, m, p + 1, m', p + 2, AfterStart(m.word, m.depth, true));
    } else {
      assert TagStep([GT], 0, m).mode == AfterStart(m.word, m.depth, false);
      hide Goes, At, ValidConfig, TagStep;
      TagOne(cfg, d, parsed, p, m, GT);
    }
  }

  // ----- the inside of a dropped element

  /** What a dropped element's name must be for a chunk to see its tags. */
  ghost predicate CutMode(cfg: Config, m: Mode) {
    ValidConfig(cfg) && ValidMode(m) && m.Cut? && m.depth >= 1 && Word(m.word) && |m.word| + 4 <= Lookahead(cfg)
  }

  lemma QuietWithoutLT(word: Text, d: Text, i: nat)
    requires Word(word) && i < |d| && d[i] != LT
    ensures Quiet(word, d, i)
  {
    forall key: Key ensures !EventAt(word, key, d, i) { EventIsLT(word, key, d, i); }
  }

  lemma CutPassed(cfg: Config, d: Text, parsed: nat, p: nat, m: Mode, w: Text)
    requires CutMode(cfg, m) && m.Cut? && At(d, p, w)
    requires NoLT(w) || (OneLT(w) && Quiet(m.word, d, p))
    ensures Goes(cfg, d, parsed, p, m, NOTHING, p + |w|, m)
  {
    hide Advances, Quiet, ValidConfig, Lookahead, Word;
    forall i: nat | p <= i < p + |w| ensures Quiet(m.word, d, i) && Settled(d, true, i, Lookahead(cfg)) {
      assert d[p + (i - p)] == w[i - p];
      if d[i] != LT { QuietWithoutLT(m.word, d, i); }
    }
    CutQuiet(cfg, d, true, parsed, p, p + |w|, m);
  }

  /** A start or end tag of another name does not matter. */
  lemma {:induction false} OtherTagQuiet(word: Text, d: Text, p: nat, close: bool, name: Text, rest: Text)
    requires Word(word) && Word(name) && name != word
    requires At(d, p, (if close then CloseTag(name) else OpenTag(name)) + rest) && |rest| > 0 && EndsNameInside(rest[0])
    ensures Quiet(word, d, p)
  {
    hide At, EventAt, TagAt, NamedAt, NameBytes;
    var pre := if close then [LT, SLASH] else [LT];
    TagStands(d, p, pre, name, rest);
    SecondByte(d, p, close, name);
    forall key: Key ensures !EventAt(word, key, d, p) { OtherTagNot(word, key, d, p, close, name); }
  }

  lemma {:induction false} SecondByte(d: Text, p: nat, close: bool, name: Text)
    requires Word(name) && NamedAt(d, p, (if close then [LT, SLASH] else [LT]) + name)
    ensures p + 1 < |d| && d[p + 1] == if close then SLASH else name[0]
  {
    AtByte(d, p, (if close then [LT, SLASH] else [LT]) + name, 1);
  }

  lemma {:induction false} OtherTagNot(word: Text, key: Key, d: Text, p: nat, close: bool, name: Text)
    requires Word(word) && Word(name) && name != word && p + 1 < |d|
    requires NamedAt(d, p, (if close then [LT, SLASH] else [LT]) + name)
    requires d[p + 1] == if close then SLASH else name[0]
    ensures !EventAt(word, key, d, p)
  {
    hide At, TagAt, NamedAt;
    EventIsLT(word, key, d, p);
    TagIsNamed(word, key, d, p);
    SameNameOnly(d, p, if close then [LT, SLASH] else [LT], name, word);
  }

  lemma {:induction false} TagIsNamed(word: Text, key: Key, d: Text, p: nat)
    ensures key.End? && EventAt(word, key, d, p) ==> NamedAt(d, p, [LT, SLASH] + word)
    ensures key.Start? && EventAt(word, key, d, p) ==> NamedAt(d, p, [LT] + word)
  {
    hide At;
  }

  lemma {:induction false} SameNameOnly(d: Text, p: nat, pre: Text, v: Text, w: Text)
    requires NameBytes(v) && NameBytes(w) && v != w && NamedAt(d, p, pre + v)
    ensures !NamedAt(d, p, pre + w)
  {
    if NamedAt(d, p, pre + w) {
      SameName(d, p, pre, v, w);
      assert false;
    }
  }

  lemma SameStartFacts(cfg: Config, d: Text, p: nat, m: Mode, e: Node)
    requires CutMode(cfg, m) && e.Element? && GoodTag(e) && e.name == m.word && At(d, p, StartTag(e))
    ensures ValidConfig(cfg) && ValidMode(m) && m.Cut? && EventAt(m.word, Start, d, p)
    ensures Needle(m.word, Start) == OpenTag(e.name) && |StartTag(e)| == |OpenTag(e.name)| + |TagRest(e)|
    ensures |OpenTag(e.name)| > 0 && p + |StartTag(e)| <= |d| && At(d, p + |OpenTag(e.name)|, TagRest(e))
    ensures var before := d[p + |OpenTag(e.name)| - 1];
      var tag := Tag(m.word, m.depth, None, before);
      EventMode(m, Start, before) == tag && before != SLASH && ValidMode(tag) && Word(tag.word)
  {
    TagShape(e);
    TagStands(d, p, [LT], e.name, TagRest(e));
    AtSplit(d, p, OpenTag(e.name), TagRest(e));
    AtByte(d, p, OpenTag(m.word), |m.word|);
  }

  lemma SameStartGoes(cfg: Config, d: Text, parsed: nat, p: nat, m: Mode, e: Node)
    requires CutMode(cfg, m) && m.Cut? && e.Element? && GoodTag(e) && e.name == m.word && At(d, p, StartTag(e))
    ensures p + |StartTag(e)| <= |d|
    ensures Goes(cfg, d, parsed, p, m, NOTHING, p + |StartTag(e)|, AfterStart(m.word, m.depth, e.selfClosing))
  {
    hide *;
    SameStartFacts(cfg, d, p, m, e);
    var q := p + |OpenTag(e.name)|;
    var tag := Tag(m.word, m.depth, None, d[q - 1]);
    TagEventGoes(cfg, d, parsed, p, m, Start);
    TagRestGoes(cfg, d, parsed, q, tag, e);
    SilentTwice(cfg, d, parsed, p, m, q, tag, p + |StartTag(e)|, AfterStart(m.word, m.depth, e.selfClosing));
  }

  lemma TagEventGoes(cfg: Config, d: Text, parsed: nat, p: nat, m: Mode, key: Key)
    requires ValidConfig(cfg) && ValidMode(m) && m.Cut?
    requires (key.End? || key.Start?) && EventAt(m.word, key, d, p)
    ensures 0 < p + |Needle(m.word, key)| <= |d|
    ensures Goes(cfg, d, parsed, p, m, NOTHING, p + |Needle(m.word, key)|,
                 EventMode(m, key, d[p + |Needle(m.word, key)| - 1]))
  {
    hide Advances, ValidConfig, EventMode;
    CutTagEvent(cfg, d, true, parsed, p, m, key);
  }

  lemma SameEndFacts(cfg: Config, d: Text, parsed: nat, p: nat, m: Mode, blank: Text)
    requires CutMode(cfg, m) && m.Cut? && XmlBlanks(blank) && At(d, p, EndTag(m.word, blank))
    ensures ValidConfig(cfg) && ValidMode(m) && EventAt(m.word, End, d, p) && EndsFirst(blank, TAG_END)
    ensures Needle(m.word, End) == CloseTag(m.word) && p + |EndTag(m.word, blank)| <= |d|
    ensures |EndTag(m.word, blank)| == |CloseTag(m.word)| + |blank + TAG_END|
    ensures At(d, p + |CloseTag(m.word)|, blank + TAG_END)
    ensures var h := Hidden(m.word, m.depth - 1, TAG_END);
      && (forall b: byte :: EventMode(m, End, b) == h) && ValidMode(h) && Awaits(h)
      && AfterEnd(h) == AfterHidden(m.word, m.depth - 1, TAG_END)
      && StretchOutput(d, p + |CloseTag(m.word)|, p + |EndTag(m.word, blank)|, parsed, h) == NOTHING
  {
    EndTagShape(m.word, blank);
    TagStands(d, p, [LT, SLASH], m.word, blank + [GT]);
    AtSplit(d, p, CloseTag(m.word), blank + [GT]);
  }

  lemma SameEndGoes(cfg: Config, d: Text, parsed: nat, p: nat, m: Mode, blank: Text)
    requires CutMode(cfg, m) && m.Cut? && XmlBlanks(blank) && At(d, p, EndTag(m.word, blank))
    ensures p + |EndTag(m.word, blank)| <= |d|
    ensures Goes(cfg, d, parsed, p, m, NOTHING, p + |EndTag(m.word, blank)|, AfterHidden(m.word, m.depth - 1, TAG_END))
  {
    hide *;
    SameEndFacts(cfg, d, parsed, p, m, blank);
    var q, r := p + |CloseTag(m.word)|, p + |EndTag(m.word, blank)|;
    var h := Hidden(m.word, m.depth - 1, TAG_END);
    TagEventGoes(cfg, d, parsed, p, m, End);
    AwaitSection(cfg, d, parsed, q, h, blank);
    SilentTwice(cfg, d, parsed, p, m, q, h, r, AfterEnd(h));
  }

  lemma ElementParts(d: Text, p: nat, e: Node)
    requires e.Element? && !e.selfClosing && WellFormed(e) && At(d, p, Print(e))
    ensures var q := p + |StartTag(e)|;
      var r := q + |PrintAll(e.children)|;
      && At(d, p, StartTag(e)) && At(d, q, PrintAll(e.children)) && At(d, r, EndTag(e.name, e.blank))
      && p + |Print(e)| == r + |EndTag(e.name, e.blank)| && p + |Print(e)| <= |d|
      && GoodTag(e) && Word(e.name) && XmlBlanks(e.blank) && AllWellFormed(e.children)
  {
    AtSplit(d, p, StartTag(e) + PrintAll(e.children), EndTag(e.name, e.blank));
    AtSplit(d, p, StartTag(e), PrintAll(e.children));
  }

  lemma NodeFacts(d: Text, p: nat, node: Node)
    requires WellFormed(node) && At(d, p, Print(node))
    ensures node.Chars? ==> Print(node) == node.bytes && NoLT(node.bytes)
    ensures node.Element? && node.selfClosing ==> Print(node) == StartTag(node) && GoodTag(node)
    ensures p + |Print(node)| <= |d|
  {
  }

  lemma NodesFacts(d: Text, p: nat, nodes: seq<Node>)
    requires nodes != [] && AllWellFormed(nodes) && At(d, p, PrintAll(nodes))
    ensures WellFormed(nodes[0]) && AllWellFormed(nodes[1..])
    ensures At(d, p, Print(nodes[0])) && At(d, p + |Print(nodes[0])|, PrintAll(nodes[1..]))
    ensures PrintAll(nodes) == Print(nodes[0]) + PrintAll(nodes[1..])
  {
    AtSplit(d, p, Print(nodes[0]), PrintAll(nodes[1..]));
  }

  lemma NoNodes()
    ensures PrintAll([]) == []
  {
  }

  lemma CutFacts(cfg: Config, m: Mode)
    requires CutMode(cfg, m)
    ensures ValidConfig(cfg) && ValidMode(m) && m.Cut? && CutMode(cfg, Cut(m.word, m.depth + 1))
    ensures AfterHidden(m.word, m.depth, TAG_END) == m
    ensures AfterStart(m.word, m.depth, true) == m && AfterStart(m.word, m.depth, false) == Cut(m.word, m.depth + 1)
  {
  }

  /** Whatever stands inside a dropped element, the filter comes out of it as
      it went in. */
  lemma {:induction false} NodeInCut(cfg: Config, d: Text, parsed: nat, p: nat, m: Mode, node: Node)
    requires CutMode(cfg, m) && WellFormed(node) && At(d, p, Print(node))
    ensures Goes(cfg, d, parsed, p, m, NOTHING, p + |Print(node)|, m)
    decreases node, 0
  {
    hide *;
    CutFacts(cfg, m);
    NodeFacts(d, p, node);
    if node.Chars? {
      CutPassed(cfg, d, parsed, p, m, node.bytes);
    } else if !node.Element? {
      SectionInCut(cfg, d, parsed, p, m, node);
    } else if node.selfClosing {
      if node.name == m.word {
        SameStartGoes(cfg, d, parsed, p, m, node);
      } else {
        OtherStartGoes(cfg, d, parsed, p, m, node);
      }
    } else {
      ElementParts(d, p, node);
      var q := p + |StartTag(node)|;
      var r := q + |PrintAll(node.children)|;
      if node.name == m.word {
        var deeper := Cut(m.word, m.depth + 1);
        SameStartGoes(cfg, d, parsed, p, m, node);
        NodesInCut(cfg, d, parsed, q, deeper, node.children);
        SameEndGoes(cfg, d, parsed, r, deeper, node.blank);
        SilentTwice(cfg, d, parsed, p, m, q, deeper, r, deeper);
        SilentTwice(cfg, d, parsed, p, m, r, deeper, p + |Print(node)|, m);
      } else {
        OtherStartGoes(cfg, d, parsed, p, m, node);
        NodesInCut(cfg, d, parsed, q, m, node.children);
        OtherEndGoes(cfg, d, parsed, r, m, node);
        SilentTwice(cfg, d, parsed, p, m, q, m, r, m);
        SilentTwice(cfg, d, parsed, p, m, r, m, p + |Print(node)|, m);
      }
    }
  }

  lemma {:induction false} NodesInCut(cfg: Config, d: Text, parsed: nat, p: nat, m: Mode, nodes: seq<Node>)
    requires CutMode(cfg, m) && AllWellFormed(nodes) && At(d, p, PrintAll(nodes))
    ensures Goes(cfg, d, parsed, p, m, NOTHING, p + |PrintAll(nodes)|, m)
    decreases nodes, 1
  {
    hide *;
    if nodes == [] {
      CutFacts(cfg, m);
      NoNodes();
      StayGoes(cfg, d, parsed, p, m);
    } else {
      NodesFacts(d, p, nodes);
      var q := p + |Print(nodes[0])|;
      NodeInCut(cfg, d, parsed, p, m, nodes[0]);
      NodesInCut(cfg, d, parsed, q, m, nodes[1..]);
      SilentTwice(cfg, d, parsed, p, m, q, m, p + |PrintAll(nodes)|, m);
    }
  }

  lemma StayGoes(cfg: Config, d: Text, parsed: nat, p: nat, m: Mode)
    requires ValidConfig(cfg) && ValidMode(m)
    ensures Goes(cfg, d, parsed, p, m, NOTHING, p, m)
  {
    hide Advances;
    Stay(cfg, d, true, parsed, p, m);
  }

  lemma OtherStartFacts(cfg: Config, d: Text, p: nat, m: Mode, e: Node)
    requires CutMode(cfg, m) && m.Cut? && e.Element? && GoodTag(e) && At(d, p, StartTag(e)) && e.name != m.word
    ensures OneLT(StartTag(e)) && Quiet(m.word, d, p)
  {
    hide At, Lookahead, ValidConfig;
    TagShape(e);
    OtherTagQuiet(m.word, d, p, false, e.name, TagRest(e));
  }

  lemma OtherStartGoes(cfg: Config, d: Text, parsed: nat, p: nat, m: Mode, e: Node)
    requires CutMode(cfg, m) && m.Cut? && e.Element? && GoodTag(e) && At(d, p, StartTag(e)) && e.name != m.word
    ensures Goes(cfg, d, parsed, p, m, NOTHING, p + |StartTag(e)|, m)
  {
    hide *;
    OtherStartFacts(cfg, d, p, m, e);
    CutPassed(cfg, d, parsed, p, m, StartTag(e));
  }

  lemma OtherEndFacts(cfg: Config, d: Text, p: nat, m: Mode, e: Node)
    requires CutMode(cfg, m) && m.Cut? && e.Element? && Word(e.name) && XmlBlanks(e.blank) && e.name != m.word
    requires At(d, p, EndTag(e.name, e.blank))
    ensures OneLT(EndTag(e.name, e.blank)) && Quiet(m.word, d, p)
  {
    hide At, Lookahead, ValidConfig;
    EndTagShape(e.name, e.blank);
    OtherTagQuiet(m.word, d, p, true, e.name, e.blank + [GT]);
  }

  lemma OtherEndGoes(cfg: Config, d: Text, parsed: nat, p: nat, m: Mode, e: Node)
    requires CutMode(cfg, m) && m.Cut? && e.Element? && Word(e.name) && XmlBlanks(e.blank) && e.name != m.word
    requires At(d, p, EndTag(e.name, e.blank))
    ensures Goes(cfg, d, parsed, p, m, NOTHING, p + |EndTag(e.name, e.blank)|, m)
  {
    hide *;
    OtherEndFacts(cfg, d, p, m, e);
    CutPassed(cfg, d, parsed, p, m, EndTag(e.name, e.blank));
  }

  // ----- outside: what is dropped and what is kept

  lemma CutStartFacts(cfg: Config, d: Text, parsed: nat, p: nat, e: Node)
    requires ValidConfig(cfg) && e.Element? && GoodTag(e) && IsCut(cfg, e, p, parsed) && At(d, p, StartTag(e))
    ensures DroppedAs(cfg.names, cfg.qualifier, e.name).Some?
    ensures var name := DroppedAs(cfg.names, cfg.qualifier, e.name).value;
      var q := p + |OpenTag(e.name)|;
      && NameAt(cfg, d, p) == Some(name) && e.name == cfg.qualifier + name && p >= parsed
      && 0 < q <= |d| && At(d, q, TagRest(e)) && d[q - 1] != SLASH && d[p + |e.name|] == d[q - 1]
      && |StartTag(e)| == |OpenTag(e.name)| + |TagRest(e)| && Word(e.name)
      && ValidMode(Tag(e.name, 0, None, d[q - 1])) && CutMode(cfg, Cut(e.name, 1))
      && AfterStart(e.name, 0, true) == Outside && AfterStart(e.name, 0, false) == Cut(e.name, 1)
      && AfterHidden(e.name, 0, TAG_END) == Outside
  {
    StartTagSeen(cfg, d, p, e);
    AtSplit(d, p, OpenTag(e.name), TagRest(e));
    AtByte(d, p, OpenTag(e.name), |e.name|);
    SkipFilter.CutWord(cfg, DroppedAs(cfg.names, cfg.qualifier, e.name).value);
  }

  lemma CutBegins(cfg: Config, d: Text, parsed: nat, p: nat, name: Text)
    requires ValidConfig(cfg) && NameAt(cfg, d, p) == Some(name) && p >= parsed
    requires p + |OpenTag(cfg.qualifier + name)| <= |d|
    ensures |OpenTag(cfg.qualifier + name)| == |cfg.qualifier + name| + 1
    ensures Goes(cfg, d, parsed, p, Outside, Output([], [name]), p + |OpenTag(cfg.qualifier + name)|,
                 Tag(cfg.qualifier + name, 0, None, d[p + |cfg.qualifier + name|]))
  {
    hide Advances, NameAt, ValidConfig;
    OutsideName(cfg, d, true, parsed, p, name);
  }

  /** The start tag of an element to drop: its name is reported, nothing is
      given back. */
  lemma CutStartGoes(cfg: Config, d: Text, parsed: nat, p: nat, e: Node)
    requires ValidConfig(cfg) && e.Element? && GoodTag(e) && IsCut(cfg, e, p, parsed) && At(d, p, StartTag(e))
    ensures Goes(cfg, d, parsed, p, Outside, Output([], RemovedIn(cfg, e, p, parsed)), p + |StartTag(e)|,
                 AfterStart(e.name, 0, e.selfClosing))
  {
    hide *;
    CutStartFacts(cfg, d, parsed, p, e);
    var name := DroppedAs(cfg.names, cfg.qualifier, e.name).value;
    var q := p + |OpenTag(e.name)|;
    var tag := Tag(e.name, 0, None, d[q - 1]);
    CutBegins(cfg, d, parsed, p, name);
    TagRestGoes(cfg, d, parsed, q, tag, e);
    NothingThen(Output([], [name]));
    GoesTwice(cfg, d, parsed, p, Outside, Output([], [name]), q, tag, NOTHING, p + |StartTag(e)|,
              AfterStart(e.name, 0, e.selfClosing));
    RemovedHere(cfg, e, p, parsed);
  }

  lemma RemovedHere(cfg: Config, e: Node, p: nat, parsed: nat)
    requires IsCut(cfg, e, p, parsed) && e.Element? && DroppedAs(cfg.names, cfg.qualifier, e.name).Some?
    ensures RemovedIn(cfg, e, p, parsed) == [DroppedAs(cfg.names, cfg.qualifier, e.name).value]
  {
  }

  lemma ElementCut(cfg: Config, d: Text, parsed: nat, p: nat, e: Node)
    requires ValidConfig(cfg) && WellFormed(e) && IsCut(cfg, e, p, parsed) && e.Element? && At(d, p, Print(e))
    ensures Goes(cfg, d, parsed, p, Outside, Output([], RemovedIn(cfg, e, p, parsed)), p + |Print(e)|, Outside)
  {
    hide *;
    NodeFacts(d, p, e);
    if e.selfClosing {
      CutStartFacts(cfg, d, parsed, p, e);
      CutStartGoes(cfg, d, parsed, p, e);
    } else {
      ElementParts(d, p, e);
      CutStartFacts(cfg, d, parsed, p, e);
      var q := p + |StartTag(e)|;
      var r := q + |PrintAll(e.children)|;
      var m, out := Cut(e.name, 1), Output([], RemovedIn(cfg, e, p, parsed));
      CutStartGoes(cfg, d, parsed, p, e);
      NodesInCut(cfg, d, parsed, q, m, e.children);
      SameEndGoes(cfg, d, parsed, r, m, e.blank);
      NothingThen(out);
      GoesTwice(cfg, d, parsed, p, Outside, out, q, m, NOTHING, r, m);
      GoesTwice(cfg, d, parsed, p, Outside, out, r, m, NOTHING, p + |Print(e)|, Outside);
    }
  }

  /** The start tag of an element that stays. */
  lemma KeptStartGoes(cfg: Config, d: Text, parsed: nat, p: nat, e: Node)
    requires ValidConfig(cfg) && e.Element? && GoodTag(e) && !IsCut(cfg, e, p, parsed) && At(d, p, StartTag(e))
    ensures p + |StartTag(e)| <= |d|
    ensures Goes(cfg, d, parsed, p, Outside, Given(d, p, p + |StartTag(e)|, parsed), p + |StartTag(e)|, Outside)
  {
    hide *;
    KeptStartFacts(cfg, d, parsed, p, e);
    if NameAt(cfg, d, p).None? {
      TagPassed(cfg, d, parsed, p, StartTag(e));
    } else {
      var q := p + |OpenTag(e.name)|;
      PastName(cfg, d, parsed, p, NameAt(cfg, d, p).value);
      PlainOutside(cfg, d, parsed, q, TagRest(e));
      GivenTwice(cfg, d, parsed, p, Outside, q, Outside, p + |StartTag(e)|, Outside);
    }
  }

  lemma KeptStartFacts(cfg: Config, d: Text, parsed: nat, p: nat, e: Node)
    requires ValidConfig(cfg) && e.Element? && GoodTag(e) && !IsCut(cfg, e, p, parsed) && At(d, p, StartTag(e))
    ensures OneLT(StartTag(e)) && NoLT(TagRest(e)) && At(d, p + |OpenTag(e.name)|, TagRest(e))
    ensures |StartTag(e)| == |OpenTag(e.name)| + |TagRest(e)| && p + |StartTag(e)| <= |d|
    ensures NameAt(cfg, d, p).None? ==> !OutsideEvent(cfg, d, p)
    ensures NameAt(cfg, d, p).Some? ==> p < parsed && e.name == cfg.qualifier + NameAt(cfg, d, p).value
  {
    hide Lookahead;
    StartTagSeen(cfg, d, p, e);
    TagShape(e);
    AtSplit(d, p, OpenTag(e.name), TagRest(e));
  }

  lemma PastName(cfg: Config, d: Text, parsed: nat, p: nat, name: Text)
    requires ValidConfig(cfg) && NameAt(cfg, d, p) == Some(name) && p < parsed
    requires p + |OpenTag(cfg.qualifier + name)| <= |d|
    ensures Goes(cfg, d, parsed, p, Outside, Given(d, p, p + |OpenTag(cfg.qualifier + name)|, parsed),
                 p + |OpenTag(cfg.qualifier + name)|, Outside)
  {
    hide Advances, NameAt, ValidConfig;
    OutsideName(cfg, d, true, parsed, p, name);
  }

  lemma KeptEndGoes(cfg: Config, d: Text, parsed: nat, p: nat, name: Text, blank: Text)
    requires ValidConfig(cfg) && Word(name) && XmlBlanks(blank) && At(d, p, EndTag(name, blank))
    ensures p + |EndTag(name, blank)| <= |d|
    ensures Goes(cfg, d, parsed, p, Outside, Given(d, p, p + |EndTag(name, blank)|, parsed),
                 p + |EndTag(name, blank)|, Outside)
  {
    hide OneLT, OutsideEvent, ValidConfig, EndTag, Goes, NoLT, EndsFirst;
    EndTagShape(name, blank);
    EndTagUnseen(cfg, d, p, name, blank);
    TagPassed(cfg, d, parsed, p, EndTag(name, blank));
  }

  // ----- the bytes that come out are the printing of the pruned tree

  /** The part of `w`, standing at index `p`, that was not parsed before. */
  function Shown(w: Text, p: nat, parsed: nat): Text {
    if p >= parsed then w else if parsed - p >= |w| then [] else w[parsed - p..]
  }

  lemma GivenIsShown(d: Text, p: nat, w: Text, parsed: nat)
    requires At(d, p, w)
    ensures Given(d, p, p + |w|, parsed) == Output(Shown(w, p, parsed), [])
  {
    AtSlice(d, p, w);
    if p < parsed < p + |w| { assert d[parsed..p + |w|] == d[p..p + |w|][parsed - p..]; }
  }

  /** `v` is what is left of `size` bytes at `p`: all of them where they were
      parsed before, and at least those parsed. */
  predicate LeftOf(v: Text, size: nat, p: nat, parsed: nat) {
    |v| <= size && (p + size <= parsed ==> |v| == size) && (p < parsed < p + size ==> |v| >= parsed - p)
  }

  lemma ShownJoin(v: Text, size: nat, w: Text, p: nat, parsed: nat)
    requires LeftOf(v, size, p, parsed)
    ensures Shown(v + w, p, parsed) == Shown(v, p, parsed) + Shown(w, p + size, parsed)
  {
    if p < parsed {
      if p + size <= parsed {
        if parsed - p < |v + w| { assert (v + w)[parsed - p..] == w[parsed - p - |v|..]; }
      } else {
        assert (v + w)[parsed - p..] == v[parsed - p..] + w;
      }
    }
  }

  lemma LeftJoin(v: Text, size: nat, w: Text, size': nat, p: nat, parsed: nat)
    requires LeftOf(v, size, p, parsed) && LeftOf(w, size', p + size, parsed)
    ensures LeftOf(v + w, size + size', p, parsed)
  {
  }

  lemma {:induction false} PrunedLeft(cfg: Config, nodes: seq<Node>, p: nat, parsed: nat)
    ensures LeftOf(PrintAll(Prune(cfg, nodes, p, parsed)), |PrintAll(nodes)|, p, parsed)
    decreases nodes, 1
  {
    if nodes != [] {
      var q := p + |Print(nodes[0])|;
      var rest := Prune(cfg, nodes[1..], q, parsed);
      PrunedLeft(cfg, nodes[1..], q, parsed);
      if !IsCut(cfg, nodes[0], p, parsed) {
        var node := PruneNode(cfg, nodes[0], p, parsed);
        PrunedNodeLeft(cfg, nodes[0], p, parsed);
        assert ([node] + rest)[1..] == rest;
        LeftJoin(Print(node), |Print(nodes[0])|, PrintAll(rest), |PrintAll(nodes[1..])|, p, parsed);
      }
    }
  }

  lemma {:induction false} PrunedNodeLeft(cfg: Config, node: Node, p: nat, parsed: nat)
    ensures LeftOf(Print(PruneNode(cfg, node, p, parsed)), |Print(node)|, p, parsed)
    decreases node, 0
  {
    if node.Element? && !node.selfClosing {
      var q := p + |StartTag(node)|;
      var left := PrintAll(Prune(cfg, node.children, q, parsed));
      var end := EndTag(node.name, node.blank);
      PrunedLeft(cfg, node.children, q, parsed);
      LeftJoin(StartTag(node), |StartTag(node)|, left, |PrintAll(node.children)|, p, parsed);
      LeftJoin(StartTag(node) + left, |StartTag(node)| + |PrintAll(node.children)|, end, |end|, p, parsed);
    }
  }

  function NodeOutput(cfg: Config, node: Node, p: nat, parsed: nat): Output {
    Output(if IsCut(cfg, node, p, parsed) then [] else Shown(Print(PruneNode(cfg, node, p, parsed)), p, parsed),
           RemovedIn(cfg, node, p, parsed))
  }

  function NodesOutput(cfg: Config, nodes: seq<Node>, p: nat, parsed: nat): Output {
    Output(Shown(PrintAll(Prune(cfg, nodes, p, parsed)), p, parsed), Removed(cfg, nodes, p, parsed))
  }

  lemma KeptLeafOutput(cfg: Config, d: Text, p: nat, node: Node, parsed: nat)
    requires At(d, p, Print(node)) && !IsCut(cfg, node, p, parsed) && !(node.Element? && !node.selfClosing)
    ensures p + |Print(node)| <= |d|
    ensures NodeOutput(cfg, node, p, parsed) == Given(d, p, p + |Print(node)|, parsed)
  {
    hide Print, Shown;
    GivenIsShown(d, p, Print(node), parsed);
  }

  lemma KeptElementOutput(cfg: Config, d: Text, p: nat, e: Node, parsed: nat)
    requires e.Element? && !e.selfClosing && !IsCut(cfg, e, p, parsed)
    requires var q := p + |StartTag(e)|;
      At(d, p, StartTag(e)) && At(d, q + |PrintAll(e.children)|, EndTag(e.name, e.blank))
    ensures var q := p + |StartTag(e)|;
      var r := q + |PrintAll(e.children)|;
      && q <= |d| && r + |EndTag(e.name, e.blank)| <= |d|
      && Given(d, p, q, parsed).Then(NodesOutput(cfg, e.children, q, parsed))
           .Then(Given(d, r, r + |EndTag(e.name, e.blank)|, parsed))
         == NodeOutput(cfg, e, p, parsed)
  {
    hide StartTag, EndTag, Prune, Removed, PrintAll, IsCut, LeftOf, Shown, Given;
    var q := p + |StartTag(e)|;
    var size := |StartTag(e)| + |PrintAll(e.children)|;
    var left, end := PrintAll(Prune(cfg, e.children, q, parsed)), EndTag(e.name, e.blank);
    GivenIsShown(d, p, StartTag(e), parsed);
    GivenIsShown(d, q + |PrintAll(e.children)|, end, parsed);
    PrunedLeft(cfg, e.children, q, parsed);
    WholeLeft(StartTag(e), p, parsed);
    ShownJoin(StartTag(e), |StartTag(e)|, left, p, parsed);
    LeftJoin(StartTag(e), |StartTag(e)|, left, |PrintAll(e.children)|, p, parsed);
    ShownJoin(StartTag(e) + left, size, end, p, parsed);
    PrintedElement(cfg, e, p, parsed);
  }

  lemma WholeLeft(w: Text, p: nat, parsed: nat)
    ensures LeftOf(w, |w|, p, parsed)
  {
  }

  lemma PrintedElement(cfg: Config, e: Node, p: nat, parsed: nat)
    requires e.Element? && !e.selfClosing
    ensures Print(PruneNode(cfg, e, p, parsed)) ==
            StartTag(e) + PrintAll(Prune(cfg, e.children, p + |StartTag(e)|, parsed)) + EndTag(e.name, e.blank)
  {
  }

  lemma NodesOutputSplit(cfg: Config, nodes: seq<Node>, p: nat, parsed: nat)
    requires nodes != []
    ensures NodesOutput(cfg, nodes, p, parsed)
         == NodeOutput(cfg, nodes[0], p, parsed).Then(NodesOutput(cfg, nodes[1..], p + |Print(nodes[0])|, parsed))
  {
    hide *;
    var q := p + |Print(nodes[0])|;
    var node, rest := PruneNode(cfg, nodes[0], p, parsed), Prune(cfg, nodes[1..], q, parsed);
    if IsCut(cfg, nodes[0], p, parsed) {
      CutAfterParsed(cfg, nodes[0], p, parsed, PrintAll(rest));
    } else {
      PrunedNodeLeft(cfg, nodes[0], p, parsed);
      ShownJoin(Print(node), |Print(nodes[0])|, PrintAll(rest), p, parsed);
    }
    PruneUnfolded(cfg, nodes, p, parsed);
    OutputUnfolded(cfg, nodes, p, parsed);
  }

  lemma PruneUnfolded(cfg: Config, nodes: seq<Node>, p: nat, parsed: nat)
    requires nodes != []
    ensures var q := p + |Print(nodes[0])|;
      var rest := Prune(cfg, nodes[1..], q, parsed);
      && Removed(cfg, nodes, p, parsed) == RemovedIn(cfg, nodes[0], p, parsed) + Removed(cfg, nodes[1..], q, parsed)
      && PrintAll(Prune(cfg, nodes, p, parsed))
         == if IsCut(cfg, nodes[0], p, parsed) then PrintAll(rest)
            else Print(PruneNode(cfg, nodes[0], p, parsed)) + PrintAll(rest)
  {
    hide Print, PruneNode, RemovedIn, IsCut;
    var rest := Prune(cfg, nodes[1..], p + |Print(nodes[0])|, parsed);
    assert ([PruneNode(cfg, nodes[0], p, parsed)] + rest)[1..] == rest;
  }

  lemma OutputUnfolded(cfg: Config, nodes: seq<Node>, p: nat, parsed: nat)
    requires nodes != []
    requires var q := p + |Print(nodes[0])|;
      var v := Print(PruneNode(cfg, nodes[0], p, parsed));
      var w := PrintAll(Prune(cfg, nodes[1..], q, parsed));
      && Removed(cfg, nodes, p, parsed) == RemovedIn(cfg, nodes[0], p, parsed) + Removed(cfg, nodes[1..], q, parsed)
      && PrintAll(Prune(cfg, nodes, p, parsed)) == (if IsCut(cfg, nodes[0], p, parsed) then w else v + w)
      && (IsCut(cfg, nodes[0], p, parsed) ==> Shown(w, p, parsed) == Shown(w, q, parsed))
      && (!IsCut(cfg, nodes[0], p, parsed) ==> Shown(v + w, p, parsed) == Shown(v, p, parsed) + Shown(w, q, parsed))
    ensures NodesOutput(cfg, nodes, p, parsed)
         == NodeOutput(cfg, nodes[0], p, parsed).Then(NodesOutput(cfg, nodes[1..], p + |Print(nodes[0])|, parsed))
  {
    hide Print, PrintAll, Prune, Removed, PruneNode, RemovedIn, IsCut, Shown;
  }

  lemma CutAfterParsed(cfg: Config, node: Node, p: nat, parsed: nat, w: Text)
    requires IsCut(cfg, node, p, parsed)
    ensures Shown(w, p, parsed) == Shown(w, p + |Print(node)|, parsed)
  {
    hide Print;
  }

  lemma {:induction false} NodeOutside(cfg: Config, d: Text, parsed: nat, p: nat, node: Node)
    requires ValidConfig(cfg) && WellFormed(node) && At(d, p, Print(node))
    ensures Goes(cfg, d, parsed, p, Outside, NodeOutput(cfg, node, p, parsed), p + |Print(node)|, Outside)
    decreases node, 0
  {
    hide *;
    NodeFacts(d, p, node);
    if IsCut(cfg, node, p, parsed) {
      CutOutput(cfg, node, p, parsed);
      ElementCut(cfg, d, parsed, p, node);
    } else if node.Element? && !node.selfClosing {
      ElementParts(d, p, node);
      var q := p + |StartTag(node)|;
      var r := q + |PrintAll(node.children)|;
      var kids := NodesOutput(cfg, node.children, q, parsed);
      var end := r + |EndTag(node.name, node.blank)|;
      KeptStartGoes(cfg, d, parsed, p, node);
      NodesOutside(cfg, d, parsed, q, node.children);
      KeptEndGoes(cfg, d, parsed, r, node.name, node.blank);
      GoesTwice(cfg, d, parsed, p, Outside, Given(d, p, q, parsed), q, Outside, kids, r, Outside);
      GoesTwice(cfg, d, parsed, p, Outside, Given(d, p, q, parsed).Then(kids), r, Outside,
                Given(d, r, end, parsed), end, Outside);
      KeptElementOutput(cfg, d, p, node, parsed);
    } else {
      KeptLeafOutput(cfg, d, p, node, parsed);
      if node.Chars? {
        PlainOutside(cfg, d, parsed, p, node.bytes);
      } else if node.Element? {
        KeptStartGoes(cfg, d, parsed, p, node);
      } else {
        SectionOutside(cfg, d, parsed, p, node);
      }
    }
  }

  lemma CutOutput(cfg: Config, node: Node, p: nat, parsed: nat)
    requires IsCut(cfg, node, p, parsed)
    ensures node.Element? && NodeOutput(cfg, node, p, parsed) == Output([], RemovedIn(cfg, node, p, parsed))
  {
  }

  lemma {:induction false} NodesOutside(cfg: Config, d: Text, parsed: nat, p: nat, nodes: seq<Node>)
    requires ValidConfig(cfg) && AllWellFormed(nodes) && At(d, p, PrintAll(nodes))
    ensures Goes(cfg, d, parsed, p, Outside, NodesOutput(cfg, nodes, p, parsed), p + |PrintAll(nodes)|, Outside)
    decreases nodes, 1
  {
    hide *;
    if nodes == [] {
      NoNodes();
      NoOutput(cfg, p, parsed);
      StayGoes(cfg, d, parsed, p, Outside);
    } else {
      NodesFacts(d, p, nodes);
      var q := p + |Print(nodes[0])|;
      NodeOutside(cfg, d, parsed, p, nodes[0]);
      NodesOutside(cfg, d, parsed, q, nodes[1..]);
      NodesOutputSplit(cfg, nodes, p, parsed);
      GoesTwice(cfg, d, parsed, p, Outside, NodeOutput(cfg, nodes[0], p, parsed), q, Outside,
                NodesOutput(cfg, nodes[1..], q, parsed), p + |PrintAll(nodes)|, Outside);
    }
  }

  lemma NoOutput(cfg: Config, p: nat, parsed: nat)
    ensures NodesOutput(cfg, [], p, parsed) == NOTHING && ValidMode(Outside)
  {
  }

  /** The content of a root element, its end tag and what follows it. */
  function PrintDocument(content: seq<Node>, root: Text, blank: Text, after: seq<Node>): Text {
    PrintAll(content) + EndTag(root, blank) + PrintAll(after)
  }

  /** For every well-formed document and every hand-over point, what the
      filter gives back is the printing of the document without its outermost
      elements of the set that begin after that point (less the bytes parsed
      before it), and it reports exactly the names of the elements removed. */
  lemma FilteredDocument(cfg: Config, content: seq<Node>, root: Text, blank: Text, after: seq<Node>, parsed: nat)
    requires ValidConfig(cfg) && AllWellFormed(content) && AllWellFormed(after) && Word(root) && XmlBlanks(blank)
    ensures var p := |PrintAll(content)| + |EndTag(root, blank)|;
      Scan(cfg, PrintDocument(content, root, blank, after), 0, parsed, Outside)
      == Output(Shown(PrintDocument(Prune(cfg, content, 0, parsed), root, blank, Prune(cfg, after, p, parsed)), 0,
        parsed),
                Removed(cfg, content, 0, parsed) + Removed(cfg, after, p, parsed))
  {
    hide *;
    var d := PrintDocument(content, root, blank, after);
    var q := |PrintAll(content)|;
    var p := q + |EndTag(root, blank)|;
    DocumentParts(content, root, blank, after);
    NodesOutside(cfg, d, parsed, 0, content);
    KeptEndGoes(cfg, d, parsed, q, root, blank);
    NodesOutside(cfg, d, parsed, p, after);
    var o1, o2, o3 := NodesOutput(cfg, content, 0, parsed), Given(d, q, p, parsed), NodesOutput(cfg, after, p, parsed);
    GoesTwice(cfg, d, parsed, 0, Outside, o1, q, Outside, o2, p, Outside);
    GoesTwice(cfg, d, parsed, 0, Outside, o1.Then(o2), p, Outside, o3, |d|, Outside);
    GoesToEnd(cfg, d, parsed, o1.Then(o2).Then(o3));
    DocumentOutput(cfg, content, root, blank, after, parsed);
  }

  lemma DocumentParts(content: seq<Node>, root: Text, blank: Text, after: seq<Node>)
    ensures var d := PrintDocument(content, root, blank, after);
      var q := |PrintAll(content)|;
      var p := q + |EndTag(root, blank)|;
      && At(d, 0, PrintAll(content)) && At(d, q, EndTag(root, blank)) && At(d, p, PrintAll(after))
      && p + |PrintAll(after)| == |d|
  {
    hide PrintAll, EndTag;
    var d := PrintDocument(content, root, blank, after);
    assert At(d, 0, d);
    AtSplit(d, 0, PrintAll(content) + EndTag(root, blank), PrintAll(after));
    AtSplit(d, 0, PrintAll(content), EndTag(root, blank));
  }

  lemma GoesToEnd(cfg: Config, d: Text, parsed: nat, out: Output)
    requires ValidConfig(cfg) && Goes(cfg, d, parsed, 0, Outside, out, |d|, Outside)
    ensures Scan(cfg, d, 0, parsed, Outside) == out
  {
    hide Step;
    assert d + [] == d;
    NothingThen(out);
    assert Scan(cfg, d + [], 0, parsed, Outside) == out.Then(Scan(cfg, d + [], |d|, parsed, Outside));
  }

  lemma DocumentOutput(cfg: Config, content: seq<Node>, root: Text, blank: Text, after: seq<Node>, parsed: nat)
    ensures var d := PrintDocument(content, root, blank, after);
      var q := |PrintAll(content)|;
      var p := q + |EndTag(root, blank)|;
      && p <= |d|
      && NodesOutput(cfg, content, 0, parsed).Then(Given(d, q, p, parsed)).Then(NodesOutput(cfg, after, p, parsed))
         == Output(Shown(PrintDocument(Prune(cfg, content, 0, parsed), root, blank, Prune(cfg, after, p, parsed)), 0,
           parsed),
                   Removed(cfg, content, 0, parsed) + Removed(cfg, after, p, parsed))
  {
    hide PrintAll, EndTag, Prune, Removed, Shown, Given, LeftOf, At;
    var d := PrintDocument(content, root, blank, after);
    var q := |PrintAll(content)|;
    var p := q + |EndTag(root, blank)|;
    var v, end, w := PrintAll(Prune(cfg, content, 0, parsed)), EndTag(root, blank),
      PrintAll(Prune(cfg, after, p, parsed));
    DocumentParts(content, root, blank, after);
    GivenIsShown(d, q, end, parsed);
    PrunedLeft(cfg, content, 0, parsed);
    WholeLeft(end, q, parsed);
    ShownJoin(v, q, end, 0, parsed);
    LeftJoin(v, q, end, |end|, 0, parsed);
    ShownJoin(v + end, p, w, 0, parsed);
  }

  /** The streaming filter on a well-formed document handed over after the
      bytes `primed`, the rest coming in any division into chunks. */
  method FilterWellFormed(
    names: seq<Text>, prefix: Text, primed: Text, chunks: seq<Text>, ghost content: seq<Node>, ghost root: Text,
    ghost blank: Text, ghost after: seq<Node>)
    returns (out: Text, cuts: seq<Text>)
    requires names != [] && (forall n <- names :: Word(n)) && NameBytes(prefix)
    requires AllWellFormed(content) && AllWellFormed(after) && Word(root) && XmlBlanks(blank)
    requires primed + Concat(chunks) == PrintDocument(content, root, blank, after)
    ensures var cfg := Config(names, if prefix == [] then [] else prefix + [COLON]);
      var p := |PrintAll(content)| + |EndTag(root, blank)|;
      && out == Shown(PrintDocument(Prune(cfg, content, 0, |primed|), root, blank, Prune(cfg, after, p, |primed|)), 0,
        |primed|)
      && cuts == Removed(cfg, content, 0, |primed|) + Removed(cfg, after, p, |primed|)
  {
    hide PrintDocument, PrintAll, Prune, Removed, Shown, EndTag, AllWellFormed, XmlBlanks, Scan;
    ghost var cfg := Config(names, if prefix == [] then [] else prefix + [COLON]);
    out, cuts := SkipFilter.FilterDocument(names, prefix, primed, chunks);
    FilteredDocument(cfg, content, root, blank, after, |primed|);
  }

  /** With no hand-over the positions do not matter: the tree simply loses
      its outermost elements of the set. */
  function WithoutSet(cfg: Config, nodes: seq<Node>): seq<Node> {
    if nodes == [] then []
    else
      var node := nodes[0];
      if node.Element? && DroppedAs(cfg.names, cfg.qualifier, node.name).Some? then WithoutSet(cfg, nodes[1..])
      else
        [if node.Element? && !node.selfClosing then node.(children := WithoutSet(cfg, node.children)) else node]
        + WithoutSet(cfg, nodes[1..])
  }

  lemma {:induction false} PruneFromStart(cfg: Config, nodes: seq<Node>, p: nat)
    ensures Prune(cfg, nodes, p, 0) == WithoutSet(cfg, nodes)
    decreases nodes
  {
    if nodes != [] {
      var node := nodes[0];
      PruneFromStart(cfg, nodes[1..], p + |Print(node)|);
      if node.Element? && !node.selfClosing {
        PruneFromStart(cfg, node.children, p + |StartTag(node)|);
      }
    }
  }
}
