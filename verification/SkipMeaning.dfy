/** What the skip filter leaves of a document, said of its bytes and elements
    alone (app/station_extract_skip.py). */
module SkipMeaning {
  import opened Bytes
  import opened SkipSpec
  import opened SkipTree

  // ----- the bytes of a document

  /** `<!--`, `-->`, `<![CDATA[`, `]]>`, `<?`, `?>` around their bodies. */
  lemma Printed(body: Text)
    ensures Print(Chars(body)) == body
    ensures Print(Comment(body)) == [0x3C, 0x21, 0x2D, 0x2D] + body + [0x2D, 0x2D, 0x3E]
    ensures Print(CData(body)) ==
      [0x3C, 0x21, 0x5B, 0x43, 0x44, 0x41, 0x54, 0x41, 0x5B] + body + [0x5D, 0x5D, 0x3E]
    ensures Print(Instruction(body)) == [0x3C, 0x3F] + body + [0x3F, 0x3E]
  {
  }

  /** `<name attributes>`, its content, `</name>`; or `<name attributes/>`. */
  lemma PrintedElement(e: Node)
    requires e.Element?
    ensures Print(e) ==
      if e.selfClosing then [0x3C] + e.name + (PrintAttributes(e.attributes) + e.trail + [0x2F, 0x3E])
      else
        [0x3C] + e.name + (PrintAttributes(e.attributes) + e.trail + [0x3E])
        + PrintAll(e.children) + ([0x3C, 0x2F] + e.name + e.blank + [0x3E])
  {
  }

  /** Content is printed node after node, a tag's attributes one by one. */
  lemma {:induction false} PrintedInOrder(a: seq<Node>, b: seq<Node>, node: Node)
    ensures PrintAll(a + b) == PrintAll(a) + PrintAll(b) && PrintAll([node]) == Print(node)
    decreases |a|
  {
    assert [node][1..] == [];
    if a == [] {
      assert a + b == b;
    } else {
      PrintedInOrder(a[1..], b, node);
      assert (a + b)[1..] == a[1..] + b;
    }
  }

  lemma {:induction false} AttributesInOrder(a: seq<Attribute>, b: seq<Attribute>, x: Attribute)
    ensures PrintAttributes(a + b) == PrintAttributes(a) + PrintAttributes(b)
    ensures PrintAttributes([x]) == x.lead + [x.quote] + x.value + [x.quote]
    decreases |a|
  {
    assert [x][1..] == [];
    if a == [] {
      assert a + b == b;
    } else {
      AttributesInOrder(a[1..], b, x);
      assert (a + b)[1..] == a[1..] + b;
      var first := a[0].lead + [a[0].quote] + a[0].value + [a[0].quote];
      assert first + (PrintAttributes(a[1..]) + PrintAttributes(b)) ==
        first + PrintAttributes(a[1..]) + PrintAttributes(b);
    }
  }

  // ----- which documents

  ghost predicate IsBlankByte(b: byte) { b == 0x09 || b == 0x0A || b == 0x0D || b == 0x20 }

  /** No blank, quote or byte of markup. */
  ghost predicate IsNameByte(b: byte) {
    && !(0x09 <= b <= 0x0D) && b != 0x20 && b != 0x21 && b != 0x22 && b != 0x27 && b != 0x2F && b != 0x3C && b != 0x3D
    && b != 0x3E && b != 0x3F
  }

  ghost predicate Reads(text: Text, at: nat, word: Text) { at + |word| <= |text| && text[at..at + |word|] == word }

  /** `end` follows `body`, and stands nowhere earlier. */
  ghost predicate StopsAt(body: Text, end: Text) {
    forall i: nat :: i < |body| ==> !Reads(body + end, i, end)
  }

  lemma {:induction false} EndsFirstIs(body: Text, end: Text)
    ensures EndsFirst(body, end) <==> StopsAt(body, end)
  {
    var d := body + end;
    forall i: nat | i < |body| ensures At(d, i, end) <==> Reads(d, i, end) {
      if At(d, i, end) { AtSlice(d, i, end); }
      if Reads(d, i, end) {
        forall k | 0 <= k < |end| ensures d[i + k] == end[k] { assert d[i..i + |end|][k] == end[k]; }
      }
    }
  }

  /** Text without `<`; a body that does not hold its own end. */
  lemma {:induction false} IsContent(body: Text)
    ensures WellFormed(Chars(body)) <==> 0x3C !in body
    ensures WellFormed(Comment(body)) <==> StopsAt(body, [0x2D, 0x2D, 0x3E])
    ensures WellFormed(CData(body)) <==> StopsAt(body, [0x5D, 0x5D, 0x3E])
    ensures WellFormed(Instruction(body)) <==> StopsAt(body, [0x3F, 0x3E])
  {
    EndsFirstIs(body, [0x2D, 0x2D, 0x3E]);
    EndsFirstIs(body, [0x5D, 0x5D, 0x3E]);
    EndsFirstIs(body, [0x3F, 0x3E]);
  }

  /** An attribute: a blank, its name and `=`, then a value in quotes, where
      anything but `<` and the quote may stand. */
  ghost predicate IsAttribute(a: Attribute) {
    && |a.lead| > 0 && IsBlankByte(a.lead[0])
    && (forall b <- a.lead :: b != 0x3C && b != 0x3E && b != 0x22 && b != 0x27)
    && (a.quote == 0x22 || a.quote == 0x27)
    && forall b <- a.value :: b != 0x3C && b != a.quote
  }

  lemma IsElement(e: Node)
    requires e.Element?
    requires e.name != [] && forall b <- e.name :: IsNameByte(b)
    requires forall a <- e.attributes :: IsAttribute(a)
    requires forall b <- e.trail + e.blank :: IsBlankByte(b)
    requires e.selfClosing ==> e.children == [] && e.blank == []
    ensures WellFormed(e) <==> AllWellFormed(e.children)
  {
    forall i | 0 <= i < |e.trail| ensures XmlBlank(e.trail[i]) { assert e.trail[i] in e.trail + e.blank; }
    forall i | 0 <= i < |e.blank| ensures XmlBlank(e.blank[i]) { assert e.blank[i] in e.trail + e.blank; }
    forall i | 0 <= i < |e.name| ensures NameByte(e.name[i]) { assert e.name[i] in e.name; }
    forall i | 0 <= i < |e.attributes| ensures GoodAttribute(e.attributes[i]) { AttributeIs(e.attributes[i]); }
  }

  lemma AttributeIs(a: Attribute)
    requires IsAttribute(a)
    ensures GoodAttribute(a)
  {
    forall i | 0 <= i < |a.lead| ensures a.lead[i] != LT && !TagMark(a.lead[i]) { assert a.lead[i] in a.lead; }
    forall i | 0 <= i < |a.value| ensures a.value[i] != LT && a.value[i] != a.quote { assert a.value[i] in a.value; }
  }

  lemma {:induction false} AllAreContent(nodes: seq<Node>)
    ensures AllWellFormed(nodes) <==> forall node <- nodes :: WellFormed(node)
  {
    if nodes != [] {
      AllAreContent(nodes[1..]);
      FirstIsContent(nodes);
      if AllWellFormed(nodes) {
        forall node | node in nodes ensures WellFormed(node) {
          if node != nodes[0] { assert node in nodes[1..]; }
        }
      } else {
        assert exists node <- nodes :: !WellFormed(node);
      }
    }
  }

  lemma FirstIsContent(nodes: seq<Node>)
    requires nodes != []
    ensures AllWellFormed(nodes) <==> WellFormed(nodes[0]) && AllWellFormed(nodes[1..])
  {
  }

  // ----- what is left

  /** The element bears the qualifier and a name of the set. */
  ghost predicate InSet(cfg: Config, node: Node) {
    node.Element? && exists n <- cfg.names :: node.name == cfg.qualifier + n
  }

  /** Exactly the elements of the set go, with all they hold; every other node
      stays where it is, an element with what is left of its content. */
  lemma {:induction false} LeftOfOne(cfg: Config, node: Node)
    ensures WithoutSet(cfg, [node]) ==
      if InSet(cfg, node) then []
      else if node.Element? && !node.selfClosing then [node.(children := WithoutSet(cfg, node.children))]
      else [node]
    ensures WithoutSet(cfg, []) == []
  {
    assert [node][1..] == [];
  }

  lemma {:induction false} LeftInOrder(cfg: Config, a: seq<Node>, b: seq<Node>)
    ensures WithoutSet(cfg, a + b) == WithoutSet(cfg, a) + WithoutSet(cfg, b)
    decreases |a|
  {
    if a == [] {
      assert a + b == b;
    } else {
      LeftInOrder(cfg, a[1..], b);
      assert (a + b)[1..] == a[1..] + b;
    }
  }

  /** Each of them is reported by its local name, before those after it; what
      it holds is not. */
  lemma {:induction false} ReportedOne(cfg: Config, node: Node, p: nat, parsed: nat)
    ensures InSet(cfg, node) && p >= parsed ==>
      exists n <- cfg.names :: node.name == cfg.qualifier + n && Removed(cfg, [node], p, parsed) == [n]
    ensures !(InSet(cfg, node) && p >= parsed) ==>
      Removed(cfg, [node], p, parsed) ==
        if node.Element? && !node.selfClosing
        then Removed(cfg, node.children, p + |StartTag(node)|, parsed) else []
    ensures Removed(cfg, [], p, parsed) == []
  {
    assert [node][1..] == [];
  }

  lemma {:induction false} ReportedInOrder(cfg: Config, a: seq<Node>, b: seq<Node>, p: nat, parsed: nat)
    ensures Removed(cfg, a + b, p, parsed) == Removed(cfg, a, p, parsed) + Removed(cfg, b, p + |PrintAll(a)|, parsed)
    decreases |a|
  {
    hide RemovedIn, Print;
    if a == [] {
      assert a + b == b;
    } else {
      ReportedInOrder(cfg, a[1..], b, p + |Print(a[0])|, parsed);
      assert (a + b)[1..] == a[1..] + b;
    }
  }

  /** From a hand-over on, of the elements that begin before it none goes. */
  lemma {:induction false} LeftAfterHandOver(cfg: Config, node: Node, p: nat, parsed: nat)
    ensures Prune(cfg, [node], p, parsed) ==
      if InSet(cfg, node) && p >= parsed then []
      else if node.Element? && !node.selfClosing
      then [node.(children := Prune(cfg, node.children, p + |StartTag(node)|, parsed))]
      else [node]
    ensures Prune(cfg, [], p, parsed) == []
  {
    assert [node][1..] == [];
  }

  lemma {:induction false} LeftAfterInOrder(cfg: Config, a: seq<Node>, b: seq<Node>, p: nat, parsed: nat)
    ensures Prune(cfg, a + b, p, parsed) == Prune(cfg, a, p, parsed) + Prune(cfg, b, p + |PrintAll(a)|, parsed)
    decreases |a|
  {
    hide PruneNode, Print;
    if a == [] {
      assert a + b == b;
    } else {
      LeftAfterInOrder(cfg, a[1..], b, p + |Print(a[0])|, parsed);
      assert (a + b)[1..] == a[1..] + b;
    }
  }

  /** The bytes parsed before the hand-over are not given back again. */
  lemma ShownIs(w: Text, p: nat, parsed: nat)
    ensures |Shown(w, 0, parsed)| == if parsed <= |w| then |w| - parsed else 0
    ensures parsed <= |w| ==> w == w[..parsed] + Shown(w, 0, parsed)
  {
  }

  // ----- a document that is cut short

  /** Within a dropped element that is open. */
  ghost predicate IsOpen(m: Mode) {
    match m
    case Tag(_, depth, _, _) => depth >= 1
    case Cut(_, depth) => depth >= 1
    case Hidden(_, depth, end) => depth >= 1 && end != [0x3E]
    case _ => false
  }

  ghost function WordOf(m: Mode): Text
    requires IsOpen(m)
  {
    m.word
  }

  lemma {:induction false} StaysOpen(cfg: Config, d: Text, p: nat, parsed: nat, m: Mode)
    requires ValidConfig(cfg) && ValidMode(m) && IsOpen(m) && p < |d|
    requires !TagAt(d, p, [0x3C, 0x2F] + WordOf(m))
    ensures var s := Step(cfg, d, p, parsed, m);
      IsOpen(s.mode) && WordOf(s.mode) == WordOf(m) && MoveOutput(d, p, parsed, s) == NOTHING
  {
    hide TagAt, OpenerAt, At;
    assert CloseTag(m.word) == [0x3C, 0x2F] + WordOf(m) && TAG_END == [0x3E];
  }

  /** A dropped element without an end tag: nothing after it comes out. */
  lemma {:induction false} NeverClosed(cfg: Config, d: Text, p: nat, parsed: nat, m: Mode)
    requires ValidConfig(cfg) && ValidMode(m) && IsOpen(m)
    requires forall i: nat :: i < |d| ==> !TagAt(d, i, [0x3C, 0x2F] + WordOf(m))
    ensures Scan(cfg, d, p, parsed, m) == NOTHING
    decreases |d| - p
  {
    hide Step, TagAt, MoveOutput, IsOpen, WordOf;
    if p < |d| {
      var s := Step(cfg, d, p, parsed, m);
      StaysOpen(cfg, d, p, parsed, m);
      NeverClosed(cfg, d, s.next, parsed, s.mode);
    }
  }
}
