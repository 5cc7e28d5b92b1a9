/** Byte strings, and the searches the byte-level components share. */
module Bytes {
  newtype byte = x: int | 0 <= x < 256

  type Text = seq<byte>

  datatype Option<+T> = None | Some(value: T)

  const TAB: byte := 0x09
  const LF: byte := 0x0A
  const VT: byte := 0x0B
  const FF: byte := 0x0C
  const CR: byte := 0x0D
  const SPACE: byte := 0x20
  const BANG: byte := 0x21
  const DQUOTE: byte := 0x22
  const SQUOTE: byte := 0x27
  const DASH: byte := 0x2D
  const SLASH: byte := 0x2F
  const COLON: byte := 0x3A
  const LT: byte := 0x3C
  const EQUALS: byte := 0x3D
  const GT: byte := 0x3E
  const QUESTION: byte := 0x3F
  const LBRACKET: byte := 0x5B
  const RBRACKET: byte := 0x5D

  /** `word` stands at index `at` of `text`. */
  predicate At(text: Text, at: nat, word: Text) {
    at + |word| <= |text| && forall k :: 0 <= k < |word| ==> text[at + k] == word[k]
  }

  /** `bytes.find`: the first index of `word` within `text[start..stop]`. */
  function Find(text: Text, word: Text, start: nat, stop: nat): (r: Option<nat>)
    requires stop <= |text|
    ensures r.Some? ==> start <= r.value && r.value + |word| <= stop && At(text, r.value, word)
    ensures r.Some? ==> forall i: nat :: start <= i < r.value ==> !At(text, i, word)
    ensures r.None? ==> forall i: nat :: start <= i && i + |word| <= stop ==> !At(text, i, word)
    decreases stop - start
  {
    if start + |word| > stop then None
    else if At(text, start, word) then Some(start)
    else if start + 1 + |word| > stop then None
    else Find(text, word, start + 1, stop)
  }

  /** What stands in `text` stands at the same place in any longer text, and
      the other way round as far as `text` reaches. */
  lemma AtExtended(text: Text, rest: Text, at: nat, word: Text)
    ensures At(text, at, word) ==> At(text + rest, at, word)
    ensures at + |word| <= |text| ==> At(text + rest, at, word) == At(text, at, word)
  {
    if at + |word| <= |text| && At(text + rest, at, word) {
      forall k | 0 <= k < |word| ensures text[at + k] == word[k] {
        assert (text + rest)[at + k] == word[k];
      }
    }
  }

  /** A word that stands at `at` has its bytes there. */
  lemma AtByte(text: Text, at: nat, word: Text, k: nat)
    requires k < |word|
    ensures At(text, at, word) ==> text[at + k] == word[k]
  {
  }

  lemma AtSplit(text: Text, at: nat, v: Text, w: Text)
    ensures At(text, at, v + w) == (At(text, at, v) && At(text, at + |v|, w))
  {
    if At(text, at, v + w) {
      forall k | 0 <= k < |v| ensures text[at + k] == v[k] { assert (v + w)[k] == v[k]; }
      forall k | 0 <= k < |w| ensures text[at + |v| + k] == w[k] { assert (v + w)[|v| + k] == w[k]; }
    }
    if At(text, at, v) && At(text, at + |v|, w) {
      forall k | 0 <= k < |v + w| ensures text[at + k] == (v + w)[k] {
        if k >= |v| { assert text[at + |v| + (k - |v|)] == w[k - |v|]; }
      }
    }
  }

  /** Inside a word that stands in the text, the text is the word. */
  lemma AtWithin(text: Text, at: nat, word: Text, i: nat, inner: Text)
    requires At(text, at, word) && i + |inner| <= |word|
    ensures At(text, at + i, inner) == At(word, i, inner)
  {
    if At(text, at + i, inner) {
      forall k | 0 <= k < |inner| ensures word[i + k] == inner[k] { assert text[at + (i + k)] == word[i + k]; }
    }
    if At(word, i, inner) {
      forall k | 0 <= k < |inner| ensures text[at + i + k] == inner[k] { assert text[at + (i + k)] == word[i + k]; }
    }
  }

  lemma AtSlice(text: Text, at: nat, word: Text)
    ensures At(text, at, word) ==> text[at..at + |word|] == word
  {
  }

  function Concat(chunks: seq<Text>): Text {
    if chunks == [] then [] else chunks[0] + Concat(chunks[1..])
  }

  function Max(a: int, b: int): int { if a >= b then a else b }

  function Min(a: int, b: int): int { if a <= b then a else b }
}
