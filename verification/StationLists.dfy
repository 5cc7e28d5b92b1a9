/** Lists of calls, counted without regard to their order. */
module StationLists {

  function Flat<A, B>(list: seq<A>, f: A -> seq<B>): seq<B> {
    if list == [] then [] else f(list[0]) + Flat(list[1..], f)
  }

  function Repeat<A>(x: A, n: nat): (r: seq<A>)
    ensures |r| == n && forall i :: 0 <= i < n ==> r[i] == x
  {
    seq(n, _ => x)
  }

  lemma {:induction false} RepeatCounts<A>(x: A, n: nat, y: A)
    ensures multiset(Repeat(x, n))[y] == if x == y then n else 0
  {
    if n > 0 {
      RepeatCounts(x, n - 1, y);
      assert Repeat(x, n) == Repeat(x, n - 1) + [x];
    }
  }

  lemma {:induction false} FlatConcat<A, B>(a: seq<A>, b: seq<A>, f: A -> seq<B>)
    ensures Flat(a + b, f) == Flat(a, f) + Flat(b, f)
  {
    if a == [] {
      assert a + b == b;
    } else {
      assert (a + b)[1..] == a[1..] + b;
      FlatConcat(a[1..], b, f);
    }
  }

  lemma {:induction false} FlatOne<A, B>(x: A, f: A -> seq<B>)
    ensures Flat([x], f) == f(x)
  {
    assert [x][1..] == [];
    assert Flat([x], f) == f(x) + [];
  }

  lemma {:induction false} FlatLast<A, B>(a: seq<A>, x: A, f: A -> seq<B>)
    ensures Flat(a + [x], f) == Flat(a, f) + f(x)
  {
    FlatConcat(a, [x], f);
    FlatOne(x, f);
  }

  /** Element-wise the same calls, in any order: the same calls. */
  lemma {:induction false} FlatSame<A, B>(list: seq<A>, f: A -> seq<B>, g: A -> seq<B>)
    requires forall x <- list :: multiset(f(x)) == multiset(g(x))
    ensures multiset(Flat(list, f)) == multiset(Flat(list, g))
  {
    if list != [] { FlatSame(list[1..], f, g); }
  }

  lemma {:induction false} FlatWithout<A, B>(list: seq<A>, i: nat, f: A -> seq<B>)
    requires i < |list|
    ensures multiset(Flat(list, f)) == multiset(f(list[i])) + multiset(Flat(list[..i] + list[i + 1..], f))
  {
    assert list == list[..i] + [list[i]] + list[i + 1..];
    FlatConcat(list[..i] + [list[i]], list[i + 1..], f);
    FlatLast(list[..i], list[i], f);
    FlatConcat(list[..i], list[i + 1..], f);
  }

  /** The order of the list does not matter. */
  lemma {:induction false} FlatPermuted<A, B>(a: seq<A>, b: seq<A>, f: A -> seq<B>)
    requires multiset(a) == multiset(b)
    ensures multiset(Flat(a, f)) == multiset(Flat(b, f))
    decreases |a|
  {
    assert |a| == |multiset(a)| == |multiset(b)| == |b|;
    if a != [] {
      assert a[0] in multiset(b);
      var i :| 0 <= i < |b| && b[i] == a[0];
      RestPermuted(a, b, i);
      FlatPermuted(a[1..], b[..i] + b[i + 1..], f);
      FlatWithout(b, i, f);
    }
  }

  lemma {:induction false} RestPermuted<A>(a: seq<A>, b: seq<A>, i: nat)
    requires multiset(a) == multiset(b) && a != [] && i < |b| && b[i] == a[0]
    ensures multiset(a[1..]) == multiset(b[..i] + b[i + 1..])
  {
    assert a == [a[0]] + a[1..] && b == b[..i] + [b[i]] + b[i + 1..];
    assert multiset(a[1..]) == multiset(a) - multiset{a[0]};
    assert multiset(b[..i] + b[i + 1..]) == multiset(b) - multiset{b[i]};
  }

  /** A list in another order and with other ways to write the same calls. */
  lemma {:induction false} FlatAlike<A, B>(a: seq<A>, b: seq<A>, f: A -> seq<B>, g: A -> seq<B>)
    requires multiset(a) == multiset(b) && forall x <- b :: multiset(f(x)) == multiset(g(x))
    ensures multiset(Flat(a, f)) == multiset(Flat(b, g))
  {
    FlatPermuted(a, b, f);
    FlatSame(b, f, g);
  }

  lemma {:induction false} SameMembers<A>(a: seq<A>, b: seq<A>)
    requires multiset(a) == multiset(b)
    ensures forall x :: x in a <==> x in b
  {
    forall x ensures x in a <==> x in b { assert x in a <==> x in multiset(a); }
  }

  lemma {:induction false} SameLength<A>(a: seq<A>, b: seq<A>)
    requires multiset(a) == multiset(b)
    ensures |a| == |b|
  {
    assert |a| == |multiset(a)| == |multiset(b)| == |b|;
  }

  // ----- nested lists

  function Then<A, B, C>(f: A -> seq<B>, g: B -> seq<C>): A -> seq<C> { x => Flat(f(x), g) }

  lemma {:induction false} FlatFlat<A, B, C>(list: seq<A>, f: A -> seq<B>, g: B -> seq<C>)
    ensures Flat(Flat(list, f), g) == Flat(list, Then(f, g))
  {
    if list != [] {
      FlatFlat(list[1..], f, g);
      FlatConcat(f(list[0]), Flat(list[1..], f), g);
    }
  }

  lemma {:induction false} FlatEqual<A, B>(list: seq<A>, f: A -> seq<B>, g: A -> seq<B>)
    requires forall x <- list :: f(x) == g(x)
    ensures Flat(list, f) == Flat(list, g)
  {
    if list != [] {
      assert list[0] in list;
      FlatEqual(list[1..], f, g);
    }
  }

  lemma {:induction false} FlatNothing<A, B>(list: seq<A>, f: A -> seq<B>)
    requires forall x <- list :: f(x) == []
    ensures Flat(list, f) == []
  {
    if list != [] {
      assert list[0] in list;
      FlatNothing(list[1..], f);
    }
  }

  function Row<A, B, C>(h: (A, B) -> seq<C>, x: A): B -> seq<C> { y => h(x, y) }

  function Column<A, B, C>(h: (A, B) -> seq<C>, y: B): A -> seq<C> { x => h(x, y) }

  function Rows<A, B, C>(h: (A, B) -> seq<C>, b: seq<B>): A -> seq<C> { x => Flat(b, Row(h, x)) }

  function Columns<A, B, C>(h: (A, B) -> seq<C>, a: seq<A>): B -> seq<C> { y => Flat(a, Column(h, y)) }

  lemma {:induction false} ColumnsSplit<A, B, C>(h: (A, B) -> seq<C>, a: seq<A>, b: seq<B>)
    requires a != []
    ensures multiset(Flat(b, Columns(h, a))) == multiset(Flat(b, Row(h, a[0]))) + multiset(Flat(b, Columns(h, a[1..])))
  {
    if b != [] {
      ColumnsSplit(h, a, b[1..]);
      assert Columns(h, a)(b[0]) == Row(h, a[0])(b[0]) + Columns(h, a[1..])(b[0]);
    }
  }

  /** It does not matter which of two lists is gone through first. */
  lemma {:induction false} Exchange<A, B, C>(h: (A, B) -> seq<C>, a: seq<A>, b: seq<B>)
    ensures multiset(Flat(a, Rows(h, b))) == multiset(Flat(b, Columns(h, a)))
  {
    if a == [] {
      FlatNothing(b, Columns(h, a));
    } else {
      Exchange(h, a[1..], b);
      ColumnsSplit(h, a, b);
    }
  }

  lemma {:induction false} RepeatFlat<A, B, C>(x: A, f: A -> seq<C>, y: B, g: B -> seq<C>, n: nat)
    requires f(x) == g(y)
    ensures Flat(Repeat(x, n), f) == Flat(Repeat(y, n), g)
  {
    if n > 0 {
      RepeatFlat(x, f, y, g, n - 1);
      assert Repeat(x, n)[1..] == Repeat(x, n - 1) && Repeat(y, n)[1..] == Repeat(y, n - 1);
    }
  }
}
