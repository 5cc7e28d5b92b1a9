/** Tallies (app/station_extract_netex.py): the calls of a pattern, a point or
    a place by group number, packed into one integer while there is one group. */
module StationTally {
  import opened StationLists

  const SHIFT := 0x1_0000_0000

  /** `count << 32 | group`, or a dictionary once a second group comes. */
  datatype Tally = One(packed: nat) | Many(counts: map<int, nat>)

  function Pack(count: nat, group: int): (t: nat)
    requires 0 <= group < SHIFT
    ensures t / SHIFT == count && t % SHIFT == group
  {
    count * SHIFT + group
  }

  function CountOf(t: Tally, n: int): nat {
    match t
    case One(packed) => if packed % SHIFT == n then packed / SHIFT else 0
    case Many(counts) => if n in counts then counts[n] else 0
  }

  function CountAt<K>(table: map<K, Tally>, key: K, n: int): nat { if key in table then CountOf(table[key], n) else 0 }

  predicate Lists(t: Tally, n: int) {
    match t
    case One(packed) => packed % SHIFT == n
    case Many(counts) => n in counts
  }

  /** Every group listed has calls, and a number below `bound`. */
  ghost predicate Proper(t: Tally, bound: nat) { forall n :: Lists(t, n) ==> 0 <= n < bound && CountOf(t, n) > 0 }

  ghost predicate AllProper<K>(table: map<K, Tally>, bound: nat) { forall k <- table :: Proper(table[k], bound) }

  lemma {:induction false} AddProper<K(!new)>(table: map<K, Tally>, key: K, group: int, count: nat, bound: nat)
    requires AllProper(table, bound) && 0 <= group < bound <= SHIFT && count > 0
    ensures AllProper(TallyAdd(table, key, group, count), bound)
  {
    var after := TallyAdd(table, key, group, count);
    forall k | k in after ensures Proper(after[k], bound) {
      if k == key {
        forall n | Lists(after[key], n) ensures 0 <= n < bound && CountOf(after[key], n) > 0 {
          assert n == group || (key in table && Lists(table[key], n));
          assert CountAt(after, key, n) == CountOf(after[key], n);
        }
      }
    }
  }

  /** `_tally_add`: the packed form is a map from group to count. */
  function TallyAdd<K(!new)>(table: map<K, Tally>, key: K, group: int, count: nat): (after: map<K, Tally>)
    requires 0 <= group < SHIFT
    ensures after.Keys == table.Keys + {key}
    ensures forall k, n :: CountAt(after, k, n) == CountAt(table, k, n) + if k == key && n == group then count else 0
  {
    if key !in table then table[key := One(Pack(count, group))]
    else
      match table[key]
      case One(packed) =>
        if packed % SHIFT == group then table[key := One(packed + count * SHIFT)]
        else table[key := Many(map[packed % SHIFT := packed / SHIFT, group := count])]
      case Many(counts) => table[key := Many(counts[group := (if group in counts then counts[group] else 0) + count])]
  }

  // ----- a table stands for a list of single calls

  /** The table counts the calls of the list. */
  ghost predicate Stands<K(!new)>(table: map<K, Tally>, log: seq<(K, int)>) {
    forall k, n :: multiset(log)[(k, n)] == CountAt(table, k, n)
  }

  lemma {:induction false} AddStands<K(!new)>(table: map<K, Tally>, log: seq<(K, int)>, key: K, group: int, count: nat)
    requires 0 <= group < SHIFT && Stands(table, log)
    ensures Stands(TallyAdd(table, key, group, count), log + Repeat((key, group), count))
  {
    forall k: K, n: int
      ensures multiset(log + Repeat((key, group), count))[(k, n)] == CountAt(TallyAdd(table, key, group, count), k, n)
    {
      RepeatCounts((key, group), count, (k, n));
    }
  }

  /** The groups of a tally with their counts, each once. */
  ghost predicate ItemsOf(t: Tally, items: seq<(int, nat)>) {
    && (forall i, j :: 0 <= i < j < |items| ==> items[i].0 != items[j].0)
    && (forall i :: 0 <= i < |items| ==> items[i].1 == CountOf(t, items[i].0) && Lists(t, items[i].0))
    && forall n :: CountOf(t, n) > 0 ==> HasItem(items, n)
  }

  ghost predicate HasItem(items: seq<(int, nat)>, n: int) { exists i :: 0 <= i < |items| && items[i].0 == n }

  lemma {:induction false} MoreItems(items: seq<(int, nat)>, item: (int, nat), n: int)
    ensures HasItem(items + [item], n) <==> HasItem(items, n) || item.0 == n
  {
    var more := items + [item];
    if HasItem(items, n) {
      var i :| 0 <= i < |items| && items[i].0 == n;
      assert more[i].0 == n;
    }
    if item.0 == n { assert more[|items|].0 == n; }
  }

  /** `_tally_items`. */
  method TallyItems(t: Tally) returns (items: seq<(int, nat)>)
    ensures ItemsOf(t, items)
  {
    match t {
      case One(packed) =>
        items := [(packed % SHIFT, packed / SHIFT)];
        assert items[0].0 == packed % SHIFT && HasItem(items, packed % SHIFT);
      case Many(counts) =>
        items := Pairs(counts);
    }
  }

  method Pick<A>(from: set<A>) returns (x: A)
    requires from != {}
    ensures x in from
  {
    x :| x in from;
  }

  method Pairs(counts: map<int, nat>) returns (items: seq<(int, nat)>)
    ensures ItemsOf(Many(counts), items)
  {
    items := [];
    var left := counts.Keys;
    while left != {}
      invariant left <= counts.Keys
      invariant forall i, j :: 0 <= i < j < |items| ==> items[i].0 != items[j].0
      invariant forall i :: 0 <= i < |items| ==>
        items[i].0 in counts && items[i].0 !in left && items[i].1 == counts[items[i].0]
      invariant forall n <- counts :: n in left || HasItem(items, n)
      decreases |left|
    {
      var n := Pick(left);
      left := left - {n};
      forall m | m in counts ensures m in left || HasItem(items + [(n, counts[n])], m) {
        MoreItems(items, (n, counts[n]), m);
      }
      items := items + [(n, counts[n])];
    }
  }

  function Each(): ((int, nat)) -> seq<int> { (item: (int, nat)) => Repeat(item.0, item.1) }

  lemma {:induction false} ExpandCounts(items: seq<(int, nat)>, n: int)
    requires forall i, j :: 0 <= i < j < |items| ==> items[i].0 != items[j].0
    ensures (forall i :: 0 <= i < |items| ==> items[i].0 != n) ==> multiset(Flat(items, Each()))[n] == 0
    ensures forall i :: 0 <= i < |items| && items[i].0 == n ==> multiset(Flat(items, Each()))[n] == items[i].1
  {
    if items != [] {
      ExpandCounts(items[1..], n);
      RepeatCounts(items[0].0, items[0].1, n);
      assert Flat(items, Each()) == Repeat(items[0].0, items[0].1) + Flat(items[1..], Each());
      assert forall i :: 1 <= i < |items| ==> items[1..][i - 1] == items[i];
    }
  }

  /** A tally written out call by call. */
  lemma {:induction false} Expands(t: Tally, items: seq<(int, nat)>, n: int)
    requires ItemsOf(t, items)
    ensures multiset(Flat(items, Each()))[n] == CountOf(t, n)
  {
    ExpandCounts(items, n);
    if CountOf(t, n) > 0 {
      var i :| 0 <= i < |items| && items[i].0 == n;
    }
  }

  /** The calls of one key. */
  function AtKey<K(==)>(key: K): ((K, int)) -> seq<int> { (x: (K, int)) => if x.0 == key then [x.1] else [] }

  lemma {:induction false} AtKeyCounts<K(!new)>(log: seq<(K, int)>, key: K, n: int)
    ensures multiset(Flat(log, AtKey(key)))[n] == multiset(log)[(key, n)]
  {
    if log != [] {
      AtKeyCounts(log[1..], key, n);
      assert log == [log[0]] + log[1..];
      assert log[0] == (log[0].0, log[0].1);
    }
  }

  lemma {:induction false} StandsAt<K(!new)>(table: map<K, Tally>, log: seq<(K, int)>, key: K, n: int)
    requires Stands(table, log)
    ensures multiset(log)[(key, n)] == CountAt(table, key, n)
  {
  }

  /** The tally of a key, written out, is the calls of that key. */
  lemma {:induction false} TallyIsCalls<K(!new)>(
    table: map<K, Tally>, log: seq<(K, int)>, key: K, items: seq<(int, nat)>)
    requires Stands(table, log) && key in table && ItemsOf(table[key], items)
    ensures multiset(Flat(items, Each())) == multiset(Flat(log, AtKey(key)))
  {
    forall n: int ensures multiset(Flat(items, Each()))[n] == multiset(Flat(log, AtKey(key)))[n] {
      Expands(table[key], items, n);
      AtKeyCounts(log, key, n);
      StandsAt(table, log, key, n);
    }
  }

  lemma {:induction false} NoTallyNoCalls<K(!new)>(table: map<K, Tally>, log: seq<(K, int)>, key: K)
    requires Stands(table, log) && key !in table
    ensures forall x <- log :: x.0 != key
  {
    forall x | x in log ensures x.0 != key {
      StandsAt(table, log, x.0, x.1);
      assert x == (x.0, x.1) && x in multiset(log);
    }
  }
}
