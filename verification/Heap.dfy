/** Build heaps under a memory cap (app/otp_heap.py), in gigabytes. */
module Heap {
  import opened Bytes

  const DEFAULT_HEAP := "12g"
  const DEFAULT_GB := 12
  const MIN_BUILD_HEADROOM_GB := 4

  // ----- heap strings

  predicate IsDigit(c: char) { '0' <= c <= '9' }

  predicate AllDigits(s: string) { s != "" && forall c <- s :: IsDigit(c) }

  function Value(s: string): (v: nat)
    requires forall c <- s :: IsDigit(c)
  {
    if s == "" then 0
    else
      var n := |s| - 1;
      assert s[n] in s && IsDigit(s[n]);
      var digit := s[n] as int - '0' as int;
      assert digit >= 0;
      10 * Value(s[..n]) + digit
  }

  function Digits(n: nat): (s: string)
    ensures AllDigits(s)
  {
    if n < 10 then [('0' as int + n) as char] else Digits(n / 10) + [('0' as int + n % 10) as char]
  }

  /** `str(n)` read back. */
  lemma {:induction false} DigitsRead(n: nat)
    ensures Value(Digits(n)) == n
  {
    var s := Digits(n);
    if n >= 10 {
      DigitsRead(n / 10);
      assert s[..|s| - 1] == Digits(n / 10);
    } else {
      assert s[..0] == "";
    }
  }

  /** `f"{n}"` for any integer. */
  function Number(n: int): string { if n < 0 then "-" + Digits(-n) else Digits(n) }

  predicate IsBlank(c: char) { c == ' ' || '\t' <= c <= '\r' }

  function Strip(s: string): string {
    if s == "" then s
    else if IsBlank(s[0]) then Strip(s[1..])
    else if IsBlank(s[|s| - 1]) then Strip(s[..|s| - 1])
    else s
  }

  /** `heap_to_gb`: digits and a unit; megabytes round up, to at least one. */
  function HeapToGb(heap: string): Option<nat> {
    var s := Strip(heap);
    if s == "" || !AllDigits(s[..|s| - 1]) then None
    else
      var quantity, unit := Value(s[..|s| - 1]), s[|s| - 1];
      if unit == 'g' || unit == 'G' then Some(quantity)
      else if unit == 'm' || unit == 'M' then Some(Max(1, (quantity + 1023) / 1024))
      else None
  }

  lemma {:induction false} GigabytesRead(n: int)
    ensures HeapToGb(Number(n) + "g") == if n >= 0 then Some(n) else None
  {
    var s := Number(n) + "g";
    assert s[|s| - 1] == 'g' && s[..|s| - 1] == Number(n);
    if n >= 0 {
      DigitsRead(n);
      assert s[0] == Digits(n)[0] && Digits(n)[0] in Digits(n);
    } else {
      assert s[0] == '-' && Number(n)[0] == '-' && '-' in Number(n);
    }
    assert Strip(s) == s;
  }

  function Headroom(gb: int, headroom: int): int { Max(MIN_BUILD_HEADROOM_GB, Max(gb / 6, headroom)) }

  /** `mem_limit_for_heap`: a malformed heap counts as the default. */
  function MemLimit(heap: string, headroom: int): string {
    var own := HeapToGb(heap);
    var gb := if heap != "" && own.Some? then own.value else DEFAULT_GB;
    Number(gb + Headroom(gb, headroom)) + "g"
  }

  lemma {:induction false} DefaultRead()
    ensures HeapToGb(DEFAULT_HEAP) == Some(DEFAULT_GB)
  {
    assert Digits(12) == Digits(1) + "2" && Digits(1) == "1";
    assert DEFAULT_HEAP == Number(12) + "g";
    GigabytesRead(12);
  }

  /** The cap derived for a heap of so many gigabytes. */
  function Cap(heap: int, headroom: int): int {
    var gb := if heap < 0 then DEFAULT_GB else heap;
    gb + Headroom(gb, headroom)
  }

  lemma {:induction false} CapIs(heap: int, headroom: int)
    ensures HeapToGb(MemLimit(Number(heap) + "g", headroom)) == Some(Cap(heap, headroom))
  {
    GigabytesRead(heap);
    GigabytesRead(Cap(heap, headroom));
  }

  /** The cap of a heap of so many gigabytes: the heap and the largest of four,
      a sixth of it, and the headroom asked for. */
  lemma {:induction false} CapOf(heap: nat, headroom: int, cap: int)
    ensures HeapToGb(MemLimit(Number(heap) + "g", headroom)) == Some(cap) <==>
      && cap >= heap + 4 && cap >= heap + heap / 6 && cap >= heap + headroom
      && (cap == heap + 4 || cap == heap + heap / 6 || cap == heap + headroom)
  {
    CapIs(heap, headroom);
  }

  /** More headroom asked for never narrows the cap, and each gigabyte past what
      the heap itself needs widens it by one. */
  lemma {:induction false} HeadroomWidens(heap: nat, headroom: int, more: nat)
    ensures Cap(heap, headroom) <= Cap(heap, headroom + more)
    ensures headroom >= 4 && headroom >= heap / 6 ==> Cap(heap, headroom + more) == Cap(heap, headroom) + more
  {
  }

  /** A heap not given, or not readable, gets the cap of twelve gigabytes. */
  lemma {:induction false} CapOfDefault(heap: string, headroom: int)
    requires heap == "" || HeapToGb(heap).None?
    ensures MemLimit(heap, headroom) == MemLimit("12g", headroom)
  {
    DefaultRead();
  }

  /** The caps the documentation pairs with heaps. */
  lemma {:induction false} Pairings()
    ensures Cap(8, 4) == 12 && Cap(24, 4) == 28 && Cap(36, 4) == 42 && Cap(48, 4) == 56 && Cap(64, 4) == 74
    ensures Cap(72, 4) == 84
  {
  }

  /** Megabytes count as the gigabytes they need, at least one. */
  lemma {:induction false} MegabytesRead(n: nat, gb: nat)
    ensures HeapToGb(Digits(n) + "m") == Some(gb) <==> gb >= 1 && 1024 * gb >= n && (gb == 1 || 1024 * (gb - 1) < n)
    ensures HeapToGb(Digits(n) + "M") == HeapToGb(Digits(n) + "m") && HeapToGb(Digits(n) + "G") == Some(n)
  {
    UnitRead(n, 'm');
    UnitRead(n, 'M');
    UnitRead(n, 'G');
  }

  lemma {:induction false} UnitRead(n: nat, unit: char)
    requires !IsBlank(unit)
    ensures var s := Digits(n) + [unit]; Strip(s) == s && s[|s| - 1] == unit && s[..|s| - 1] == Digits(n)
    ensures Value(Digits(n)) == n && AllDigits(Digits(n))
  {
    var s := Digits(n) + [unit];
    DigitsRead(n);
    assert s[0] == Digits(n)[0] && Digits(n)[0] in Digits(n);
    assert s[..|s| - 1] == Digits(n);
  }

  /** Blanks around a heap do not count; other text is no heap. */
  lemma {:induction false} BlanksIgnored(heap: string, blank: char)
    requires blank == ' ' || blank == '\t' || blank == '\n' || blank == '\r'
    ensures HeapToGb([blank] + heap) == HeapToGb(heap)
  {
    assert ([blank] + heap)[1..] == heap;
  }

  /** Anything but digits before the unit is no heap. */
  lemma {:induction false} NotANumber(heap: string, i: nat)
    requires i + 1 < |heap| && !('0' <= heap[i] <= '9') && !IsBlank(heap[0]) && !IsBlank(heap[|heap| - 1])
    ensures HeapToGb(heap) == None
  {
    assert Strip(heap) == heap;
    var s := heap[..|heap| - 1];
    assert s[i] == heap[i] && s[i] in s;
  }

  // ----- the search

  /** A larger heap needs a larger cap. */
  lemma {:induction false} CapRises(a: int, b: int, headroom: int)
    requires 0 <= a <= b
    ensures Cap(a, headroom) + (b - a) <= Cap(b, headroom)
  {
  }

  /** Past six sevenths of the room, two gigabytes more never fit. */
  lemma {:induction false} TwoMoreDoNot(heap: int, avail: int, headroom: int)
    requires heap >= 6 * avail / 7 && heap >= 0
    ensures Cap(heap + 2, headroom) > avail
  {
    assert (heap + 2) / 6 * 6 >= heap + 2 - 5;
  }

  ghost predicate Fits(heap: int, avail: int, headroom: int) { Cap(heap, headroom) <= avail }

  /** No heap of at least `min` fits. */
  ghost predicate NoneFrom(min: int, avail: int, headroom: int) {
    forall heap :: heap >= min ==> !Fits(heap, avail, headroom)
  }

  function FirstGuess(min: int, avail: int): int { Max(min, 6 * avail / 7) }

  /** No heap from the minimum up to the first guess fits: none fits at all. */
  lemma {:induction false} NoneFits(min: int, avail: int, headroom: int)
    requires avail < min || forall heap :: min <= heap <= FirstGuess(min, avail) ==> !Fits(heap, avail, headroom)
    ensures NoneFrom(min, avail, headroom)
  {
    var first := FirstGuess(min, avail);
    forall heap | heap >= min ensures !Fits(heap, avail, headroom) {
      if avail >= min && heap > first && first >= 0 {
        assert !Fits(first, avail, headroom);
        CapRises(first, heap, headroom);
      }
    }
  }

  /** The default heap fits below the first guess whenever a malformed one
      would, so the search never ends on one. */
  lemma {:induction false} NotNegative(min: int, avail: int, headroom: int, heap: int)
    requires Fits(heap, avail, headroom) && heap <= FirstGuess(min, avail)
    requires forall h :: heap < h <= FirstGuess(min, avail) ==> !Fits(h, avail, headroom)
    ensures heap >= 0
  {
    MalformedFits(min, avail, headroom, heap);
  }

  lemma {:induction false} MalformedFits(min: int, avail: int, headroom: int, heap: int)
    ensures heap < 0 && Fits(heap, avail, headroom) ==>
      Fits(DEFAULT_GB, avail, headroom) && DEFAULT_GB <= FirstGuess(min, avail)
  {
  }

  lemma {:induction false} TwoMore(min: int, avail: int, headroom: int, heap: int)
    requires 0 <= heap <= FirstGuess(min, avail)
    requires forall h :: heap < h <= FirstGuess(min, avail) ==> !Fits(h, avail, headroom)
    ensures !Fits(heap + 2, avail, headroom)
  {
    if heap == FirstGuess(min, avail) {
      TwoMoreDoNot(heap, avail, headroom);
    } else {
      assert !Fits(heap + 1, avail, headroom);
      CapRises(heap + 1, heap + 2, headroom);
    }
  }

  /** The heap found is the largest that fits, unless the first guess fits and
      so does one more. */
  lemma {:induction false} Largest(min: int, avail: int, headroom: int, heap: int)
    requires 0 <= heap <= FirstGuess(min, avail)
    requires forall h :: heap < h <= FirstGuess(min, avail) ==> !Fits(h, avail, headroom)
    ensures NoneFrom(heap + 1, avail, headroom) <==> !Fits(FirstGuess(min, avail) + 1, avail, headroom)
  {
    var first := FirstGuess(min, avail);
    if !Fits(first + 1, avail, headroom) {
      forall h | h >= heap + 1 ensures !Fits(h, avail, headroom) {
        if h > first { CapRises(first + 1, h, headroom); }
      }
    }
  }

  /** `auto_build_heap`: None exactly when no heap of at least the minimum fits;
      else one that fits, and two gigabytes more would not. It is the largest
      that fits exactly when one more than the first guess does not fit. */
  method AutoBuildHeap(host: int, reserve: int, min: int, headroom: int) returns (r: Option<string>, ghost gb: int)
    ensures r.None? <==> NoneFrom(min, host - reserve, headroom)
    ensures r.Some? ==> gb >= min && r.value == Number(gb) + "g" && HeapToGb(r.value) == Some(gb)
    ensures r.Some? ==> Fits(gb, host - reserve, headroom) && !Fits(gb + 2, host - reserve, headroom)
    ensures r.Some? ==>
      (NoneFrom(gb + 1, host - reserve, headroom) <==>
        !Fits(FirstGuess(min, host - reserve) + 1, host - reserve, headroom))
  {
    hide Cap, HeapToGb, MemLimit, Number;
    var avail := host - reserve;
    gb := 0;
    if avail < min {
      NoneFits(min, avail, headroom);
      return None, gb;
    }
    var heap := Max(min, (avail * 6) / 7);
    CapIs(heap, headroom);
    while heap > min && HeapToGb(MemLimit(Number(heap) + "g", headroom)).value > avail
      invariant min <= heap <= FirstGuess(min, avail)
      invariant HeapToGb(MemLimit(Number(heap) + "g", headroom)) == Some(Cap(heap, headroom))
      invariant forall h :: heap < h <= FirstGuess(min, avail) ==> !Fits(h, avail, headroom)
      decreases heap - min
    {
      heap := heap - 1;
      CapIs(heap, headroom);
    }
    if HeapToGb(MemLimit(Number(heap) + "g", headroom)).value > avail {
      NoneFits(min, avail, headroom);
      return None, gb;
    }
    gb := heap;
    assert gb >= min && Fits(gb, avail, headroom);
    NotNegative(min, avail, headroom, heap);
    TwoMore(min, avail, headroom, heap);
    Largest(min, avail, headroom, heap);
    GigabytesRead(heap);
    r := Some(Number(heap) + "g");
  }

  /** The caps of 24, 25 and 26 GB in a room of 29. */
  lemma RoomOf29()
    ensures FirstGuess(8, 29) == 24 && Fits(24, 29, 4) && Fits(25, 29, 4) && !Fits(26, 29, 4)
  {
  }

  /** With 37 GB, 8 of them reserved, it gives 24 although 25 fits. */
  method OneShort() returns (r: Option<string>)
    ensures r == Some("24g") && Fits(25, 29, 4)
  {
    RoomOf29();
    ghost var gb;
    r, gb := AutoBuildHeap(37, 8, 8, 4);
    CapRises(Min(gb + 2, 25), 25, 4);
    forall heap | heap >= 26 ensures !Fits(heap, 29, 4) { CapRises(26, heap, 4); }
    assert gb == 24;
    TwentyFour();
  }

  lemma {:induction false} TwentyFour()
    ensures Number(24) + "g" == "24g"
  {
    assert Digits(24) == Digits(2) + "4" && Digits(2) == "2";
  }
}
