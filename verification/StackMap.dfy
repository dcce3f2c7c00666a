/** The stack map frame list: its in-place bubble sort and the delta encoding of the sorted targets. */
module StackMap {
  import opened Words

  // ----- sorting -----

  ghost predicate IsSorted(s: seq<u16>) {
    forall i :: 0 < i < |s| ==> s[i - 1] <= s[i]
  }

  /** Strictly rising: sorted, and no target twice. */
  ghost predicate Rising(s: seq<u16>) {
    forall i :: 0 < i < |s| ==> s[i - 1] < s[i]
  }

  ghost predicate Distinct(s: seq<u16>) {
    forall i, j :: 0 <= i < j < |s| ==> s[i] != s[j]
  }

  function Insert(x: u16, s: seq<u16>): (r: seq<u16>)
    ensures |r| == |s| + 1
    ensures r[0] == if s == [] || x <= s[0] then x else s[0]
    ensures IsSorted(s) ==> IsSorted(r)
  {
    if s == [] || x <= s[0] then [x] + s else [s[0]] + Insert(x, s[1..])
  }

  lemma {:induction false} InsertKeeps(x: u16, s: seq<u16>)
    ensures multiset(Insert(x, s)) == multiset(s)[x := multiset(s)[x] + 1]
  {
    if s == [] || x <= s[0] {
    } else {
      assert s == [s[0]] + s[1..];
      InsertKeeps(x, s[1..]);
    }
  }

  function Sorted(s: seq<u16>): (r: seq<u16>)
    ensures IsSorted(r)
  {
    if s == [] then [] else Insert(s[0], Sorted(s[1..]))
  }

  lemma {:induction false} SortedKeeps(s: seq<u16>)
    ensures multiset(Sorted(s)) == multiset(s)
  {
    hide Insert;
    if s != [] {
      assert s == [s[0]] + s[1..];
      SortedKeeps(s[1..]);
      InsertKeeps(s[0], Sorted(s[1..]));
    }
  }

  lemma {:induction false} SortedFrom(s: seq<u16>, i: nat, j: nat)
    requires IsSorted(s) && i <= j < |s|
    ensures s[i] <= s[j]
    decreases j
  {
    if i < j {
      SortedFrom(s, i, j - 1);
    }
  }

  lemma FirstLeast(s: seq<u16>, x: u16)
    requires IsSorted(s) && x in s
    ensures s[0] <= x
  {
    var j :| 0 <= j < |s| && s[j] == x;
    SortedFrom(s, 0, j);
  }

  lemma SameStart(a: seq<u16>, b: seq<u16>)
    requires IsSorted(a) && IsSorted(b) && multiset(a) == multiset(b) && a != []
    ensures b != [] && a[0] == b[0]
  {
    hide IsSorted;
    assert a[0] in multiset(b);
    assert b[0] in multiset(a);
    FirstLeast(a, b[0]);
    FirstLeast(b, a[0]);
  }

  /** There is only one sorted arrangement. */
  lemma {:induction false} SortedUnique(a: seq<u16>, b: seq<u16>)
    requires IsSorted(a) && IsSorted(b) && multiset(a) == multiset(b)
    ensures a == b
  {
    hide IsSorted;
    if a == [] {
      assert |multiset(b)| == 0;
    } else {
      SameStart(a, b);
      Rest(a);
      Rest(b);
      SortedUnique(a[1..], b[1..]);
    }
  }

  lemma Rest(a: seq<u16>)
    requires a != []
    ensures multiset(a[1..]) == multiset(a) - multiset{a[0]} && a == [a[0]] + a[1..]
    ensures IsSorted(a) ==> IsSorted(a[1..])
  {
    assert a == [a[0]] + a[1..];
  }

  function Below(x: u16, s: seq<u16>): nat {
    if s == [] then 0 else (if s[0] < x then 1 else 0) + Below(x, s[1..])
  }

  /** The number of pairs that are out of order. */
  function Inversions(s: seq<u16>): nat {
    if s == [] then 0 else Below(s[0], s[1..]) + Inversions(s[1..])
  }

  function Swap(s: seq<u16>, i: nat): seq<u16>
    requires 0 < i < |s|
  {
    s[i - 1 := s[i]][i := s[i - 1]]
  }

  lemma {:induction false} BelowSwap(x: u16, s: seq<u16>, i: nat)
    requires 0 < i < |s|
    ensures Below(x, Swap(s, i)) == Below(x, s)
  {
    var t := Swap(s, i);
    if i == 1 {
      assert t[1..][1..] == s[1..][1..];
    } else {
      assert t[1..] == Swap(s[1..], i - 1);
      BelowSwap(x, s[1..], i - 1);
    }
  }

  /** Swapping a neighbouring pair that is out of order removes exactly one inversion. */
  lemma {:induction false} SwapInversions(s: seq<u16>, i: nat)
    requires 0 < i < |s| && s[i - 1] > s[i]
    ensures Inversions(Swap(s, i)) + 1 == Inversions(s)
  {
    var t := Swap(s, i);
    if i == 1 {
      assert t[1..][1..] == s[1..][1..];
      assert Below(s[0], s[1..]) == 1 + Below(s[0], s[1..][1..]);
      assert Below(t[0], t[1..]) == Below(s[1], s[1..][1..]);
    } else {
      assert t[1..] == Swap(s[1..], i - 1);
      BelowSwap(s[0], s[1..], i - 1);
      SwapInversions(s[1..], i - 1);
    }
  }

  class StackMapFrames {
    /** The target offsets; the other members of a frame are filled in when it is written. */
    var items: array<u16>
    var size: nat

    ghost predicate Valid()
      reads this
    {
      size <= items.Length
    }

    ghost function Targets(): seq<u16>
      reads this, items
      requires Valid()
    {
      items[..size]
    }

    constructor ()
      ensures Valid() && fresh(items) && Targets() == []
    {
      items := new u16[0];
      size := 0;
    }

    /** Doubles the array when it is full. */
    method Append(target: u16)
      requires Valid()
      modifies this, items
      ensures Valid() && (items == old(items) || fresh(items))
      ensures Targets() == old(Targets()) + [target]
    {
      if items.Length <= size {
        var grown := new u16[if items.Length == 0 then 64 else 2 * items.Length];
        forall k | 0 <= k < size {
          grown[k] := items[k];
        }
        items := grown;
      }
      items[size] := target;
      size := size + 1;
    }

    /** Passes over the whole list until one pass swaps nothing; every swapping pass removes inversions. */
    method Sort()
      requires Valid()
      modifies items
      ensures Valid() && Targets() == Sorted(old(Targets()))
    {
      var swapped := true;
      while swapped
        invariant multiset(Targets()) == multiset(old(Targets()))
        invariant !swapped ==> IsSorted(Targets())
        decreases Inversions(Targets()), swapped
      {
        swapped := Pass();
      }
      SortedKeeps(old(Targets()));
      SortedUnique(Targets(), Sorted(old(Targets())));
    }

    /** One pass: swaps every neighbouring pair found out of order. */
    method Pass() returns (swapped: bool)
      requires Valid()
      modifies items
      ensures Valid() && multiset(Targets()) == multiset(old(Targets()))
      ensures if swapped then Inversions(Targets()) < Inversions(old(Targets()))
              else Targets() == old(Targets()) && IsSorted(Targets())
    {
      hide Inversions, Below;
      swapped := false;
      var i := 1;
      while i < size
        invariant 1 <= i
        invariant multiset(Targets()) == multiset(old(Targets()))
        invariant if swapped then Inversions(Targets()) < Inversions(old(Targets()))
                  else Targets() == old(Targets()) && Ascending(if i <= size then i else size)
      {
        if items[i - 1] > items[i] {
          ghost var before := Targets();
          SwapInversions(before, i);
          SwapKeeps(before, i);
          items[i - 1], items[i] := items[i], items[i - 1];
          assert Targets() == Swap(before, i);
          swapped := true;
        }
        i := i + 1;
      }
    }

    /** The first `n` targets are sorted. */
    ghost predicate Ascending(n: nat)
      requires Valid()
      reads this, items
    {
      n <= size && IsSorted(items[..n])
    }
  }

  lemma SwapKeeps(s: seq<u16>, i: nat)
    requires 0 < i < |s|
    ensures multiset(Swap(s, i)) == multiset(s)
  {
  }

  // ----- offset deltas -----

  /** The running sum that the writer keeps in a `uint16_t`. */
  function Previous(s: seq<u16>, i: nat): u16
    requires i <= |s|
    decreases i, 0
  {
    if i == 0 then 0 else ToU16(Previous(s, i - 1) + Delta(s, i - 1))
  }

  /** The offset_delta written for frame `i`. */
  function Delta(s: seq<u16>, i: nat): u16
    requires i < |s|
    decreases i, 1
  {
    if i == 0 then s[0] else ToU16(s[i] - Previous(s, i) - i)
  }

  function Deltas(s: seq<u16>): (d: seq<u16>)
    ensures |d| == |s|
  {
    seq(|s|, i requires 0 <= i < |s| => Delta(s, i))
  }

  /** Section 4.7.4 of the JVM Specification SE8: the offset of frame `i` from the deltas. */
  function Decoded(d: seq<u16>, i: nat): nat
    requires i < |d|
  {
    if i == 0 then d[0] else Decoded(d, i - 1) + d[i] + 1
  }

  /** Adding back what was subtracted before wrapping. */
  lemma AddBack(p: int, y: int)
    ensures ToU16(p + ToU16(y - p)) == ToU16(y)
  {
    var q := (y - p) / 65536;
    assert p + ToU16(y - p) == y - 65536 * q;
    DivModUnique(y - 65536 * q, y / 65536 - q, y % 65536, 65536);
  }

  /** The running sum is the last target less the number of frames before it. */
  lemma PreviousIs(s: seq<u16>, i: nat)
    requires 0 < i <= |s|
    ensures Previous(s, i) == ToU16(s[i - 1] as int - (i - 1))
  {
    if i > 1 {
      AddBack(Previous(s, i - 1), s[i - 1] as int - (i - 1));
    }
  }

  lemma DeltaIs(s: seq<u16>, i: nat)
    requires 0 < i < |s|
    ensures Delta(s, i) == ToU16(s[i] as int - s[i - 1] - 1)
  {
    PreviousIs(s, i);
    var y := s[i] as int - i;
    var x := s[i - 1] as int - (i - 1);
    var q := x / 65536;
    assert ToU16(x) == x - 65536 * q;
    DivModUnique(y - ToU16(x), (y - x) / 65536 + q, (y - x) % 65536, 65536);
  }

  lemma FirstDelta(s: seq<u16>)
    requires s != []
    ensures |Deltas(s)| == |s| && Deltas(s)[0] == s[0]
  {
  }

  lemma DeltaSmall(s: seq<u16>, i: nat)
    requires 0 < i < |s| && s[i - 1] < s[i]
    ensures |Deltas(s)| == |s| && Deltas(s)[i] as int == s[i] as int - s[i - 1] as int - 1
  {
    DeltaIs(s, i);
    assert Deltas(s)[i] == Delta(s, i);
  }

  lemma {:induction false} DecodedRising(s: seq<u16>, i: nat)
    requires i < |s| && forall k :: 0 < k <= i ==> s[k - 1] < s[k]
    ensures Decoded(Deltas(s), i) == s[i]
  {
    hide Delta, Deltas;
    if i > 0 {
      DecodedRising(s, i - 1);
      DeltaSmall(s, i);
    } else {
      FirstDelta(s);
    }
  }

  /** From the first repeated target on, the decoded offsets lie outside every method. */
  lemma {:induction false} DecodedTwice(s: seq<u16>, k: nat, i: nat)
    requires 0 < k <= i < |s| && s[k - 1] == s[k]
    ensures Decoded(Deltas(s), i) >= 65536
    decreases i
  {
    if k < i {
      DecodedTwice(s, k, i - 1);
    } else {
      DeltaIs(s, i);
      assert Deltas(s)[i] == 65535;
    }
  }

  /** Reading the deltas back gives the sorted targets exactly when no target occurs twice. */
  lemma DeltasRoundTrip(s: seq<u16>)
    requires IsSorted(s)
    ensures (forall i :: 0 <= i < |s| ==> Decoded(Deltas(s), i) == s[i]) <==> Rising(s)
  {
    if k :| 0 < k < |s| && s[k - 1] == s[k] {
      DecodedTwice(s, k, k);
      assert Decoded(Deltas(s), k) != s[k];
      assert !Rising(s);
    } else {
      forall i | 0 <= i < |s| ensures Decoded(Deltas(s), i) == s[i] {
        DecodedRising(s, i);
      }
    }
  }

  /** The subtraction behind the delta of frame `i` stays in range. */
  predicate Exact(s: seq<u16>, i: nat)
    requires 0 < i < |s|
  {
    s[i] as int - Previous(s, i) - i >= 0 && Delta(s, i) as int == s[i] as int - Previous(s, i) - i
  }

  lemma {:induction false} AtLeastIndex(s: seq<u16>, i: nat)
    requires i < |s| && forall k :: 0 < k <= i ==> s[k - 1] < s[k]
    ensures s[i] >= i
  {
    if i > 0 {
      AtLeastIndex(s, i - 1);
    }
  }

  lemma FirstRepeat(s: seq<u16>) returns (k: nat)
    requires IsSorted(s) && !Rising(s)
    ensures 0 < k < |s| && s[k - 1] == s[k] && forall j :: 0 < j < k ==> s[j - 1] < s[j]
  {
    k := 1;
    while s[k - 1] < s[k]
      invariant 0 < k < |s| && forall j :: 0 < j < k ==> s[j - 1] < s[j]
      decreases |s| - k
    {
      if k + 1 == |s| {
        assert false;
      }
      k := k + 1;
    }
  }

  /** No 16-bit subtraction of the writer wraps exactly when no target occurs twice. */
  lemma NothingWraps(s: seq<u16>)
    requires IsSorted(s)
    ensures (forall i :: 0 < i < |s| ==> Exact(s, i)) <==> Rising(s)
  {
    hide Delta, Previous;
    if Rising(s) {
      forall i | 0 < i < |s| ensures Exact(s, i) {
        AtLeastIndex(s, i - 1);
        PreviousIs(s, i);
        DeltaIs(s, i);
      }
    } else {
      var k := FirstRepeat(s);
      AtLeastIndex(s, k - 1);
      PreviousIs(s, k);
      assert !Exact(s, k);
    }
  }

  lemma {:induction false} RisingFrom(s: seq<u16>, i: nat, j: nat)
    requires Rising(s) && i < j < |s|
    ensures s[i] < s[j]
    decreases j
  {
    if i < j - 1 {
      RisingFrom(s, i, j - 1);
    }
  }

  /** A list has a strictly rising arrangement exactly when its members are distinct. */
  lemma SortedRises(s: seq<u16>)
    ensures Rising(Sorted(s)) <==> Distinct(s)
  {
    SortedKeeps(s);
    DistinctCounts(s);
    DistinctCounts(Sorted(s));
    if Rising(Sorted(s)) {
      forall i, j | 0 <= i < j < |Sorted(s)| ensures Sorted(s)[i] != Sorted(s)[j] {
        RisingFrom(Sorted(s), i, j);
      }
    }
    if Distinct(Sorted(s)) {
      forall i | 0 < i < |Sorted(s)| ensures Sorted(s)[i - 1] < Sorted(s)[i] {
        assert Sorted(s)[i - 1] != Sorted(s)[i];
      }
    }
  }

  lemma {:induction false} DistinctCounts(s: seq<u16>)
    ensures Distinct(s) <==> forall x :: multiset(s)[x] <= 1
  {
    if s != [] {
      Rest(s);
      DistinctCounts(s[1..]);
      DistinctRest(s);
      assert multiset(s) == multiset(s[1..])[s[0] := multiset(s[1..])[s[0]] + 1];
      assert s[0] in s[1..] <==> multiset(s[1..])[s[0]] >= 1;
    }
  }

  lemma DistinctRest(s: seq<u16>)
    requires s != []
    ensures Distinct(s) <==> s[0] !in s[1..] && Distinct(s[1..])
  {
    if s[0] !in s[1..] && Distinct(s[1..]) {
      forall i, j | 0 <= i < j < |s| ensures s[i] != s[j] {
        assert s[j] == s[1..][j - 1];
        if i > 0 {
          assert s[i] == s[1..][i - 1];
        }
      }
    }
    if Distinct(s) {
      forall i, j | 0 <= i < j < |s[1..]| ensures s[1..][i] != s[1..][j] {
        assert s[i + 1] != s[j + 1];
      }
      forall j | 0 <= j < |s[1..]| ensures s[1..][j] != s[0] {
        assert s[0] != s[j + 1];
      }
    }
  }
}
