/**
 * `GradientTyGL.cpp`: `Gradient::getStops` sorts the colour stops by
 * offset with `std::stable_sort` the first time they are asked for and
 * remembers that it did.
 *
 * A stop offset is a `real` (the source compares floats with `<`). The sort
 * is modelled as the insertion sort that `stable_sort` may use on short
 * ranges: stable, and specified by `StableSorted`.
 */
module GradientTyGL {
  /** `Gradient::ColorStop`: an offset along the gradient and a colour. */
  datatype ColorStop = ColorStop(stop: real, red: real, green: real, blue: real, alpha: real)

  /** `compareStops`: strictly earlier offset. */
  predicate StopBefore(a: ColorStop, b: ColorStop)
  {
    a.stop < b.stop
  }

  ghost predicate Sorted(s: seq<ColorStop>)
  {
    forall i, j :: 0 <= i < j < |s| ==> s[i].stop <= s[j].stop
  }

  /** Inserting x after every stop whose offset is not greater than its own. */
  function Insert(sorted: seq<ColorStop>, x: ColorStop): (r: seq<ColorStop>)
    decreases |sorted|
  {
    if sorted == [] || !StopBefore(x, sorted[|sorted| - 1]) then sorted + [x]
    else Insert(sorted[..|sorted| - 1], x) + [sorted[|sorted| - 1]]
  }

  /** The reference order: each stop in turn inserted into the sorted prefix. */
  function StableSorted(s: seq<ColorStop>): seq<ColorStop>
  {
    if s == [] then [] else Insert(StableSorted(s[..|s| - 1]), s[|s| - 1])
  }

  /** The stops with offset o, in sequence order. */
  function WithOffset(s: seq<ColorStop>, o: real): seq<ColorStop>
  {
    if s == [] then []
    else WithOffset(s[..|s| - 1], o) + (if s[|s| - 1].stop == o then [s[|s| - 1]] else [])
  }

  lemma {:induction false} WithOffsetAppend(a: seq<ColorStop>, b: seq<ColorStop>, o: real)
    ensures WithOffset(a + b, o) == WithOffset(a, o) + WithOffset(b, o)
    decreases |b|
  {
    if b == [] {
      assert a + b == a;
    } else {
      assert (a + b)[..|a + b| - 1] == a + b[..|b| - 1];
      WithOffsetAppend(a, b[..|b| - 1], o);
    }
  }

  lemma {:induction false} InsertSameStops(sorted: seq<ColorStop>, x: ColorStop)
    ensures multiset(Insert(sorted, x)) == multiset(sorted) + multiset{x}
    decreases |sorted|
  {
    if sorted != [] && StopBefore(x, sorted[|sorted| - 1]) {
      var init, last := sorted[..|sorted| - 1], sorted[|sorted| - 1];
      assert sorted == init + [last];
      InsertSameStops(init, x);
    }
  }

  lemma {:induction false} InsertKeepsSorted(sorted: seq<ColorStop>, x: ColorStop)
    requires Sorted(sorted)
    ensures Sorted(Insert(sorted, x))
    decreases |sorted|
  {
    if sorted != [] && StopBefore(x, sorted[|sorted| - 1]) {
      var init, last := sorted[..|sorted| - 1], sorted[|sorted| - 1];
      InsertKeepsSorted(init, x);
      InsertSameStops(init, x);
      var r := Insert(init, x) + [last];
      forall i, j | 0 <= i < j < |r|
        ensures r[i].stop <= r[j].stop
      {
        if j == |r| - 1 {
          assert r[i] in multiset(init) + multiset{x};
        }
      }
    }
  }

  lemma {:induction false} InsertKeepsEqualOffsetsInOrder(sorted: seq<ColorStop>, x: ColorStop, o: real)
    ensures WithOffset(Insert(sorted, x), o) == WithOffset(sorted + [x], o)
    decreases |sorted|
  {
    if sorted != [] && StopBefore(x, sorted[|sorted| - 1]) {
      var init, last := sorted[..|sorted| - 1], sorted[|sorted| - 1];
      assert sorted == init + [last];
      InsertKeepsEqualOffsetsInOrder(init, x, o);
      WithOffsetAppend(Insert(init, x), [last], o);
      WithOffsetAppend(init, [x], o);
      WithOffsetAppend(init + [last], [x], o);
      WithOffsetAppend(init, [last], o);
      assert [x][..0] == [] && [last][..0] == [];
    }
  }

  /** Sorting yields the same stops, ascending by offset, and is stable:
      the stops sharing any one offset keep their original order. */
  lemma {:induction false} StableSortedIsStableSort(s: seq<ColorStop>)
    ensures Sorted(StableSorted(s))
    ensures multiset(StableSorted(s)) == multiset(s)
    ensures forall o :: WithOffset(StableSorted(s), o) == WithOffset(s, o)
  {
    if s != [] {
      var init, last := s[..|s| - 1], s[|s| - 1];
      assert s == init + [last];
      StableSortedIsStableSort(init);
      InsertKeepsSorted(StableSorted(init), last);
      InsertSameStops(StableSorted(init), last);
      forall o
        ensures WithOffset(StableSorted(s), o) == WithOffset(s, o)
      {
        InsertKeepsEqualOffsetsInOrder(StableSorted(init), last, o);
        WithOffsetAppend(StableSorted(init), [last], o);
        WithOffsetAppend(init, [last], o);
      }
    }
  }

  /** Sorting stops that are already sorted changes nothing. */
  lemma {:induction false} StableSortedOfSorted(s: seq<ColorStop>)
    requires Sorted(s)
    ensures StableSorted(s) == s
  {
    if s != [] {
      var init := s[..|s| - 1];
      StableSortedOfSorted(init);
      assert s == init + [s[|s| - 1]];
    }
  }

  /** Sorting twice is sorting once. */
  lemma StableSortedIdempotent(s: seq<ColorStop>)
    ensures StableSorted(StableSorted(s)) == StableSorted(s)
  {
    StableSortedIsStableSort(s);
    StableSortedOfSorted(StableSorted(s));
  }

  /** A gradient's stop list and whether it is known to be sorted. */
  class Gradient {
    var stops: seq<ColorStop>
    var stopsSorted: bool

    /** The flag is only set once the stops are in order. */
    ghost predicate Valid()
      reads this
    {
      stopsSorted ==> Sorted(stops)
    }

    /** A gradient with the given stops, not yet sorted. */
    constructor (initial: seq<ColorStop>)
      ensures Valid() && stops == initial && !stopsSorted
    {
      stops := initial;
      stopsSorted := false;
    }

    /** `getStops`: a sorted gradient returns its stops untouched; otherwise
        the stops are stably sorted in place (an empty list is left alone)
        and the gradient remembers that they are sorted. */
    method GetStops() returns (r: seq<ColorStop>)
      requires Valid()
      modifies this
      ensures Valid() && stopsSorted
      ensures old(stopsSorted) ==> stops == old(stops)
      ensures !old(stopsSorted) ==> stops == StableSorted(old(stops))
      ensures r == stops
    {
      if stopsSorted {
        return stops;
      }
      if |stops| != 0 {
        stops := SortStops(stops);
      }
      StableSortedIsStableSort(old(stops));
      stopsSorted := true;
      r := stops;
    }
  }

  /** The sorting pass: each stop is moved back past the stops with a
      strictly greater offset, so equal offsets keep their order. */
  method SortStops(s: seq<ColorStop>) returns (sorted: seq<ColorStop>)
    ensures sorted == StableSorted(s)
  {
    sorted := [];
    for i := 0 to |s|
      invariant sorted == StableSorted(s[..i])
    {
      assert s[..i + 1][..i] == s[..i];
      var x := s[i];
      var j := |sorted|;
      assert sorted[..j] == sorted && sorted[j..] == [];
      while j > 0 && StopBefore(x, sorted[j - 1])
        invariant 0 <= j <= |sorted|
        invariant Insert(sorted, x) == Insert(sorted[..j], x) + sorted[j..]
      {
        assert sorted[..j][..j - 1] == sorted[..j - 1];
        assert sorted[j - 1..] == [sorted[j - 1]] + sorted[j..];
        j := j - 1;
      }
      sorted := sorted[..j] + [x] + sorted[j..];
    }
    assert s[..|s|] == s;
  }

  /** The first call sorts and any later call returns the same stops
      without sorting again, so `getStops` is idempotent. */
  method GetStopsTwice(g: Gradient) returns (first: seq<ColorStop>, second: seq<ColorStop>)
    requires g.Valid()
    modifies g
    ensures first == second
    ensures Sorted(second) && multiset(second) == multiset(old(g.stops))
  {
    ghost var before := g.stops;
    ghost var wasSorted := g.stopsSorted;
    first := g.GetStops();
    second := g.GetStops();
    if !wasSorted {
      StableSortedIsStableSort(before);
    }
  }
}
