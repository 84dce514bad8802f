/**
 * The neighbourhood of an element in a half-open range [first, last): at
 * most n positions on each side of the element, clamped to the range.
 * Iterators are integer indices; `neighbourhood_left` and
 * `neighbourhood_right` step their by-value `element` through a bounded
 * advance and return it, `neighbourhood` pairs the two results.
 */
module Neighbourhood {
  import opened AdvanceBounded

  function Min(a: int, b: int): (m: int) { if a <= b then a else b }

  /**
   * Start of the left neighbourhood, max(first, element - n): n positions
   * before element when there is room, otherwise first.
   */
  function LeftStart(first: int, element: int, n: int): (l: int)
    requires 0 <= n && first <= element
    ensures first <= l <= element
    ensures element - l <= n
    ensures n <= element - first ==> element - l == n
    ensures element - first < n ==> l == first
  {
    if element - n < first then first else element - n
  }

  /**
   * Exclusive end of the right neighbourhood, min(last, element + n + 1):
   * one past the n-th position after element when there is room, otherwise
   * last.
   */
  function RightEnd(last: int, element: int, n: int): (r: int)
    requires 0 <= n && element <= last
    ensures element <= r <= last
    ensures element < last ==> element < r
    ensures r - (element + 1) <= n
    ensures n + 1 <= last - element ==> r == element + n + 1
    ensures last - element < n + 1 ==> r == last
  {
    if last < element + n + 1 then last else element + n + 1
  }

  /**
   * neighbourhood_left: steps element back by n, bounded below by first.
   * The debug assertion on n is the first precondition.
   */
  method NeighbourhoodLeft(first: int, element: int, n: int) returns (l: int)
    requires n >= 0
    requires first <= element
    ensures l == LeftStart(first, element, n)
  {
    // The bounded range is [first, element] and the position that moves is
    // element itself, so the step of -n can only go backward.
    l := Advance(first, element, element, -n);
  }

  /**
   * neighbourhood_right: steps element forward by n + 1, bounded above by
   * last; the extra step makes the result an exclusive end.
   */
  method NeighbourhoodRight(last: int, element: int, n: int) returns (r: int)
    requires n >= 0
    requires element <= last
    ensures r == RightEnd(last, element, n)
  {
    // The bounded range is [element, last], entered at its lower end.
    r := Advance(element, last, element, n + 1);
  }

  /**
   * neighbourhood: the two sides computed independently and returned as the
   * pair (L, R) of the half-open window [L, R), which holds element.
   */
  method Neighbourhood(first: int, last: int, element: int, n: int) returns (w: (int, int))
    requires n >= 0
    requires first <= element <= last
    ensures w == (LeftStart(first, element, n), RightEnd(last, element, n))
    ensures first <= w.0 <= element <= w.1 <= last
    ensures element < last ==> w.0 <= element < w.1
  {
    var l := NeighbourhoodLeft(first, element, n);
    var r := NeighbourhoodRight(last, element, n);
    w := (l, r);
  }

  /**
   * The left start is the bounded advance of element by -n within
   * [first, element]. NeighbourhoodLeft already establishes this link; the
   * lemma states it on its own for a reader.
   */
  lemma LeftStartIsBoundedAdvance(first: int, element: int, n: int)
    requires 0 <= n && first <= element
    ensures LeftStart(first, element, n) == Clamp(element - n, first, element)
  {
  }

  /**
   * The right end is the bounded advance of element by n + 1 within
   * [element, last]. NeighbourhoodRight already establishes this link; the
   * lemma states it on its own for a reader.
   */
  lemma RightEndIsBoundedAdvance(last: int, element: int, n: int)
    requires 0 <= n && element <= last
    ensures RightEnd(last, element, n) == Clamp(element + n + 1, element, last)
  {
  }

  /**
   * The postconditions of LeftStart determine it: any position in
   * [first, element] at most n before element that is either exactly n
   * before it or first itself is the left start.
   */
  lemma LeftStartUnique(first: int, element: int, n: int, l: int)
    requires 0 <= n && first <= l <= element
    requires element - l <= n
    requires element - l == n || l == first
    ensures l == LeftStart(first, element, n)
  {
  }

  /** Likewise for the right end. */
  lemma RightEndUnique(last: int, element: int, n: int, r: int)
    requires 0 <= n && element <= r <= last
    requires r - (element + 1) <= n
    requires r - (element + 1) == n || r == last
    ensures r == RightEnd(last, element, n)
  {
  }

  /** With n = 0 the window of a valid element is that element alone. */
  lemma SingleElementWindow(first: int, last: int, element: int)
    requires first <= element < last
    ensures LeftStart(first, element, 0) == element
    ensures RightEnd(last, element, 0) == element + 1
  {
  }

  /** With n at least the length of the range the window is the whole range. */
  lemma WholeRangeWindow(first: int, last: int, element: int, n: int)
    requires first <= element <= last
    requires last - first <= n
    ensures LeftStart(first, element, n) == first
    ensures RightEnd(last, element, n) == last
  {
  }

  /**
   * The two sides are clamped independently: the window holds the element,
   * min(n, element - first) positions before it and min(n, last - element - 1)
   * after it. Room that one side cannot use is not passed to the other.
   */
  lemma WindowSize(first: int, last: int, element: int, n: int)
    requires 0 <= n && first <= element < last
    ensures RightEnd(last, element, n) - LeftStart(first, element, n)
            == Min(n, element - first) + 1 + Min(n, last - element - 1)
    ensures RightEnd(last, element, n) - LeftStart(first, element, n) <= 2 * n + 1
  {
  }

  /** A larger bound gives a window that contains the smaller one. */
  lemma WindowMonotone(first: int, last: int, element: int, n: int, m: int)
    requires 0 <= n <= m && first <= element <= last
    ensures LeftStart(first, element, m) <= LeftStart(first, element, n)
    ensures RightEnd(last, element, n) <= RightEnd(last, element, m)
  {
  }

  /**
   * Worked windows over a five-element range [0, 5) and a one-element range
   * [0, 1). For element 0 and n = 3 the right end is 4: the left side has
   * no room, and its unused budget is not added to the right side.
   */
  lemma Examples()
    ensures (LeftStart(0, 2, 1), RightEnd(5, 2, 1)) == (1, 4)
    ensures (LeftStart(0, 0, 2), RightEnd(5, 0, 2)) == (0, 3)
    ensures (LeftStart(0, 4, 2), RightEnd(5, 4, 2)) == (2, 5)
    ensures (LeftStart(0, 0, 5), RightEnd(1, 0, 5)) == (0, 1)
    ensures (LeftStart(0, 0, 3), RightEnd(5, 0, 3)) == (0, 4)
  {
  }
}
