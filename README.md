# neighbourhood — a Dafny model

The `ah1` neighbourhood utility computes, for an element of a half-open
range `[first, last)` and a bound `n >= 0`, the window of at most `n`
positions on each side of the element, clamped to the range:

- `neighbourhood_left(first, element, n)` steps `element` back by up to `n`,
  never before `first`; the result is `max(first, element - n)`.
- `neighbourhood_right(last, element, n)` steps `element` forward by up to
  `n + 1`, never past `last`; the result, `min(last, element + n + 1)`, is
  the exclusive end of the window.
- `neighbourhood(first, last, element, n)` returns the pair of the two, the
  window `[L, R)`, which contains `element` when `element < last`.

All three delegate the stepping to `advance_bounded(lo, hi, it, k)`, which
moves the iterator `it` by `k` steps in the direction of `k`'s sign without
leaving `[lo, hi]`.

Files:

- `advance_bounded.dfy`, module `AdvanceBounded`: the bounded advance as a
  method of unit steps (the way a bidirectional iterator moves), proved to
  land on `Clamp(it + k, lo, hi)`, the point of `[lo, hi]` nearest the target.
- `neighbourhood.dfy`, module `Neighbourhood`: two methods that call
  `Advance` and return the moved position, and a third that pairs their
  results, all specified by the closed forms `LeftStart`
  (= `max(first, element - n)`) and `RightEnd`
  (= `min(last, element + n + 1)`), and lemmas about the window.

Iterators are integer indices and the template parameter `Size` is an
unbounded `int`. Each `assert((n >= 0))` becomes the precondition `n >= 0`.
`neighbourhood_right` is modelled with `element <= last`; that covers
`element == last`, where the code returns `last`. The guarantee
`element < R` is stated for `element < last`.

For element 0 of `[0, 5)` with `n = 3` the window is `[0, 4)`: the left
side's unused room is not given to the right (`Neighbourhood.Examples`).
The first two arguments of `advance_bounded` are read as the lower and
upper bounds the iterator may move within; both call sites
(neighbourhood.hpp:19, :30) fit that reading.

## Model

| member | source | states |
|---|---|---|
| AdvanceBounded.Clamp | neighbourhood.hpp:19-30 | the result lies in `[lo, hi]` and no position of `[lo, hi]` is nearer to the requested target |
| AdvanceBounded.Advance | neighbourhood.hpp:19-30 | stepping `it` by `k` unit steps toward the sign of `k`, stopping at `hi` or `lo`, ends at the target clamped into `[lo, hi]` |
| AdvanceBounded.StepsTaken | neighbourhood.hpp:19-30 | a bounded advance takes at most `abs(k)` steps, all of them exactly when the target is in range, and otherwise stops on the bound it was heading for |
| Neighbourhood.LeftStart | neighbourhood.hpp:12-14 | the left start is in `[first, element]`, at most `n` before element, exactly `n` before it when there is room, and `first` when there is not |
| Neighbourhood.RightEnd | neighbourhood.hpp:23-25 | the right end is in `[element, last]`, past element when element is valid, at most `n` past `element + 1`, exactly `element + n + 1` when there is room, and `last` when there is not |
| Neighbourhood.NeighbourhoodLeft | neighbourhood.hpp:16-21 | for `n >= 0` and `first <= element`, the bounded backward advance of element returns `max(first, element - n)` |
| Neighbourhood.NeighbourhoodRight | neighbourhood.hpp:27-32 | for `n >= 0` and `element <= last`, the bounded forward advance by `n + 1` returns `min(last, element + n + 1)` |
| Neighbourhood.Neighbourhood | neighbourhood.hpp:34-47 | the pair is (left start, right end) computed independently, `first <= L <= element <= R <= last`, and `[L, R)` contains element when `element < last` |
| Neighbourhood.LeftStartIsBoundedAdvance | neighbourhood.hpp:19 | the closed form `max(first, element - n)` equals the clamp of `element - n` into `[first, element]` |
| Neighbourhood.RightEndIsBoundedAdvance | neighbourhood.hpp:30 | the closed form `min(last, element + n + 1)` equals the clamp of `element + n + 1` into `[element, last]` |
| Neighbourhood.LeftStartUnique | neighbourhood.hpp:12-20 | the bounds "in `[first, element]`, at most `n` back, and either exactly `n` back or at `first`" determine the left start |
| Neighbourhood.RightEndUnique | neighbourhood.hpp:23-31 | the bounds "in `[element, last]`, at most `n` past `element + 1`, and either exactly that or at `last`" determine the right end |
| Neighbourhood.SingleElementWindow | neighbourhood.hpp:43-46 | with `n = 0` the window of a valid element is `(element, element + 1)` |
| Neighbourhood.WholeRangeWindow | neighbourhood.hpp:43-46 | with `n >= last - first` the window is `(first, last)` |
| Neighbourhood.WindowSize | neighbourhood.hpp:43-46 | the window holds `min(n, element - first)` positions before element, element itself and `min(n, last - element - 1)` after it, at most `2n + 1` positions; unused room on one side does not go to the other |
| Neighbourhood.WindowMonotone | neighbourhood.hpp:34-46 | a larger bound gives a window containing the smaller bound's window |
| Neighbourhood.Examples | neighbourhood.hpp:43-46 | worked windows on `[0, 5)` and `[0, 1)`, including element 0 with `n = 3` giving `(0, 4)` |

## Left out

- The body of `advance_bounded`: that header is not part of this model. Only
  the contract its two call sites rely on is modelled, as unit steps on an
  index. Its complexity, such as constant-time jumps for random-access
  iterators, is not modelled.
- Iterator categories (bidirectional vs forward), template genericity and
  `std::pair`: positions are `int` indices and the pair is a Dafny tuple.
- Fixed-width `Size`: `n` is an unbounded integer. With a bounded signed
  `Size`, `n + 1` overflows at its maximum. With an unsigned `Size`,
  `assert((n >= 0))` always holds and `-n` wraps around. What then happens
  depends on the parameter type of `advance_bounded`, which is not part of
  this model.
- Release builds, where `assert` does nothing and a negative `n` is
  undefined behaviour: the model makes `n >= 0` a precondition.
- The contents of the window: the code only computes positions and never
  dereferences them.
