/** Reference definitions of "a loss" over a sequence of closing prices,
    stated over all index pairs and independent of any scan. */
module Spec {
  import opened Types

  /** `r` describes a genuine drop in `v`: its high comes strictly before its
      low, both values are read from `v`, and the loss is their positive difference. */
  ghost predicate Consistent(v: seq<int>, r: Loss) {
    && 0 <= r.highIndex < r.lowIndex < |v|
    && r.high == v[r.highIndex]
    && r.low == v[r.lowIndex]
    && r.loss == r.high - r.low
    && r.loss > 0
  }

  /** Some earlier price is strictly above some later one. */
  ghost predicate HasDecline(v: seq<int>) {
    exists j, k :: 0 <= j < k < |v| && v[j] > v[k]
  }

  /** Some price is strictly above the next one. */
  ghost predicate HasStepDecline(v: seq<int>) {
    exists k :: 1 <= k < |v| && v[k - 1] > v[k]
  }

  /** No pair whose later index is below `n` drops by more than `m`. */
  ghost predicate BoundsLosses(v: seq<int>, n: int, m: int)
    requires n <= |v|
  {
    forall j, k :: 0 <= j < k < n ==> v[j] - v[k] <= m
  }

  /** No adjacent pair whose later index is below `n` drops by more than `m`. */
  ghost predicate BoundsStepLosses(v: seq<int>, n: int, m: int)
    requires n <= |v|
  {
    forall k :: 1 <= k < n ==> v[k - 1] - v[k] <= m
  }

  /** `r` was reached first: no pair ending before `r.lowIndex` drops as
      much, and `r.high` is the earliest maximum of the prices before
      `r.lowIndex`. */
  ghost predicate ReachedFirst(v: seq<int>, r: Loss)
    requires Consistent(v, r)
  {
    && (forall j, k :: 0 <= j < k < r.lowIndex ==> v[j] - v[k] < r.loss)
    && (forall j :: 0 <= j < r.lowIndex ==> v[j] <= r.high)
    && (forall j :: 0 <= j < r.highIndex ==> v[j] < r.high)
  }

  /** `r` is the first-found largest drop: no pair drops more, and it was
      reached first. */
  ghost predicate IsEarliestMaxLoss(v: seq<int>, r: Loss) {
    && Consistent(v, r)
    && BoundsLosses(v, |v|, r.loss)
    && ReachedFirst(v, r)
  }

  /** `r` is the first-found largest one-step drop. */
  ghost predicate IsEarliestMaxStepLoss(v: seq<int>, r: Loss) {
    && Consistent(v, r)
    && r.lowIndex == r.highIndex + 1
    && BoundsStepLosses(v, |v|, r.loss)
    && (forall k :: 1 <= k < r.lowIndex ==> v[k - 1] - v[k] < r.loss)
  }
}
