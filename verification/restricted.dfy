/** The 'exact' and 'less' restrictions (app.js:43-45, 80-83): the window
    forcing keeps the running high within `days` steps, so every loss found
    meets the restriction. */
module Restricted {
  import opened Types
  import opened Spec
  import opened Scan
  import opened ScanFacts
  import opened MaxLoss
  import Unrestricted

  /** The restriction named by a restricted mode. */
  function Name(mode: Mode): Option<string> {
    match mode
    case Unrestricted => None
    case Exact => Some("exact")
    case Less => Some("less")
  }

  /** One restricted iteration keeps the running high within the window. */
  lemma StepWindow(v: seq<int>, mode: Mode, d: int, s: ScanState, i: int)
    requires mode != Unrestricted && d >= 1 && i < |v|
    requires Sane(v, mode, Some(d), s, i) && 1 <= i - s.highIndex <= d
    ensures 1 <= i + 1 - Step(v, mode, Some(d), s, i).highIndex <= d
  {
    RisingIsDead(v, mode, Some(d), s, i);
  }

  /** At every loop head of a restricted scan with a valid `days`, the
      running high is between one and `days` steps back. */
  lemma {:induction false} WindowBounds(v: seq<int>, mode: Mode, d: int, n: int)
    requires mode != Unrestricted && d >= 1 && 1 <= n <= |v|
    ensures 1 <= n - ScanTo(v, mode, Some(d), n).highIndex <= d
  {
    if n > 1 {
      WindowBounds(v, mode, d, n - 1);
      ScanSane(v, mode, Some(d), n - 1);
      StepWindow(v, mode, d, ScanTo(v, mode, Some(d), n - 1), n - 1);
    }
  }

  /** A restricted mode with `days` undefined compares every distance with
      `undefined`, so nothing qualifies. */
  lemma RestrictedWithoutDaysNotFound(v: seq<int>, mode: Mode)
    requires |v| >= 2 && mode != Unrestricted
    ensures GetMaxLoss(Some(v), Name(mode), Undefined) == NotFound
  {
  }

  /** A restriction can only shrink the loss: whatever 'exact' or 'less'
      finds, the unrestricted scan finds a loss at least as large. */
  lemma RestrictedNoWorse(v: seq<int>, mode: Mode, days: Days)
    requires mode != Unrestricted && AcceptedArguments(Some(v), Name(mode), days)
    ensures GetMaxLoss(Some(v), Name(mode), days).Found? ==>
              && GetMaxLoss(Some(v), None, days).Found?
              && GetMaxLoss(Some(v), Name(mode), days).result.loss <= GetMaxLoss(Some(v), None, days).result.loss
  {
    Unrestricted.UnrestrictedOptimal(v, days);
    var r := GetMaxLoss(Some(v), Name(mode), days);
    if r.Found? {
      assert v[r.result.highIndex] > v[r.result.lowIndex];
    }
  }

  /** The loop invariant of a scan with `days == 1`: the running high is
      always the previous price, and the recorded result is the first
      largest one-step drop so far. */
  ghost predicate StepInv(v: seq<int>, mode: Mode, s: ScanState, i: int) {
    && Sane(v, mode, Some(1), s, i)
    && s.highIndex == i - 1
    && BoundsStepLosses(v, i, s.maxLoss)
    && (s.best.Some? ==> forall k :: 1 <= k < s.best.value.lowIndex ==> v[k - 1] - v[k] < s.best.value.loss)
  }

  /** With `days == 1` an iteration records the drop from the previous
      price when it beats `maxLoss`, and leaves the running high at `i`. */
  lemma SingleDayStep(v: seq<int>, mode: Mode, s: ScanState, i: int)
    requires mode != Unrestricted && i < |v| && Sane(v, mode, Some(1), s, i) && s.highIndex == i - 1
    ensures
      var t := Step(v, mode, Some(1), s, i);
      && t.highIndex == i
      && t.maxLoss == (if v[i - 1] - v[i] > s.maxLoss then v[i - 1] - v[i] else s.maxLoss)
      && (t.best != s.best ==> t.best == Some(Loss(v[i - 1] - v[i], v[i - 1], v[i], i - 1, i)))
  {
    RisingIsDead(v, mode, Some(1), s, i);
    assert Meets(mode, Some(1), i - s.highIndex);
  }

  /** One iteration with `days == 1` keeps `StepInv`. */
  lemma StepKeepsStepInv(v: seq<int>, mode: Mode, s: ScanState, i: int)
    requires mode != Unrestricted && i < |v| && StepInv(v, mode, s, i)
    ensures StepInv(v, mode, Step(v, mode, Some(1), s, i), i + 1)
  {
    StepSane(v, mode, Some(1), s, i);
    SingleDayStep(v, mode, s, i);
    var t := Step(v, mode, Some(1), s, i);
    forall k | 1 <= k < i + 1
      ensures v[k - 1] - v[k] <= t.maxLoss
    {
      if k < i {
        assert v[k - 1] - v[k] <= s.maxLoss;
      }
    }
    if t.best != s.best {
      forall k | 1 <= k < i
        ensures v[k - 1] - v[k] < t.best.value.loss
      {
        assert v[k - 1] - v[k] <= s.maxLoss;
      }
    }
  }

  /** `StepInv` holds at every loop head of a scan with `days == 1`. */
  lemma {:induction false} ScanStepInv(v: seq<int>, mode: Mode, n: int)
    requires mode != Unrestricted && 1 <= n <= |v|
    ensures StepInv(v, mode, ScanTo(v, mode, Some(1), n), n)
  {
    if n > 1 {
      ScanStepInv(v, mode, n - 1);
      StepKeepsStepInv(v, mode, ScanTo(v, mode, Some(1), n - 1), n - 1);
    }
  }

  /** With `days == 1`, 'exact' and 'less' both find the first largest
      one-step drop, and find a loss exactly when some price is above the next. */
  lemma SingleDay(v: seq<int>, mode: Mode)
    requires mode != Unrestricted && |v| >= 2
    ensures GetMaxLoss(Some(v), Name(mode), Number(1)).Found? <==> HasStepDecline(v)
    ensures GetMaxLoss(Some(v), Name(mode), Number(1)).NotFound? <==> !HasStepDecline(v)
    ensures GetMaxLoss(Some(v), Name(mode), Number(1)).Found? ==>
              IsEarliestMaxStepLoss(v, GetMaxLoss(Some(v), Name(mode), Number(1)).result)
  {
    ScanStepInv(v, mode, |v|);
  }

  /** A sequence has a drop somewhere exactly when it has a one-step drop,
      so with `days == 1` a loss is found exactly when one is found without
      a restriction. */
  lemma {:induction false} StepDeclineIffDecline(v: seq<int>)
    ensures HasStepDecline(v) <==> HasDecline(v)
  {
    if HasDecline(v) {
      var j, k :| 0 <= j < k < |v| && v[j] > v[k];
      StepDeclineBetween(v, j, k);
    }
  }

  /** A drop from `j` to `k` contains a one-step drop between them. */
  lemma {:induction false} StepDeclineBetween(v: seq<int>, j: int, k: int)
    requires 0 <= j < k < |v| && v[j] > v[k]
    ensures exists m :: j < m <= k && v[m - 1] > v[m]
    decreases k - j
  {
    if v[k - 1] <= v[k] {
      StepDeclineBetween(v, j, k - 1);
    }
  }

  /** With `days == 1` a restricted scan finds a loss exactly when the
      unrestricted scan does. */
  lemma SingleDayFindsIffUnrestricted(v: seq<int>, mode: Mode)
    requires mode != Unrestricted && |v| >= 2
    ensures GetMaxLoss(Some(v), Name(mode), Number(1)).Found? <==> GetMaxLoss(Some(v), None, Undefined).Found?
  {
    SingleDay(v, mode);
    Unrestricted.UnrestrictedOptimal(v, Undefined);
    StepDeclineIffDecline(v);
  }
}
