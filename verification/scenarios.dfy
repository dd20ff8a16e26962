/** Worked runs of the scan on the prices 10, 8, 9, 4, 12. */
module Scenarios {
  import opened Types
  import opened Scan
  import opened MaxLoss

  /** Without a restriction the drop 10 -> 4 from index 0 to index 3 is found. */
  lemma UnrestrictedRun()
    ensures GetMaxLoss(Some([10, 8, 9, 4, 12]), None, Undefined) == Found(Loss(6, 10, 4, 0, 3))
  {
    var w := [10, 8, 9, 4, 12];
    assert CheckArguments(Some(w), None, Undefined) == Accepted(w, Unrestricted, None);
    assert ScanTo(w, Unrestricted, None, 2) == ScanState(2, 1, 8, 0, 10, Some(Loss(2, 10, 8, 0, 1)));
    assert ScanTo(w, Unrestricted, None, 3) == ScanState(2, 1, 8, 0, 10, Some(Loss(2, 10, 8, 0, 1)));
    assert ScanTo(w, Unrestricted, None, 4) == ScanState(6, 3, 4, 0, 10, Some(Loss(6, 10, 4, 0, 3)));
  }

  /** With 'exact' and `days == 2` the drop 8 -> 4 from index 1 to index 3 is found. */
  lemma ExactRun()
    ensures GetMaxLoss(Some([10, 8, 9, 4, 12]), Some("exact"), Number(2)) == Found(Loss(4, 8, 4, 1, 3))
  {
    var w := [10, 8, 9, 4, 12];
    NamedRestrictionAccepted(w, 2);
    ExactScanFinds();
  }

  /** The 'exact' scan with `days == 2` records the drop 8 -> 4. */
  lemma ExactScanFinds()
    ensures Scanned([10, 8, 9, 4, 12], Exact, Some(2)) == Some(Loss(4, 8, 4, 1, 3))
  {
    ExactHead4();
  }

  /** Loop-head states of that scan, one iteration at a time. */
  lemma ExactHead2()
    ensures ScanTo([10, 8, 9, 4, 12], Exact, Some(2), 2) == ScanState(0, 0, 10, 0, 10, None)
  {
  }

  lemma ExactHead3()
    ensures ScanTo([10, 8, 9, 4, 12], Exact, Some(2), 3) == ScanState(1, 2, 9, 1, 8, Some(Loss(1, 10, 9, 0, 2)))
  {
    ExactHead2();
  }

  lemma ExactHead4()
    ensures ScanTo([10, 8, 9, 4, 12], Exact, Some(2), 4) == ScanState(4, 3, 4, 2, 9, Some(Loss(4, 8, 4, 1, 3)))
  {
    ExactHead3();
  }
}
