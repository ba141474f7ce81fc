/** `ProgressStatus`: how many files have been processed and how many there are estimated
    to be in total */
module ProgressStatus {
  import opened Base

  /** The total after a hint that `more` files follow the `processed` ones: the larger of
      the old estimate and the hinted one, so a smaller hint is disregarded. */
  function EstimatedTotal(total: nat, processed: nat, more: nat): (t: nat)
    ensures t >= total && t >= processed + more
    ensures t == total || t == processed + more
  {
    if total < processed + more then processed + more else total
  }

  /** The total after one more file is processed: it grows by one only when the estimate
      was already reached, so it stays ahead of the count. */
  function TotalAfterProcessed(total: nat, processed: nat): (t: nat)
    ensures processed <= total ==> processed + 1 <= t
    ensures t == total || (t == total + 1 && total == processed)
  {
    if total == processed then total + 1 else total
  }

  /** The percentage shown, `processed * 100 / total` */
  function Percent(processed: nat, total: nat): (c: nat)
    requires total >= 1
    ensures processed <= total ==> c <= 100
    ensures processed == total ==> c == 100
  {
    PercentAtMost100(processed, total);
    processed * 100 / total
  }

  lemma PercentAtMost100(processed: nat, total: nat)
    requires total >= 1
    ensures processed <= total ==> processed * 100 / total <= 100
    ensures processed == total ==> processed * 100 / total == 100
  {
    if processed <= total {
      var q := processed * 100 / total;
      assert q * total <= processed * 100;
    }
  }

  class ProgressStatus {
    var totalNo: nat
    var processedNo: nat

    constructor (totalNo: nat, processedNo: nat)
      ensures this.totalNo == totalNo && this.processedNo == processedNo
    {
      this.totalNo, this.processedNo := totalNo, processedNo;
    }

    /** `default`: nothing processed, nothing estimated */
    constructor Default()
      ensures totalNo == 0 && processedNo == 0
    {
      totalNo, processedNo := 0, 0;
    }

    /** `estimate_more` */
    method EstimateMore(more: nat)
      modifies this
      ensures processedNo == old(processedNo)
      ensures totalNo == EstimatedTotal(old(totalNo), old(processedNo), more)
    {
      var newTotalNo := processedNo + more;
      if totalNo < newTotalNo {
        totalNo := newTotalNo;
      }
    }

    /** `processed` */
    method Processed()
      modifies this
      ensures processedNo == old(processedNo) + 1
      ensures totalNo == TotalAfterProcessed(old(totalNo), old(processedNo))
    {
      if totalNo == processedNo {
        totalNo := totalNo + 1;
      }
      processedNo := processedNo + 1;
    }
  }

  /** Both operations keep the count within the total and never lower the total; after a
      file is processed, the total is at least one, so the percentage is defined. */
  lemma StatusStaysOrdered(total: nat, processed: nat, more: nat)
    requires processed <= total
    ensures EstimatedTotal(total, processed, more) >= total && processed <= EstimatedTotal(total, processed, more)
    ensures TotalAfterProcessed(total, processed) >= total && processed + 1 <= TotalAfterProcessed(total, processed)
    ensures 1 <= processed + 1 <= EstimatedTotal(TotalAfterProcessed(total, processed), processed + 1, more)
  {
  }

  /** The unit test of `estimate_more`: from 7 of 11, hints 3, 4, 5 and 6 give totals 11, 11,
      12 and 13; from 13 processed, a hint of 1 gives 14. */
  method EstimateMoreTest() returns (totals: seq<nat>, processed: seq<nat>)
    ensures totals == [11, 11, 12, 13, 14] && processed == [7, 7, 7, 7, 13]
  {
    var progress := new ProgressStatus(11, 7);
    totals, processed := [], [];
    var hints := [3, 4, 5, 6];
    var i := 0;
    while i < 4
      invariant 0 <= i <= 4 && progress.processedNo == 7 && |totals| == |processed| == i
      invariant totals == [11, 11, 12, 13][..i] && processed == [7, 7, 7, 7][..i]
      invariant progress.totalNo == [11, 11, 11, 12, 13][i]
    {
      progress.EstimateMore(hints[i]);
      totals, processed := totals + [progress.totalNo], processed + [progress.processedNo];
      i := i + 1;
    }
    progress.processedNo := 13;
    progress.EstimateMore(1);
    totals, processed := totals + [progress.totalNo], processed + [progress.processedNo];
  }

  /** The unit test of `processed`: from 9 of 11, four files give 10/11, 11/11, 12/12 and
      13/13. */
  method IncrementTotalTest() returns (states: seq<(nat, nat)>)
    ensures states == [(10, 11), (11, 11), (12, 12), (13, 13)]
  {
    var progress := new ProgressStatus(11, 9);
    states := [];
    while |states| < 4
      invariant |states| <= 4 && states == [(10, 11), (11, 11), (12, 12), (13, 13)][..|states|]
      invariant progress.processedNo == 9 + |states|
      invariant progress.totalNo == [11, 11, 11, 12, 13][|states|]
    {
      progress.Processed();
      states := states + [(progress.processedNo, progress.totalNo)];
    }
  }
}
