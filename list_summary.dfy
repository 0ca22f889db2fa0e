/**
 * `ExpenseResource.alter_list_data_to_serialize` in `expense/resources.py`:
 * before an expense list is serialised, the sum and the mean of the listed
 * amounts are written into the list's metadata.
 *
 * Amounts are integer hundredths; the mean is an exact real.
 */
module ListSummary {
  import opened Grouping
  import opened Expenses

  /** A metadata entry: an amount in hundredths, a count, or a paging link. */
  datatype MetaValue = Amount(cents: real) | Count(n: int) | Link(url: string) | NoLink

  const TotalAmountKey := "total_amount"
  const AverageKey := "average"

  /** The mean of the amounts, `0` for an empty list. */
  function Average(objects: seq<Expense>): real {
    if |objects| == 0 then 0.0 else Total(objects, AmountOf) as real / |objects| as real
  }

  /**
   * The loop of `alter_list_data_to_serialize`: the running sum of the
   * amounts, then the mean when there is at least one object.
   */
  method TotalAndAverage(objects: seq<Expense>) returns (totalAmount: int, average: real)
    ensures totalAmount == Total(objects, AmountOf)
    ensures average == Average(objects)
  {
    totalAmount := 0;
    average := 0.0;
    for i := 0 to |objects|
      invariant totalAmount == Total(objects[..i], AmountOf)
    {
      assert objects[..i + 1][..i] == objects[..i];
      totalAmount := totalAmount + objects[i].amount;
    }
    assert objects[..|objects|] == objects;
    var count := |objects|;
    if count != 0 {
      average := totalAmount as real / count as real;
    }
  }

  /** The sum lies between `count * lo` and `count * hi` when every amount does. */
  lemma {:induction false} TotalBounds(objects: seq<Expense>, lo: int, hi: int)
    requires forall i :: 0 <= i < |objects| ==> lo <= objects[i].amount <= hi
    ensures |objects| * lo <= Total(objects, AmountOf) <= |objects| * hi
  {
    if objects != [] {
      var init := objects[..|objects| - 1];
      assert forall i :: 0 <= i < |init| ==> init[i] == objects[i];
      TotalBounds(init, lo, hi);
    }
  }

  /**
   * The mean times the count gives back the total, and the mean lies
   * between the smallest and the largest amount.
   */
  lemma AverageProperties(objects: seq<Expense>, lo: int, hi: int)
    requires |objects| > 0
    requires forall i :: 0 <= i < |objects| ==> lo <= objects[i].amount <= hi
    ensures Average(objects) * |objects| as real == Total(objects, AmountOf) as real
    ensures lo as real <= Average(objects) <= hi as real
  {
    TotalBounds(objects, lo, hi);
    MeanArithmetic(Total(objects, AmountOf), |objects|, lo, hi);
  }

  lemma MeanArithmetic(t: int, n: int, lo: int, hi: int)
    requires n > 0 && n * lo <= t <= n * hi
    ensures (t as real / n as real) * n as real == t as real
    ensures lo as real <= t as real / n as real <= hi as real
  {
    assert (n * lo) as real == n as real * lo as real;
    assert (n * hi) as real == n as real * hi as real;
  }

  /** The list metadata totals agree with the weekly totals of the same expenses. */
  lemma ListTotalMatchesWeeklyTotals(objects: seq<Expense>, totals: seq<WeeklyTotal>)
    requires IsWeekGrouping(objects, Groups(totals))
    ensures GroupTotal(Groups(totals), AmountOf) == Total(objects, AmountOf)
    ensures CountAll(Groups(totals)) == |objects|
  {
    WeeklyTotalsSummary(objects, totals);
  }

  /** The serialised list: its objects and its metadata dictionary. */
  class ListData {
    var objects: seq<Expense>
    var meta: map<string, MetaValue>

    constructor(objects: seq<Expense>, meta: map<string, MetaValue>)
      ensures this.objects == objects && this.meta == meta
    {
      this.objects := objects;
      this.meta := meta;
    }

    /**
     * `alter_list_data_to_serialize`: sets `meta["total_amount"]` and
     * `meta["average"]`, keeping the objects and every other entry.
     */
    method AlterListDataToSerialize()
      modifies this
      ensures objects == old(objects)
      ensures meta == old(meta)[TotalAmountKey := Amount(Total(objects, AmountOf) as real)]
                                [AverageKey := Amount(Average(objects))]
    {
      var totalAmount, average := TotalAndAverage(objects);
      meta := meta[TotalAmountKey := Amount(totalAmount as real)];
      meta := meta[AverageKey := Amount(average)];
    }
  }
}
