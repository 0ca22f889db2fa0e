/**
 * The weekly aggregation of `expense/resources.py`: expenses are put into
 * buckets keyed by the ISO `(year, week)` of their date, the buckets are
 * ordered by key, and each `(key, bucket)` becomes a `WeeklyTotal`.
 *
 * `IsWeekGrouping` says what a correct result is (see `Grouping.IsGrouping`):
 * its keys are exactly the weeks present in the input, in strictly increasing
 * order, and each bucket is the input filtered to that week in input order.
 * The methods follow the source loops and are proved against it.
 */
module Expenses {
  import opened IsoCalendar
  import opened Grouping

  /**
   * An expense record. `amount` is in hundredths of the currency unit (the
   * column is a decimal with two fractional digits); the aggregation reads
   * only `date` and `amount`.
   */
  datatype Expense = Expense(owner: nat, date: CalendarDate, description: string, amount: int, comment: string)

  /** One entry of the ordered dictionary: a week and the expenses in it. */
  type Week = (WeekKey, seq<Expense>)

  /** The weekly summary object, given the year, the week number and that week's expenses. */
  datatype WeeklyTotal = WeeklyTotal(year: int, weekNumber: int, expenses: seq<Expense>)

  /** The grouping key of an expense: the first two fields of its date's ISO calendar triple. */
  function KeyOf(e: Expense): (k: WeekKey)
    ensures IsIsoWeekOf(e.date, k.0, k.1)
    ensures 1 <= k.1 <= 53
  {
    var k := IsoYearWeek(e.date);
    IsoWeekMatchesStandard(e.date, k.0, k.1);
    IsoWeekBounds(e.date);
    k
  }

  function AmountOf(e: Expense): int {
    e.amount
  }

  /** `weeks` is the ordered weekly grouping of `es`. */
  ghost predicate IsWeekGrouping(es: seq<Expense>, weeks: seq<Week>) {
    IsGrouping(es, KeyOf, weeks)
  }

  /** The `(key, bucket)` view of a list of weekly totals. */
  function Groups(totals: seq<WeeklyTotal>): seq<Week> {
    seq(|totals|, i requires 0 <= i < |totals| => ((totals[i].year, totals[i].weekNumber), totals[i].expenses))
  }

  // ---------------------------------------------------------------------------
  // The source operations

  /**
   * `_organise_expenses_into_weeks`: appends each expense to the bucket of
   * its ISO week, then returns the `(week, bucket)` pairs ordered by week.
   */
  method OrganiseExpensesIntoWeeks(expenses: seq<Expense>) returns (weeks: seq<Week>)
    ensures IsWeekGrouping(expenses, weeks)
  {
    var buckets := BucketBy(expenses, KeyOf);
    var keys := SortKeys(buckets.Keys);
    weeks := seq(|keys|, j requires 0 <= j < |keys| => (keys[j], buckets[keys[j]]));
    assert Keys(weeks) == keys;
  }

  /**
   * `_build_weekly_totals`: one `WeeklyTotal(year, week, bucket)` per entry
   * of the ordered grouping, in the same order.
   */
  method BuildWeeklyTotals(expenses: seq<Expense>) returns (weeklyTotals: seq<WeeklyTotal>)
    ensures IsWeekGrouping(expenses, Groups(weeklyTotals))
  {
    weeklyTotals := [];
    var weeks := OrganiseExpensesIntoWeeks(expenses);
    for j := 0 to |weeks|
      invariant |weeklyTotals| == j
      invariant forall i :: 0 <= i < j ==> weeklyTotals[i] == WeeklyTotal(weeks[i].0.0, weeks[i].0.1, weeks[i].1)
    {
      var weekNumber := weeks[j].0;
      weeklyTotals := weeklyTotals + [WeeklyTotal(weekNumber.0, weekNumber.1, weeks[j].1)];
    }
    assert Groups(weeklyTotals) == weeks;
  }

  // ---------------------------------------------------------------------------
  // What the weekly totals promise

  /** Each week's key is the ISO 8601 week of every expense in it, numbered 1 to 53. */
  lemma GroupingKeysAreIsoWeeks(es: seq<Expense>, weeks: seq<Week>)
    requires IsWeekGrouping(es, weeks)
    ensures forall i, e :: 0 <= i < |weeks| && e in weeks[i].1 ==>
              IsIsoWeekOf(e.date, weeks[i].0.0, weeks[i].0.1) && 1 <= weeks[i].0.1 <= 53
  {
    GroupingPartitions(es, KeyOf, weeks);
    forall i, e | 0 <= i < |weeks| && e in weeks[i].1
      ensures IsIsoWeekOf(e.date, weeks[i].0.0, weeks[i].0.1) && 1 <= weeks[i].0.1 <= 53
    {
      assert KeyOf(e) == weeks[i].0;
      IsoWeekMatchesStandard(e.date, weeks[i].0.0, weeks[i].0.1);
      IsoWeekBounds(e.date);
    }
  }

  /**
   * What the weekly totals promise: strictly increasing `(year, weekNumber)`,
   * one entry per distinct week, no week without expenses, expense counts
   * summing to the input length and amounts summing to the input total.
   */
  lemma WeeklyTotalsSummary(es: seq<Expense>, totals: seq<WeeklyTotal>)
    requires IsWeekGrouping(es, Groups(totals))
    ensures forall i, j :: 0 <= i < j < |totals| ==>
              KeyBefore((totals[i].year, totals[i].weekNumber), (totals[j].year, totals[j].weekNumber))
    ensures |totals| == |KeySet(es, KeyOf)|
    ensures forall i :: 0 <= i < |totals| ==> |totals[i].expenses| > 0
    ensures CountAll(Groups(totals)) == |es|
    ensures GroupTotal(Groups(totals), AmountOf) == Total(es, AmountOf)
    ensures es == [] ==> totals == []
  {
    var weeks := Groups(totals);
    KeysAt(weeks);
    forall i, j | 0 <= i < j < |totals|
      ensures KeyBefore((totals[i].year, totals[i].weekNumber), (totals[j].year, totals[j].weekNumber))
    {
      assert Keys(weeks)[i] == (totals[i].year, totals[i].weekNumber);
      assert Keys(weeks)[j] == (totals[j].year, totals[j].weekNumber);
    }
    GroupingSize(es, KeyOf, weeks);
    GroupingPartitions(es, KeyOf, weeks);
    forall i | 0 <= i < |totals|
      ensures |totals[i].expenses| > 0
    {
      assert weeks[i].1 == totals[i].expenses;
    }
    GroupingConservesCount(es, KeyOf, weeks);
    GroupingConserves(es, KeyOf, weeks, AmountOf);
    if es == [] {
      EmptyInputHasNoGroups(KeyOf, weeks);
    }
  }

  // ---------------------------------------------------------------------------
  // Worked inputs

  /**
   * Expenses of 2014-06-30, 2014-07-02 and 2014-07-07 form two weeks: the
   * first two together in week 27, the third alone in week 28.
   */
  lemma SummerOf2014Grouping(a: Expense, b: Expense, c: Expense)
    requires a.date == Date(2014, 6, 30) && b.date == Date(2014, 7, 2) && c.date == Date(2014, 7, 7)
    ensures IsWeekGrouping([a, b, c], [((2014, 27), [a, b]), ((2014, 28), [c])])
  {
    SummerOf2014Weeks();
    GroupingOfThree(a, b, c, KeyOf, (2014, 27), (2014, 28));
  }

  /** Expenses of 2015-12-31 and 2016-01-02 share ISO week 53 of 2015. */
  lemma TurnOf2016Grouping(a: Expense, b: Expense)
    requires a.date == Date(2015, 12, 31) && b.date == Date(2016, 1, 2)
    ensures IsWeekGrouping([a, b], [((2015, 53), [a, b])])
  {
    TurnOf2016Weeks();
    GroupingOfTwo(a, b, KeyOf, (2015, 53));
  }
}
