/** The overall experience: every entry's duration is recomputed from its
    dates and added to running totals, and after each entry at most one
    fixed 30-day carry into the months and then at most one 12-month carry
    into the years is applied. The 30 is not the length of any particular
    month, unlike the borrow in the per-entry duration. */
module Accumulator {
  import opened Calendar
  import opened Durations
  import opened Entries

  predicate AllDatesValid(entries: seq<Entry>) {
    forall i :: 0 <= i < |entries| ==> HasValidDates(entries[i])
  }

  function EntryDuration(e: Entry): Duration
    requires HasValidDates(e)
  {
    CalendarDifference(e.startDate, e.endDate)
  }

  /** A duration in the accumulator's own unit: 360-day years of 30-day months. */
  function Weight(d: Duration): int {
    d.years * 360 + d.months * 30 + d.days
  }

  /** Totals within the carry thresholds. */
  predicate Normalised(total: Duration) {
    0 <= total.months <= 11 && total.days < 30
  }

  /** One day carry: 30 days or more become one more month. */
  function CarryDays(t: Duration): Duration {
    if t.days >= 30 then Duration(t.years, t.months + 1, t.days - 30) else t
  }

  /** One month carry: 12 months or more become one more year. */
  function CarryMonths(t: Duration): Duration {
    if t.months >= 12 then Duration(t.years + 1, t.months - 12, t.days) else t
  }

  /** The running totals after one more entry: field-wise sum, then one day
      carry, then one month carry. */
  function AddWithCarry(total: Duration, d: Duration): Duration {
    CarryMonths(CarryDays(Duration(total.years + d.years, total.months + d.months, total.days + d.days)))
  }

  /** A step with its carries keeps the weight, never lowers the years, and
      keeps within-threshold totals within the thresholds for any entry
      duration (months <= 11, days <= 30). */
  lemma CarryStep(total: Duration, d: Duration)
    ensures Weight(AddWithCarry(total, d)) == Weight(total) + Weight(d)
    ensures AddWithCarry(total, d).years >= total.years + d.years
    ensures Normalised(total) && 0 <= d.months <= 11 && d.days <= 30 ==> Normalised(AddWithCarry(total, d))
  {
  }

  /** What every per-entry duration satisfies: months <= 11 and days <= 30. */
  predicate EntryShaped(d: Duration) {
    0 <= d.months <= 11 && d.days <= 30
  }

  /** The durations the pass recomputes, one per entry, in list order. */
  function EntryDurations(entries: seq<Entry>): (ds: seq<Duration>)
    requires AllDatesValid(entries)
    ensures |ds| == |entries|
    ensures forall i {:trigger EntryDuration(entries[i])} :: 0 <= i < |entries| ==> ds[i] == EntryDuration(entries[i])
    ensures forall i :: 0 <= i < |ds| ==> EntryShaped(ds[i])
  {
    seq(|entries|, i requires 0 <= i < |entries| => EntryDuration(entries[i]))
  }

  /** The totals after folding the first n durations in order. */
  function FoldPrefix(ds: seq<Duration>, n: nat): Duration
    requires n <= |ds|
  {
    if n == 0 then Zero else AddWithCarry(FoldPrefix(ds, n - 1), ds[n - 1])
  }

  /** The sum of the weights of the first n durations. */
  function WeightSum(ds: seq<Duration>, n: nat): int
    requires n <= |ds|
  {
    if n == 0 then 0 else WeightSum(ds, n - 1) + Weight(ds[n - 1])
  }

  /** The overall totals of a list of entries. */
  function Accumulate(entries: seq<Entry>): Duration
    requires AllDatesValid(entries)
  {
    FoldPrefix(EntryDurations(entries), |entries|)
  }

  function TotalWeight(entries: seq<Entry>): int
    requires AllDatesValid(entries)
  {
    WeightSum(EntryDurations(entries), |entries|)
  }

  /** The carries never lose or invent a day: after any prefix the totals
      weigh what its durations weigh, and they stay within the thresholds. */
  lemma {:induction false} FoldInvariant(ds: seq<Duration>, n: nat)
    requires n <= |ds|
    requires forall j :: 0 <= j < |ds| ==> EntryShaped(ds[j])
    ensures Normalised(FoldPrefix(ds, n))
    ensures Weight(FoldPrefix(ds, n)) == WeightSum(ds, n)
  {
    if n > 0 {
      FoldInvariant(ds, n - 1);
      CarryStep(FoldPrefix(ds, n - 1), ds[n - 1]);
    }
  }

  lemma AccumulateInvariant(entries: seq<Entry>)
    requires AllDatesValid(entries)
    ensures Normalised(Accumulate(entries))
    ensures Weight(Accumulate(entries)) == TotalWeight(entries)
  {
    FoldInvariant(EntryDurations(entries), |entries|);
  }

  /** Folding durations whose years are never negative gives totals whose
      years are never negative. */
  lemma {:induction false} FoldYearsNonNegative(ds: seq<Duration>, n: nat)
    requires n <= |ds|
    requires forall j :: 0 <= j < |ds| ==> ds[j].years >= 0
    ensures FoldPrefix(ds, n).years >= 0
  {
    if n > 0 {
      FoldYearsNonNegative(ds, n - 1);
      CarryStep(FoldPrefix(ds, n - 1), ds[n - 1]);
    }
  }

  /** Over entries that each start on or before their end, the total years
      are never negative. */
  lemma AccumulatedYearsNonNegative(entries: seq<Entry>)
    requires AllDatesValid(entries)
    requires forall i :: 0 <= i < |entries| ==> OnOrBefore(entries[i].startDate, entries[i].endDate)
    ensures Accumulate(entries).years >= 0
  {
    FoldYearsNonNegative(EntryDurations(entries), |entries|);
  }

  /** The running totals kept in three variables over one pass of the list. */
  method AccumulateExperience(entries: seq<Entry>) returns (total: Duration)
    requires AllDatesValid(entries)
    ensures total == Accumulate(entries)
    ensures entries == [] ==> total == Zero
    ensures Normalised(total)
    ensures Weight(total) == TotalWeight(entries)
  {
    ghost var ds := EntryDurations(entries);
    var totalYears, totalMonths, totalDays := 0, 0, 0;
    for i := 0 to |entries|
      invariant Duration(totalYears, totalMonths, totalDays) == FoldPrefix(ds, i)
    {
      var d := EntryDuration(entries[i]);
      assert d == ds[i];
      assert FoldPrefix(ds, i + 1) == AddWithCarry(Duration(totalYears, totalMonths, totalDays), d);
      totalYears := totalYears + d.years;
      totalMonths := totalMonths + d.months;
      totalDays := totalDays + d.days;
      if totalDays >= 30 {
        totalMonths := totalMonths + 1;
        totalDays := totalDays - 30;
      }
      if totalMonths >= 12 {
        totalYears := totalYears + 1;
        totalMonths := totalMonths - 12;
      }
    }
    total := Duration(totalYears, totalMonths, totalDays);
    AccumulateInvariant(entries);
  }

  /** Folds over two sequences that agree on their first n durations agree. */
  lemma {:induction false} FoldPrefixAgree(ds: seq<Duration>, es: seq<Duration>, n: nat)
    requires n <= |ds| && n <= |es|
    requires forall j :: 0 <= j < n ==> ds[j] == es[j]
    ensures FoldPrefix(ds, n) == FoldPrefix(es, n)
  {
    if n > 0 {
      FoldPrefixAgree(ds, es, n - 1);
    }
  }

  /** Appending an entry to the list applies one carry step to the totals of
      the list before it: the order of the entries decides the carries. */
  lemma AccumulateSnoc(entries: seq<Entry>, e: Entry)
    requires AllDatesValid(entries) && HasValidDates(e)
    ensures AllDatesValid(entries + [e])
    ensures Accumulate(entries + [e]) == AddWithCarry(Accumulate(entries), EntryDuration(e))
  {
    var longer := entries + [e];
    assert AllDatesValid(longer) by {
      forall i | 0 <= i < |longer|
        ensures HasValidDates(longer[i])
      {
        if i < |entries| {
          assert longer[i] == entries[i];
        }
      }
    }
    var ds := EntryDurations(entries);
    var es := EntryDurations(longer);
    forall j | 0 <= j < |entries|
      ensures ds[j] == es[j]
    {
      assert longer[j] == entries[j];
      assert ds[j] == EntryDuration(entries[j]);
      assert es[j] == EntryDuration(longer[j]);
    }
    FoldPrefixAgree(ds, es, |entries|);
    assert longer[|entries|] == e;
    assert es[|entries|] == EntryDuration(longer[|entries|]);
  }

  /** One entry of 30 calendar days: its own duration keeps the 30 days, the
      overall total carries them into a month. */
  lemma ThirtyDaysCarryIntoAMonth()
    ensures EntryDuration(Entry("A", Date(2021, 1, 1), Date(2021, 1, 31), "")) == Duration(0, 0, 30)
    ensures Accumulate([Entry("A", Date(2021, 1, 1), Date(2021, 1, 31), "")]) == Duration(0, 1, 0)
  {
    assert EntryDuration(Entry("A", Date(2021, 1, 1), Date(2021, 1, 31), "")) == Duration(0, 0, 30);
  }

  /** The carry follows each entry rather than the final sum: 30 days and then
      one month less two days give 2 months and -2 days, where carrying the
      summed fields once would give 1 month and 28 days. */
  lemma CarryAfterEachEntry()
    ensures Accumulate([Entry("A", Date(2021, 1, 1), Date(2021, 1, 31), ""),
                        Entry("B", Date(2023, 1, 31), Date(2023, 3, 1), "")]) == Duration(0, 2, -2)
    ensures var a := EntryDuration(Entry("A", Date(2021, 1, 1), Date(2021, 1, 31), ""));
            var b := EntryDuration(Entry("B", Date(2023, 1, 31), Date(2023, 3, 1), ""));
            AddWithCarry(Zero, Duration(a.years + b.years, a.months + b.months, a.days + b.days)) == Duration(0, 1, 28)
  {
    var a := Entry("A", Date(2021, 1, 1), Date(2021, 1, 31), "");
    var b := Entry("B", Date(2023, 1, 31), Date(2023, 3, 1), "");
    ThirtyDaysCarryIntoAMonth();
    assert EntryDuration(b) == Duration(0, 1, -2);
    AccumulateSnoc([a], b);
    assert [a] + [b] == [a, b];
  }
}
