/** The allocation generator: one day's hours split between the `student`
    and `admin` time types, and one such split per day of a week.

    The random draws of the source (`random.triangular(45, 70, 60)` for the
    student share, `random.uniform(min, max)` for a day's hours) are inputs
    here; their ranges are preconditions. Python dicts keep insertion order,
    so a distribution is an ordered sequence of entries with distinct keys.
 */
module Allocation {
  import opened QuarterRounding

  /** The two time types, in the order the source inserts them. */
  datatype Category = Student | Admin {
    /** The dict key the source uses for this time type. */
    function Key(): string {
      match this
      case Student => "student"
      case Admin => "admin"
    }
  }

  /** One dict entry: a time type and a number (a percentage or hours). */
  datatype Entry = Entry(category: Category, amount: real)

  /** Bounds of `random.triangular(45, 70, 60)`, the student share. */
  const MIN_CAP_PERCENT: real := 45.0
  const MAX_CAP_PERCENT: real := 70.0

  /** Default arguments of `week_distribution`. */
  const DEFAULT_MIN_DAILY_HOURS: real := 8.0
  const DEFAULT_MAX_DAILY_HOURS: real := 13.0
  const DEFAULT_DAYS_IN_WEEK: int := 5

  /** The keys of a distribution, in order. */
  function Keys(d: seq<Entry>): (ks: seq<Category>)
    ensures |ks| == |d|
    ensures forall i :: 0 <= i < |d| ==> ks[i] == d[i].category
  {
    if d == [] then [] else [d[0].category] + Keys(d[1..])
  }

  /** `sum(distribution.values())`. */
  function Total(d: seq<Entry>): real {
    if d == [] then 0.0 else d[0].amount + Total(d[1..])
  }

  /** The `percents` dict: the student share and its complement to 100. */
  function Percents(capPercent: real): seq<Entry> {
    [Entry(Student, capPercent), Entry(Admin, 100.0 - capPercent)]
  }

  /** The exact part of `hours` that `percent` percent stands for. */
  function Share(hours: real, percent: real): real {
    hours * percent / 100.0
  }

  /** Each percentage turned into quarter-rounded hours of `hours`. */
  function Apportion(hours: real, percents: seq<Entry>): (d: seq<Entry>)
    ensures |d| == |percents|
  {
    seq(|percents|, i requires 0 <= i < |percents| =>
      Entry(percents[i].category, QuarterRound(Share(hours, percents[i].amount))))
  }

  /** The distribution `time_distribution(hours)` returns for the draw `capPercent`. */
  function Split(hours: real, capPercent: real): seq<Entry> {
    Apportion(hours, Percents(capPercent))
  }

  /** `time_distribution`: the loop over `percents` that fills `distribution`.
      The hours go through minutes and back (`minutes * (percent / 100) / 60`)
      before rounding. */
  method TimeDistribution(hours: real, capPercent: real) returns (distribution: seq<Entry>)
    requires MIN_CAP_PERCENT <= capPercent <= MAX_CAP_PERCENT
    ensures distribution == Split(hours, capPercent)
  {
    var percents := Percents(capPercent);
    var minutes := hours * 60.0;
    distribution := [];
    var i := 0;
    while i < |percents|
      invariant 0 <= i <= |percents|
      invariant distribution == Apportion(hours, percents[..i])
    {
      var key, percent := percents[i].category, percents[i].amount;
      MinutesCancel(hours, minutes, percent);
      distribution := distribution + [Entry(key, QuarterRound(minutes * (percent / 100.0) / 60.0))];
      i := i + 1;
      assert distribution == Apportion(hours, percents[..i]);
    }
    assert percents[..i] == percents;
  }

  /** Converting to minutes and back changes nothing in exact arithmetic. */
  lemma MinutesCancel(hours: real, minutes: real, percent: real)
    requires minutes == hours * 60.0
    ensures minutes * (percent / 100.0) / 60.0 == Share(hours, percent)
  {
  }

  /** The sum of a two-entry distribution. */
  lemma TotalPair(d: seq<Entry>)
    requires |d| == 2
    ensures Total(d) == d[0].amount + d[1].amount
  {
    assert d[1..][1..] == [];
    assert Total(d[1..]) == d[1].amount + Total(d[1..][1..]);
  }

  /** The percentages are the draw and its complement, and sum to exactly 100. */
  lemma {:induction false} PercentsSumTo100(capPercent: real)
    ensures Keys(Percents(capPercent)) == [Student, Admin]
    ensures Percents(capPercent)[0].amount == capPercent
    ensures Total(Percents(capPercent)) == 100.0
  {
    TotalPair(Percents(capPercent));
  }

  /** The student and admin shares of a day add up to the whole day. */
  lemma SharesSum(hours: real, capPercent: real)
    ensures Share(hours, capPercent) + Share(hours, 100.0 - capPercent) == hours
  {
  }

  /** A non-negative percentage of a non-negative day is non-negative. */
  lemma ShareNonNegative(hours: real, percent: real)
    requires hours >= 0.0 && percent >= 0.0
    ensures Share(hours, percent) >= 0.0
  {
  }

  /** The distribution has exactly the keys `student` and `admin`, each holding
      its own share of `hours` rounded to a quarter hour. */
  lemma SplitEntries(hours: real, capPercent: real)
    ensures Keys(Split(hours, capPercent)) == [Student, Admin]
    ensures Split(hours, capPercent)[0].amount == QuarterRound(Share(hours, capPercent))
    ensures Split(hours, capPercent)[1].amount == QuarterRound(Share(hours, 100.0 - capPercent))
  {
  }

  /** Every value is a whole number of quarter hours within 0.125 of its exact
      share, and none is negative for a non-negative day. */
  lemma {:induction false} SplitValues(hours: real, capPercent: real)
    requires MIN_CAP_PERCENT <= capPercent <= MAX_CAP_PERCENT
    ensures var d := Split(hours, capPercent);
      forall i :: 0 <= i < |d| ==>
        IsQuarter(d[i].amount)
        && Dist(d[i].amount, Share(hours, Percents(capPercent)[i].amount)) <= 0.125
    ensures hours >= 0.0 ==>
      var d := Split(hours, capPercent);
      forall i :: 0 <= i < |d| ==> d[i].amount >= 0.0
  {
    if hours >= 0.0 {
      ShareNonNegative(hours, capPercent);
      ShareNonNegative(hours, 100.0 - capPercent);
    }
  }

  /** The day's total is off from `hours` by at most one quarter hour. */
  lemma {:induction false} SplitTotalWithinQuarter(hours: real, capPercent: real)
    ensures Dist(Total(Split(hours, capPercent)), hours) <= 0.25
  {
    SharesSum(hours, capPercent);
    TotalPair(Split(hours, capPercent));
  }

  /** When `hours` is a whole number of quarters and the student share is not
      a tie for the rounder, the two values add up to `hours` exactly. */
  lemma {:induction false} SplitTotalExact(hours: real, capPercent: real)
    requires IsQuarter(hours)
    requires !IsTie(4.0 * Share(hours, capPercent))
    ensures Total(Split(hours, capPercent)) == hours
  {
    TotalPair(Split(hours, capPercent));
    SharesSum(hours, capPercent);
    var n := (4.0 * hours).Floor;
    var z := 4.0 * Share(hours, capPercent);
    assert 4.0 * Share(hours, 100.0 - capPercent) == n as real - z;
    RoundComplement(n, z);
  }

  /** On a tie the total can miss: 8.25 hours split 50/50 gives 4.0 + 4.0. */
  lemma TieLosesAQuarter()
    ensures IsQuarter(8.25) && IsTie(4.0 * Share(8.25, 50.0))
    ensures Split(8.25, 50.0) == [Entry(Student, 4.0), Entry(Admin, 4.0)]
    ensures Total(Split(8.25, 50.0)) == 8.0
  {
    assert Share(8.25, 50.0) == 4.125;
    assert (16.5).Floor == 16;
    assert RoundHalfEven(16.5) == 16;
    TotalPair(Split(8.25, 50.0));
  }

  /** A tie can also gain a quarter: 8.75 hours split 50/50 gives 4.5 + 4.5. */
  lemma TieGainsAQuarter()
    ensures IsQuarter(8.75) && IsTie(4.0 * Share(8.75, 50.0))
    ensures Split(8.75, 50.0) == [Entry(Student, 4.5), Entry(Admin, 4.5)]
    ensures Total(Split(8.75, 50.0)) == 9.0
  {
    assert Share(8.75, 50.0) == 4.375;
    assert (17.5).Floor == 17;
    assert RoundHalfEven(17.5) == 18;
    TotalPair(Split(8.75, 50.0));
  }

  /** Ten hours with a 60% student share gives 6.0 and 4.0 hours. */
  lemma TenHoursSixtyPercent()
    ensures Split(10.0, 60.0) == [Entry(Student, 6.0), Entry(Admin, 4.0)]
  {
    assert Share(10.0, 60.0) == 6.0 && Share(10.0, 40.0) == 4.0;
    QuarterRoundOfQuarter(6.0);
    QuarterRoundOfQuarter(4.0);
  }

  /** The number of iterations of `range(days)`. */
  function RangeLength(days: int): nat {
    if days < 0 then 0 else days
  }

  /** `random.uniform(a, b)` returns a value between its bounds, whichever
      of the two is the larger. */
  predicate Between(x: real, a: real, b: real) {
    (a <= x <= b) || (b <= x <= a)
  }

  /** `week_distribution`: for each day of `range(daysInWeek)`, round the
      day's drawn hours to a quarter and split them. `hourDraws[d]` and
      `capDraws[d]` are the `uniform` and `triangular` draws of day `d`. */
  method WeekDistribution(minDailyHours: real, maxDailyHours: real, daysInWeek: int,
                          hourDraws: seq<real>, capDraws: seq<real>)
    returns (week: seq<seq<Entry>>)
    requires |hourDraws| == RangeLength(daysInWeek) && |capDraws| == RangeLength(daysInWeek)
    requires forall d :: 0 <= d < |hourDraws| ==> Between(hourDraws[d], minDailyHours, maxDailyHours)
    requires forall d :: 0 <= d < |capDraws| ==> MIN_CAP_PERCENT <= capDraws[d] <= MAX_CAP_PERCENT
    ensures daysInWeek >= 0 ==> |week| == daysInWeek
    ensures daysInWeek <= 0 ==> week == []
    ensures forall d :: 0 <= d < |week| ==> week[d] == Split(QuarterRound(hourDraws[d]), capDraws[d])
  {
    week := [];
    var day := 0;
    while day < RangeLength(daysInWeek)
      invariant 0 <= day <= RangeLength(daysInWeek)
      invariant |week| == day
      invariant forall d :: 0 <= d < day ==> week[d] == Split(QuarterRound(hourDraws[d]), capDraws[d])
    {
      var dailyHours := QuarterRound(hourDraws[day]);
      var distribution := TimeDistribution(dailyHours, capDraws[day]);
      week := week + [distribution];
      day := day + 1;
    }
  }

  /** What one generated day looks like: its hours are a quarter multiple
      within 0.125 of a draw between the bounds, its two values are quarter
      multiples, never negative for non-negative bounds, and they add up to
      the day's hours give or take a quarter hour. */
  lemma {:induction false} WeekDayShape(minDailyHours: real, maxDailyHours: real, draw: real, capPercent: real)
    requires Between(draw, minDailyHours, maxDailyHours)
    requires MIN_CAP_PERCENT <= capPercent <= MAX_CAP_PERCENT
    ensures var hours := QuarterRound(draw);
      IsQuarter(hours) && Dist(hours, draw) <= 0.125
      && Keys(Split(hours, capPercent)) == [Student, Admin]
      && Dist(Total(Split(hours, capPercent)), hours) <= 0.25
      && (forall i :: 0 <= i < 2 ==> IsQuarter(Split(hours, capPercent)[i].amount))
    ensures minDailyHours >= 0.0 && maxDailyHours >= 0.0 ==>
      forall i :: 0 <= i < 2 ==> Split(QuarterRound(draw), capPercent)[i].amount >= 0.0
  {
    var hours := QuarterRound(draw);
    SplitValues(hours, capPercent);
    SplitTotalWithinQuarter(hours, capPercent);
  }

  /** When both bounds are whole quarter hours, rounding a draw between them
      stays between them. */
  lemma {:induction false} RoundedDayWithinBounds(minDailyHours: real, maxDailyHours: real, draw: real)
    requires IsQuarter(minDailyHours) && IsQuarter(maxDailyHours)
    requires Between(draw, minDailyHours, maxDailyHours)
    ensures Between(QuarterRound(draw), minDailyHours, maxDailyHours)
  {
    QuarterRoundOfQuarter(minDailyHours);
    QuarterRoundOfQuarter(maxDailyHours);
    if minDailyHours <= draw <= maxDailyHours {
      QuarterRoundMonotone(minDailyHours, draw);
      QuarterRoundMonotone(draw, maxDailyHours);
    } else {
      QuarterRoundMonotone(maxDailyHours, draw);
      QuarterRoundMonotone(draw, minDailyHours);
    }
  }

  /** With the default arguments a week has five days, and every day's hours
      are between 8 and 13. */
  lemma DefaultWeek(draw: real)
    requires Between(draw, DEFAULT_MIN_DAILY_HOURS, DEFAULT_MAX_DAILY_HOURS)
    ensures RangeLength(DEFAULT_DAYS_IN_WEEK) == 5
    ensures 8.0 <= QuarterRound(draw) <= 13.0
  {
    assert IsQuarter(DEFAULT_MIN_DAILY_HOURS) && IsQuarter(DEFAULT_MAX_DAILY_HOURS);
    RoundedDayWithinBounds(DEFAULT_MIN_DAILY_HOURS, DEFAULT_MAX_DAILY_HOURS, draw);
  }
}
