/** app/utils/date_filter.py: filtering quotes by their resolution time and describing how
    far away it is. Times are whole seconds since the epoch and the current time `now` is a
    parameter. */
module DateFilter {
  import opened Wrappers
  import opened Models
  import opened Seqs

  const SecondsPerDay := 86400

  /** `(end - now).days`: whole days, rounded down, so any time in the past gives a negative
      count. */
  function DaysUntil(end: int, now: int): (r: int)
    ensures r * SecondsPerDay <= end - now < r * SecondsPerDay + SecondsPerDay
  {
    (end - now) / SecondsPerDay
  }

  /** One hour in the past is day -1, one hour ahead is day 0. */
  lemma DaysUntilRoundsDown(now: int)
    ensures DaysUntil(now - 3600, now) == -1
    ensures DaysUntil(now + 3600, now) == 0
  {
  }

  /** The test each quote faces in `filter_by_days_until_resolution`: it has a resolution
      time, and its day count lies within the bounds that are present. */
  function WithinDays(now: int, minDays: Option<int>, maxDays: Option<int>): MarketQuote -> bool
  {
    (q: MarketQuote) =>
      q.endDate.Some?
      && (minDays.None? || DaysUntil(q.endDate.value, now) >= minDays.value)
      && (maxDays.None? || DaysUntil(q.endDate.value, now) <= maxDays.value)
  }

  /** `filter_by_days_until_resolution`. */
  method FilterByDaysUntilResolution(quotes: seq<MarketQuote>, now: int,
                                     minDays: Option<int>, maxDays: Option<int>)
    returns (filtered: seq<MarketQuote>)
    ensures filtered == Filter(quotes, WithinDays(now, minDays, maxDays))
  {
    if quotes == [] {
      return quotes;
    }
    filtered := [];
    for i := 0 to |quotes|
      invariant filtered == Filter(quotes[..i], WithinDays(now, minDays, maxDays))
    {
      var q := quotes[i];
      assert quotes[..i + 1][..i] == quotes[..i];
      if q.endDate.None? {
        continue;
      }
      var daysUntil := DaysUntil(q.endDate.value, now);
      if minDays.Some? && daysUntil < minDays.value {
        continue;
      }
      if maxDays.Some? && daysUntil > maxDays.value {
        continue;
      }
      filtered := filtered + [q];
    }
    assert quotes[..|quotes|] == quotes;
  }

  /** The kept quotes are, in their original order, exactly the dated quotes whose day count
      lies within the bounds present, both ends inclusive; undated quotes are dropped. */
  lemma FilterByDaysKeeps(quotes: seq<MarketQuote>, now: int, minDays: Option<int>,
                          maxDays: Option<int>, q: MarketQuote)
    ensures IsSubsequence(Filter(quotes, WithinDays(now, minDays, maxDays)), quotes)
    ensures q in Filter(quotes, WithinDays(now, minDays, maxDays)) <==>
      q in quotes && q.endDate.Some?
      && (minDays.None? || minDays.value <= DaysUntil(q.endDate.value, now))
      && (maxDays.None? || DaysUntil(q.endDate.value, now) <= maxDays.value)
  {
    var _ := FilterIsSubsequence(quotes, WithinDays(now, minDays, maxDays));
    FilterMembership(quotes, WithinDays(now, minDays, maxDays), q);
  }

  /** The test of `filter_by_date_range`: a resolution time within the bounds present. */
  function WithinRange(start: Option<int>, end: Option<int>): MarketQuote -> bool
  {
    (q: MarketQuote) =>
      q.endDate.Some?
      && (start.None? || q.endDate.value >= start.value)
      && (end.None? || q.endDate.value <= end.value)
  }

  /** `filter_by_date_range`. */
  method FilterByDateRange(quotes: seq<MarketQuote>, start: Option<int>, end: Option<int>)
    returns (filtered: seq<MarketQuote>)
    ensures filtered == Filter(quotes, WithinRange(start, end))
  {
    if quotes == [] {
      return quotes;
    }
    filtered := [];
    for i := 0 to |quotes|
      invariant filtered == Filter(quotes[..i], WithinRange(start, end))
    {
      var q := quotes[i];
      assert quotes[..i + 1][..i] == quotes[..i];
      if q.endDate.None? {
        continue;
      }
      if start.Some? && q.endDate.value < start.value {
        continue;
      }
      if end.Some? && q.endDate.value > end.value {
        continue;
      }
      filtered := filtered + [q];
    }
    assert quotes[..|quotes|] == quotes;
  }

  /** The kept quotes are, in order, exactly the dated quotes with start <= end_date <= end
      for the bounds present. */
  lemma FilterByDateRangeKeeps(quotes: seq<MarketQuote>, start: Option<int>, end: Option<int>,
                               q: MarketQuote)
    ensures IsSubsequence(Filter(quotes, WithinRange(start, end)), quotes)
    ensures q in Filter(quotes, WithinRange(start, end)) <==>
      q in quotes && q.endDate.Some?
      && (start.None? || start.value <= q.endDate.value)
      && (end.None? || q.endDate.value <= end.value)
  {
    var _ := FilterIsSubsequence(quotes, WithinRange(start, end));
    FilterMembership(quotes, WithinRange(start, end), q);
  }

  /** `get_days_until_resolution`. */
  function GetDaysUntilResolution(q: MarketQuote, now: int): (r: Option<int>)
    ensures r.None? <==> q.endDate.None?
    ensures r.Some? ==>
      r.value * SecondsPerDay <= q.endDate.value - now < r.value * SecondsPerDay + SecondsPerDay
  {
    match q.endDate
    case None => None
    case Some(end) => Some(DaysUntil(end, now))
  }

  // ---------------------------------------------------------------------------------------
  // format_resolution_date

  /** How far away a resolution time is, in the units `format_resolution_date` shows. */
  datatype Horizon =
    | NoDate
    | Expired(daysAgo: nat)
    | Today
    | Tomorrow
    | InDays(days: nat)
    | InWeeks(weeks: nat)
    | InMonths(months: nat)
    | InYears(years: nat)

  /** The bucket of a day count: expired, today, tomorrow, days under a week, then whole
      weeks under 30 days, whole 30-day months under 365 days, whole 365-day years. */
  function HorizonOf(days: int): (h: Horizon)
    ensures h != NoDate
    ensures h.Expired? <==> days < 0
    ensures h.Expired? ==> h.daysAgo == -days
    ensures h == Today <==> days == 0
    ensures h == Tomorrow <==> days == 1
    ensures h.InDays? <==> 2 <= days < 7
    ensures h.InDays? ==> h.days == days
    ensures h.InWeeks? <==> 7 <= days < 30
    ensures h.InWeeks? ==> 1 <= h.weeks <= 4 && 7 * h.weeks <= days < 7 * h.weeks + 7
    ensures h.InMonths? <==> 30 <= days < 365
    ensures h.InMonths? ==> 1 <= h.months <= 12 && 30 * h.months <= days < 30 * h.months + 30
    ensures h.InYears? <==> 365 <= days
    ensures h.InYears? ==> 1 <= h.years && 365 * h.years <= days < 365 * h.years + 365
  {
    if days < 0 then Expired(-days)
    else if days == 0 then Today
    else if days == 1 then Tomorrow
    else if days < 7 then InDays(days)
    else if days < 30 then InWeeks(days / 7)
    else if days < 365 then InMonths(days / 30)
    else InYears(days / 365)
  }

  /** The order of the buckets, nearest first. */
  function Rank(h: Horizon): nat
  {
    match h
    case NoDate => 0
    case Expired(_) => 1
    case Today => 2
    case Tomorrow => 3
    case InDays(_) => 4
    case InWeeks(_) => 5
    case InMonths(_) => 6
    case InYears(_) => 7
  }

  /** A later resolution time never lands in a nearer bucket, and within one bucket the
      count never shrinks. */
  lemma HorizonMonotone(d1: int, d2: int)
    requires d1 <= d2
    ensures Rank(HorizonOf(d1)) <= Rank(HorizonOf(d2))
    ensures HorizonOf(d1).Expired? && HorizonOf(d2).Expired? ==>
      HorizonOf(d2).daysAgo <= HorizonOf(d1).daysAgo
    ensures HorizonOf(d1).InWeeks? && HorizonOf(d2).InWeeks? ==>
      HorizonOf(d1).weeks <= HorizonOf(d2).weeks
    ensures HorizonOf(d1).InMonths? && HorizonOf(d2).InMonths? ==>
      HorizonOf(d1).months <= HorizonOf(d2).months
    ensures HorizonOf(d1).InYears? && HorizonOf(d2).InYears? ==>
      HorizonOf(d1).years <= HorizonOf(d2).years
  {
  }

  /** The decimal digits of a natural number, most significant first, without leading
      zeros. */
  function NatToString(n: nat): (r: string)
    ensures |r| >= 1
    ensures forall i :: 0 <= i < |r| ==> '0' <= r[i] <= '9'
    ensures |r| > 1 ==> r[0] != '0'
  {
    if n < 10 then [DigitChar(n)] else NatToString(n / 10) + [DigitChar(n % 10)]
  }

  function DigitChar(d: nat): (c: char)
    requires d < 10
    ensures '0' <= c <= '9'
  {
    ('0' as int + d) as char
  }

  /** The value of a string of decimal digits. */
  function ParseDigits(s: string): nat
    requires forall i :: 0 <= i < |s| ==> '0' <= s[i] <= '9'
  {
    if s == [] then 0
    else ParseDigits(s[..|s| - 1]) * 10 + ((s[|s| - 1] as int) - ('0' as int))
  }

  /** Reading back the printed number gives the number. */
  lemma {:induction false} NatToStringRoundTrip(n: nat)
    ensures ParseDigits(NatToString(n)) == n
  {
    var s := NatToString(n);
    if n >= 10 {
      NatToStringRoundTrip(n / 10);
      assert s[..|s| - 1] == NatToString(n / 10);
    }
  }

  function Plural(count: nat): string
  {
    if count > 1 then "s" else ""
  }

  /** The text shown for each bucket; the plural "s" appears only for counts above one. */
  function Render(h: Horizon): (r: string)
    ensures r != [] && (r == "No date" <==> h == NoDate)
  {
    match h
    case NoDate => "No date"
    case Expired(n) => "Expired (" + NatToString(n) + " days ago)"
    case Today => "Today"
    case Tomorrow => "Tomorrow"
    case InDays(n) => "In " + NatToString(n) + " days"
    case InWeeks(n) => "In " + NatToString(n) + " week" + Plural(n)
    case InMonths(n) => "In " + NatToString(n) + " month" + Plural(n)
    case InYears(n) => "In " + NatToString(n) + " year" + Plural(n)
  }

  /** `format_resolution_date`. */
  function FormatResolutionDate(q: MarketQuote, now: int): (r: string)
    ensures r == "No date" <==> q.endDate.None?
    ensures q.endDate.Some? ==> r == Render(HorizonOf(DaysUntil(q.endDate.value, now)))
  {
    match q.endDate
    case None => Render(NoDate)
    case Some(end) => Render(HorizonOf(DaysUntil(end, now)))
  }

  /** Eight days ahead reads "In 1 week", fourteen "In 2 weeks". */
  lemma FormatWeeksExamples(q: MarketQuote, now: int)
    requires q.endDate == Some(now + 8 * SecondsPerDay) || q.endDate == Some(now + 14 * SecondsPerDay)
    ensures q.endDate == Some(now + 8 * SecondsPerDay) ==> FormatResolutionDate(q, now) == "In 1 week"
    ensures q.endDate == Some(now + 14 * SecondsPerDay) ==> FormatResolutionDate(q, now) == "In 2 weeks"
  {
    assert NatToString(1) == "1" && NatToString(2) == "2";
  }
}
