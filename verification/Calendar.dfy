/**
 Local calendar dates, the four seasons of the goal period, and the fortnightly review Sundays. A date is also a
 day number: the count of days since 1 March of year 0, a Wednesday.
*/
module Calendar {
  import opened Prelude

  datatype Date = Date(year: int, month: int, day: int)

  predicate Leap(y: int) {
    y % 4 == 0 && (y % 100 != 0 || y % 400 == 0)
  }

  function DaysInMonth(y: int, m: int): int {
    if m == 2 then (if Leap(y) then 29 else 28)
    else if m in {4, 6, 9, 11} then 30
    else 31
  }

  predicate Valid(d: Date) {
    1 <= d.month <= 12 && 1 <= d.day <= DaysInMonth(d.year, d.month)
  }

  /** Day number of 1 March. */
  function MarchFirst(y: int): int {
    365 * y + y / 4 - y / 100 + y / 400
  }

  /** Days from 1 March to the first of a month, counting January and February into the previous March year. */
  function Offset(m: int): int {
    match m
    case 3 => 0 case 4 => 31 case 5 => 61 case 6 => 92 case 7 => 122 case 8 => 153
    case 9 => 184 case 10 => 214 case 11 => 245 case 12 => 275 case 1 => 306 case _ => 337
  }

  function Number(d: Date): int {
    MarchFirst(if d.month >= 3 then d.year else d.year - 1) + Offset(d.month) + d.day - 1
  }

  function Tomorrow(d: Date): Date {
    if d.day < DaysInMonth(d.year, d.month) then d.(day := d.day + 1)
    else if d.month < 12 then Date(d.year, d.month + 1, 1)
    else Date(d.year + 1, 1, 1)
  }

  lemma Quarter(y: int)
    ensures (y + 1) / 4 == y / 4 + if (y + 1) % 4 == 0 then 1 else 0
  {
  }

  lemma Century(y: int)
    ensures (y + 1) / 100 == y / 100 + if (y + 1) % 100 == 0 then 1 else 0
  {
  }

  lemma FourCenturies(y: int)
    ensures (y + 1) / 400 == y / 400 + if (y + 1) % 400 == 0 then 1 else 0
  {
  }

  lemma CenturyIsQuarter(z: int)
    ensures z % 100 == 0 ==> z % 4 == 0
  {
    assert z == 4 * (25 * (z / 100)) + z % 100;
  }

  lemma FourCenturiesIsCentury(z: int)
    ensures z % 400 == 0 ==> z % 100 == 0
  {
    assert z == 100 * (4 * (z / 400)) + z % 400;
  }

  lemma MarchYearLength(y: int)
    ensures MarchFirst(y + 1) - MarchFirst(y) == if Leap(y + 1) then 366 else 365
  {
    Quarter(y);
    Century(y);
    FourCenturies(y);
    CenturyIsQuarter(y + 1);
    FourCenturiesIsCentury(y + 1);
  }

  /** The number really counts days: the next calendar day has the next number. */
  lemma NumberCountsDays(d: Date)
    requires Valid(d)
    ensures Valid(Tomorrow(d)) && Number(Tomorrow(d)) == Number(d) + 1
  {
    if d.month == 2 {
      FebruaryCounts(d);
    }
  }

  lemma FebruaryCounts(d: Date)
    requires Valid(d) && d.month == 2
    ensures Valid(Tomorrow(d)) && Number(Tomorrow(d)) == Number(d) + 1
  {
    MarchYearLength(d.year - 1);
  }

  predicate Sunday(n: int) {
    (n + 3) % 7 == 0
  }

  /** 2 March 2025 was a Sunday, and so is every seventh day from there and no other. */
  lemma KnownSunday(n: int)
    ensures Number(Date(2025, 3, 2)) == 739617 && (Sunday(n) <==> (n - 739617) % 7 == 0)
  {
  }

  // ----- Seasons -----

  datatype Kind = Spring | Summer | Autumn | Winter

  datatype Period = Period(kind: Kind, year: int, startsOn: Date, endsOn: Date)

  function CurrentGoalPeriod(today: Date): Period {
    var y, m := today.year, today.month;
    if 3 <= m <= 5 then Period(Spring, y, Date(y, 3, 1), Date(y, 6, 1))
    else if 6 <= m <= 8 then Period(Summer, y, Date(y, 6, 1), Date(y, 9, 1))
    else if 9 <= m <= 11 then Period(Autumn, y, Date(y, 9, 1), Date(y, 12, 1))
    else
      var seasonYear := if m <= 2 then y - 1 else y;
      Period(Winter, seasonYear, Date(seasonYear, 12, 1), Date(seasonYear + 1, 3, 1))
  }

  predicate Within(p: Period, n: int) {
    Number(p.startsOn) <= n < Number(p.endsOn)
  }

  function Length(p: Period): int {
    Number(p.endsOn) - Number(p.startsOn)
  }

  lemma SeasonContainsToday(today: Date)
    requires Valid(today)
    ensures Within(CurrentGoalPeriod(today), Number(today))
  {
    if today.month <= 2 {
      WinterEndContainsToday(today);
    }
  }

  lemma WinterEndContainsToday(today: Date)
    requires Valid(today) && today.month <= 2
    ensures Within(CurrentGoalPeriod(today), Number(today))
  {
    MarchYearLength(today.year - 1);
  }

  lemma SeasonLength(today: Date)
    requires Valid(today)
    ensures 90 <= Length(CurrentGoalPeriod(today)) <= 92
  {
    MarchYearLength(CurrentGoalPeriod(today).year);
  }

  /** The day a season ends is the first day of the next one. */
  lemma SeasonsShareBoundaries(today: Date)
    requires Valid(today)
    ensures Valid(CurrentGoalPeriod(today).endsOn)
    ensures CurrentGoalPeriod(CurrentGoalPeriod(today).endsOn).startsOn == CurrentGoalPeriod(today).endsOn
  {
  }

  function Rank(k: Kind): int {
    match k case Spring => 0 case Summer => 1 case Autumn => 2 case Winter => 3
  }

  /** Seasons in calendar order: 4 * year + rank. */
  function Index(p: Period): int {
    4 * p.year + Rank(p.kind)
  }

  /** Start of the season with the given index. */
  function Boundary(q: int): int {
    MarchFirst(q / 4) + match q % 4 case 0 => 0 case 1 => 92 case 2 => 184 case _ => 275
  }

  lemma PeriodIsBoundaryPair(today: Date)
    requires Valid(today)
    ensures var p := CurrentGoalPeriod(today);
            Number(p.startsOn) == Boundary(Index(p)) && Number(p.endsOn) == Boundary(Index(p) + 1)
  {
    var p := CurrentGoalPeriod(today);
    var q := Index(p);
    assert q / 4 == p.year && q % 4 == Rank(p.kind);
    if p.kind.Winter? {
      assert (q + 1) / 4 == p.year + 1 && (q + 1) % 4 == 0;
    } else {
      assert (q + 1) / 4 == p.year && (q + 1) % 4 == Rank(p.kind) + 1;
    }
  }

  lemma IndexIsKey(p: Period, q: Period)
    ensures Index(p) == Index(q) <==> p.kind == q.kind && p.year == q.year
  {
    assert Index(p) / 4 == p.year && Index(q) / 4 == q.year;
  }

  /** One interval per key and one key per interval. */
  lemma KeyDeterminesPeriod(a: Date, b: Date)
    requires Valid(a) && Valid(b)
    ensures CurrentGoalPeriod(a) == CurrentGoalPeriod(b) <==>
              CurrentGoalPeriod(a).kind == CurrentGoalPeriod(b).kind && CurrentGoalPeriod(a).year == CurrentGoalPeriod(b).year
  {
  }

  lemma OneIndexPerDay(i: int, j: int, n: int)
    requires InSeason(i, n) && InSeason(j, n)
    ensures i == j
  {
  }

  /** The half-open interval of a season, by index. */
  predicate InSeason(q: int, n: int) {
    Boundary(q) <= n < Boundary(q + 1)
  }

  lemma WithinIsInSeason(today: Date, n: int)
    requires Valid(today)
    ensures Within(CurrentGoalPeriod(today), n) <==> InSeason(Index(CurrentGoalPeriod(today)), n)
  {
    PeriodIsBoundaryPair(today);
  }

  lemma SameIndexSamePeriod(a: Date, b: Date)
    requires Valid(a) && Valid(b)
    requires Index(CurrentGoalPeriod(a)) == Index(CurrentGoalPeriod(b))
    ensures CurrentGoalPeriod(a) == CurrentGoalPeriod(b)
  {
    IndexIsKey(CurrentGoalPeriod(a), CurrentGoalPeriod(b));
    KeyDeterminesPeriod(a, b);
  }

  lemma SharedDayMeansSameSeason(a: Date, b: Date, n: int)
    requires Valid(a) && Valid(b)
    requires Within(CurrentGoalPeriod(a), n) && Within(CurrentGoalPeriod(b), n)
    ensures CurrentGoalPeriod(a) == CurrentGoalPeriod(b)
  {
    var i, j := Index(CurrentGoalPeriod(a)), Index(CurrentGoalPeriod(b));
    assert InSeason(i, n) by {
      WithinIsInSeason(a, n);
    }
    assert InSeason(j, n) by {
      WithinIsInSeason(b, n);
    }
    assert i == j by {
      OneIndexPerDay(i, j, n);
    }
    SameIndexSamePeriod(a, b);
  }

  /** Seasons tile the calendar: a day lies in the season of another day exactly when both have the same season. */
  lemma OneSeasonPerDay(a: Date, b: Date)
    requires Valid(a) && Valid(b)
    ensures Within(CurrentGoalPeriod(a), Number(b)) <==> CurrentGoalPeriod(a) == CurrentGoalPeriod(b)
  {
    SeasonContainsToday(b);
    if Within(CurrentGoalPeriod(a), Number(b)) {
      SharedDayMeansSameSeason(a, b, Number(b));
    }
  }

  // ----- Review Sundays -----

  const INTERVAL := 14

  /** goalReviewDateDue on day numbers; the division is only reached with a non-negative dividend. */
  predicate DateDue(start: int, day: int) {
    var since := day - start;
    since >= INTERVAL - 1 && ((since - (INTERVAL - 1)) / 7) % 2 == 0
  }

  predicate ReviewDay(start: int, day: int) {
    Sunday(day) && DateDue(start, day)
  }

  /** The first Sunday at least 13 days into the period. */
  function FirstReview(start: int): (f: int)
    ensures Sunday(f) && start + 13 <= f <= start + 19
  {
    start + 13 + (6 - (start + 15) % 7)
  }

  lemma EvenWeeks(k: int)
    ensures (7 * k) % INTERVAL == 0 <==> k % 2 == 0
  {
    assert k == 2 * (k / 2) + k % 2;
    assert 7 * k == 14 * (k / 2) + 7 * (k % 2);
  }

  lemma ReviewsAreFortnightly(start: int, day: int)
    ensures ReviewDay(start, day) <==> day >= FirstReview(start) && (day - FirstReview(start)) % INTERVAL == 0
  {
    var f := FirstReview(start);
    var k := (day - f) / 7;
    if Sunday(day) {
      EvenWeeks(k);
      assert day - start - 13 == (f - start - 13) + 7 * k;
    }
  }

  /** How many review days lie on or before a day. */
  function ReviewsThrough(start: int, day: int): int {
    if day < FirstReview(start) then 0 else (day - FirstReview(start)) / INTERVAL + 1
  }

  lemma OneMoreReview(start: int, day: int)
    ensures ReviewsThrough(start, day) == ReviewsThrough(start, day - 1) + (if ReviewDay(start, day) then 1 else 0)
  {
    ReviewsAreFortnightly(start, day);
  }

  ghost function ReviewDays(start: int, from: int, until: int): set<int> {
    set day | from <= day < until && ReviewDay(start, day)
  }

  /** The closed form counts the set of review days. */
  lemma {:induction false} ClosedFormCounts(start: int, from: int, until: int)
    requires from <= until
    ensures |ReviewDays(start, from, until)| == ReviewsThrough(start, until - 1) - ReviewsThrough(start, from - 1)
    decreases until - from
  {
    if from == until {
      assert ReviewDays(start, from, until) == {};
    } else {
      var last := until - 1;
      ClosedFormCounts(start, from, last);
      OneMoreReview(start, last);
      var rest := ReviewDays(start, from, last);
      if ReviewDay(start, last) {
        assert ReviewDays(start, from, until) == rest + {last};
      } else {
        assert ReviewDays(start, from, until) == rest;
      }
    }
  }

  /** Every season, a 90-day winter included, has exactly six review Sundays, 14 days apart. */
  lemma SixReviewsPerSeason(today: Date)
    requires Valid(today)
    ensures var p := CurrentGoalPeriod(today); var start := Number(p.startsOn); var f := FirstReview(start);
            && ReviewDays(start, start, Number(p.endsOn)) == {f, f + 14, f + 28, f + 42, f + 56, f + 70}
            && |ReviewDays(start, start, Number(p.endsOn))| == 6
  {
    SeasonLength(today);
    var p := CurrentGoalPeriod(today);
    var start, end := Number(p.startsOn), Number(p.endsOn);
    var f := FirstReview(start);
    ClosedFormCounts(start, start, end);
    forall day ensures day in ReviewDays(start, start, end) <==> day in {f, f + 14, f + 28, f + 42, f + 56, f + 70} {
      ReviewsAreFortnightly(start, day);
      if day in ReviewDays(start, start, end) {
        var k := (day - f) / 14;
        assert day == f + 14 * k && 0 <= k <= 5;
      }
    }
  }

  /**
   GoalReviewCountdown walks day by day; it finds the closed form, which is the number of review days strictly
   between today and the end of the period.
  */
  method GoalReviewCountdown(start: int, end: int, today: int) returns (daysLeft: int, reviewsLeft: int)
    ensures daysLeft == Max(0, end - today)
    ensures reviewsLeft == if today < end then ReviewsThrough(start, end - 1) - ReviewsThrough(start, today) else 0
    ensures reviewsLeft == |ReviewDays(start, today + 1, end)|
  {
    if !(today < end) {
      assert ReviewDays(start, today + 1, end) == {};
      return 0, 0;
    }
    daysLeft, reviewsLeft := end - today, 0;
    var date := today + 1;
    while date < end
      invariant today + 1 <= date <= end
      invariant reviewsLeft == ReviewsThrough(start, date - 1) - ReviewsThrough(start, today)
    {
      OneMoreReview(start, date);
      if Sunday(date) && DateDue(start, date) {
        reviewsLeft := reviewsLeft + 1;
      }
      date := date + 1;
    }
    ClosedFormCounts(start, today + 1, end);
  }

  /** During a season the reviews already due and the reviews left add up to six. */
  lemma ReviewsAddUp(today: Date)
    requires Valid(today)
    ensures var p := CurrentGoalPeriod(today); var start, end := Number(p.startsOn), Number(p.endsOn);
            |ReviewDays(start, start, Number(today) + 1)| + |ReviewDays(start, Number(today) + 1, end)| == 6
  {
    SeasonContainsToday(today);
    SixReviewsPerSeason(today);
    var p := CurrentGoalPeriod(today);
    var start, end := Number(p.startsOn), Number(p.endsOn);
    ClosedFormCounts(start, start, end);
    ClosedFormCounts(start, start, Number(today) + 1);
    ClosedFormCounts(start, Number(today) + 1, end);
  }

  // ----- Due predicates of the two dispatchers -----

  const REVIEW_HOUR := 20

  /** Monday of the review week, when a weekly review may be created at this local day and hour. */
  function WeeklyReviewDue(start: int, day: int, hour: int): Option<int> {
    if Sunday(day) && hour >= REVIEW_HOUR && DateDue(start, day) then Some(day - 6) else None
  }

  predicate FinalReviewDue(end: int, day: int) {
    !(day < end)
  }

  predicate BeforeLocalDate(day: int, end: int) {
    day < end
  }
}
