/**
 * The formatting helpers of `src/utils/formatters.ts`: relative-time
 * bucketing, the status badge classes and the overview statistics.
 *
 * `formatTimeAgo` reads the clock; here it is a function of the elapsed
 * milliseconds `now - date`. `Math.floor` of a quotient by a positive
 * constant is Dafny's `/`, which rounds toward negative infinity for a
 * positive divisor.
 */
module Formatters {
  import opened Seqs
  import opened Types

  // ---------------------------------------------------------------------
  // formatTimeAgo
  // ---------------------------------------------------------------------

  const Minute := 60_000
  const Hour := 3_600_000
  const Day := 86_400_000
  const Week := 604_800_000

  /** The unit and count `formatTimeAgo` reports. */
  datatype Ago = JustNow | Minutes(m: int) | Hours(h: int) | Days(d: int) | Weeks(w: int)

  /**
   * `formatTimeAgo`: whole seconds, then whole minutes, hours, days and
   * weeks, each taken from the previous by flooring.
   */
  function TimeAgo(elapsedMs: int): (r: Ago)
    ensures r == JustNow <==> elapsedMs < Minute
    ensures r.Minutes? <==> Minute <= elapsedMs < Hour
    ensures r.Hours? <==> Hour <= elapsedMs < Day
    ensures r.Days? <==> Day <= elapsedMs < Week
    ensures r.Weeks? <==> Week <= elapsedMs
    ensures r.Minutes? ==> 1 <= r.m <= 59 && r.m * Minute <= elapsedMs < (r.m + 1) * Minute
    ensures r.Hours? ==> 1 <= r.h <= 23 && r.h * Hour <= elapsedMs < (r.h + 1) * Hour
    ensures r.Days? ==> 1 <= r.d <= 6 && r.d * Day <= elapsedMs < (r.d + 1) * Day
    ensures r.Weeks? ==> 1 <= r.w && r.w * Week <= elapsedMs < (r.w + 1) * Week
  {
    var seconds := elapsedMs / 1000;
    if seconds < 60 then JustNow
    else
      var minutes := seconds / 60;
      if minutes < 60 then Minutes(minutes)
      else
        var hours := minutes / 60;
        if hours < 24 then Hours(hours)
        else
          var days := hours / 24;
          if days < 7 then Days(days)
          else
            Weeks(days / 7)
  }

  /** The position of a bucket from the shortest unit to the longest. */
  function Rank(a: Ago): nat {
    match a
    case JustNow => 0
    case Minutes(_) => 1
    case Hours(_) => 2
    case Days(_) => 3
    case Weeks(_) => 4
  }

  /** The number shown with the unit (none for "Just now"). */
  function Amount(a: Ago): int {
    match a
    case JustNow => 0
    case Minutes(m) => m
    case Hours(h) => h
    case Days(d) => d
    case Weeks(w) => w
  }

  /** More elapsed time never lands in a shorter unit, nor on a smaller count of the same unit. */
  lemma TimeAgoMonotone(x: int, y: int)
    requires x <= y
    ensures Rank(TimeAgo(x)) <= Rank(TimeAgo(y))
    ensures Rank(TimeAgo(x)) == Rank(TimeAgo(y)) ==> Amount(TimeAgo(x)) <= Amount(TimeAgo(y))
  {
  }

  /** The decimal digit for `d`. */
  function Digit(d: int): char
    requires 0 <= d < 10
  {
    ['0', '1', '2', '3', '4', '5', '6', '7', '8', '9'][d]
  }

  /** The value of a decimal digit character. */
  function DigitValue(c: char): int {
    if '0' <= c <= '9' then c as int - '0' as int else 0
  }

  /** A natural number in decimal, as a template literal prints it. */
  function Decimal(n: nat): (r: string)
    ensures |r| > 0
    ensures forall k :: 0 <= k < |r| ==> '0' <= r[k] <= '9'
  {
    if n < 10 then [Digit(n)] else Decimal(n / 10) + [Digit(n % 10)]
  }

  /** Reads a string of decimal digits. */
  function ParseDecimal(s: string): int {
    if |s| == 0 then 0 else ParseDecimal(s[..|s| - 1]) * 10 + DigitValue(s[|s| - 1])
  }

  /** Printing a count in decimal loses nothing. */
  lemma {:induction false} DecimalRoundTrip(n: nat)
    ensures ParseDecimal(Decimal(n)) == n
  {
    if n >= 10 {
      DecimalRoundTrip(n / 10);
      var s := Decimal(n);
      assert s[..|s| - 1] == Decimal(n / 10);
    }
  }

  /** The text `formatTimeAgo` returns. */
  function Render(a: Ago): string {
    match a
    case JustNow => "Just now"
    case Minutes(m) => Decimal(if m < 0 then 0 else m) + "m ago"
    case Hours(h) => Decimal(if h < 0 then 0 else h) + "h ago"
    case Days(d) => Decimal(if d < 0 then 0 else d) + "d ago"
    case Weeks(w) => Decimal(if w < 0 then 0 else w) + "w ago"
  }

  /** `formatTimeAgo` of a date `elapsedMs` milliseconds in the past. */
  function FormatTimeAgo(elapsedMs: int): (r: string)
    ensures r == "Just now" <==> elapsedMs < Minute
  {
    var a := TimeAgo(elapsedMs);
    var r := Render(a);
    assert a != JustNow ==> '0' <= r[0] <= '9';
    r
  }

  /** `q` is the quotient of `e` by `n` rounded down. */
  lemma FloorUnique(e: int, n: int, q: int)
    requires n > 0 && q * n <= e < (q + 1) * n
    ensures e / n == q
  {
    var d := e / n;
    assert d * n <= e < (d + 1) * n;
    if d < q {
      MulMonotone(n, d + 1, q);
    } else if q < d {
      MulMonotone(n, q + 1, d);
    }
  }

  /**
   * Under a minute, including a date in the future, reads "Just now".
   * Otherwise the text is the elapsed time divided by the largest unit that
   * fits (weeks at most) and rounded down, in decimal without a leading
   * zero, then the unit's letter and " ago": the chain of floors in the
   * source gives the same count as one floor by the unit.
   */
  lemma FormatTimeAgoShape(elapsedMs: int)
    ensures elapsedMs < Minute ==> FormatTimeAgo(elapsedMs) == "Just now"
    ensures Minute <= elapsedMs < Hour ==> FormatTimeAgo(elapsedMs) == Decimal(elapsedMs / Minute) + "m ago"
    ensures Hour <= elapsedMs < Day ==> FormatTimeAgo(elapsedMs) == Decimal(elapsedMs / Hour) + "h ago"
    ensures Day <= elapsedMs < Week ==> FormatTimeAgo(elapsedMs) == Decimal(elapsedMs / Day) + "d ago"
    ensures Week <= elapsedMs ==> FormatTimeAgo(elapsedMs) == Decimal(elapsedMs / Week) + "w ago"
    ensures elapsedMs >= Minute ==> var s := FormatTimeAgo(elapsedMs);
                                    |s| >= 6 && s[|s| - 4..] == " ago" && '1' <= s[0] <= '9'
  {
    var a := TimeAgo(elapsedMs);
    match a
    case JustNow =>
    case Minutes(m) => FloorUnique(elapsedMs, Minute, m); DecimalLeadingDigit(m);
    case Hours(h) => FloorUnique(elapsedMs, Hour, h); DecimalLeadingDigit(h);
    case Days(d) => FloorUnique(elapsedMs, Day, d); DecimalLeadingDigit(d);
    case Weeks(w) => FloorUnique(elapsedMs, Week, w); DecimalLeadingDigit(w);
  }

  /** A positive number's decimal form has no leading zero. */
  lemma {:induction false} DecimalLeadingDigit(n: nat)
    requires n >= 1
    ensures '1' <= Decimal(n)[0] <= '9'
  {
    if n >= 10 {
      DecimalLeadingDigit(n / 10);
    }
  }

  // ---------------------------------------------------------------------
  // getStatusColor
  // ---------------------------------------------------------------------

  const ActiveClass := "bg-success/20 text-success border-success/30"
  const PausedClass := "bg-warning/20 text-warning border-warning/30"
  const PlannedClass := "bg-accent/20 text-accent border-accent/30"
  const MutedClass := "bg-muted/20 text-muted border-muted/30"

  /** The badge classes for a project status. */
  function StatusColor(status: string): (r: string)
    ensures r == MutedClass <==> status != Active && status != Paused && status != Planned
  {
    if status == Active then ActiveClass
    else if status == Paused then PausedClass
    else if status == Planned then PlannedClass
    else MutedClass
  }

  /** The three known statuses get three different classes. */
  lemma StatusColorsDistinct()
    ensures StatusColor(Active) != StatusColor(Paused)
    ensures StatusColor(Active) != StatusColor(Planned)
    ensures StatusColor(Paused) != StatusColor(Planned)
  {
    assert ActiveClass[3] != PausedClass[3] && ActiveClass[3] != PlannedClass[3] && PausedClass[3] != PlannedClass[3];
  }

  // ---------------------------------------------------------------------
  // getProjectStats
  // ---------------------------------------------------------------------

  function IsActive(p: Project): bool { p.status == Active }

  /** The sum of the progress values (the `reduce`). */
  function SumProgress(ps: seq<Project>): int {
    if |ps| == 0 then 0 else SumProgress(ps[..|ps| - 1]) + ps[|ps| - 1].progress
  }

  /** Every progress value is a percentage. */
  ghost predicate PercentagesOnly(ps: seq<Project>) {
    forall p :: p in ps ==> 0 <= p.progress <= 100
  }

  lemma {:induction false} SumProgressBounds(ps: seq<Project>)
    requires PercentagesOnly(ps)
    ensures 0 <= SumProgress(ps) <= 100 * |ps|
  {
    if |ps| > 0 {
      var init := ps[..|ps| - 1];
      assert forall p :: p in init ==> p in ps;
      assert ps[|ps| - 1] in ps;
      SumProgressBounds(init);
    }
  }

  datatype Stats = Stats(activeProjects: nat, avgProgress: int)

  /**
   * `Math.round(sum / n)` on integers: the nearest integer to `sum / n`,
   * halves rounding up, i.e. `floor((2 * sum + n) / (2 * n))`.
   */
  function RoundHalfUp(sum: int, n: int): (q: int)
    requires n > 0
    ensures 2 * n * q - n <= 2 * sum < 2 * n * q + n
  {
    var q := (2 * sum + n) / (2 * n);
    assert (2 * n) * q <= 2 * sum + n < (2 * n) * q + 2 * n;
    q
  }

  /** `getProjectStats`. */
  function ProjectStats(ps: seq<Project>): (r: Stats)
    ensures r.activeProjects <= |ps|
    ensures r.activeProjects == 0 <==> forall p :: p in ps ==> p.status != Active
    ensures |ps| == 0 ==> r.avgProgress == 0
    ensures |ps| > 0 ==> 2 * |ps| * r.avgProgress - |ps| <= 2 * SumProgress(ps) < 2 * |ps| * r.avgProgress + |ps|
  {
    var active := Filter(ps, IsActive);
    assert |active| > 0 ==> active[0] in active;
    Stats(|active|, if |ps| > 0 then RoundHalfUp(SumProgress(ps), |ps|) else 0)
  }

  /** The active count of the statistics is the number of active projects. */
  lemma ActiveProjectsCounted(ps: seq<Project>)
    ensures ProjectStats(ps).activeProjects == CountWhere(ps, IsActive)
  {
    FilterLengthIsCount(ps, IsActive);
  }

  /** Multiplying by a positive count keeps the order. */
  lemma MulMonotone(n: int, a: int, b: int)
    requires n > 0 && a <= b
    ensures n * a <= n * b
  {
    assert n * b - n * a == n * (b - a);
  }

  /** With percentages only, the average is a percentage too. */
  lemma AverageIsPercentage(ps: seq<Project>)
    requires PercentagesOnly(ps)
    ensures 0 <= ProjectStats(ps).avgProgress <= 100
  {
    if |ps| > 0 {
      SumProgressBounds(ps);
      var n, q := |ps|, ProjectStats(ps).avgProgress;
      if q < 0 {
        MulMonotone(2 * n, q, -1);
      }
      if q > 100 {
        MulMonotone(2 * n, 101, q);
      }
    }
  }
}
