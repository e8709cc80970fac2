/** `formatDate` of the comment thread: the relative age label shown beside a comment. */
module RelativeTime {
  import opened Text

  const MS_PER_HOUR := 1000 * 60 * 60
  const HOURS_PER_DAY := 24
  const MS_PER_DAY := HOURS_PER_DAY * MS_PER_HOUR

  /** The label for a comment created at `createdAt` seen at `now` (both in
      milliseconds since the epoch). The whole hours elapsed are
      `Math.floor(elapsed / 3600000)`; Dafny's `/` with a positive divisor is
      that floor, also for a negative (future) elapsed time. `localeDate` stands
      for `date.toLocaleDateString()`, which depends on the browser locale. */
  function FormatDate(createdAt: int, now: int, localeDate: string): string {
    var hours := (now - createdAt) / MS_PER_HOUR;
    if hours < 1 then "Just now"
    else if hours < HOURS_PER_DAY then DecimalString(hours) + " hour" + (if hours > 1 then "s" else "") + " ago"
    else
      var days := hours / HOURS_PER_DAY;
      if days < 7 then DecimalString(days) + " day" + (if days > 1 then "s" else "") + " ago"
      else localeDate
  }

  /** Under one hour, and any time in the future, reads "Just now". */
  lemma JustNowUnderAnHour(createdAt: int, now: int, localeDate: string)
    requires now - createdAt < MS_PER_HOUR
    ensures FormatDate(createdAt, now, localeDate) == "Just now"
  {
  }

  /** From one to 23 whole hours the label counts hours, singular only for one. */
  lemma HoursAgo(createdAt: int, now: int, localeDate: string, h: nat)
    requires 1 <= h < HOURS_PER_DAY
    requires h * MS_PER_HOUR <= now - createdAt < (h + 1) * MS_PER_HOUR
    ensures FormatDate(createdAt, now, localeDate)
      == DecimalString(h) + (if h == 1 then " hour ago" else " hours ago")
  {
    assert (now - createdAt) / MS_PER_HOUR == h;
  }

  /** Whole days counted as whole hours divided by 24 are whole days of milliseconds. */
  lemma WholeDays(elapsed: int, d: nat)
    requires d * MS_PER_DAY <= elapsed < (d + 1) * MS_PER_DAY
    ensures (elapsed / MS_PER_HOUR) / HOURS_PER_DAY == d
  {
    var hours := elapsed / MS_PER_HOUR;
    assert hours * MS_PER_HOUR <= elapsed < (hours + 1) * MS_PER_HOUR;
    assert d * HOURS_PER_DAY <= hours < (d + 1) * HOURS_PER_DAY;
  }

  /** From one to six whole days the label counts days, singular only for one. */
  lemma DaysAgo(createdAt: int, now: int, localeDate: string, d: nat)
    requires 1 <= d < 7
    requires d * MS_PER_DAY <= now - createdAt < (d + 1) * MS_PER_DAY
    ensures FormatDate(createdAt, now, localeDate)
      == DecimalString(d) + (if d == 1 then " day ago" else " days ago")
  {
    WholeDays(now - createdAt, d);
  }

  /** From seven whole days on, the locale date is shown instead of a relative label. */
  lemma LocaleDateAfterAWeek(createdAt: int, now: int, localeDate: string)
    requires now - createdAt >= 7 * MS_PER_DAY
    ensures FormatDate(createdAt, now, localeDate) == localeDate
  {
    var hours := (now - createdAt) / MS_PER_HOUR;
    assert hours >= 7 * HOURS_PER_DAY;
  }

  /** Labels for comments 30 minutes, 3 hours, 2 days and 10 days old. */
  lemma BoundaryExamples(now: int, localeDate: string)
    ensures FormatDate(now - 30 * 60 * 1000, now, localeDate) == "Just now"
    ensures FormatDate(now - 3 * MS_PER_HOUR, now, localeDate) == "3 hours ago"
    ensures FormatDate(now - 2 * MS_PER_DAY, now, localeDate) == "2 days ago"
    ensures FormatDate(now - 10 * MS_PER_DAY, now, localeDate) == localeDate
  {
    JustNowUnderAnHour(now - 30 * 60 * 1000, now, localeDate);
    assert DecimalString(3) == "3";
    HoursAgo(now - 3 * MS_PER_HOUR, now, localeDate, 3);
    assert DecimalString(2) == "2";
    DaysAgo(now - 2 * MS_PER_DAY, now, localeDate, 2);
    LocaleDateAfterAWeek(now - 10 * MS_PER_DAY, now, localeDate);
  }

  /** An hour label determines the whole hours elapsed: two comments showing
      the same "… hour(s) ago" label were created in the same hour. */
  lemma HourLabelDeterminesAge(c1: int, c2: int, now: int, localeDate: string)
    requires 1 <= (now - c1) / MS_PER_HOUR < HOURS_PER_DAY
    requires 1 <= (now - c2) / MS_PER_HOUR < HOURS_PER_DAY
    requires FormatDate(c1, now, localeDate) == FormatDate(c2, now, localeDate)
    ensures (now - c1) / MS_PER_HOUR == (now - c2) / MS_PER_HOUR
  {
    var h1, h2 := (now - c1) / MS_PER_HOUR, (now - c2) / MS_PER_HOUR;
    var x1 := " hour" + (if h1 > 1 then "s" else "") + " ago";
    var x2 := " hour" + (if h2 > 1 then "s" else "") + " ago";
    assert FormatDate(c1, now, localeDate) == DecimalString(h1) + x1;
    assert FormatDate(c2, now, localeDate) == DecimalString(h2) + x2;
    DigitsPrefixUnique(DecimalString(h1), x1, DecimalString(h2), x2);
    DecimalInjective(h1, h2);
  }
}
