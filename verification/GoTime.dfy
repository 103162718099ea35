/**
 Instants as the store keeps them: whole seconds, counted from Go's zero time.Time
 (1 January of year 1, 00:00 UTC). With that origin `IsZero` is `t == 0`, and truncating to an
 hour or to a UTC day is rounding down to a multiple.
 */
module GoTime {
  const HOUR: int := 3600
  const DAY: int := 86400

  function ToHour(t: int): (r: int)
    ensures r <= t < r + HOUR && r % HOUR == 0
  {
    t - t % HOUR
  }

  function ToDay(t: int): (r: int)
    ensures r <= t < r + DAY && r % DAY == 0
  {
    t - t % DAY
  }

  /** Against an hour start, an instant compares as the start of its own hour does. */
  lemma HourStart(t: int, h: int)
    requires h % HOUR == 0
    ensures h <= t <==> h <= ToHour(t)
    ensures h <= t < h + HOUR <==> ToHour(t) == h
  {
  }

  lemma DayIsHour(d: int)
    requires d % DAY == 0
    ensures d % HOUR == 0
  {
    assert d == HOUR * (24 * (d / DAY));
  }

  /** Against a day start, an instant compares as the start of its own day does. */
  lemma DayStartsDay(t: int, d: int)
    requires d % DAY == 0
    ensures d <= t <==> d <= ToDay(t)
    ensures d <= t < d + DAY <==> ToDay(t) == d
  {
  }

  /** Hours nest in days: a day start separates instants, hours and days alike. */
  lemma DayStart(t: int, d: int)
    requires d % DAY == 0
    ensures d <= t <==> d <= ToHour(t)
    ensures d <= t <==> d <= ToDay(t)
    ensures d <= t < d + DAY <==> ToDay(t) == d
  {
    DayIsHour(d);
    HourStart(t, d);
    DayStartsDay(t, d);
  }

  lemma DayRange(t: int, d: int)
    requires d % DAY == 0
    ensures d <= ToHour(t) < d + DAY <==> ToDay(t) == d
    ensures d <= ToDay(t) < d + DAY <==> ToDay(t) == d
  {
    DayStart(t, d);
    DayStart(t, d + DAY);
  }
}
