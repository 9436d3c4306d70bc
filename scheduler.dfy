/**
 * When a queued job is due. Instants are whole seconds; reading and
 * writing their RFC 3339 text form is a parser and a formatter given as
 * parameters, and the clock is the parameter `now`.
 */
module Scheduler {
  import opened Wrappers
  import opened Ints

  const SECONDS_PER_DAY: int := 86400

  /** The RFC 3339 parser reads back every instant the formatter writes. */
  ghost predicate TimeRoundTrips(parse: string -> Option<int>, format: int -> string) {
    forall t :: parse(format(t)) == Some(t)
  }

  /** `is_job_due`: both texts must parse, and the next run must not lie after now. */
  function IsJobDue(parse: string -> Option<int>, nextRunAt: string, now: string): (due: bool)
    ensures due <==> parse(nextRunAt).Some? && parse(now).Some? && parse(nextRunAt).value <= parse(now).value
  {
    match (parse(nextRunAt), parse(now))
    case (Some(n), Some(c)) => n <= c
    case _ => false
  }

  /** The panic of chrono's `DateTime + TimeDelta` past its last representable instant. */
  datatype Panic = AddOverflowed

  /**
   * `next_run_timestamp`: the text of the instant `days` whole days after
   * now. `maxInstant` is the last instant chrono represents (the end of
   * the year 262143); a sum past it panics.
   */
  function NextRunTimestamp(format: int -> string, maxInstant: int, now: int, days: uint32): (r: Result<string, Panic>)
    ensures r.Ok? <==> now + days as int * SECONDS_PER_DAY <= maxInstant
    ensures r.Err? ==> r.error == AddOverflowed
    ensures r.Ok? ==> r.value == format(now + days as int * SECONDS_PER_DAY)
  {
    var next := now + days as int * SECONDS_PER_DAY;
    if next > maxInstant then Err(AddOverflowed) else Ok(format(next))
  }

  /**
   * Against the same clock reading, a next run scheduled `days` days ahead
   * is due exactly when `days` is 0; an instant is due at itself, and an
   * earlier one is due while a later one is not.
   */
  lemma NextRunDue(parse: string -> Option<int>, format: int -> string, maxInstant: int, now: int, days: uint32, t: int)
    requires TimeRoundTrips(parse, format)
    requires now + days as int * SECONDS_PER_DAY <= maxInstant
    ensures NextRunTimestamp(format, maxInstant, now, days).Ok?
    ensures parse(NextRunTimestamp(format, maxInstant, now, days).value) == Some(now + days as int * SECONDS_PER_DAY)
    ensures IsJobDue(parse, NextRunTimestamp(format, maxInstant, now, days).value, format(now)) <==> days == 0
    ensures IsJobDue(parse, format(t), format(t))
    ensures IsJobDue(parse, format(t - 3600), format(t)) && !IsJobDue(parse, format(t + 3600), format(t))
  {
    assert parse(format(now + days as int * SECONDS_PER_DAY)) == Some(now + days as int * SECONDS_PER_DAY);
    assert parse(format(now)) == Some(now);
    assert parse(format(t)) == Some(t);
    assert parse(format(t - 3600)) == Some(t - 3600);
    assert parse(format(t + 3600)) == Some(t + 3600);
  }

  /**
   * Scheduling panics exactly when the interval reaches past chrono's last
   * instant: the largest `u32` interval does so from any clock reading
   * within `u32::MAX` days of that instant.
   */
  lemma LargeIntervalPanics(format: int -> string, maxInstant: int, now: int)
    requires maxInstant - now < 0xFFFF_FFFF * SECONDS_PER_DAY
    ensures NextRunTimestamp(format, maxInstant, now, 0xFFFF_FFFF) == Err(AddOverflowed)
  {
  }

  /** A text that does not parse is never due, on either side. */
  lemma UnparsableNeverDue(parse: string -> Option<int>, bad: string, other: string)
    requires parse(bad).None?
    ensures !IsJobDue(parse, bad, other) && !IsJobDue(parse, other, bad)
  {
  }
}
