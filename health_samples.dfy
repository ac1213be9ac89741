/**
 * The two private fetch helpers of HealthDataController, with the HealthKit
 * query itself abstracted: what awaiting the query descriptor produced is an
 * input. The seven-day window, the end-date sort and the limit of one are the
 * query's business; the helpers only look at its outcome.
 */
module HealthSamples {
  import opened Wrappers

  /** A sample as the store hands it back: a quantity already expressed in the
      unit the caller asked for, or a category sample spanning two instants
      given in whole seconds. */
  datatype Sample = QuantitySample(quantity: int) | CategorySample(startDate: int, endDate: int)

  /** What awaiting one sample query produced: it threw (not authorised, store
      unavailable, ...) or it returned these samples, most recent first. */
  datatype QueryResult = Threw | Returned(samples: seq<Sample>)

  /** A span in minutes, kept exact as `seconds / 60` (what
      `timeIntervalSince(_:) / 60.0` computes for whole-second instants). */
  datatype Minutes = Minutes(seconds: int)

  /** `mostRecentQuantitySample`: the quantity of the first returned sample when
      that sample is a quantity sample, and nothing when the query threw, came
      back empty or came back with a sample of another kind. */
  function MostRecentQuantitySample(q: QueryResult): (r: Option<int>)
    ensures r.Some? <==> q.Returned? && |q.samples| > 0 && q.samples[0].QuantitySample?
    ensures r.Some? ==> r.value == q.samples[0].quantity
  {
    match q
    case Threw => None
    case Returned(samples) =>
      if |samples| > 0 && samples[0].QuantitySample? then Some(samples[0].quantity) else None
  }

  /** `mostRecentSleepMinutes`: the span of the first returned sample when that
      sample is a category sample, and nothing otherwise; an error never escapes. */
  function MostRecentSleepMinutes(q: QueryResult): (r: Option<Minutes>)
    ensures r.Some? <==> q.Returned? && |q.samples| > 0 && q.samples[0].CategorySample?
    ensures r.Some? ==> r.value.seconds == q.samples[0].endDate - q.samples[0].startDate
  {
    match q
    case Threw => None
    case Returned(samples) =>
      if |samples| > 0 && samples[0].CategorySample? then
        Some(Minutes(samples[0].endDate - samples[0].startDate))
      else None
  }

  /** Swift's `Int(_: Double)` on a span of minutes: the whole minutes,
      truncated toward zero. */
  function WholeMinutes(m: Minutes): (r: int)
    ensures m.seconds >= 0 ==> 0 <= r && r * 60 <= m.seconds < r * 60 + 60
    ensures m.seconds < 0 ==> r <= 0 && r * 60 - 60 < m.seconds <= r * 60
  {
    if m.seconds >= 0 then m.seconds / 60 else -((-m.seconds) / 60)
  }
}
