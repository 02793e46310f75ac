/** The score tracker: a running score and the time the game started.
    The system clock is not part of this model: `SystemTime::now()` becomes
    a clock reading passed in by the caller. */
module ScoreTracker {
  import opened Prelude

  /** Rust `u64`. */
  type UInt64 = x: int | 0 <= x < 0x1_0000_0000_0000_0000

  /** A reading of the system clock, in nanoseconds since some epoch. */
  type Reading = x: int | 0 <= x < 0x1_0000_0000_0000_0000

  const NanosPerSecond := 1_000_000_000

  /** `startTime` is the clock reading taken when the tracker was created. */
  datatype ScoreTracker = ScoreTracker(score: Int32, startTime: Reading)

  /** A non-negative span of time, in whole seconds plus nanoseconds. */
  datatype Duration = Duration(secs: UInt64, nanos: nat)

  /** The clock went backwards: the start time lies `ahead` in the future. */
  datatype TimeError = TimeError(ahead: Duration)

  function New(now: Reading): (t: ScoreTracker)
    ensures t.score == 0 && t.startTime == now
  {
    ScoreTracker(0, now)
  }

  /** Adds points; an `i32` overflow is excluded by the precondition. */
  function IncreaseScore(t: ScoreTracker, points: Int32): (r: ScoreTracker)
    requires InInt32(t.score + points)
    ensures r.score == t.score + points
    ensures r.startTime == t.startTime
  {
    t.(score := t.score + points)
  }

  function GetFinalScore(t: ScoreTracker): (s: Int32)
    ensures s == t.score
  {
    t.score
  }

  /** True iff adding `points` one by one from `score` never leaves `i32`. */
  predicate NoOverflow(score: int, points: seq<Int32>)
    decreases |points|
  {
    points == [] || (InInt32(score + points[0]) && NoOverflow(score + points[0], points[1..]))
  }

  function Sum(points: seq<Int32>): int
    decreases |points|
  {
    if points == [] then 0 else points[0] + Sum(points[1..])
  }

  /** A run of `increase_score` calls in order. */
  function IncreaseAll(t: ScoreTracker, points: seq<Int32>): ScoreTracker
    requires NoOverflow(t.score, points)
    decreases |points|
  {
    if points == [] then t else IncreaseAll(IncreaseScore(t, points[0]), points[1..])
  }

  /** The final score is the start score plus the sum of all points added,
      and the start time never changes. */
  lemma {:induction false} FinalScoreIsSum(t: ScoreTracker, points: seq<Int32>)
    requires NoOverflow(t.score, points)
    ensures GetFinalScore(IncreaseAll(t, points)) == t.score + Sum(points)
    ensures IncreaseAll(t, points).startTime == t.startTime
    decreases |points|
  {
    if points != [] {
      FinalScoreIsSum(IncreaseScore(t, points[0]), points[1..]);
    }
  }

  /** A span of nanoseconds as whole seconds plus the nanoseconds left over. */
  function Span(nanos: Reading): (d: Duration)
    ensures d.nanos < NanosPerSecond
    ensures d.secs * NanosPerSecond + d.nanos == nanos
  {
    Duration(nanos / NanosPerSecond, nanos % NanosPerSecond)
  }

  /** `SystemTime::elapsed`: the time from `start` to `now`, or an error
      carrying how far `start` lies ahead when the clock went backwards. */
  function Elapsed(start: Reading, now: Reading): (r: Result<Duration, TimeError>)
    ensures r.Ok? <==> start <= now
    ensures r.Ok? ==> r.value.secs * NanosPerSecond + r.value.nanos == now - start
    ensures r.Err? ==> r.error.ahead.secs * NanosPerSecond + r.error.ahead.nanos == start - now
  {
    if start <= now then Ok(Span(now - start)) else Err(TimeError(Span(start - now)))
  }

  /** `get_time_elapsed` as written, at clock reading `now`: whole minutes,
      and total whole seconds. */
  function GetTimeElapsed(t: ScoreTracker, now: Reading): (r: Result<(UInt64, UInt64), TimeError>)
    ensures r.Err? <==> now < t.startTime
    ensures r.Err? ==> r.error.ahead.secs * NanosPerSecond + r.error.ahead.nanos == t.startTime - now
    ensures r.Ok? ==> r.value.1 * NanosPerSecond <= now - t.startTime < (r.value.1 + 1) * NanosPerSecond
    ensures r.Ok? ==> r.value.0 * 60 <= r.value.1 < r.value.0 * 60 + 60
  {
    match Elapsed(t.startTime, now)
    case Ok(duration) =>
      var seconds := duration.secs;
      var minutes := seconds / 60;
      Ok((minutes, seconds))
    case Err(err) => Err(err)
  }

  /** The HUD prints the pair as "minutes:seconds"; as written, 75 seconds
      after the start the pair is (1, 75), shown as "1:75". */
  lemma ElapsedSecondsNotWrapped(t: ScoreTracker)
    requires t.startTime + 75 * NanosPerSecond < 0x1_0000_0000_0000_0000
    ensures GetTimeElapsed(t, t.startTime + 75 * NanosPerSecond) == Ok((1, 75))
    ensures GetTimeElapsed(t, t.startTime + 75 * NanosPerSecond).value.1 >= 60
  {
  }

  /** The pair the "minutes:seconds" display expects: whole minutes and the
      whole seconds left over. */
  function GetTimeElapsedMinSec(t: ScoreTracker, now: Reading): (r: Result<(UInt64, UInt64), TimeError>)
    ensures r.Err? <==> now < t.startTime
    ensures r.Err? ==> r.error.ahead.secs * NanosPerSecond + r.error.ahead.nanos == t.startTime - now
    ensures r.Ok? ==> r.value.1 < 60
    ensures r.Ok? ==> var secs := r.value.0 * 60 + r.value.1;
      secs * NanosPerSecond <= now - t.startTime < (secs + 1) * NanosPerSecond
  {
    match Elapsed(t.startTime, now)
    case Ok(duration) => Ok((duration.secs / 60, duration.secs % 60))
    case Err(err) => Err(err)
  }
}
