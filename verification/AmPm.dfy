/** Recovering AM or PM for a 12-hour time, from the arrival of its alert.
    All times are microseconds; a time of day counts from midnight, the arrival from the midnight
    that begins the stated date, both in IST. */
module AmPm {
  import opened Rows

  const MINUTE := 60_000_000
  const HOUR := 60 * MINUTE
  const FUTURE_TOLERANCE := 5 * MINUTE
  const PAST_LIMIT := 12 * HOUR

  predicate IsTime(t: int) {
    0 <= t < 24 * HOUR
  }

  function HourOf(t: int): int {
    t / HOUR
  }

  /** The two readings of a parsed time; one when its hour is not ambiguous. */
  function Readings(parsed: int): seq<int> {
    var hour := HourOf(parsed);
    if hour == 0 || hour > 12 then [parsed]
    else if hour == 12 then [parsed - 12 * HOUR, parsed]
    else [parsed, parsed + 12 * HOUR]
  }

  function Abs(x: int): nat {
    if x < 0 then -x else x
  }

  /** A reading that the arrival does not rule out. */
  predicate Plausible(reading: int, received: int) {
    reading - received <= FUTURE_TOLERANCE && received - reading <= PAST_LIMIT
  }

  /** The loop of the program over the two candidates. */
  method Disambiguate(parsed: int, hasDate: bool, received: Option<int>) returns (time: int)
    requires IsTime(parsed)
    ensures IsTime(time)
    ensures !hasDate || received.None? ==> time == parsed
    ensures hasDate && received.Some? ==> time == Resolve(parsed, received.value)
  {
    if !hasDate || received.None? {
      return parsed;
    }
    var hour := HourOf(parsed);
    if hour == 0 {
      return parsed;
    }
    var candidates;
    if hour < 12 {
      candidates := [parsed, parsed + 12 * HOUR];
    } else if hour == 12 {
      candidates := [parsed - 12 * HOUR, parsed];
    } else {
      return parsed;
    }
    var best: Option<(int, int)> := None;
    for i := 0 to |candidates|
      invariant best.Some? ==> exists k :: 0 <= k < i && best.value == (Abs(candidates[k] - received.value), candidates[k])
                                 && Plausible(candidates[k], received.value)
      invariant forall k :: 0 <= k < i && Plausible(candidates[k], received.value) ==>
                  best.Some? && best.value.0 <= Abs(candidates[k] - received.value)
      invariant i == 1 ==> (best.Some? <==> Plausible(candidates[0], received.value))
      invariant i == 2 && Plausible(candidates[0], received.value)
                && Abs(candidates[0] - received.value) <= Abs(candidates[1] - received.value) ==>
                  best.value.1 == candidates[0]
    {
      var delta := candidates[i] - received.value;
      if delta > FUTURE_TOLERANCE {
        continue;
      }
      if -delta > PAST_LIMIT {
        continue;
      }
      var gap := Abs(delta);
      if best.None? || gap < best.value.0 {
        best := Some((gap, candidates[i]));
      }
    }
    time := if best.Some? then best.value.1 else parsed;
  }

  /** The plausible reading closest to the arrival, the earlier one on a tie; the parsed time when
      none is plausible. */
  function Resolve(parsed: int, received: int): int {
    var readings := Readings(parsed);
    if |readings| == 1 then parsed
    else if Plausible(readings[0], received)
            && (!Plausible(readings[1], received) || Abs(readings[0] - received) <= Abs(readings[1] - received))
    then readings[0]
    else if Plausible(readings[1], received) then readings[1]
    else parsed
  }

  /******* What the recovery undoes *******/

  /** The 12-hour face of a time: hours 1 to 12, minutes and below unchanged. */
  function Face(t: int): int {
    var hour := HourOf(t);
    if hour == 0 then t + 12 * HOUR else if hour > 12 then t - 12 * HOUR else t
  }

  /** Exactly when the face of a true time `t` gives `t` back, for every time and every arrival. */
  lemma RecoveryExact(t: int, received: int)
    requires IsTime(t)
    ensures IsTime(Face(t)) && 1 <= HourOf(Face(t)) <= 12
    ensures var lag := received - t;
            Resolve(Face(t), received) == t
            <==> if t < 12 * HOUR
                 then || -FUTURE_TOLERANCE <= lag < PAST_LIMIT - FUTURE_TOLERANCE
                      || (HourOf(t) >= 1 && (lag < -FUTURE_TOLERANCE || lag > 24 * HOUR))
                 else || -FUTURE_TOLERANCE <= lag <= PAST_LIMIT
                      || (HourOf(t) == 12 && (lag < -PAST_LIMIT - FUTURE_TOLERANCE || lag > PAST_LIMIT))
  {
    var lag := received - t;
    if t < 12 * HOUR {
      assert Readings(Face(t)) == [t, t + 12 * HOUR];
    } else {
      assert Readings(Face(t)) == [t - 12 * HOUR, t];
    }
  }

  /** Every alert that arrives from 5 minutes before to just under 11 hours 55 minutes after its
      transaction gets the true time back. */
  lemma PromptAlertsAreRecovered(t: int, received: int)
    requires IsTime(t) && -5 * MINUTE <= received - t < 11 * HOUR + 55 * MINUTE
    ensures Resolve(Face(t), received) == t
  {
    RecoveryExact(t, received);
  }

  /** The bound is tight: at exactly 11 hours 55 minutes every morning time comes back as afternoon. */
  lemma LaterAlertsTurnToAfternoon(t: int)
    requires 0 <= t < 12 * HOUR
    ensures Resolve(Face(t), t + 11 * HOUR + 55 * MINUTE) == t + 12 * HOUR
  {
  }

  /** A result is always one of the two readings of what was parsed, so it shows the same face. */
  lemma ResultKeepsTheFace(parsed: int, received: int)
    requires IsTime(parsed) && 1 <= HourOf(parsed) <= 12
    ensures IsTime(Resolve(parsed, received)) && Face(Resolve(parsed, received)) == parsed
  {
  }
}
