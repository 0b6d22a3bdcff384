/** One connection as a point in the behaviour space. */
module Points {
  import opened Options
  import opened Entries

  const NUM_DIMS := 9
  const DIM_USER_ACTIVE := 6

  /** What a person is told; the two circular dimensions of the hour share a name. */
  const DIM_NAMES: seq<string> := [
    "bytes sent", "bytes received", "up:down ratio", "duration", "hour of day", "hour of day",
    "whether you were at the keyboard", "time since the last connection to this host",
    "how much else was connecting at the time"]

  const ZERO_POINT: seq<real> := seq(NUM_DIMS, _ => 0.0)

  type Point = p: seq<real> | |p| == NUM_DIMS witness ZERO_POINT

  const NANOS_PER_SECOND := 1000000000
  const SECONDS_PER_DAY := 86400
  const UNKNOWN_INTER_ARRIVAL := 3600.0
  const UNKNOWN_USER_ACTIVE := 0.5

  /** The transcendental functions of the platform; nothing below depends on their values. */
  datatype Analysis = Analysis(log1p: real -> real, sinTurn: real -> real, cosTurn: real -> real, sqrt: real -> real)

  /** The fraction of the day, in the timestamp's own zone, at a whole minute. */
  function DayFraction(at: int, offset: int): real {
    var minute := (at / NANOS_PER_SECOND + offset) % SECONDS_PER_DAY / 60;
    ((minute / 60) as real + (minute % 60) as real / 60.0) / 24.0
  }

  /** prev is the time of the pair's previous connection; the zero time means there was none. */
  function Gap(at: int, prev: int): real {
    if prev != 0 && at > prev then (at - prev) as real / NANOS_PER_SECOND as real else UNKNOWN_INTER_ARRIVAL
  }

  function PointFrom(fn: Analysis, j: Joined, prev: int, concurrency: int): Option<Point> {
    if j.flow.None? || j.flow.value.bytesUp < 0 || j.flow.value.bytesDown < 0 || j.flow.value.durationMS < 0 then None
    else if j.decision.at.None? then None
    else
      var at := j.decision.at.value;
      var up, down := fn.log1p(j.flow.value.bytesUp as real), fn.log1p(j.flow.value.bytesDown as real);
      Some([up, down, up - down, fn.log1p(j.flow.value.durationMS as real),
            fn.sinTurn(DayFraction(at, j.decision.offset)), fn.cosTurn(DayFraction(at, j.decision.offset)),
            match j.decision.userActive { case None => UNKNOWN_USER_ACTIVE case Some(active) => if active then 1.0 else 0.0 },
            fn.log1p(Gap(at, prev)), fn.log1p(concurrency as real)])
  }

  // ---------------------------------------------------------------- what moves which coordinate

  /** As the logarithm does. */
  ghost predicate Rising(f: real -> real) { forall x, y :: 0.0 <= x < y ==> f(x) < f(y) }

  predicate SameBut(p: Point, q: Point, dims: set<nat>) { forall d: nat :: d < NUM_DIMS && d !in dims ==> p[d] == q[d] }

  /** A row has a point exactly when it closed with no negative count and its time is known. */
  lemma PointIff(fn: Analysis, j: Joined, prev: int, concurrency: int)
    ensures PointFrom(fn, j, prev, concurrency).Some? <==>
      && j.decision.at.Some? && j.flow.Some?
      && j.flow.value.bytesUp >= 0 && j.flow.value.bytesDown >= 0 && j.flow.value.durationMS >= 0
  {
  }

  /** More bytes sent: the first coordinate and the ratio grow, and nothing else moves. */
  lemma UpGrows(fn: Analysis, j: Joined, n: int, prev: int, concurrency: int)
    requires Rising(fn.log1p) && PointFrom(fn, j, prev, concurrency).Some? && n > j.flow.value.bytesUp
    ensures var more := PointFrom(fn, j.(flow := Some(j.flow.value.(bytesUp := n))), prev, concurrency);
      var p := PointFrom(fn, j, prev, concurrency).value;
      more.Some? && p[0] < more.value[0] && p[2] < more.value[2] && SameBut(p, more.value, {0, 2})
  {
    assert (j.flow.value.bytesUp as real) < n as real;
  }

  /** More bytes received: the second coordinate grows and the ratio falls. */
  lemma DownGrows(fn: Analysis, j: Joined, n: int, prev: int, concurrency: int)
    requires Rising(fn.log1p) && PointFrom(fn, j, prev, concurrency).Some? && n > j.flow.value.bytesDown
    ensures var more := PointFrom(fn, j.(flow := Some(j.flow.value.(bytesDown := n))), prev, concurrency);
      var p := PointFrom(fn, j, prev, concurrency).value;
      more.Some? && p[1] < more.value[1] && p[2] > more.value[2] && SameBut(p, more.value, {1, 2})
  {
    assert (j.flow.value.bytesDown as real) < n as real;
  }

  lemma DurationGrows(fn: Analysis, j: Joined, n: int, prev: int, concurrency: int)
    requires Rising(fn.log1p) && PointFrom(fn, j, prev, concurrency).Some? && n > j.flow.value.durationMS
    ensures var more := PointFrom(fn, j.(flow := Some(j.flow.value.(durationMS := n))), prev, concurrency);
      var p := PointFrom(fn, j, prev, concurrency).value;
      more.Some? && p[3] < more.value[3] && SameBut(p, more.value, {3})
  {
    assert (j.flow.value.durationMS as real) < n as real;
  }

  /** The longer ago the pair's previous connection, the greater the eighth coordinate; none counts as an hour ago. */
  lemma GapGrows(fn: Analysis, j: Joined, prev: int, earlier: int, concurrency: int)
    requires Rising(fn.log1p) && PointFrom(fn, j, prev, concurrency).Some?
    requires 0 < earlier < prev < j.decision.at.value
    ensures var p, q := PointFrom(fn, j, prev, concurrency).value, PointFrom(fn, j, earlier, concurrency);
      q.Some? && p[7] < q.value[7] && SameBut(p, q.value, {7})
    ensures j.decision.at.value > 3600 * 1000000000 ==>
      PointFrom(fn, j, 0, concurrency) == PointFrom(fn, j, j.decision.at.value - 3600 * 1000000000, concurrency)
  {
    assert Gap(j.decision.at.value, prev) < Gap(j.decision.at.value, earlier) by {
      Quotients(j.decision.at.value - prev, j.decision.at.value - earlier);
    }
  }

  lemma Quotients(a: int, b: int)
    requires 0 < a < b
    ensures 0.0 <= a as real / NANOS_PER_SECOND as real < b as real / NANOS_PER_SECOND as real
  {
  }

  /** More company: the last coordinate grows. */
  lemma CompanyGrows(fn: Analysis, j: Joined, prev: int, concurrency: int, more: int)
    requires Rising(fn.log1p) && PointFrom(fn, j, prev, concurrency).Some? && 0 <= concurrency < more
    ensures var p, q := PointFrom(fn, j, prev, concurrency).value, PointFrom(fn, j, prev, more);
      q.Some? && p[8] < q.value[8] && SameBut(p, q.value, {8})
  {
    assert (concurrency as real) < more as real;
  }

  /** The seventh coordinate: at the keyboard or not, and half way when nobody knows. */
  lemma KeyboardIs(fn: Analysis, j: Joined, prev: int, concurrency: int)
    requires PointFrom(fn, j, prev, concurrency).Some?
    ensures PointFrom(fn, j, prev, concurrency).value[6]
      == if j.decision.userActive == Some(true) then 1.0 else if j.decision.userActive == Some(false) then 0.0 else 0.5
  {
  }

  /** The fifth and sixth are the sine and cosine of the minute of the local day, 1440 to a turn. */
  lemma ClockIs(fn: Analysis, j: Joined, prev: int, concurrency: int)
    requires PointFrom(fn, j, prev, concurrency).Some?
    ensures var minute := (j.decision.at.value / 1000000000 + j.decision.offset) / 60 % 1440;
      && PointFrom(fn, j, prev, concurrency).value[4] == fn.sinTurn(minute as real / 1440.0)
      && PointFrom(fn, j, prev, concurrency).value[5] == fn.cosTurn(minute as real / 1440.0)
  {
    MinuteOfDay(j.decision.at.value / 1000000000 + j.decision.offset);
    DayFractionIs(j.decision.at.value, j.decision.offset);
  }

  lemma DayFractionIs(at: int, offset: int)
    ensures DayFraction(at, offset) == (((at / 1000000000 + offset) / 60 % 1440) as real) / 1440.0
  {
    var minute := (at / 1000000000 + offset) % 86400 / 60;
    MinuteOfDay(at / 1000000000 + offset);
    var h, m := minute / 60, minute % 60;
    assert minute == 60 * h + m;
    assert minute as real == 60.0 * h as real + m as real;
  }

  lemma MinuteOfDay(seconds: int)
    ensures seconds % 86400 / 60 == seconds / 60 % 1440
  {
    var d, r := seconds / 86400, seconds % 86400;
    assert seconds == 86400 * d + r;
    assert seconds / 60 == 1440 * d + r / 60;
  }
}
