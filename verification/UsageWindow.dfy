/** The time window of the usage report and its buckets (engine/src/api/usage.rs). Instants are nanoseconds since the
    epoch, bucket starts are milliseconds. */
module UsageWindow {
  import opened Wrappers

  const MINUTE: int := 60000
  const HOUR: int := 3600000
  const DAY: int := 86400000
  const MAX_BUCKETS: nat := 400

  /** An absent start reaches back without limit. */
  datatype Window = Window(start: Option<int>, end: int, bucketMs: int)

  datatype Bucket = Bucket(input: int, output: int, tokens: int)

  function Millis(instant: int): (ms: int)
    ensures ms * 1000000 <= instant < (ms + 1) * 1000000
  {
    instant / 1000000
  }

  // ---------- The window ----------

  function RangeDuration(range: string): Option<int> {
    if range == "15m" then Some(15 * MINUTE)
    else if range == "30m" then Some(30 * MINUTE)
    else if range == "1h" then Some(HOUR)
    else if range == "3h" then Some(3 * HOUR)
    else if range == "day" then Some(DAY)
    else if range == "week" then Some(7 * DAY)
    else if range == "3w" then Some(21 * DAY)
    else if range == "month" then Some(31 * DAY)
    else if range == "quarter" then Some(92 * DAY)
    else if range == "year" then Some(365 * DAY)
    else if range == "all" then None
    else Some(DAY)
  }

  function BucketDuration(range: string): int {
    if range == "15m" then MINUTE
    else if range == "30m" then 5 * MINUTE
    else if range == "1h" then 10 * MINUTE
    else if range == "3h" then 30 * MINUTE
    else if range == "day" then 3 * HOUR
    else if range == "week" then DAY
    else if range == "3w" then 3 * DAY
    else if range == "month" then 7 * DAY
    else if range == "quarter" then 31 * DAY
    else if range == "year" then 31 * DAY
    else 3 * HOUR
  }

  function CustomBucketDuration(start: Option<int>, end: int): int {
    var span := if start.None? then 7 * DAY else Millis(end - start.value);
    if span <= 30 * MINUTE then MINUTE
    else if span <= HOUR then 5 * MINUTE
    else if span <= 3 * HOUR then 10 * MINUTE
    else if span <= DAY then 30 * MINUTE
    else if span <= 7 * DAY then DAY
    else if span <= 21 * DAY then 3 * DAY
    else if span <= 31 * DAY then 7 * DAY
    else 31 * DAY
  }

  /** `from` and `until` are absent when the query has none that can be read. */
  function ResolveWindow(range: string, from: Option<int>, until: Option<int>, now: int): (w: Window)
    ensures w.bucketMs > 0
    ensures w.start.None? <==> range == "all"
    ensures w.start.Some? ==> w.start.value <= w.end
  {
    var end := if until.Some? then until.value else now;
    var start :=
      if range == "custom" then Some(if from.Some? then from.value else end - DAY * 1000000)
      else
        match RangeDuration(range)
        case None => None
        case Some(duration) => Some(end - duration * 1000000);
    var swap := start.Some? && start.value > end;
    var first := if swap then Some(end) else start;
    var last := if swap then start.value else end;
    Window(first, last, if range == "custom" then CustomBucketDuration(first, last) else BucketDuration(range))
  }

  const SECOND: int := 1000000000

  /** What a named range means: a window of that length up to the end, and the length of its buckets. */
  lemma NamedWindows(from: Option<int>, until: Option<int>, now: int)
    ensures var end := if until.Some? then until.value else now;
            && ResolveWindow("15m", from, until, now) == Window(Some(end - 900 * SECOND), end, 60000)
            && ResolveWindow("30m", from, until, now) == Window(Some(end - 1800 * SECOND), end, 300000)
            && ResolveWindow("1h", from, until, now) == Window(Some(end - 3600 * SECOND), end, 600000)
            && ResolveWindow("3h", from, until, now) == Window(Some(end - 10800 * SECOND), end, 1800000)
            && ResolveWindow("day", from, until, now) == Window(Some(end - 86400 * SECOND), end, 10800000)
            && ResolveWindow("week", from, until, now) == Window(Some(end - 604800 * SECOND), end, 86400000)
            && ResolveWindow("3w", from, until, now) == Window(Some(end - 1814400 * SECOND), end, 259200000)
            && ResolveWindow("month", from, until, now) == Window(Some(end - 2678400 * SECOND), end, 604800000)
            && ResolveWindow("quarter", from, until, now) == Window(Some(end - 7948800 * SECOND), end, 2678400000)
            && ResolveWindow("year", from, until, now) == Window(Some(end - 31536000 * SECOND), end, 2678400000)
            && ResolveWindow("all", from, until, now) == Window(None, end, 10800000)
  {
  }

  /** A name that is not known means a day. */
  lemma OtherWindows(range: string, from: Option<int>, until: Option<int>, now: int)
    requires range !in ["15m", "30m", "1h", "3h", "day", "week", "3w", "month", "quarter", "year", "all", "custom"]
    ensures ResolveWindow(range, from, until, now) == ResolveWindow("day", from, until, now)
  {
  }

  /** A custom window runs between its two instants, whichever is earlier, by default over a day; the longer it is, the
      longer are its buckets. */
  lemma CustomWindow(from: Option<int>, until: Option<int>, now: int)
    ensures var w := ResolveWindow("custom", from, until, now);
            var end := if until.Some? then until.value else now;
            var start := if from.Some? then from.value else end - 86400 * SECOND;
            && w.start.Some? && (if start <= end then w.start.value == start && w.end == end else w.start.value == end && w.end == start)
            && var span := Millis(w.end - w.start.value);
               w.bucketMs == if span <= 1800000 then 60000 else if span <= 3600000 then 300000
                             else if span <= 10800000 then 600000 else if span <= 86400000 then 1800000
                             else if span <= 604800000 then 86400000 else if span <= 1814400000 then 259200000
                             else if span <= 2678400000 then 604800000 else 2678400000
  {
  }

  predicate InWindow(w: Window, instant: int) {
    (w.start.None? || w.start.value <= instant) && instant <= w.end
  }

  // ---------- Buckets ----------

  function BucketStart(ms: int, bucketMs: int, offsetMinutes: int): (start: int)
    requires bucketMs > 0
    ensures start <= ms < start + bucketMs
  {
    var offset := offsetMinutes * 60000;
    DivisionBounds(ms + offset, bucketMs);
    Times((ms + offset) / bucketMs, bucketMs) - offset
  }

  function Times(a: int, b: int): int {
    a * b
  }

  lemma DivisionBounds(a: int, b: int)
    requires b > 0
    ensures Times(a / b, b) <= a < Times(a / b, b) + b
  {
    assert a == b * (a / b) + a % b;
  }

  /** A bucket starts on a multiple of its length in local time. */
  predicate IsAligned(start: int, bucketMs: int, offsetMinutes: int)
    requires bucketMs > 0
  {
    (start + offsetMinutes * 60000) % bucketMs == 0
  }

  lemma TimesApart(a: int, b: int, unit: int)
    requires unit > 0 && a < b
    ensures Times(a, unit) + unit <= Times(b, unit)
  {
    var more := b - a - 1;
    assert Times(b, unit) == Times(a, unit) + unit + more * unit;
    NoLess(more, unit);
  }

  lemma NoLess(more: int, unit: int)
    requires unit > 0 && more >= 0
    ensures more * unit >= 0
  {
  }

  /** It is the only aligned start whose bucket holds the instant. */
  lemma BucketStartIsUnique(ms: int, bucketMs: int, offsetMinutes: int, start: int)
    requires bucketMs > 0
    ensures IsAligned(BucketStart(ms, bucketMs, offsetMinutes), bucketMs, offsetMinutes)
    ensures IsAligned(start, bucketMs, offsetMinutes) && start <= ms < start + bucketMs
            ==> start == BucketStart(ms, bucketMs, offsetMinutes)
  {
    hide Times;
    var offset := offsetMinutes * 60000;
    var q := (ms + offset) / bucketMs;
    MultipleHasNoRest(q, bucketMs);
    if IsAligned(start, bucketMs, offsetMinutes) && start <= ms < start + bucketMs {
      var p := (start + offset) / bucketMs;
      RestIsMissing(start + offset, bucketMs);
      DivisionBounds(ms + offset, bucketMs);
      if p < q {
        TimesApart(p, q, bucketMs);
      } else if q < p {
        TimesApart(q, p, bucketMs);
      }
    }
  }

  lemma MultipleHasNoRest(q: int, unit: int)
    requires unit > 0
    ensures Times(q, unit) % unit == 0
  {
    var a := Times(q, unit);
    DivisionBounds(a, unit);
    assert a % unit == a - Times(a / unit, unit) by {
      assert a == unit * (a / unit) + a % unit;
    }
    if a / unit < q {
      TimesApart(a / unit, q, unit);
    } else if q < a / unit {
      TimesApart(q, a / unit, unit);
    }
  }

  lemma RestIsMissing(a: int, unit: int)
    requires unit > 0 && a % unit == 0
    ensures Times(a / unit, unit) == a
  {
    assert a == unit * (a / unit) + a % unit;
  }

  function First(w: Window, offsetMinutes: int): int
    requires w.bucketMs > 0 && w.start.Some?
  {
    BucketStart(Millis(w.start.value), w.bucketMs, offsetMinutes)
  }

  function Last(w: Window, offsetMinutes: int): int
    requires w.bucketMs > 0
  {
    BucketStart(Millis(w.end), w.bucketMs, offsetMinutes)
  }

  /** The first 400 bucket starts from the window's start to its end. */
  function Prefilled(w: Window, offsetMinutes: int): set<int>
    requires w.bucketMs > 0
  {
    if w.start.None? then {}
    else Steps(First(w, offsetMinutes), w.bucketMs, Last(w, offsetMinutes), MAX_BUCKETS)
  }

  function Steps(first: int, bucketMs: int, last: int, count: nat): set<int> {
    set i | 0 <= i < count && first + Times(i, bucketMs) <= last :: first + Times(i, bucketMs)
  }

  method PrefillTrendBuckets(trend: map<int, Bucket>, w: Window, offsetMinutes: int) returns (filled: map<int, Bucket>)
    requires w.bucketMs > 0
    ensures filled.Keys == trend.Keys + Prefilled(w, offsetMinutes)
    ensures forall k | k in filled :: filled[k] == if k in trend then trend[k] else Bucket(0, 0, 0)
  {
    hide Times;
    filled := trend;
    if w.start.None? {
      return;
    }
    var first, last := First(w, offsetMinutes), Last(w, offsetMinutes);
    var current, emitted := first, 0;
    NoSteps(w.bucketMs);
    while current <= last && emitted < MAX_BUCKETS
      invariant 0 <= emitted <= MAX_BUCKETS && current == first + Times(emitted, w.bucketMs)
      invariant filled.Keys == trend.Keys + Steps(first, w.bucketMs, last, emitted)
      invariant forall k | k in filled :: filled[k] == if k in trend then trend[k] else Bucket(0, 0, 0)
      decreases MAX_BUCKETS - emitted
    {
      if current !in filled {
        filled := filled[current := Bucket(0, 0, 0)];
      }
      OneMoreStep(first, w.bucketMs, last, emitted);
      current := current + w.bucketMs;
      emitted := emitted + 1;
    }
    if emitted < MAX_BUCKETS {
      NoFurtherSteps(first, w.bucketMs, last, emitted, MAX_BUCKETS);
    }
  }

  lemma NoSteps(bucketMs: int)
    ensures Times(0, bucketMs) == 0
  {
  }

  lemma OneMoreStep(first: int, bucketMs: int, last: int, count: nat)
    requires first + Times(count, bucketMs) <= last
    ensures Steps(first, bucketMs, last, count + 1) == Steps(first, bucketMs, last, count) + {first + Times(count, bucketMs)}
    ensures Times(count + 1, bucketMs) == Times(count, bucketMs) + bucketMs
  {
    assert Times(count + 1, bucketMs) == Times(count, bucketMs) + bucketMs;
    hide Times;
    var more := Steps(first, bucketMs, last, count + 1);
    assert first + Times(count, bucketMs) in more;
    forall k | k in Steps(first, bucketMs, last, count) ensures k in more {}
  }

  lemma NoFurtherSteps(first: int, bucketMs: int, last: int, count: nat, limit: nat)
    requires bucketMs > 0 && count <= limit && first + Times(count, bucketMs) > last
    ensures Steps(first, bucketMs, last, limit) == Steps(first, bucketMs, last, count)
  {
    hide Times;
    forall i: nat | count <= i ensures first + Times(i, bucketMs) > last {
      if count < i {
        TimesApart(count, i, bucketMs);
      }
    }
  }

  // ---------- Every row has its bucket ----------

  /** How many buckets lie between the first and the last one. */
  function Distance(w: Window, offsetMinutes: int): int
    requires w.bucketMs > 0 && w.start.Some?
  {
    (Last(w, offsetMinutes) - First(w, offsetMinutes)) / w.bucketMs
  }

  lemma MillisInOrder(a: int, b: int)
    requires a <= b
    ensures Millis(a) <= Millis(b)
  {
  }

  lemma QuotientsInOrder(a: int, b: int, unit: int)
    requires unit > 0 && a <= b
    ensures a / unit <= b / unit
  {
    if b / unit < a / unit {
      TimesApart(b / unit, a / unit, unit);
      DivisionBounds(a, unit);
      DivisionBounds(b, unit);
    }
  }

  lemma StepsBetween(ms: int, w: Window, offsetMinutes: int) returns (i: int)
    requires w.bucketMs > 0 && w.start.Some? && Millis(w.start.value) <= ms
    ensures i >= 0 && BucketStart(ms, w.bucketMs, offsetMinutes) == First(w, offsetMinutes) + Times(i, w.bucketMs)
    ensures (BucketStart(ms, w.bucketMs, offsetMinutes) - First(w, offsetMinutes)) / w.bucketMs == i
  {
    var offset := offsetMinutes * 60000;
    var a, b := (Millis(w.start.value) + offset) / w.bucketMs, (ms + offset) / w.bucketMs;
    QuotientsInOrder(Millis(w.start.value) + offset, ms + offset, w.bucketMs);
    i := b - a;
    assert Times(b, w.bucketMs) - Times(a, w.bucketMs) == Times(i, w.bucketMs);
    ExactQuotient(i, w.bucketMs);
  }

  lemma ExactQuotient(q: int, unit: int)
    requires unit > 0
    ensures Times(q, unit) / unit == q
  {
    hide Times;
    var a := Times(q, unit);
    DivisionBounds(a, unit);
    if a / unit < q {
      TimesApart(a / unit, q, unit);
    } else if q < a / unit {
      TimesApart(q, a / unit, unit);
    }
  }

  /** An instant of the window falls into a prefilled bucket exactly when that is one of the first 400. */
  lemma LandsInPrefilledIff(w: Window, offsetMinutes: int, instant: int)
    requires w.bucketMs > 0 && w.start.Some? && InWindow(w, instant)
    ensures var start := BucketStart(Millis(instant), w.bucketMs, offsetMinutes);
            start in Prefilled(w, offsetMinutes) <==> (start - First(w, offsetMinutes)) / w.bucketMs < MAX_BUCKETS
  {
    hide Times;
    var start := BucketStart(Millis(instant), w.bucketMs, offsetMinutes);
    MillisInOrder(w.start.value, instant);
    MillisInOrder(instant, w.end);
    var i := StepsBetween(Millis(instant), w, offsetMinutes);
    BucketsInOrder(Millis(instant), Millis(w.end), w.bucketMs, offsetMinutes);
    if i < MAX_BUCKETS {
      assert start == First(w, offsetMinutes) + Times(i, w.bucketMs);
    } else {
      forall j: nat | j < MAX_BUCKETS ensures First(w, offsetMinutes) + Times(j, w.bucketMs) != start {
        TimesApart(j, i, w.bucketMs);
      }
    }
  }

  lemma BucketsInOrder(a: int, b: int, bucketMs: int, offsetMinutes: int)
    requires bucketMs > 0 && a <= b
    ensures BucketStart(a, bucketMs, offsetMinutes) <= BucketStart(b, bucketMs, offsetMinutes)
  {
    hide Times;
    var offset := offsetMinutes * 60000;
    QuotientsInOrder(a + offset, b + offset, bucketMs);
    if (a + offset) / bucketMs < (b + offset) / bucketMs {
      TimesApart((a + offset) / bucketMs, (b + offset) / bucketMs, bucketMs);
    }
  }

  /** Every instant of the window falls into a prefilled bucket exactly when at most 400 buckets cover it. */
  lemma PrefillCoversIff(w: Window, offsetMinutes: int)
    requires w.bucketMs > 0 && w.start.Some? && w.start.value <= w.end
    ensures (forall instant | InWindow(w, instant) ::
               BucketStart(Millis(instant), w.bucketMs, offsetMinutes) in Prefilled(w, offsetMinutes))
            <==> Distance(w, offsetMinutes) < MAX_BUCKETS
  {
    hide Times, Prefilled, BucketStart;
    LandsInPrefilledIff(w, offsetMinutes, w.end);
    assert InWindow(w, w.end);
    if Distance(w, offsetMinutes) < MAX_BUCKETS {
      forall instant | InWindow(w, instant)
        ensures BucketStart(Millis(instant), w.bucketMs, offsetMinutes) in Prefilled(w, offsetMinutes)
      {
        LandsInPrefilledIff(w, offsetMinutes, instant);
        MillisInOrder(instant, w.end);
        BucketsInOrder(Millis(instant), Millis(w.end), w.bucketMs, offsetMinutes);
        QuotientsInOrder(BucketStart(Millis(instant), w.bucketMs, offsetMinutes) - First(w, offsetMinutes),
                         Last(w, offsetMinutes) - First(w, offsetMinutes), w.bucketMs);
      }
    }
  }

  /** Prefilled buckets are aligned steps that tile the window: each is the bucket of some instant of it. */
  lemma PrefilledAreNeeded(w: Window, offsetMinutes: int, start: int)
    requires w.bucketMs > 0 && w.start.Some? && w.start.value <= w.end && start in Prefilled(w, offsetMinutes)
    ensures IsAligned(start, w.bucketMs, offsetMinutes)
    ensures exists instant :: InWindow(w, instant) && BucketStart(Millis(instant), w.bucketMs, offsetMinutes) == start
  {
    hide Times;
    var first, last := First(w, offsetMinutes), Last(w, offsetMinutes);
    var i :| 0 <= i < MAX_BUCKETS && start == first + Times(i, w.bucketMs) && start <= last;
    StepIsAligned(Millis(w.start.value), w.bucketMs, offsetMinutes, i);
    var ms := if i == 0 then Millis(w.start.value) else start;
    BucketStartIsUnique(ms, w.bucketMs, offsetMinutes, start);
    NoSteps(w.bucketMs);
    if i > 0 {
      TimesApart(0, i, w.bucketMs);
      assert InWindow(w, start * 1000000);
      assert Millis(start * 1000000) == start;
    } else {
      assert InWindow(w, w.start.value);
    }
  }

  lemma StepIsAligned(ms: int, bucketMs: int, offsetMinutes: int, i: int)
    requires bucketMs > 0
    ensures IsAligned(BucketStart(ms, bucketMs, offsetMinutes) + Times(i, bucketMs), bucketMs, offsetMinutes)
  {
    var q := (ms + offsetMinutes * 60000) / bucketMs;
    assert Times(q, bucketMs) + Times(i, bucketMs) == Times(q + i, bucketMs);
    MultipleHasNoRest(q + i, bucketMs);
  }

  /** Named ranges never need more than 400 buckets; a custom one may when it is longer than 31 days. */
  lemma NamedRangesAreCovered(range: string, from: Option<int>, until: Option<int>, now: int, offsetMinutes: int)
    requires range != "all"
    requires range == "custom" ==>
      var w := ResolveWindow(range, from, until, now); Millis(w.end - w.start.value) <= 31 * DAY
    ensures Distance(ResolveWindow(range, from, until, now), offsetMinutes) < MAX_BUCKETS
  {
    hide Times;
    var w := ResolveWindow(range, from, until, now);
    var first, last := First(w, offsetMinutes), Last(w, offsetMinutes);
    SpanInBuckets(range, from, until, now);
    var span := last - first;
    if span / w.bucketMs >= MAX_BUCKETS {
      DivisionBounds(span, w.bucketMs);
      QuotientTimes(MAX_BUCKETS, span / w.bucketMs, w.bucketMs);
      FourHundred(w.bucketMs);
    }
  }

  lemma QuotientTimes(a: int, b: int, unit: int)
    requires unit > 0 && a <= b
    ensures Times(a, unit) <= Times(b, unit)
  {
    if a < b {
      TimesApart(a, b, unit);
    }
  }

  lemma FourHundred(unit: int)
    ensures Times(MAX_BUCKETS, unit) == 400 * unit
  {
  }

  lemma SpanInBuckets(range: string, from: Option<int>, until: Option<int>, now: int)
    requires range != "all"
    requires range == "custom" ==>
      var w := ResolveWindow(range, from, until, now); Millis(w.end - w.start.value) <= 31 * DAY
    ensures var w := ResolveWindow(range, from, until, now);
            Millis(w.end) - Millis(w.start.value) <= 398 * w.bucketMs
  {
  }
}
