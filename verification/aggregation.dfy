/** The deterministic half of the type card's fetch: classifying commit hours
    into four time-of-day buckets, counting them, deriving the "early" or
    "night" label and the rounded percentage of each bucket. */
module TypeAggregation {
  import opened Wrappers

  /** The hour of one commit timestamp as the date library reports it:
      Some(h) for a parsed timestamp, None for one that did not parse, whose
      hour is NaN and therefore fails every comparison of the loop. */
  type HourReading = Option<int>

  datatype Bucket = Morning | Daytime | Evening | Night

  /** The bounds of each bucket's half-open interval [Lo, Hi). */
  function Lo(b: Bucket): int {
    match b
    case Morning => 6
    case Daytime => 12
    case Evening => 18
    case Night => 0
  }

  function Hi(b: Bucket): int {
    match b
    case Morning => 12
    case Daytime => 18
    case Evening => 24
    case Night => 6
  }

  /** An hour passes the guard of bucket `b`'s `if` in the classification loop:
      [6,12) for morning, [12,18) for daytime, [18,24) for evening, [0,6) for night. */
  predicate InBucket(b: Bucket, h: int) {
    Within(Some(h), Lo(b), Hi(b))
  }

  /** The bucket an hour lands in, if any. Every hour of the day lands in
      exactly one bucket, and no other hour lands in any. */
  function Classify(h: int): (b: Option<Bucket>)
    ensures b.Some? <==> 0 <= h < 24
    ensures forall k :: InBucket(k, h) <==> b == Some(k)
  {
    if h < 0 || 24 <= h then None
    else if h < 6 then Some(Night)
    else if h < 12 then Some(Morning)
    else if h < 18 then Some(Daytime)
    else Some(Evening)
  }

  /** The classification at the edges of the four intervals. */
  lemma BoundaryHours()
    ensures Classify(0) == Some(Night) && Classify(5) == Some(Night)
    ensures Classify(6) == Some(Morning) && Classify(11) == Some(Morning)
    ensures Classify(12) == Some(Daytime) && Classify(17) == Some(Daytime)
    ensures Classify(18) == Some(Evening) && Classify(23) == Some(Evening)
    ensures Classify(-1) == None && Classify(24) == None
  {
  }

  /** A reading passes a guard `lo <= hour && hour < hi` (a NaN hour never does). */
  predicate Within(r: HourReading, lo: int, hi: int): (w: bool)
    ensures r.None? ==> !w
    ensures r.Some? ==> (w <==> lo <= r.value && r.value < hi)
  {
    r.Some? && lo <= r.value < hi
  }

  /** How many readings pass the guard for [lo, hi). */
  function CountIn(hours: seq<HourReading>, lo: int, hi: int): (n: nat)
    ensures n <= |hours|
  {
    if hours == [] then 0
    else CountIn(hours[..|hours| - 1], lo, hi) + (if Within(hours[|hours| - 1], lo, hi) then 1 else 0)
  }

  /** Processing one more reading adds one to a count exactly when the reading passes its guard. */
  lemma CountInSnoc(hours: seq<HourReading>, r: HourReading, lo: int, hi: int)
    ensures CountIn(hours + [r], lo, hi) == CountIn(hours, lo, hi) + (if Within(r, lo, hi) then 1 else 0)
  {
    assert (hours + [r])[..|hours|] == hours;
  }

  /** Adjacent intervals count disjointly and together count their union. */
  lemma {:induction false} CountInSplit(hours: seq<HourReading>, lo: int, mid: int, hi: int)
    requires lo <= mid <= hi
    ensures CountIn(hours, lo, hi) == CountIn(hours, lo, mid) + CountIn(hours, mid, hi)
  {
    if hours != [] {
      CountInSplit(hours[..|hours| - 1], lo, mid, hi);
    }
  }

  /** A counter, read after any prefix of the readings, never exceeds its value after a longer prefix. */
  lemma {:induction false} CountInMonotone(hours: seq<HourReading>, i: nat, j: nat, lo: int, hi: int)
    requires i <= j <= |hours|
    ensures CountIn(hours[..i], lo, hi) <= CountIn(hours[..j], lo, hi)
    decreases j - i
  {
    if i < j {
      CountInMonotone(hours, i, j - 1, lo, hi);
      assert hours[..j] == hours[..j - 1] + [hours[j - 1]];
      CountInSnoc(hours[..j - 1], hours[j - 1], lo, hi);
    }
  }

  /** When every reading passes a guard, the count is the number of readings. */
  lemma {:induction false} CountInAll(hours: seq<HourReading>, lo: int, hi: int)
    requires forall i :: 0 <= i < |hours| ==> Within(hours[i], lo, hi)
    ensures CountIn(hours, lo, hi) == |hours|
  {
    if hours != [] {
      CountInAll(hours[..|hours| - 1], lo, hi);
    }
  }

  /** When no reading passes a guard, the count is zero. */
  lemma {:induction false} CountInNone(hours: seq<HourReading>, lo: int, hi: int)
    requires forall i :: 0 <= i < |hours| ==> !Within(hours[i], lo, hi)
    ensures CountIn(hours, lo, hi) == 0
  {
    if hours != [] {
      CountInNone(hours[..|hours| - 1], lo, hi);
    }
  }

  /** The four counters after the loop. */
  datatype Counts = Counts(morning: nat, daytime: nat, evening: nat, night: nat) {
    function Total(): nat { morning + daytime + evening + night }
    function DaySide(): nat { morning + daytime }
    function NightSide(): nat { evening + night }
  }

  /** What each counter must hold after all readings: the number of readings passing its guard. */
  function BucketCounts(hours: seq<HourReading>): Counts {
    Counts(CountIn(hours, 6, 12), CountIn(hours, 12, 18), CountIn(hours, 18, 24), CountIn(hours, 0, 6))
  }

  /** The four counters together count exactly the readings whose hour lies in 0..23. */
  lemma {:induction false} CountsConserved(hours: seq<HourReading>)
    ensures BucketCounts(hours).Total() == CountIn(hours, 0, 24)
  {
    CountInSplit(hours, 0, 6, 24);
    CountInSplit(hours, 6, 12, 24);
    CountInSplit(hours, 12, 18, 24);
  }

  /** The date library reports hours in 0..23 for every timestamp it parses, so
      when all parse, every commit is counted once. */
  lemma ParsedHoursAllCounted(hours: seq<HourReading>)
    requires forall i :: 0 <= i < |hours| ==> Within(hours[i], 0, 24)
    ensures BucketCounts(hours).Total() == |hours|
  {
    CountsConserved(hours);
    CountInAll(hours, 0, 24);
  }

  /** The counting loop: four counters start at zero and, for each reading,
      each of the four independent guards adds one to its own counter. */
  method Tally(hours: seq<HourReading>) returns (c: Counts)
    ensures c == BucketCounts(hours)
    ensures c.Total() == CountIn(hours, 0, 24)
  {
    var morning, daytime, evening, night := 0, 0, 0, 0;
    for i := 0 to |hours|
      invariant morning == CountIn(hours[..i], 6, 12)
      invariant daytime == CountIn(hours[..i], 12, 18)
      invariant evening == CountIn(hours[..i], 18, 24)
      invariant night == CountIn(hours[..i], 0, 6)
    {
      var hour := hours[i];
      if Within(hour, 6, 12) {
        morning := morning + 1;
      }
      if Within(hour, 12, 18) {
        daytime := daytime + 1;
      }
      if Within(hour, 18, 24) {
        evening := evening + 1;
      }
      if Within(hour, 0, 6) {
        night := night + 1;
      }
      assert hours[..i + 1] == hours[..i] + [hour];
      CountInSnoc(hours[..i], hour, 6, 12);
      CountInSnoc(hours[..i], hour, 12, 18);
      CountInSnoc(hours[..i], hour, 18, 24);
      CountInSnoc(hours[..i], hour, 0, 6);
    }
    assert hours[..|hours|] == hours;
    c := Counts(morning, daytime, evening, night);
    CountsConserved(hours);
  }

  const EarlyLabel: string := "I'm an Early 🐤"
  const NightLabel: string := "I'm a Night 🦉"

  /** The card's label: early when the day side (morning and daytime) has at
      least as many commits as the night side (evening and night). */
  function Label(c: Counts): (s: string)
    ensures s == EarlyLabel <==> c.DaySide() >= c.NightSide()
    ensures s == NightLabel <==> c.DaySide() < c.NightSide()
  {
    if c.morning + c.daytime >= c.evening + c.night then EarlyLabel else NightLabel
  }

  /** Equal day and night totals are labelled early. */
  lemma TieIsEarly(c: Counts)
    requires c.DaySide() == c.NightSide()
    ensures Label(c) == EarlyLabel
  {
  }

  /** Math.round((count / sum) * 100) for sum > 0: the integer nearest to
      100 * count / sum, halves rounded up. */
  function Percent(count: nat, sum: nat): (p: nat)
    requires 0 < sum
    ensures (2 * p - 1) * sum <= 200 * count < (2 * p + 1) * sum
  {
    var q := (200 * count + sum) / (2 * sum);
    var r := (200 * count + sum) % (2 * sum);
    assert 200 * count + sum == 2 * sum * q + r && 0 <= r < 2 * sum;
    assert (2 * q - 1) * sum == 2 * sum * q - sum;
    assert (2 * q + 1) * sum == 2 * sum * q + sum;
    q
  }

  /** The rounding property determines the percentage: no other integer has it. */
  lemma {:induction false} PercentUnique(count: nat, sum: nat, p: int)
    requires 0 < sum
    requires (2 * p - 1) * sum <= 200 * count < (2 * p + 1) * sum
    ensures p == Percent(count, sum)
  {
    var q := Percent(count, sum);
    if p < q {
      // (2p + 1) * sum <= (2q - 1) * sum, so 200 * count would lie below itself
      MulMonotone(2 * p + 1, 2 * q - 1, sum);
    } else if q < p {
      MulMonotone(2 * q + 1, 2 * p - 1, sum);
    }
  }

  lemma MulMonotone(a: int, b: int, s: nat)
    requires a <= b
    ensures a * s <= b * s
  {
  }

  /** A bucket's percentage lies in 0..100; an empty bucket shows 0 and a
      bucket holding every commit shows 100. */
  lemma {:induction false} PercentRange(count: nat, sum: nat)
    requires 0 < sum && count <= sum
    ensures Percent(count, sum) <= 100
    ensures count == 0 ==> Percent(count, sum) == 0
    ensures count == sum ==> Percent(count, sum) == 100
  {
    var p := Percent(count, sum);
    if 101 <= p {
      MulMonotone(201, 2 * p - 1, sum);
      assert false;
    }
    if count == 0 {
      PercentUnique(count, sum, 0);
    }
    if count == sum {
      PercentUnique(count, sum, 100);
    }
  }

  /** Rounding each bucket on its own can miss 100, but the four percentages
      always add up to between 99 and 102. */
  lemma {:induction false} PercentsNearHundred(c: Counts)
    requires 0 < c.Total()
    ensures 99 <= Percent(c.morning, c.Total()) + Percent(c.daytime, c.Total())
                  + Percent(c.evening, c.Total()) + Percent(c.night, c.Total()) <= 102
  {
    var s := c.Total();
    var a, b, e, n := Percent(c.morning, s), Percent(c.daytime, s), Percent(c.evening, s), Percent(c.night, s);
    var t := a + b + e + n;
    // each rounding is within half a point: 2 * (p * s) - s <= 200 * count < 2 * (p * s) + s
    RoundingInProducts(c.morning, s, a);
    RoundingInProducts(c.daytime, s, b);
    RoundingInProducts(c.evening, s, e);
    RoundingInProducts(c.night, s, n);
    SumTimes(a, b, e, n, s);
    assert 2 * (t * s) - 4 * s <= 200 * s < 2 * (t * s) + 4 * s;
    if t < 99 {
      MulMonotone(t, 98, s);
    }
    if 102 < t {
      MulMonotone(103, t, s);
    }
  }

  lemma RoundingInProducts(count: nat, s: nat, p: nat)
    requires 0 < s && p == Percent(count, s)
    ensures 2 * (p * s) - s <= 200 * count < 2 * (p * s) + s
  {
    assert (2 * p - 1) * s == 2 * (p * s) - s;
    assert (2 * p + 1) * s == 2 * (p * s) + s;
  }

  lemma SumTimes(a: int, b: int, e: int, n: int, s: int)
    ensures (a + b + e + n) * s == a * s + b * s + e * s + n * s
  {
  }

  /** One row of the card: the bucket's display name, its commit count and percentage. */
  datatype TypeObject = TypeObject(name: string, commits: nat, percent: nat)

  /** What the fetch phase hands to the renderer. `kind` is the label; `base64`
      is the encoded background image, absent when there is none. */
  datatype TypeData = TypeData(
    kind: string,
    morning: TypeObject,
    daytime: TypeObject,
    evening: TypeObject,
    night: TypeObject,
    base64: Option<string>)

  const MorningName: string := "🌞 Morning"
  const DaytimeName: string := "🌆 Daytime"
  const EveningName: string := "🌃 Evening"
  const NightName: string := "🌙 Night"

  /** `p` is `count` as a percentage of `sum` rounded half up, and at most 100. */
  predicate RoundedShare(p: int, count: nat, sum: nat) {
    (2 * p - 1) * sum <= 200 * count < (2 * p + 1) * sum && 0 <= p <= 100
  }

  /** The fetch result for counts with at least one classified commit: the
      label, then the four buckets in order, each with its display name, its
      count and its rounded share of the total, and the background image. */
  function Report(c: Counts, base64: Option<string>): (d: TypeData)
    requires 0 < c.Total()
    ensures d.kind == EarlyLabel <==> c.DaySide() >= c.NightSide()
    ensures d.kind == NightLabel <==> c.DaySide() < c.NightSide()
    ensures d.base64 == base64
    ensures d.morning.name == MorningName && d.morning.commits == c.morning
    ensures d.daytime.name == DaytimeName && d.daytime.commits == c.daytime
    ensures d.evening.name == EveningName && d.evening.commits == c.evening
    ensures d.night.name == NightName && d.night.commits == c.night
    ensures RoundedShare(d.morning.percent, c.morning, c.Total())
    ensures RoundedShare(d.daytime.percent, c.daytime, c.Total())
    ensures RoundedShare(d.evening.percent, c.evening, c.Total())
    ensures RoundedShare(d.night.percent, c.night, c.Total())
    ensures 99 <= d.morning.percent + d.daytime.percent + d.evening.percent + d.night.percent <= 102
  {
    var sum := c.Total();
    PercentRange(c.morning, sum);
    PercentRange(c.daytime, sum);
    PercentRange(c.evening, sum);
    PercentRange(c.night, sum);
    PercentsNearHundred(c);
    TypeData(
      Label(c),
      TypeObject(MorningName, c.morning, Percent(c.morning, sum)),
      TypeObject(DaytimeName, c.daytime, Percent(c.daytime, sum)),
      TypeObject(EveningName, c.evening, Percent(c.evening, sum)),
      TypeObject(NightName, c.night, Percent(c.night, sum)),
      base64)
  }

  datatype AggregationError = EmptyHistory

  /** The aggregation at the end of the fetch phase. With no classified commit
      the percentages are undefined, so it fails instead of producing them. */
  method Summarize(hours: seq<HourReading>, base64: Option<string>) returns (r: Result<TypeData, AggregationError>)
    ensures r.Failure? <==> CountIn(hours, 0, 24) == 0
    ensures r.Success? ==> 0 < BucketCounts(hours).Total() && r.value == Report(BucketCounts(hours), base64)
  {
    var c := Tally(hours);
    var sum := c.morning + c.daytime + c.evening + c.night;
    if sum == 0 {
      return Failure(EmptyHistory);
    }
    r := Success(Report(c, base64));
  }

  /** Ten (or any number of) commits all made at 9 o'clock: morning shows every
      commit at 100%, the other buckets none at 0%, and the label is early. */
  lemma AllAtNine(hours: seq<HourReading>, base64: Option<string>)
    requires |hours| > 0
    requires forall i :: 0 <= i < |hours| ==> hours[i] == Some(9)
    ensures var d := Report(BucketCounts(hours), base64);
      && d.morning.commits == |hours| && d.morning.percent == 100
      && d.daytime.percent == 0 && d.evening.percent == 0 && d.night.percent == 0
      && d.kind == EarlyLabel
  {
    CountInAll(hours, 6, 12);
    CountInNone(hours, 12, 18);
    CountInNone(hours, 18, 24);
    CountInNone(hours, 0, 6);
    var c := BucketCounts(hours);
    PercentRange(c.morning, c.Total());
    PercentRange(0, c.Total());
  }

  /** Equal counts in all four buckets show 25% each and are labelled early. */
  lemma EvenSplit(k: nat, base64: Option<string>)
    requires 0 < k
    ensures var d := Report(Counts(k, k, k, k), base64);
      && d.morning.percent == 25 && d.daytime.percent == 25
      && d.evening.percent == 25 && d.night.percent == 25
      && d.kind == EarlyLabel
  {
    PercentUnique(k, 4 * k, 25);
  }

  /** Math.round((count / sum) * 100) as the source evaluates it, with None
      standing for NaN: with no classified commit every count is 0 and 0 / 0 is NaN. */
  function PercentAsWritten(count: nat, sum: nat): (p: Option<nat>)
    requires count <= sum
    ensures p.None? <==> sum == 0
    ensures p.Some? ==> p.value <= 100
  {
    if sum == 0 then None
    else
      PercentRange(count, sum);
      Some(Percent(count, sum))
  }

  /** Without a guard on the sum, readings of which none lies in 0..23 (for
      instance no commits at all) give NaN for all four percentages and still
      an early label: the card would print "NaN%" in every row. */
  lemma {:induction false} EmptyHistoryGivesNaN(hours: seq<HourReading>)
    requires CountIn(hours, 0, 24) == 0
    ensures var c := BucketCounts(hours);
      && PercentAsWritten(c.morning, c.Total()).None?
      && PercentAsWritten(c.daytime, c.Total()).None?
      && PercentAsWritten(c.evening, c.Total()).None?
      && PercentAsWritten(c.night, c.Total()).None?
      && Label(c) == EarlyLabel
  {
    CountsConserved(hours);
  }
}
