/** Day buckets, pooled rates and the current judgement (app/services/kpi_daily_health.py, lines 165 to 329,
    456 to 497, 609 to 653). Values are reals, instants are seconds. */
module DailyHealth {
  import opened DailyPoints
  import opened Sums
  import opened Texts
  import opened Wrappers

  // ----- Buckets of base metrics -----------------------------------------------------------------

  datatype BucketStatus = Usable | NoData | ZeroDenominator | Unreadable

  /** The first and the last instant of the points behind a value. */
  datatype Span = Span(first: int, last: int)

  /** A day's bucket, with its numbers before they are rounded for display. */
  datatype Bucket = Bucket(value: Option<real>, numerator: Option<real>, denominator: Option<real>, validCount: nat,
                           span: Option<Span>, status: BucketStatus)

  datatype Aggregation = Latest | Average | Total | Largest | Smallest

  function MaxOf(xs: seq<real>): (m: real)
    requires xs != []
    ensures m in xs && forall x :: x in xs ==> x <= m
  {
    if |xs| == 1 then xs[0]
    else
      var rest := MaxOf(xs[1..]);
      assert xs == [xs[0]] + xs[1..];
      if xs[0] < rest then rest else xs[0]
  }

  function MinOf(xs: seq<real>): (m: real)
    requires xs != []
    ensures m in xs && forall x :: x in xs ==> m <= x
  {
    if |xs| == 1 then xs[0]
    else
      var rest := MinOf(xs[1..]);
      assert xs == [xs[0]] + xs[1..];
      if rest < xs[0] then rest else xs[0]
  }

  function Aggregate(values: seq<real>, aggregation: Aggregation): real
    requires values != []
  {
    match aggregation
    case Latest => values[|values| - 1]
    case Total => Sum(values)
    case Largest => MaxOf(values)
    case Smallest => MinOf(values)
    case Average => Sum(values) / |values| as real
  }

  predicate AnyUnreadable(points: seq<Point>) {
    points != [] && (points[0].unreadable || AnyUnreadable(points[1..]))
  }

  function SpanOf(points: seq<Point>): Option<Span> {
    if points == [] then None
    else
      match SpanOf(points[1..])
      case None => Some(Span(points[0].at, points[0].at))
      case Some(rest) => Some(Span(Min(points[0].at, rest.first), Max(points[0].at, rest.last)))
  }

  function Valued(points: seq<Point>): (valued: seq<Point>)
    ensures forall p :: p in valued <==> p in points && p.value.Some?
  {
    if points == [] then []
    else
      assert points == [points[0]] + points[1..];
      (if points[0].value.Some? then [points[0]] else []) + Valued(points[1..])
  }

  function DayBucket(deduplicated: seq<Point>, aggregation: Aggregation): Bucket {
    var values := Present(deduplicated, Value);
    if values == [] then
      Bucket(None, None, None, 0, SpanOf(deduplicated), if AnyUnreadable(deduplicated) then Unreadable else NoData)
    else Bucket(Some(Aggregate(values, aggregation)), None, None, |values|, SpanOf(Valued(deduplicated)), Usable)
  }

  /** The natural day in UTC+8. */
  function DayOf(at: int): int { (at + 8 * 3600) / 86400 }

  /** A point with the least key. */
  ghost predicate IsFirst(points: seq<Point>, p: Point) {
    p in points && forall q :: q in points && KeyOf(q) != KeyOf(p) ==> KeyLess(KeyOf(p), KeyOf(q))
  }

  /** The date of a bucket: the given one, or the day of its first point. */
  ghost predicate IsBucketDate(points: seq<Point>, given: Option<int>, date: Option<int>) {
    if given.Some? || points == [] then date == given
    else exists p :: IsFirst(points, p) && date == Some(DayOf(p.at))
  }

  ghost predicate IsDayBucket(points: seq<Point>, aggregation: Aggregation, bucket: Bucket) {
    exists d :: IsDeduplication(points, d) && bucket == DayBucket(d, aggregation)
  }

  /** aggregate_daily_bucket; a date of None stands for date.min. */
  method AggregateDay(points: seq<Point>, aggregation: Aggregation, given: Option<int>)
    returns (bucket: Bucket, date: Option<int>)
    ensures IsDayBucket(points, aggregation, bucket) && IsBucketDate(points, given, date)
  {
    var deduplicated := Deduplicate(points);
    DateOfFirst(points, deduplicated);
    bucket := DayBucket(deduplicated, aggregation);
    hide IsDeduplication; hide DayBucket; hide DayOf; hide KeyLess;
    date := if given.Some? then given else if deduplicated == [] then None else Some(DayOf(deduplicated[0].at));
  }

  lemma {:induction false} DateOfFirst(points: seq<Point>, d: seq<Point>)
    requires IsDeduplication(points, d)
    ensures points == [] <==> d == []
    ensures d != [] ==> exists p :: IsFirst(points, p) && p.at == d[0].at
  {
    HasMember(points);
    HasMember(d);
    hide Merged; hide Group;
    if d != [] {
      assert KeyOf(d[0]) in KeysOf(points);
      var p :| p in points && KeyOf(p) == KeyOf(d[0]);
      FirstNotInTail(d);
      assert d == [d[0]] + d[1..];
      hide KeyLess; hide Increasing;
      forall q | q in points && KeyOf(q) != KeyOf(p) ensures KeyLess(KeyOf(p), KeyOf(q)) {
        assert KeyOf(q) in KeysOf(d);
        var x :| x in d && KeyOf(x) == KeyOf(q);
      }
    }
  }

  lemma {:induction false} SpanBounds(points: seq<Point>)
    ensures SpanOf(points).None? <==> points == []
    ensures SpanOf(points).Some? ==> IsSpan(points, SpanOf(points).value)
  {
    if points != [] {
      SpanBounds(points[1..]);
      assert points == [points[0]] + points[1..];
      assert forall at :: HasInstant(points, at) <==> at == points[0].at || HasInstant(points[1..], at);
      hide HasInstant;
    }
  }

  ghost predicate HasInstant(points: seq<Point>, at: int) { exists p :: p in points && p.at == at }

  ghost predicate IsSpan(points: seq<Point>, span: Span) {
    && HasInstant(points, span.first) && HasInstant(points, span.last)
    && (forall at :: HasInstant(points, at) ==> span.first <= at <= span.last)
  }

  /** The points that a day's bucket counts: those with a value, or all when none has one. */
  ghost predicate Counts(points: seq<Point>, p: Point) {
    p in points && (p.value.Some? || forall q :: q in points ==> q.value.None?)
  }

  /** A bucket spans exactly the instants of the points it counts, duplicates included. */
  lemma {:induction false} DaySpan(points: seq<Point>, aggregation: Aggregation, bucket: Bucket)
    requires IsDayBucket(points, aggregation, bucket)
    ensures bucket.span.None? <==> points == []
    ensures bucket.span.Some? ==>
      && CountsAt(points, bucket.span.value.first) && CountsAt(points, bucket.span.value.last)
      && forall at :: CountsAt(points, at) ==> bucket.span.value.first <= at <= bucket.span.value.last
  {
    var d: seq<Point> :| IsDeduplication(points, d) && bucket == DayBucket(d, aggregation);
    var counted := CountedOf(d);
    BucketSpan(d, aggregation);
    DateOfFirst(points, d);
    SpanBounds(counted);
    hide DayBucket; hide SpanOf; hide CountedOf; hide IsDeduplication;
    forall at ensures CountsAt(points, at) <==> HasInstant(counted, at) { SameInstants(points, d, at); }
    hide CountsAt; hide HasInstant;
  }

  ghost predicate CountsAt(points: seq<Point>, at: int) { exists p :: Counts(points, p) && p.at == at }

  function CountedOf(d: seq<Point>): seq<Point> { if Valued(d) == [] then d else Valued(d) }

  lemma {:induction false} BucketSpan(d: seq<Point>, aggregation: Aggregation)
    ensures DayBucket(d, aggregation).span == SpanOf(CountedOf(d))
    ensures CountedOf(d) == [] <==> d == []
  {
    PresentMissing(d);
    hide Present; hide SpanOf; hide Aggregate; hide Valued;
    if Valued(d) != [] { assert Valued(d)[0] in Valued(d); }
  }

  lemma {:induction false} SameInstants(points: seq<Point>, d: seq<Point>, at: int)
    requires IsDeduplication(points, d)
    ensures CountsAt(points, at) <==> HasInstant(CountedOf(d), at)
  {
    hide IsDeduplication; hide Counts; hide Valued;
    if Valued(d) != [] { assert Valued(d)[0] in Valued(d); }
    if HasInstant(CountedOf(d), at) {
      var x :| x in CountedOf(d) && x.at == at;
      CountedThere(points, d, x);
    }
    if CountsAt(points, at) {
      var p :| Counts(points, p) && p.at == at;
      CountedHere(points, d, p);
    }
  }

  lemma {:induction false} PresentMissing(points: seq<Point>)
    ensures Present(points, Value) == [] <==> forall p :: p in points ==> p.value.None?
  {
    forall p | p in points && p.value.Some? ensures Present(points, Value) != [] {
      PresentIn(points, Value, p.value.value);
    }
    if Present(points, Value) != [] { PresentIn(points, Value, Present(points, Value)[0]); }
    hide Present;
  }

  lemma {:induction false} CountedThere(points: seq<Point>, d: seq<Point>, x: Point)
    requires IsDeduplication(points, d) && x in d && (x.value.Some? || forall y :: y in d ==> y.value.None?)
    ensures exists p :: Counts(points, p) && p.at == x.at
  {
    MergedHasValue(points, d, x);
    hide Merged; hide Group; hide Increasing;
    if x.value.Some? {
      var p :| p in points && KeyOf(p) == KeyOf(x) && p.value.Some?;
      assert Counts(points, p);
    } else {
      assert KeyOf(x) in KeysOf(points);
      var p :| p in points && KeyOf(p) == KeyOf(x);
      forall q | q in points ensures q.value.None? {
        assert KeyOf(q) in KeysOf(d);
        var y :| y in d && KeyOf(y) == KeyOf(q);
        MergedHasValue(points, d, y);
        assert q.value.Some? ==> HasValue(points, KeyOf(y));
      }
      assert Counts(points, p);
    }
  }

  lemma {:induction false} CountedHere(points: seq<Point>, d: seq<Point>, p: Point)
    requires IsDeduplication(points, d) && Counts(points, p)
    ensures exists x :: x in d && (x.value.Some? || forall y :: y in d ==> y.value.None?) && x.at == p.at
  {
    hide Merged; hide Group; hide Increasing;
    assert KeyOf(p) in KeysOf(d);
    var x :| x in d && KeyOf(x) == KeyOf(p);
    MergedHasValue(points, d, x);
    if p.value.Some? {
      assert HasValue(points, KeyOf(x));
    } else {
      forall y | y in d ensures y.value.None? { MergedHasValue(points, d, y); }
    }
  }

  lemma {:induction false} MergedBounds(points: seq<Point>, d: seq<Point>, x: Point, low: real, high: real)
    requires IsDeduplication(points, d) && x in d
    requires forall p :: p in points && p.value.Some? ==> low <= p.value.value <= high
    ensures x.value.Some? ==> low <= x.value.value <= high
    ensures x.value.None? <==> forall p :: p in points && KeyOf(p) == KeyOf(x) ==> p.value.None?
  {
    GroupMembers(points, KeyOf(x));
    var group := Group(points, KeyOf(x));
    assert group != [] && x == Merged(group);
    hide Increasing; hide Merged; hide Group; hide IsDeduplication; hide KeysOf;
    MergedValueBetween(group, low, high);
  }

  lemma {:induction false} MissingInAll(points: seq<Point>, d: seq<Point>)
    requires KeysOf(d) == KeysOf(points)
    requires forall x :: x in d ==>
      (x.value.None? <==> forall p :: p in points && KeyOf(p) == KeyOf(x) ==> p.value.None?)
    ensures (forall x :: x in d ==> x.value.None?) <==> (forall p :: p in points ==> p.value.None?)
  {
    forall p | p in points && (forall x :: x in d ==> x.value.None?) ensures p.value.None? {
      assert KeyOf(p) in KeysOf(d);
      var x :| x in d && KeyOf(x) == KeyOf(p);
    }
  }

  /** Except for sums, the day's value lies within the values of the day's points, duplicates included. */
  lemma {:induction false} DayValueBetween(points: seq<Point>, aggregation: Aggregation, bucket: Bucket, low: real,
                                           high: real)
    requires IsDayBucket(points, aggregation, bucket) && aggregation != Total
    requires forall p :: p in points && p.value.Some? ==> low <= p.value.value <= high
    ensures bucket.value.Some? ==> low <= bucket.value.value <= high
    ensures bucket.value.None? <==> forall p :: p in points ==> p.value.None?
  {
    var d: seq<Point> :| IsDeduplication(points, d) && bucket == DayBucket(d, aggregation);
    assert KeysOf(d) == KeysOf(points);
    hide IsDeduplication; hide DayBucket;
    forall x | x in d
      ensures x.value.Some? ==> low <= x.value.value <= high
      ensures x.value.None? <==> forall p :: p in points && KeyOf(p) == KeyOf(x) ==> p.value.None?
    {
      MergedBounds(points, d, x, low, high);
    }
    MissingInAll(points, d);
    hide KeysOf;
    PresentBounds(d, low, high);
    BucketOfValues(d, Present(d, Value), low, high, aggregation);
  }

  lemma {:induction false} BucketOfValues(d: seq<Point>, values: seq<real>, low: real, high: real,
                                          aggregation: Aggregation)
    requires values == Present(d, Value) && aggregation != Total
    requires forall v :: v in values ==> low <= v <= high
    ensures DayBucket(d, aggregation).value.None? <==> values == []
    ensures values != [] ==> low <= DayBucket(d, aggregation).value.value <= high
  {
    hide Present;
    if values != [] {
      assert values[|values| - 1] in values;
      SumBetween(values, low, high);
      MeanBetween(Sum(values), |values|, low, high);
    }
  }

  lemma {:induction false} LastPresent(d: seq<Point>) returns (p: Point)
    requires Increasing(d) && Present(d, Value) != []
    ensures p in d && p.value == Some(Present(d, Value)[|Present(d, Value)| - 1])
    ensures forall q :: q in d && q.value.Some? && q != p ==> KeyLess(KeyOf(q), KeyOf(p))
  {
    assert d == [d[0]] + d[1..];
    FirstNotInTail(d);
    hide KeyLess;
    hide Increasing;
    if Present(d[1..], Value) == [] {
      p := d[0];
      assert Present(d, Value) == (if Get(d[0], Value).Some? then [Get(d[0], Value).value] else []) + [];
      forall q | q in d[1..] ensures q.value.None? {
        if q.value.Some? { PresentIn(d[1..], Value, q.value.value); }
      }
    } else {
      p := LastPresent(d[1..]);
    }
  }

  ghost predicate HasValue(points: seq<Point>, k: Key) {
    exists p :: p in points && KeyOf(p) == k && p.value.Some?
  }

  lemma {:induction false} MergedHasValue(points: seq<Point>, d: seq<Point>, x: Point)
    requires IsDeduplication(points, d) && x in d
    ensures x.value.Some? <==> HasValue(points, KeyOf(x))
    ensures HasValue(points, KeyOf(x)) ==>
      Group(points, KeyOf(x)) != [] && x.value == Merged(Group(points, KeyOf(x))).value
  {
    GroupMembers(points, KeyOf(x));
    var group := Group(points, KeyOf(x));
    assert group != [] && x == Merged(group);
    PresentMissing(group);
    assert x.value == Mean(Present(group, Value));
    hide IsDeduplication; hide Merged; hide Group; hide Present;
  }

  /** The greatest key under which there is a value. */
  ghost predicate IsLastKey(points: seq<Point>, k: Key) {
    HasValue(points, k) && forall q :: q in points && q.value.Some? && KeyOf(q) != k ==> KeyLess(KeyOf(q), k)
  }

  predicate SameSeries(p: Point, k: Key) { p.objectKey == k.objectKey && p.period == k.period }

  ghost predicate NoneLater(points: seq<Point>, at: int) {
    forall q: Point :: q in points && q.value.Some? ==> q.at <= at
  }

  /** No other object or period has a value after instant k.at. */
  ghost predicate OthersNotLater(points: seq<Point>, k: Key) {
    forall q: Point :: q in points && q.value.Some? && !SameSeries(q, k) ==> q.at <= k.at
  }

  lemma {:induction false} LessInGroup(q: Point, p: Point)
    requires KeyLess(KeyOf(q), KeyOf(p)) && q.objectKey == p.objectKey && q.period == p.period
    ensures q.at < p.at
  {
    TextIrreflexive(p.objectKey);
  }

  lemma {:induction false} LastKeyOf(points: seq<Point>, d: seq<Point>, p: Point)
    requires IsDeduplication(points, d) && p in d && p.value.Some?
    requires forall q :: q in d && q.value.Some? && q != p ==> KeyLess(KeyOf(q), KeyOf(p))
    ensures IsLastKey(points, KeyOf(p))
  {
    MergedHasValue(points, d, p);
    forall q | q in points && q.value.Some? && KeyOf(q) != KeyOf(p) ensures KeyLess(KeyOf(q), KeyOf(p)) {
      assert KeyOf(q) in KeysOf(d);
      var x :| x in d && KeyOf(x) == KeyOf(q);
      MergedHasValue(points, d, x);
    }
  }

  /** The day value "latest" is the merged value of the greatest key that has one, and no value is later than
      it exactly when no other object or period has a later one. */
  lemma {:induction false} LatestExactly(points: seq<Point>, bucket: Bucket) returns (k: Key)
    requires IsDayBucket(points, Latest, bucket) && bucket.value.Some?
    ensures IsLastKey(points, k) && Group(points, k) != [] && bucket.value == Merged(Group(points, k)).value
    ensures NoneLater(points, k.at) <==> OthersNotLater(points, k)
  {
    var d: seq<Point> :| IsDeduplication(points, d) && bucket == DayBucket(d, Latest);
    var p := LastPresent(d);
    k := KeyOf(p);
    LastKeyOf(points, d, p);
    MergedHasValue(points, d, p);
    hide DayBucket; hide IsDeduplication; hide KeyLess; hide Merged; hide Group; hide Present;
    forall q: Point | q in points && q.value.Some? && SameSeries(q, k) ensures q.at <= k.at {
      if KeyOf(q) != k { LessInGroup(q, p); }
    }
  }

  ghost predicate OneGroup(points: seq<Point>) {
    forall p, q :: p in points && q in points ==> p.objectKey == q.objectKey && p.period == q.period
  }

  /** So within one object and period, it is the value of the latest instant that has one. */
  lemma {:induction false} LatestWithinGroup(points: seq<Point>, bucket: Bucket) returns (k: Key)
    requires IsDayBucket(points, Latest, bucket) && bucket.value.Some? && OneGroup(points)
    ensures HasValue(points, k) && NoneLater(points, k.at)
    ensures Group(points, k) != [] && bucket.value == Merged(Group(points, k)).value
  {
    k := LatestExactly(points, bucket);
    hide IsDayBucket; hide Merged; hide Group; hide KeyLess;
  }

  function EarlyPoint(): Point { Point("b", 1, None, Some(2.0), None, None, None, None, false) }
  function LatePoint(): Point { Point("a", 2, None, Some(1.0), None, None, None, None, false) }

  lemma {:induction false} TwoObjects()
    ensures IsDeduplication([EarlyPoint(), LatePoint()], [LatePoint(), EarlyPoint()])
  {
    var points, d := [EarlyPoint(), LatePoint()], [LatePoint(), EarlyPoint()];
    OneOfTwo(EarlyPoint(), LatePoint());
    MergedAlone(EarlyPoint());
    MergedAlone(LatePoint());
    hide Merged; hide Group;
    assert KeysOf(points) == KeysOf(d);
    assert KeyLess(KeyOf(LatePoint()), KeyOf(EarlyPoint())) by { assert TextLess("a", "b"); }
    hide KeyLess;
    assert Increasing(d);
  }

  lemma {:induction false} OneOfTwo(p: Point, q: Point)
    requires KeyOf(p) != KeyOf(q)
    ensures Group([p, q], KeyOf(p)) == [p] && Group([p, q], KeyOf(q)) == [q]
  {
    assert [p, q][1..] == [q] && [q][1..] == [];
    assert Group([q], KeyOf(q)) == [q] + Group([], KeyOf(q));
    assert Group([q], KeyOf(p)) == Group([], KeyOf(p));
  }

  /** Across objects, as in the seven-day trend, it is the value of the last object instead: here the
      earlier of two points. */
  lemma {:induction false} LatestAcrossObjects()
    ensures IsDayBucket([EarlyPoint(), LatePoint()], Latest, Bucket(Some(2.0), None, None, 2, Some(Span(1, 2)), Usable))
    ensures EarlyPoint().at < LatePoint().at && LatePoint().value != Some(2.0)
  {
    var d := [LatePoint(), EarlyPoint()];
    TwoObjects();
    hide IsDeduplication;
    assert d[1..] == [EarlyPoint()] && [EarlyPoint()][1..] == [];
    assert Present(d, Value) == [1.0, 2.0];
  }

  // ----- Pooled rates ----------------------------------------------------------------------------

  datatype Ratio = Ratio(part: real, whole: real)

  datatype Template = Success | Reverse

  /** The pairs with both values. */
  function Ratios(pairs: seq<Pair>): seq<Ratio> {
    if pairs == [] then []
    else
      var p := pairs[0];
      (if p.numerator.value.Some? && p.denominator.value.Some?
       then [Ratio(p.numerator.value.value, p.denominator.value.value)] else []) + Ratios(pairs[1..])
  }

  function Parts(rs: seq<Ratio>): real { if rs == [] then 0.0 else rs[0].part + Parts(rs[1..]) }

  function Wholes(rs: seq<Ratio>): real { if rs == [] then 0.0 else rs[0].whole + Wholes(rs[1..]) }

  function Rate(part: real, whole: real, template: Template): real
    requires whole != 0.0
  {
    var success := part / whole * 100.0;
    if template == Reverse then 100.0 - success else success
  }

  function PooledBucket(rs: seq<Ratio>, template: Template): Bucket {
    if rs == [] then Bucket(None, None, None, 0, None, NoData)
    else if Wholes(rs) == 0.0 then Bucket(None, Some(Parts(rs)), Some(0.0), |rs|, None, ZeroDenominator)
    else Bucket(Some(Rate(Parts(rs), Wholes(rs), template)), Some(Parts(rs)), Some(Wholes(rs)), |rs|, None, Usable)
  }

  /** The points of the pairs with both values. */
  function UsedPoints(pairs: seq<Pair>): seq<Point> {
    if pairs == [] then []
    else
      var p := pairs[0];
      (if p.numerator.value.Some? && p.denominator.value.Some? then [p.numerator, p.denominator] else [])
      + UsedPoints(pairs[1..])
  }

  /** _derived_bucket. */
  function DerivedBucket(pairs: seq<Pair>, template: Template): Bucket {
    PooledBucket(Ratios(pairs), template).(span := SpanOf(UsedPoints(pairs)))
  }

  /** Products under a name, so that proofs can keep them apart. */
  function Times(a: real, b: real): real { a * b }

  lemma {:induction false} Distributes(t: real, v: real, w: real)
    ensures Times(t, v + w) == Times(t, v) + Times(t, w)
  {
  }

  lemma {:induction false} WeightedBetween(rs: seq<Ratio>, low: real, high: real)
    requires forall r :: r in rs ==> r.whole > 0.0 && Times(low, r.whole) <= r.part <= Times(high, r.whole)
    ensures Times(low, Wholes(rs)) <= Parts(rs) <= Times(high, Wholes(rs))
    ensures Wholes(rs) >= 0.0 && (rs != [] ==> Wholes(rs) > 0.0)
  {
    if rs != [] {
      assert rs == [rs[0]] + rs[1..] && rs[0] in rs;
      assert forall r :: r in rs[1..] ==> r in rs;
      WeightedBetween(rs[1..], low, high);
      Distributes(low, rs[0].whole, Wholes(rs[1..]));
      Distributes(high, rs[0].whole, Wholes(rs[1..]));
      hide Times;
    }
  }

  lemma {:induction false} ScaledRate(part: real, whole: real, low: real, high: real)
    requires whole > 0.0
    ensures low <= Rate(part, whole, Success) <= high
      <==> Times(low / 100.0, whole) <= part <= Times(high / 100.0, whole)
  {
    assert Rate(part, whole, Success) * whole == part * 100.0;
    assert low <= Rate(part, whole, Success) <==> low * whole <= part * 100.0;
    assert Rate(part, whole, Success) <= high <==> part * 100.0 <= high * whole;
  }

  lemma {:induction false} SuccessBetween(rs: seq<Ratio>, low: real, high: real)
    requires rs != [] && forall r :: r in rs ==> r.whole > 0.0 && low <= Rate(r.part, r.whole, Success) <= high
    ensures Wholes(rs) > 0.0 && low <= Rate(Parts(rs), Wholes(rs), Success) <= high
  {
    var l, h := low / 100.0, high / 100.0;
    forall r | r in rs ensures r.whole > 0.0 && Times(l, r.whole) <= r.part <= Times(h, r.whole) {
      ScaledRate(r.part, r.whole, low, high);
    }
    hide Times;
    hide Rate;
    WeightedBetween(rs, l, h);
    ScaledRate(Parts(rs), Wholes(rs), low, high);
  }

  /** With positive denominators the pooled rate lies between the smallest and the largest rate of a pair,
      for either template. */
  lemma {:induction false} PooledBetweenRates(rs: seq<Ratio>, template: Template, low: real, high: real)
    requires rs != [] && forall r :: r in rs ==> r.whole > 0.0 && low <= Rate(r.part, r.whole, template) <= high
    ensures PooledBucket(rs, template).status == Usable
    ensures low <= PooledBucket(rs, template).value.value <= high
  {
    forall r | r in rs && r.whole > 0.0
      ensures Rate(r.part, r.whole, Reverse) == 100.0 - Rate(r.part, r.whole, Success) { }
    hide Rate;
    match template
    case Success => SuccessBetween(rs, low, high);
    case Reverse =>
      SuccessBetween(rs, 100.0 - high, 100.0 - low);
  }

  /** Parts within their wholes give a percentage; a total of zero means every whole is zero. */
  lemma {:induction false} PooledIsPercentage(rs: seq<Ratio>, template: Template)
    requires rs != [] && forall r :: r in rs ==> 0.0 <= r.part <= r.whole
    ensures PooledBucket(rs, template).status == ZeroDenominator <==> forall r :: r in rs ==> r.whole == 0.0
    ensures PooledBucket(rs, template).status == Usable <==> exists r :: r in rs && r.whole != 0.0
    ensures PooledBucket(rs, template).value.Some? ==> 0.0 <= PooledBucket(rs, template).value.value <= 100.0
  {
    PartsWithin(rs);
    if Wholes(rs) != 0.0 { ScaledRate(Parts(rs), Wholes(rs), 0.0, 100.0); }
  }

  lemma {:induction false} PartsWithin(rs: seq<Ratio>)
    requires forall r :: r in rs ==> 0.0 <= r.part <= r.whole
    ensures 0.0 <= Parts(rs) <= Wholes(rs)
    ensures Wholes(rs) == 0.0 <==> forall r :: r in rs ==> r.whole == 0.0
  {
    if rs != [] {
      assert rs == [rs[0]] + rs[1..] && rs[0] in rs;
      assert forall r :: r in rs[1..] ==> r in rs;
      PartsWithin(rs[1..]);
    }
  }

  /** Success and reverse rate differ only in the value, and the two values add up to 100. */
  lemma {:induction false} ComplementaryRates(pairs: seq<Pair>)
    ensures DerivedBucket(pairs, Success).(value := None) == DerivedBucket(pairs, Reverse).(value := None)
    ensures DerivedBucket(pairs, Success).value.Some? ==>
      DerivedBucket(pairs, Success).value.value + DerivedBucket(pairs, Reverse).value.value == 100.0
  {
    hide Ratios;
  }

  // ----- Agreement with the reported rates -------------------------------------------------------

  datatype Reported = Reported(rate: real, ratio: Ratio)

  datatype Consistency = Unavailable | Within | Exceeded

  /** The pairs with a reported rate, both values, and a positive denominator. */
  function ReportedRates(pairs: seq<Pair>): (rs: seq<Reported>)
    ensures forall r :: r in rs ==> r.ratio.whole > 0.0
  {
    if pairs == [] then []
    else
      var p := pairs[0];
      (if p.numerator.raw.Some? && p.numerator.value.Some? && p.denominator.value.Some?
        && p.denominator.value.value > 0.0
       then [Reported(p.numerator.raw.value, Ratio(p.numerator.value.value, p.denominator.value.value))] else [])
      + ReportedRates(pairs[1..])
  }

  function Underlying(rs: seq<Reported>): (u: seq<Ratio>)
    ensures |u| == |rs| && forall i :: 0 <= i < |u| ==> u[i] == rs[i].ratio
  {
    if rs == [] then [] else [rs[0].ratio] + Underlying(rs[1..])
  }

  function WeightedRates(rs: seq<Reported>): real {
    if rs == [] then 0.0 else Times(rs[0].rate, rs[0].ratio.whole) + WeightedRates(rs[1..])
  }

  function AbsReal(x: real): real { if x < 0.0 then -x else x }

  lemma {:induction false} UnderlyingWholes(rs: seq<Reported>)
    requires rs != [] && forall r :: r in rs ==> r.ratio.whole > 0.0
    ensures Wholes(Underlying(rs)) > 0.0
  {
    assert rs[0] in rs && Underlying(rs)[1..] == Underlying(rs[1..]);
    if |rs| > 1 {
      assert forall r :: r in rs[1..] ==> r in rs;
      UnderlyingWholes(rs[1..]);
    }
  }

  function Difference(rs: seq<Reported>, template: Template): real
    requires rs != [] && forall r :: r in rs ==> r.ratio.whole > 0.0
  {
    UnderlyingWholes(rs);
    var u := Underlying(rs);
    AbsReal(WeightedRates(rs) / Wholes(u) - Rate(Parts(u), Wholes(u), template))
  }

  /** _consistency_evidence of a derived metric. */
  function ConsistencyOf(pairs: seq<Pair>, template: Template, tolerance: real): Consistency {
    var rs := ReportedRates(pairs);
    if rs == [] then Unavailable else if Difference(rs, template) <= tolerance then Within else Exceeded
  }

  /** A hundred times the part that the template speaks of. */
  function Own(part: real, whole: real, template: Template): real {
    if template == Success then part * 100.0 else (whole - part) * 100.0
  }

  lemma {:induction false} WeightedClose(rs: seq<Reported>, template: Template, t: real)
    requires forall r :: r in rs ==>
      r.ratio.whole > 0.0 && AbsReal(r.rate - Rate(r.ratio.part, r.ratio.whole, template)) <= t
    ensures AbsReal(WeightedRates(rs) - Own(Parts(Underlying(rs)), Wholes(Underlying(rs)), template))
      <= Times(t, Wholes(Underlying(rs)))
  {
    if rs != [] {
      assert rs == [rs[0]] + rs[1..] && rs[0] in rs;
      assert forall r :: r in rs[1..] ==> r in rs;
      assert Underlying(rs)[1..] == Underlying(rs[1..]);
      ScaledDistance(rs[0], template, t);
      hide Rate;
      WeightedClose(rs[1..], template, t);
      hide Times;
      hide AbsReal;
      var r, u := rs[0].ratio, Underlying(rs[1..]);
      AddClose(Times(rs[0].rate, r.whole) - Own(r.part, r.whole, template),
               WeightedRates(rs[1..]) - Own(Parts(u), Wholes(u), template),
               r.whole, Wholes(u), t);
    }
  }

  lemma {:induction false} AddClose(x: real, y: real, v: real, w: real, t: real)
    requires AbsReal(x) <= Times(t, v) && AbsReal(y) <= Times(t, w)
    ensures AbsReal(x + y) <= Times(t, v + w)
  {
    Distributes(t, v, w);
  }

  lemma {:induction false} OwnRate(part: real, whole: real, template: Template)
    requires whole != 0.0
    ensures Times(Rate(part, whole, template), whole) == Own(part, whole, template)
  {
    assert part / whole * whole == part;
  }

  lemma {:induction false} ScaledDistance(r: Reported, template: Template, t: real)
    requires r.ratio.whole > 0.0 && AbsReal(r.rate - Rate(r.ratio.part, r.ratio.whole, template)) <= t
    ensures AbsReal(Times(r.rate, r.ratio.whole) - Own(r.ratio.part, r.ratio.whole, template))
      <= Times(t, r.ratio.whole)
  {
    OwnRate(r.ratio.part, r.ratio.whole, template);
    hide Rate; hide Own;
    ScaleAbs(r.rate, Rate(r.ratio.part, r.ratio.whole, template), r.ratio.whole, t);
  }

  lemma {:induction false} ScaleAbs(x: real, y: real, w: real, t: real)
    requires w > 0.0
    ensures AbsReal(x - y) <= t <==> AbsReal(Times(x, w) - Times(y, w)) <= Times(t, w)
  {
    assert x - y <= t <==> (x - y) * w <= t * w;
    assert y - x <= t <==> (y - x) * w <= t * w;
  }

  /** When every reported rate is within t of its own pair's rate, pooling cannot make them differ by more. */
  lemma {:induction false} CloseReportsAreConsistent(pairs: seq<Pair>, template: Template, t: real, tolerance: real)
    requires t <= tolerance
    requires forall r :: r in ReportedRates(pairs) ==>
      AbsReal(r.rate - Rate(r.ratio.part, r.ratio.whole, template)) <= t
    ensures ConsistencyOf(pairs, template, tolerance) != Exceeded
  {
    var rs := ReportedRates(pairs);
    hide ReportedRates;
    if rs != [] {
      WeightedClose(rs, template, t);
      UnderlyingWholes(rs);
      PooledDistance(WeightedRates(rs), Parts(Underlying(rs)), Wholes(Underlying(rs)), template, t);
    }
  }

  lemma {:induction false} PooledDistance(weighted: real, part: real, whole: real, template: Template, t: real)
    requires whole > 0.0 && AbsReal(weighted - Own(part, whole, template)) <= Times(t, whole)
    ensures AbsReal(weighted / whole - Rate(part, whole, template)) <= t
  {
    OwnRate(part, whole, template);
    assert Times(weighted / whole, whole) == weighted;
    hide Rate; hide Own;
    ScaleAbs(weighted / whole, Rate(part, whole, template), whole, t);
  }

  // ----- The current judgement -------------------------------------------------------------------

  datatype Status = Fail | Warn | Unjudged | Pending | NotApplicable | Normal

  datatype Reason = DenominatorZero | DataUnreadable | NoCurrentData | DependencyMissing | AllZeroUnconfirmed
                  | NotTriggered | DirectionMissing | ThresholdMissing | CriticalThreshold | WarningThreshold
                  | ThresholdSatisfied | ConsistencyExceeded

  datatype Judgement = Judgement(status: Status, reason: Reason)

  datatype Direction = HigherBetter | LowerBetter | Neutral

  datatype ZeroSemantics = Unknown | ExpectedZero | BusinessNotTriggered

  datatype Limits = Limits(direction: Option<Direction>, warning: Option<real>, critical: Option<real>,
                           zeros: ZeroSemantics)

  /** judge_current_status. */
  function Judge(value: Option<real>, limits: Limits, validCount: nat, denominator: Option<real>, allZero: bool,
                 unreadable: bool): Judgement
  {
    if denominator == Some(0.0) then Judgement(NotApplicable, DenominatorZero)
    else if validCount == 0 || unreadable then Judgement(Unjudged, if unreadable then DataUnreadable else NoCurrentData)
    else if value.None? then Judgement(Unjudged, DependencyMissing)
    else if allZero && limits.zeros == Unknown then Judgement(Pending, AllZeroUnconfirmed)
    else if allZero && limits.zeros == BusinessNotTriggered then Judgement(NotApplicable, NotTriggered)
    else if limits.direction.None? || limits.direction.value == Neutral then Judgement(Pending, DirectionMissing)
    else if limits.warning.None? && limits.critical.None? then Judgement(Pending, ThresholdMissing)
    else if limits.critical.Some? && Crosses(limits.direction.value, value.value, limits.critical.value) then
      Judgement(Fail, CriticalThreshold)
    else if limits.warning.Some? && Crosses(limits.direction.value, value.value, limits.warning.value) then
      Judgement(Warn, WarningThreshold)
    else Judgement(Normal, ThresholdSatisfied)
  }

  /** A value is judged normal exactly when there is one, it is not all zeros of an open meaning, a direction and a
      threshold are set, and it crosses none. */
  lemma {:induction false} JudgedNormalIff(value: Option<real>, limits: Limits, validCount: nat,
                                           denominator: Option<real>, allZero: bool)
    ensures Judge(value, limits, validCount, denominator, allZero, false).status == Normal <==>
      && denominator != Some(0.0) && validCount > 0 && value.Some?
      && (allZero ==> limits.zeros == ExpectedZero)
      && limits.direction.Some? && limits.direction.value != Neutral
      && (limits.warning.Some? || limits.critical.Some?)
      && (limits.warning.Some? ==> !Crosses(limits.direction.value, value.value, limits.warning.value))
      && (limits.critical.Some? ==> !Crosses(limits.direction.value, value.value, limits.critical.value))
  {
    hide Crosses;
  }

  predicate Crosses(direction: Direction, value: real, threshold: real) {
    match direction
    case HigherBetter => value <= threshold
    case LowerBetter => value >= threshold
    case Neutral => false
  }

  /** The position in the priority list: 0 is the most severe. */
  function Priority(s: Status): nat {
    match s
    case Fail => 0
    case Warn => 1
    case Unjudged => 2
    case Pending => 3
    case NotApplicable => 4
    case Normal => 5
  }

  /** A better value is never judged more severely, whichever way the two thresholds are ordered. */
  lemma {:induction false} JudgementIsMonotone(a: real, b: real, limits: Limits, validCount: nat,
                                               denominator: Option<real>, allZero: bool, unreadable: bool)
    requires limits.direction == Some(HigherBetter) ==> a <= b
    requires limits.direction == Some(LowerBetter) ==> a >= b
    ensures Priority(Judge(Some(a), limits, validCount, denominator, allZero, unreadable).status)
         <= Priority(Judge(Some(b), limits, validCount, denominator, allZero, unreadable).status)
  {
  }

  function Mirror(limits: Limits): Limits {
    var direction := match limits.direction
      case Some(HigherBetter) => Some(LowerBetter)
      case Some(LowerBetter) => Some(HigherBetter)
      case _ => limits.direction;
    Limits(direction, if limits.warning.Some? then Some(-limits.warning.value) else None,
           if limits.critical.Some? then Some(-limits.critical.value) else None, limits.zeros)
  }

  /** The two directions are mirror images of each other. */
  lemma {:induction false} JudgementMirrors(value: real, limits: Limits, validCount: nat, denominator: Option<real>,
                                            allZero: bool, unreadable: bool)
    ensures Judge(Some(-value), Mirror(limits), validCount, denominator, allZero, unreadable)
         == Judge(Some(value), limits, validCount, denominator, allZero, unreadable)
  {
  }

  /** aggregate_current_statuses: the first status of least priority number. */
  function WorstStatus(statuses: seq<Status>): Status {
    if statuses == [] then Unjudged
    else if |statuses| == 1 then statuses[0]
    else
      var rest := WorstStatus(statuses[1..]);
      if Priority(rest) < Priority(statuses[0]) then rest else statuses[0]
  }

  /** The metric's status is one of its groups' and none of them is more severe; so it depends only on
      which statuses occur. */
  lemma {:induction false} WorstIsLeast(statuses: seq<Status>)
    requires statuses != []
    ensures WorstStatus(statuses) in statuses
    ensures forall s :: s in statuses ==> Priority(WorstStatus(statuses)) <= Priority(s)
  {
    assert statuses == [statuses[0]] + statuses[1..];
    if |statuses| > 1 { WorstIsLeast(statuses[1..]); }
  }

  lemma {:induction false} WorstOfSameStatuses(a: seq<Status>, b: seq<Status>)
    requires forall s :: s in a <==> s in b
    requires a != [] && b != []
    ensures WorstStatus(a) == WorstStatus(b)
  {
    WorstIsLeast(a);
    WorstIsLeast(b);
    hide WorstStatus;
  }

  // ----- A group of a derived metric -------------------------------------------------------------

  datatype DerivedConfig = DerivedConfig(
    numeratorId: Option<string>, denominatorId: Option<string>, template: Template, tolerance: real, limits: Limits)

  predicate AllZeroPairs(pairs: seq<Pair>) {
    pairs == []
      || (ValueOrZero(pairs[0].numerator) == 0.0 && ValueOrZero(pairs[0].denominator) == 0.0
        && AllZeroPairs(pairs[1..]))
  }

  function ValueOrZero(p: Point): real { if p.value.Some? then p.value.value else 0.0 }

  predicate Named(id: Option<string>) { id.Some? && id.value != "" }

  predicate MissingDependency(config: DerivedConfig, pairs: seq<Pair>) {
    || config.numeratorId.None?
    || config.denominatorId.None?
    || (pairs == [] && (Named(config.numeratorId) || Named(config.denominatorId)))
  }

  function Rounded(round: real -> real, x: Option<real>): Option<real> {
    if x.Some? then Some(round(x.value)) else None
  }

  /** _derived_group_result: the judgement of today's pairs, given all pairs of the group. The numbers of the bucket
      are judged as rounded for display; round is that rounding. */
  function JudgeDerived(config: DerivedConfig, round: real -> real, pairs: seq<Pair>, today: seq<Pair>): Judgement {
    var bucket := DerivedBucket(today, config.template);
    var first :=
      if MissingDependency(config, pairs) then Judgement(Unjudged, DependencyMissing)
      else
        Judge(Rounded(round, bucket.value), config.limits, bucket.validCount, Rounded(round, bucket.denominator),
              today != [] && AllZeroPairs(today), false);
    if first.status == Normal && ConsistencyOf(today, config.template, config.tolerance) == Exceeded
    then Judgement(Pending, ConsistencyExceeded) else first
  }

  /** A derived group is normal exactly when both dependencies are set, today's denominators add up to
      something, also when rounded, the rounded pooled rate clears both thresholds, and the reported rates do not
      contradict it. */
  lemma {:induction false} DerivedNormalIff(config: DerivedConfig, round: real -> real, pairs: seq<Pair>,
                                            today: seq<Pair>)
    requires today != [] ==> pairs != []
    ensures JudgeDerived(config, round, pairs, today).status == Normal <==>
      && config.numeratorId.Some? && config.denominatorId.Some?
      && Wholes(Ratios(today)) != 0.0 && round(Wholes(Ratios(today))) != 0.0
      && config.limits.direction.Some? && config.limits.direction.value != Neutral
      && (config.limits.warning.Some? || config.limits.critical.Some?)
      && var rate := round(Rate(Parts(Ratios(today)), Wholes(Ratios(today)), config.template));
         && (config.limits.warning.Some? ==> !Crosses(config.limits.direction.value, rate, config.limits.warning.value))
         && (config.limits.critical.Some? ==>
           !Crosses(config.limits.direction.value, rate, config.limits.critical.value))
         && ConsistencyOf(today, config.template, config.tolerance) != Exceeded
  {
    if AllZeroPairs(today) { ZeroPairs(today); }
    assert Ratios(today) == [] ==> Wholes(Ratios(today)) == 0.0;
    assert today == [] ==> Ratios(today) == [];
    var bucket := DerivedBucket(today, config.template);
    JudgedNormalIff(Rounded(round, bucket.value), config.limits, bucket.validCount,
                    Rounded(round, bucket.denominator), today != [] && AllZeroPairs(today));
    hide ConsistencyOf; hide AllZeroPairs; hide Ratios; hide Parts; hide Wholes; hide Rate; hide Judge; hide Crosses;
    hide SpanOf;
  }

  lemma {:induction false} ZeroPairs(pairs: seq<Pair>)
    requires AllZeroPairs(pairs)
    ensures Wholes(Ratios(pairs)) == 0.0
  {
    if pairs != [] {
      ZeroPairs(pairs[1..]);
      var first := Ratios([pairs[0]]);
      assert Ratios(pairs)[if |Ratios(pairs)| > |Ratios(pairs[1..])| then 1 else 0..] == Ratios(pairs[1..]);
    }
  }
}
