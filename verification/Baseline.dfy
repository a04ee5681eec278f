/** The history baseline of one time label (app/services/kpi_history.py, lines 283 to 325): median, median
    absolute deviation, and the significance of the current value. Values are reals. */
module Baseline {
  import opened Wrappers

  const MIN_SAMPLES := 3

  // ----- Sorting and the median ------------------------------------------------------------------

  function Insert(x: real, s: seq<real>): (r: seq<real>)
    ensures |r| == |s| + 1
  {
    if s == [] || x <= s[0] then [x] + s else [s[0]] + Insert(x, s[1..])
  }

  function Sort(xs: seq<real>): (s: seq<real>)
    ensures |s| == |xs|
  {
    if xs == [] then [] else Insert(xs[0], Sort(xs[1..]))
  }

  ghost predicate Ordered(s: seq<real>) { forall i, j :: 0 <= i < j < |s| ==> s[i] <= s[j] }

  /** statistics.median. */
  function Median(xs: seq<real>): real
    requires xs != []
  {
    var s, n := Sort(xs), |xs|;
    if n % 2 == 1 then s[n / 2] else (s[n / 2 - 1] + s[n / 2]) / 2.0
  }

  lemma {:induction false} OrderedCons(x: real, s: seq<real>)
    requires Ordered(s) && forall y :: y in s ==> x <= y
    ensures Ordered([x] + s)
  {
    var r := [x] + s;
    forall i, j | 0 <= i < j < |r| ensures r[i] <= r[j] {
      assert r[j] == s[j - 1] && s[j - 1] in s;
      if i > 0 { assert r[i] == s[i - 1]; }
    }
  }

  lemma {:induction false} OrderedHead(s: seq<real>)
    requires Ordered(s) && s != []
    ensures Ordered(s[1..]) && forall y :: y in s ==> s[0] <= y
  {
    forall y | y in s ensures s[0] <= y { var i :| 0 <= i < |s| && s[i] == y; }
  }

  lemma {:induction false} InsertOrdered(x: real, s: seq<real>)
    requires Ordered(s)
    ensures Ordered(Insert(x, s))
    ensures forall y :: y in Insert(x, s) <==> y == x || y in s
  {
    if s == [] {
      OrderedCons(x, s);
    } else {
      OrderedHead(s);
      hide Ordered;
      assert s == [s[0]] + s[1..];
      if x <= s[0] {
        OrderedCons(x, s);
      } else {
        InsertOrdered(x, s[1..]);
        assert forall y :: y in Insert(x, s[1..]) ==> s[0] <= y;
        OrderedCons(s[0], Insert(x, s[1..]));
      }
    }
  }

  lemma {:induction false} SortOrdered(xs: seq<real>)
    ensures Ordered(Sort(xs))
    ensures forall y :: y in Sort(xs) <==> y in xs
  {
    if xs != [] {
      SortOrdered(xs[1..]);
      InsertOrdered(xs[0], Sort(xs[1..]));
      assert xs == [xs[0]] + xs[1..];
    }
  }

  lemma {:induction false} InsertMultiset(x: real, s: seq<real>)
    ensures multiset(Insert(x, s)) == multiset(s) + multiset{x}
  {
    if s != [] && x > s[0] {
      InsertMultiset(x, s[1..]);
      assert s == [s[0]] + s[1..];
    }
  }

  lemma {:induction false} SortMultiset(xs: seq<real>)
    ensures multiset(Sort(xs)) == multiset(xs)
  {
    if xs != [] {
      SortMultiset(xs[1..]);
      InsertMultiset(xs[0], Sort(xs[1..]));
      assert xs == [xs[0]] + xs[1..];
    }
  }

  lemma {:induction false} OrderedIsUnique(a: seq<real>, b: seq<real>)
    requires Ordered(a) && Ordered(b) && multiset(a) == multiset(b)
    ensures a == b
  {
    assert |multiset(a)| == |a| && |multiset(b)| == |b|;
    if a != [] {
      assert a[0] == b[0] by {
        assert a[0] in multiset(b) && b[0] in multiset(a);
        assert a[0] in b && b[0] in a;
      }
      hide Ordered;
      assert a == [a[0]] + a[1..] && b == [b[0]] + b[1..];
      assert multiset(a[1..]) == multiset(a) - multiset{a[0]};
      assert multiset(b[1..]) == multiset(b) - multiset{b[0]};
      OrderedHead(a);
      OrderedHead(b);
      OrderedIsUnique(a[1..], b[1..]);
    }
  }

  /** The median does not depend on the order of the samples. */
  lemma {:induction false} MedianOfPermutation(xs: seq<real>, ys: seq<real>)
    requires xs != [] && multiset(xs) == multiset(ys)
    ensures |xs| == |ys| && Sort(xs) == Sort(ys) && Median(xs) == Median(ys)
  {
    SortMultiset(xs);
    SortMultiset(ys);
    SortOrdered(xs);
    SortOrdered(ys);
    assert |multiset(xs)| == |xs| && |multiset(ys)| == |ys|;
    hide Sort;
    OrderedIsUnique(Sort(xs), Sort(ys));
  }

  // ----- Half of the samples ---------------------------------------------------------------------

  function AtMost(xs: seq<real>, m: real): nat {
    if xs == [] then 0 else (if xs[0] <= m then 1 else 0) + AtMost(xs[1..], m)
  }

  lemma {:induction false} AtMostInsert(x: real, s: seq<real>, m: real)
    ensures AtMost(Insert(x, s), m) == AtMost(s, m) + if x <= m then 1 else 0
  {
    if s != [] && x > s[0] { AtMostInsert(x, s[1..], m); }
  }

  lemma {:induction false} AtMostSort(xs: seq<real>, m: real)
    ensures AtMost(Sort(xs), m) == AtMost(xs, m)
  {
    if xs != [] {
      AtMostSort(xs[1..], m);
      AtMostInsert(xs[0], Sort(xs[1..]), m);
    }
  }

  lemma {:induction false} AtMostPrefix(s: seq<real>, m: real, k: nat)
    requires k <= |s| && forall i :: 0 <= i < k ==> s[i] <= m
    ensures AtMost(s, m) >= k
  {
    if k > 0 { AtMostPrefix(s[1..], m, k - 1); }
  }

  /** At least half of the values are at most their median. */
  lemma {:induction false} HalfAtMostMedian(xs: seq<real>)
    requires xs != []
    ensures 2 * AtMost(xs, Median(xs)) >= |xs|
  {
    SortOrdered(xs);
    AtMostSort(xs, Median(xs));
    var s, n := Sort(xs), |xs|;
    hide Sort; hide AtMost;
    AtMostPrefix(s, Median(xs), if n % 2 == 1 then n / 2 + 1 else n / 2);
  }

  // ----- Significance ----------------------------------------------------------------------------

  datatype Significance = Insufficient | Lower | Normal | Higher

  function Abs(x: real): real { if x < 0.0 then -x else x }

  function MaxReal(a: real, b: real): real { if a < b then b else a }

  function Deviations(samples: seq<real>, baseline: real): (d: seq<real>)
    ensures |d| == |samples|
  {
    if samples == [] then [] else [Abs(samples[0] - baseline)] + Deviations(samples[1..], baseline)
  }

  function Threshold(samples: seq<real>): real
    requires samples != []
  {
    var baseline := Median(samples);
    var mad := Median(Deviations(samples, baseline));
    MaxReal(MaxReal(3.0 * 1.4826 * mad, 0.1 * MaxReal(Abs(baseline), mad)), 0.000000001)
  }

  datatype BaselinePoint = BaselinePoint(baseline: Option<real>, deviation: Option<real>, ratio: Option<real>,
                                         sampleCount: nat, significance: Significance)

  function SignificanceOf(samples: seq<real>, current: Option<real>): Significance {
    if |samples| < MIN_SAMPLES then Insufficient
    else if current.None? then Normal
    else
      var deviation := current.value - Median(samples);
      if Abs(deviation) <= Threshold(samples) then Normal else if deviation > 0.0 then Higher else Lower
  }

  /** _baseline_for_time. */
  function BaselineFor(samples: seq<real>, current: Option<real>): BaselinePoint {
    var baseline := if samples == [] then None else Some(Median(samples));
    var deviation := if current.Some? && baseline.Some? then Some(current.value - baseline.value) else None;
    var ratio := if deviation.Some? && baseline.value != 0.0 then Some(deviation.value / Abs(baseline.value)) else None;
    BaselinePoint(baseline, deviation, ratio, |samples|, SignificanceOf(samples, current))
  }

  /** With enough samples the current value is significant exactly when it is off the baseline by more than the
      threshold, in the direction of the significance; the ratio restores the deviation. */
  lemma {:induction false} SignificanceIsDeviation(samples: seq<real>, current: Option<real>)
    requires |samples| >= MIN_SAMPLES
    ensures var p := BaselineFor(samples, current);
      && p.baseline == Some(Median(samples))
      && (p.significance == Higher <==> current.Some? && current.value > Median(samples) + Threshold(samples))
      && (p.significance == Lower <==> current.Some? && current.value < Median(samples) - Threshold(samples))
      && (p.deviation.Some? <==> current.Some?)
      && (p.ratio.Some? <==> current.Some? && Median(samples) != 0.0)
      && (p.ratio.Some? ==> p.ratio.value * Abs(p.baseline.value) == p.deviation.value)
  {
    ThresholdCoversMad(samples);
    hide Median;
    hide Threshold;
    var p := BaselineFor(samples, current);
    assert p.ratio.Some? ==> p.ratio.value == p.deviation.value / Abs(Median(samples));
  }

  function NormalCount(samples: seq<real>, history: seq<real>): nat {
    if samples == [] then 0
    else (if SignificanceOf(history, Some(samples[0])) == Normal then 1 else 0) + NormalCount(samples[1..], history)
  }

  lemma {:induction false} DeviationsNonNegative(samples: seq<real>, baseline: real)
    ensures forall d :: d in Deviations(samples, baseline) ==> d >= 0.0
  {
    if samples != [] { DeviationsNonNegative(samples[1..], baseline); }
  }

  lemma {:induction false} ThresholdCoversMad(samples: seq<real>)
    requires samples != []
    ensures Threshold(samples) >= Median(Deviations(samples, Median(samples))) >= 0.0
  {
    var d := Deviations(samples, Median(samples));
    DeviationsNonNegative(samples, Median(samples));
    SortOrdered(d);
    hide Sort; hide Deviations;
    assert Median(d) >= 0.0 by {
      var n := |d|;
      assert Sort(d)[n / 2] in Sort(d);
      if n % 2 == 0 { assert Sort(d)[n / 2 - 1] in Sort(d); }
    }
  }

  lemma {:induction false} CloseIsNormal(samples: seq<real>, history: seq<real>)
    requires |history| >= MIN_SAMPLES
    ensures NormalCount(samples, history)
      >= AtMost(Deviations(samples, Median(history)), Median(Deviations(history, Median(history))))
  {
    ThresholdCoversMad(history);
    hide Median; hide Threshold;
    if samples != [] { CloseIsNormal(samples[1..], history); }
  }

  /** With enough samples, at least half of them would be judged normal as the current value. */
  lemma {:induction false} HalfOfHistoryIsNormal(samples: seq<real>)
    requires |samples| >= MIN_SAMPLES
    ensures 2 * NormalCount(samples, samples) >= |samples|
  {
    CloseIsNormal(samples, samples);
    HalfAtMostMedian(Deviations(samples, Median(samples)));
  }

  function Rank(s: Significance): int
    requires s != Insufficient
  {
    match s case Lower => -1 case Normal => 0 case Higher => 1
  }

  /** The significance moves from lower over normal to higher as the current value grows, and each of
      the three is met. */
  lemma {:induction false} SignificanceIsMonotone(samples: seq<real>, a: real, b: real)
    requires |samples| >= MIN_SAMPLES && a <= b
    ensures SignificanceOf(samples, Some(a)) != Insufficient && SignificanceOf(samples, Some(b)) != Insufficient
    ensures Rank(SignificanceOf(samples, Some(a))) <= Rank(SignificanceOf(samples, Some(b)))
    ensures SignificanceOf(samples, Some(Median(samples))) == Normal
    ensures SignificanceOf(samples, Some(Median(samples) + Threshold(samples) + 1.0)) == Higher
    ensures SignificanceOf(samples, Some(Median(samples) - Threshold(samples) - 1.0)) == Lower
  {
    ThresholdCoversMad(samples);
    hide Median; hide Threshold;
  }

  lemma {:induction false} DeviationsFirst(x: real, s: seq<real>, baseline: real)
    ensures multiset(Deviations([x] + s, baseline)) == multiset(Deviations(s, baseline)) + multiset{Abs(x - baseline)}
  {
    hide Abs;
    assert ([x] + s)[1..] == s;
    assert Deviations([x] + s, baseline) == [Abs(x - baseline)] + Deviations(s, baseline);
  }

  lemma {:induction false} InsertDeviations(x: real, s: seq<real>, baseline: real)
    ensures multiset(Deviations(Insert(x, s), baseline)) == multiset(Deviations(s, baseline))
      + multiset{Abs(x - baseline)}
  {
    hide Abs;
    hide Deviations;
    if s != [] && x > s[0] {
      InsertDeviations(x, s[1..], baseline);
      DeviationsFirst(s[0], s[1..], baseline);
      DeviationsFirst(s[0], Insert(x, s[1..]), baseline);
      assert [s[0]] + s[1..] == s;
    } else {
      DeviationsFirst(x, s, baseline);
    }
  }

  lemma {:induction false} SortDeviations(xs: seq<real>, baseline: real)
    ensures multiset(Deviations(Sort(xs), baseline)) == multiset(Deviations(xs, baseline))
  {
    hide Abs; hide Insert;
    if xs != [] {
      SortDeviations(xs[1..], baseline);
      InsertDeviations(xs[0], Sort(xs[1..]), baseline);
    }
  }

  lemma {:induction false} SpreadOfPermutation(xs: seq<real>, ys: seq<real>)
    requires xs != [] && multiset(xs) == multiset(ys)
    ensures |xs| == |ys| && Median(xs) == Median(ys)
    ensures Median(Deviations(xs, Median(xs))) == Median(Deviations(ys, Median(ys)))
  {
    MedianOfPermutation(xs, ys);
    var m := Median(xs);
    SortDeviations(xs, m);
    SortDeviations(ys, m);
    hide Median; hide Deviations; hide Sort;
    MedianOfPermutation(Deviations(xs, m), Deviations(ys, m));
  }

  /** The whole baseline point does not depend on the order of the samples. */
  lemma {:induction false} BaselineOfPermutation(xs: seq<real>, ys: seq<real>, current: Option<real>)
    requires multiset(xs) == multiset(ys)
    ensures BaselineFor(xs, current) == BaselineFor(ys, current)
  {
    assert |multiset(xs)| == |xs| && |multiset(ys)| == |ys|;
    if xs != [] { SpreadOfPermutation(xs, ys); }
    hide Median;
    hide Deviations;
  }
}
