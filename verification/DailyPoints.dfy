/** Deduplication and numerator/denominator pairing of daily measurement points
    (app/services/kpi_daily_health.py, lines 98 to 139, 204 to 224, 504 to 508). Instants are integers,
      values are reals. */
module DailyPoints {
  import opened Sums
  import opened Texts
  import opened Wrappers

  datatype Key = Key(objectKey: string, period: Option<int>, at: int)

  datatype Point = Point(
    objectKey: string,
    at: int,
    period: Option<int>,
    value: Option<real>,
    numerator: Option<real>,
    denominator: Option<real>,
    raw: Option<real>,
    source: Option<string>,
    unreadable: bool)

  function KeyOf(p: Point): Key { Key(p.objectKey, p.period, p.at) }

  // ----- The order of keys -----------------------------------------------------------------------

  /** A missing period sorts after every period. */
  predicate PeriodLess(p: Option<int>, q: Option<int>) {
    p.Some? && (q.None? || p.value < q.value)
  }

  predicate KeyLess(a: Key, b: Key) {
    || TextLess(a.objectKey, b.objectKey)
    || (a.objectKey == b.objectKey && (PeriodLess(a.period, b.period) || (a.period == b.period && a.at < b.at)))
  }

  lemma {:induction false} KeyTrichotomy(a: Key, b: Key)
    ensures KeyLess(a, b) || a == b || KeyLess(b, a)
    ensures !(KeyLess(a, b) && KeyLess(b, a))
    ensures !KeyLess(a, a)
  {
    TextTrichotomy(a.objectKey, b.objectKey);
    TextIrreflexive(a.objectKey);
    hide TextLess;
  }

  lemma {:induction false} KeyTransitive(a: Key, b: Key, c: Key)
    requires KeyLess(a, b) && KeyLess(b, c)
    ensures KeyLess(a, c)
  {
    if TextLess(a.objectKey, b.objectKey) && TextLess(b.objectKey, c.objectKey) {
      TextTransitive(a.objectKey, b.objectKey, c.objectKey);
    }
    hide TextLess;
  }

  /** Strictly increasing keys: no key twice, and a fixed order. */
  ghost predicate Increasing(s: seq<Point>) {
    forall i, j :: 0 <= i < j < |s| ==> KeyLess(KeyOf(s[i]), KeyOf(s[j]))
  }

  ghost function KeysOf(s: seq<Point>): set<Key> { set p | p in s :: KeyOf(p) }

  // ----- One point per key -----------------------------------------------------------------------

  /** The points with key k, in the order given. */
  function Group(points: seq<Point>, k: Key): seq<Point> {
    if points == [] then []
    else if KeyOf(points[0]) == k then [points[0]] + Group(points[1..], k)
    else Group(points[1..], k)
  }

  datatype Field = Value | Numerator | Denominator | Raw

  function Get(p: Point, f: Field): Option<real> {
    match f
    case Value => p.value
    case Numerator => p.numerator
    case Denominator => p.denominator
    case Raw => p.raw
  }

  /** The present values of a field. */
  function Present(points: seq<Point>, f: Field): seq<real> {
    if points == [] then []
    else (if Get(points[0], f).Some? then [Get(points[0], f).value] else []) + Present(points[1..], f)
  }

  function Total(xs: seq<real>): Option<real> { if xs == [] then None else Some(Sum(xs)) }

  function Mean(xs: seq<real>): Option<real> { if xs == [] then None else Some(Sum(xs) / |xs| as real) }

  function FirstSource(points: seq<Point>): Option<string> {
    if points == [] then None
    else if points[0].source.Some? && points[0].source.value != "" then points[0].source
    else FirstSource(points[1..])
  }

  predicate AllUnreadable(points: seq<Point>) {
    points == [] || (points[0].unreadable && AllUnreadable(points[1..]))
  }

  /** The point that stands for a group of duplicates. */
  function Merged(group: seq<Point>): (p: Point)
    requires group != []
    ensures KeyOf(p) == KeyOf(group[0])
  {
    var base := group[0];
    Point(base.objectKey, base.at, base.period,
          Mean(Present(group, Value)), Total(Present(group, Numerator)), Total(Present(group, Denominator)),
          Mean(Present(group, Raw)), FirstSource(group), AllUnreadable(group))
  }

  lemma {:induction false} GroupMembers(points: seq<Point>, k: Key)
    ensures forall p :: p in Group(points, k) <==> p in points && KeyOf(p) == k
    ensures Group(points, k) != [] <==> k in KeysOf(points)
  {
    if points != [] {
      GroupMembers(points[1..], k);
      assert points == [points[0]] + points[1..];
    }
    if Group(points, k) != [] { assert Group(points, k)[0] in Group(points, k); }
  }

  lemma {:induction false} GroupAppend(points: seq<Point>, p: Point, k: Key)
    ensures Group(points + [p], k) == Group(points, k) + if KeyOf(p) == k then [p] else []
  {
    if points == [] {
      assert points + [p] == [p] && [p][1..] == [];
    } else {
      GroupAppend(points[1..], p, k);
      assert (points + [p])[1..] == points[1..] + [p];
    }
  }

  /** What deduplication means: one merged point for each key that occurs, in key order. */
  ghost predicate IsDeduplication(points: seq<Point>, result: seq<Point>) {
    && Increasing(result)
    && KeysOf(result) == KeysOf(points)
    && (forall x :: x in result ==> Group(points, KeyOf(x)) != [] && x == Merged(Group(points, KeyOf(x))))
  }

  // ----- The algorithm ---------------------------------------------------------------------------

  function InsertByKey(p: Point, s: seq<Point>): seq<Point> {
    if s == [] || !KeyLess(KeyOf(s[0]), KeyOf(p)) then [p] + s else [s[0]] + InsertByKey(p, s[1..])
  }

  function SortByKey(s: seq<Point>): seq<Point> {
    if s == [] then [] else InsertByKey(s[0], SortByKey(s[1..]))
  }

  lemma {:induction false} IncreasingCons(p: Point, s: seq<Point>)
    requires Increasing(s) && (s != [] ==> KeyLess(KeyOf(p), KeyOf(s[0])))
    ensures Increasing([p] + s)
  {
    forall i, j | 0 <= i < j < |[p] + s| ensures KeyLess(KeyOf(([p] + s)[i]), KeyOf(([p] + s)[j])) {
      if i == 0 && j > 1 { KeyTransitive(KeyOf(p), KeyOf(s[0]), KeyOf(s[j - 1])); }
    }
  }

  lemma {:induction false} InsertIncreasing(p: Point, s: seq<Point>)
    requires Increasing(s) && KeyOf(p) !in KeysOf(s)
    ensures Increasing(InsertByKey(p, s))
    ensures forall x :: x in InsertByKey(p, s) <==> x == p || x in s
  {
    if s == [] || !KeyLess(KeyOf(s[0]), KeyOf(p)) {
      if s != [] {
        assert KeyOf(s[0]) in KeysOf(s);
        KeyTrichotomy(KeyOf(s[0]), KeyOf(p));
      }
      hide KeyLess;
      IncreasingCons(p, s);
    } else {
      assert s == [s[0]] + s[1..];
      hide KeyLess;
      assert forall k :: k in KeysOf(s[1..]) ==> k in KeysOf(s);
      InsertIncreasing(p, s[1..]);
      var rest := InsertByKey(p, s[1..]);
      assert rest != [] && rest[0] in rest;
      assert rest[0] == p || rest[0] in s[1..];
      IncreasingCons(s[0], rest);
    }
  }

  ghost predicate DistinctKeys(s: seq<Point>) {
    forall i, j :: 0 <= i < j < |s| ==> KeyOf(s[i]) != KeyOf(s[j])
  }

  lemma {:induction false} SortIncreasing(s: seq<Point>)
    requires DistinctKeys(s)
    ensures Increasing(SortByKey(s))
    ensures forall x :: x in SortByKey(s) <==> x in s
  {
    if s != [] {
      SortIncreasing(s[1..]);
      assert s == [s[0]] + s[1..];
      var rest := SortByKey(s[1..]);
      forall x | x in rest ensures KeyOf(x) != KeyOf(s[0]) {
        var i :| 0 <= i < |s[1..]| && s[1..][i] == x;
        assert s[i + 1] == x;
      }
      hide InsertByKey;
      InsertIncreasing(s[0], rest);
    }
  }

  ghost predicate GroupsOf(points: seq<Point>, order: seq<Key>, grouped: map<Key, seq<Point>>) {
    && Distinct(order)
    && (forall k :: k in order <==> k in KeysOf(points))
    && (forall k :: k in grouped <==> k in KeysOf(points))
    && (forall k :: k in grouped ==> grouped[k] == Group(points, k))
  }

  /** The grouping dictionary, with its keys in order of first insertion. */
  method GroupByKey(points: seq<Point>) returns (order: seq<Key>, grouped: map<Key, seq<Point>>)
    ensures GroupsOf(points, order, grouped)
  {
    order, grouped := [], map[];
    for i := 0 to |points|
      invariant GroupsOf(points[..i], order, grouped)
    {
      var p := points[i];
      var k := KeyOf(p);
      GroupsStep(points[..i], p, order, grouped);
      assert points[..i + 1] == points[..i] + [p];
      if k !in grouped {
        order := order + [k];
        grouped := grouped[k := [p]];
      } else {
        grouped := grouped[k := grouped[k] + [p]];
      }
    }
    assert points[..|points|] == points;
  }

  lemma {:induction false} GroupsStep(points: seq<Point>, p: Point, order: seq<Key>, grouped: map<Key, seq<Point>>)
    requires GroupsOf(points, order, grouped)
    ensures KeyOf(p) in grouped ==> GroupsOf(points + [p], order, grouped[KeyOf(p) := grouped[KeyOf(p)] + [p]])
    ensures KeyOf(p) !in grouped ==> GroupsOf(points + [p], order + [KeyOf(p)], grouped[KeyOf(p) := [p]])
  {
    var k := KeyOf(p);
    forall l ensures Group(points + [p], l) == Group(points, l) + if k == l then [p] else [] {
      GroupAppend(points, p, l);
    }
    GroupMembers(points, k);
    hide Group;
    hide KeysOf;
  }

  /** The merged points of the first groups. */
  ghost predicate MergedUpTo(points: seq<Point>, order: seq<Key>, merged: seq<Point>, n: nat) {
    n <= |order| && |merged| == n && forall x :: 0 <= x < n ==> StandsForGroup(points, order[x], merged[x])
  }

  ghost predicate StandsForGroup(points: seq<Point>, k: Key, p: Point) {
    Group(points, k) != [] && KeyOf(p) == k && p == Merged(Group(points, k))
  }

  lemma {:induction false} MergedMore(points: seq<Point>, order: seq<Key>, grouped: map<Key, seq<Point>>,
                                      merged: seq<Point>, n: nat)
    requires n < |order| && GroupsOf(points, order, grouped) && MergedUpTo(points, order, merged, n)
    ensures order[n] in grouped && grouped[order[n]] != []
    ensures MergedUpTo(points, order, merged + [Merged(grouped[order[n]])], n + 1)
  {
    var k := order[n];
    assert k in order;
    GroupMembers(points, k);
    assert Group(points, k)[0] in Group(points, k);
    hide Group; hide Merged; hide KeysOf;
    assert StandsForGroup(points, k, Merged(grouped[k]));
    hide StandsForGroup;
  }

  /** _deduplicate_points. */
  method Deduplicate(points: seq<Point>) returns (result: seq<Point>)
    ensures IsDeduplication(points, result)
  {
    var order, grouped := GroupByKey(points);
    var merged: seq<Point> := [];
    assert MergedUpTo(points, order, merged, 0);
    hide *;
    for j := 0 to |order|
      invariant MergedUpTo(points, order, merged, j)
    {
      MergedMore(points, order, grouped, merged, j);
      merged := merged + [Merged(grouped[order[j]])];
    }
    result := SortByKey(merged);
    DeduplicatedBySorting(points, order, grouped, merged);
  }

  lemma {:induction false} MergedKeys(points: seq<Point>, order: seq<Key>, grouped: map<Key, seq<Point>>,
                                      merged: seq<Point>)
    requires GroupsOf(points, order, grouped) && MergedUpTo(points, order, merged, |order|)
    ensures DistinctKeys(merged) && KeysOf(merged) == KeysOf(points)
    ensures forall p :: p in merged ==> StandsForGroup(points, KeyOf(p), p)
  {
    hide Merged; hide Group;
    forall k ensures k in KeysOf(merged) <==> k in KeysOf(points) {
      if k in KeysOf(points) {
        var x :| 0 <= x < |order| && order[x] == k;
        assert merged[x] in merged && StandsForGroup(points, order[x], merged[x]);
      }
    }
  }

  lemma {:induction false} DeduplicatedBySorting(points: seq<Point>, order: seq<Key>, grouped: map<Key, seq<Point>>,
                                                 merged: seq<Point>)
    requires GroupsOf(points, order, grouped) && MergedUpTo(points, order, merged, |order|)
    ensures IsDeduplication(points, SortByKey(merged))
  {
    hide *;
    MergedKeys(points, order, grouped, merged);
    SortIncreasing(merged);
    AssembledFromGroups(points, merged, SortByKey(merged));
  }

  lemma {:induction false} AssembledFromGroups(points: seq<Point>, merged: seq<Point>, result: seq<Point>)
    requires Increasing(result) && KeysOf(merged) == KeysOf(points) && (forall p :: p in result <==> p in merged)
    requires forall p :: p in merged ==> StandsForGroup(points, KeyOf(p), p)
    ensures IsDeduplication(points, result)
  {
    hide Increasing; hide Group; hide Merged;
    assert KeysOf(result) == KeysOf(merged);
    hide KeysOf;
  }

  // ----- Deduplication is well defined, idempotent, and loses no count ---------------------------

  lemma {:induction false} IncreasingIsUnique(a: seq<Point>, b: seq<Point>)
    requires Increasing(a) && Increasing(b) && (forall x :: x in a <==> x in b)
    ensures a == b
  {
    assert (a != [] ==> a[0] in a) && (b != [] ==> b[0] in b);
    if a != [] {
      SmallestFirst(a, b);
      assert a == [a[0]] + a[1..] && b == [b[0]] + b[1..];
      FirstNotInTail(a);
      FirstNotInTail(b);
      hide Increasing;
      forall x ensures x in a[1..] <==> x in b[1..] {
        assert x in a <==> x == a[0] || x in a[1..];
        assert x in b <==> x == b[0] || x in b[1..];
      }
      IncreasingIsUnique(a[1..], b[1..]);
    }
  }

  lemma {:induction false} FirstNotInTail(a: seq<Point>)
    requires Increasing(a) && a != []
    ensures a[0] !in a[1..] && Increasing(a[1..])
    ensures forall p :: p in a[1..] ==> KeyLess(KeyOf(a[0]), KeyOf(p)) && KeyOf(p) != KeyOf(a[0])
  {
    KeyTrichotomy(KeyOf(a[0]), KeyOf(a[0]));
    hide KeyLess;
    forall p | p in a[1..] ensures KeyLess(KeyOf(a[0]), KeyOf(p)) {
      var i :| 0 <= i < |a[1..]| && a[1..][i] == p;
      assert KeyLess(KeyOf(a[0]), KeyOf(a[i + 1]));
    }
  }

  lemma {:induction false} SmallestFirst(a: seq<Point>, b: seq<Point>)
    requires Increasing(a) && Increasing(b) && a != [] && b != [] && (forall x :: x in a <==> x in b)
    ensures a[0] == b[0]
  {
    hide KeyLess;
    assert a[0] in b && b[0] in a;
    var i :| 0 <= i < |b| && b[i] == a[0];
    var j :| 0 <= j < |a| && a[j] == b[0];
    KeyTrichotomy(KeyOf(a[0]), KeyOf(b[0]));
  }

  /** The meaning determines the result: any two deduplications of the same points are the same list. */
  lemma {:induction false} DeduplicationIsUnique(points: seq<Point>, a: seq<Point>, b: seq<Point>)
    requires IsDeduplication(points, a) && IsDeduplication(points, b)
    ensures a == b
  {
    DeduplicationContains(points, a, b);
    DeduplicationContains(points, b, a);
    IncreasingIsUnique(a, b);
  }

  lemma {:induction false} DeduplicationContains(points: seq<Point>, a: seq<Point>, b: seq<Point>)
    requires IsDeduplication(points, a) && IsDeduplication(points, b)
    ensures forall x :: x in a ==> x in b
  {
    hide Increasing;
    hide Merged;
    hide Group;
    forall x | x in a ensures x in b {
      assert KeyOf(x) in KeysOf(b);
      var y :| y in b && KeyOf(y) == KeyOf(x);
    }
  }

  /** A point that merging leaves alone: its source is not the empty text. */
  predicate Settled(p: Point) { p.source != Some("") }

  lemma {:induction false} MergedAlone(p: Point)
    requires Settled(p)
    ensures Merged([p]) == p
  {
    assert [p][1..] == [];
    hide KeyOf;
    assert FirstSource([]) == None && AllUnreadable([]);
    assert FirstSource([p]) == p.source;
    assert AllUnreadable([p]) == p.unreadable;
    PresentAlone(p, Value);
    PresentAlone(p, Numerator);
    PresentAlone(p, Denominator);
    PresentAlone(p, Raw);
    hide Present;
    hide FirstSource;
    hide AllUnreadable;
    assert forall x: real :: Sum([x]) == x;
  }

  lemma {:induction false} PresentAlone(p: Point, f: Field)
    ensures Present([p], f) == if Get(p, f).Some? then [Get(p, f).value] else []
  {
    assert [p][1..] == [];
  }

  lemma {:induction false} FirstSourceSettled(group: seq<Point>)
    ensures FirstSource(group) != Some("")
  {
    if group != [] { FirstSourceSettled(group[1..]); }
  }

  lemma {:induction false} GroupOfIncreasing(s: seq<Point>, x: Point)
    requires Increasing(s) && x in s
    ensures Group(s, KeyOf(x)) == [x]
  {
    assert s == [s[0]] + s[1..];
    FirstNotInTail(s);
    hide KeyLess;
    hide Increasing;
    if x == s[0] {
      GroupMembers(s[1..], KeyOf(x));
    } else {
      GroupOfIncreasing(s[1..], x);
    }
  }

  /** A list with increasing keys and settled points is its own deduplication; so is every part of it
      that keeps the order, whatever day or group it is restricted to. */
  lemma {:induction false} SettledIsFixed(s: seq<Point>)
    requires Increasing(s) && forall p :: p in s ==> Settled(p)
    ensures IsDeduplication(s, s)
  {
    forall x | x in s ensures Group(s, KeyOf(x)) != [] && x == Merged(Group(s, KeyOf(x))) {
      GroupOfIncreasing(s, x);
      MergedAlone(x);
    }
  }

  /** Deduplicating twice is deduplicating once. */
  lemma {:induction false} DeduplicationIsIdempotent(points: seq<Point>, once: seq<Point>, twice: seq<Point>)
    requires IsDeduplication(points, once) && IsDeduplication(once, twice)
    ensures twice == once
  {
    forall p | p in once ensures Settled(p) {
      FirstSourceSettled(Group(points, KeyOf(p)));
    }
    hide Merged;
    hide Group;
    SettledIsFixed(once);
    DeduplicationIsUnique(once, once, twice);
  }

  /** The points of one (object, period), or of one day: a list restricted to the points it keeps. */
  function Restrict(s: seq<Point>, keep: Key -> bool): seq<Point> {
    if s == [] then [] else (if keep(KeyOf(s[0])) then [s[0]] else []) + Restrict(s[1..], keep)
  }

  lemma {:induction false} RestrictKeepsOrder(s: seq<Point>, keep: Key -> bool)
    requires Increasing(s)
    ensures Increasing(Restrict(s, keep))
    ensures forall p :: p in Restrict(s, keep) <==> p in s && keep(KeyOf(p))
  {
    if s != [] {
      FirstNotInTail(s);
      RestrictKeepsOrder(s[1..], keep);
      assert s == [s[0]] + s[1..];
      var rest := Restrict(s[1..], keep);
      hide KeyLess;
      if keep(KeyOf(s[0])) {
        if rest != [] { assert rest[0] in rest; }
        IncreasingCons(s[0], rest);
      }
    }
  }

  lemma {:induction false} GroupOfRestricted(points: seq<Point>, keep: Key -> bool, k: Key)
    ensures Group(Restrict(points, keep), k) == if keep(k) then Group(points, k) else []
  {
    if points != [] {
      GroupOfRestricted(points[1..], keep, k);
      if keep(KeyOf(points[0])) {
        assert ([points[0]] + Restrict(points[1..], keep))[1..] == Restrict(points[1..], keep);
      } else {
        assert [] + Restrict(points[1..], keep) == Restrict(points[1..], keep);
      }
    }
  }

  lemma {:induction false} RestrictMembers(s: seq<Point>, keep: Key -> bool)
    ensures forall p :: p in Restrict(s, keep) <==> p in s && keep(KeyOf(p))
  {
    if s != [] {
      RestrictMembers(s[1..], keep);
      assert s == [s[0]] + s[1..];
    }
  }

  /** Restricting to some keys and deduplicating commute. */
  lemma {:induction false} RestrictionCommutes(points: seq<Point>, result: seq<Point>, keep: Key -> bool)
    requires IsDeduplication(points, result)
    ensures IsDeduplication(Restrict(points, keep), Restrict(result, keep))
  {
    RestrictKeepsOrder(result, keep);
    RestrictMembers(points, keep);
    forall x | x in Restrict(result, keep) ensures Group(Restrict(points, keep), KeyOf(x)) == Group(points, KeyOf(x)) {
      GroupOfRestricted(points, keep, KeyOf(x));
    }
    hide Merged; hide Group; hide Increasing; hide Restrict;
    forall k ensures k in KeysOf(Restrict(result, keep)) <==> k in KeysOf(Restrict(points, keep)) {
      RestrictedKeys(points, Restrict(points, keep), keep, k);
      RestrictedKeys(result, Restrict(result, keep), keep, k);
    }
  }

  lemma {:induction false} RestrictedKeys(s: seq<Point>, part: seq<Point>, keep: Key -> bool, k: Key)
    requires forall p :: p in part <==> p in s && keep(KeyOf(p))
    ensures k in KeysOf(part) <==> k in KeysOf(s) && keep(k)
  {
    if k in KeysOf(s) && keep(k) {
      var p :| p in s && KeyOf(p) == k;
      assert p in part;
    }
  }

  // ----- What merging keeps ----------------------------------------------------------------------

  ghost function SumOf(points: seq<Point>, f: Field): real { Sum(Present(points, f)) }

  lemma {:induction false} SumOfCons(p: Point, s: seq<Point>, f: Field)
    ensures SumOf([p] + s, f) == SumOf(s, f) + if Get(p, f).Some? then Get(p, f).value else 0.0
  {
    assert ([p] + s)[1..] == s;
    SumAppend(if Get(p, f).Some? then [Get(p, f).value] else [], Present(s, f));
    assert Get(p, f).Some? ==> [Get(p, f).value][1..] == [];
  }

  lemma {:induction false} SumSplits(points: seq<Point>, k: Key, f: Field)
    ensures SumOf(points, f) == SumOf(Group(points, k), f) + SumOf(Restrict(points, (x: Key) => x != k), f)
  {
    if points != [] {
      SumSplits(points[1..], k, f);
      assert points == [points[0]] + points[1..];
      SumOfCons(points[0], points[1..], f);
      SumOfCons(points[0], Group(points[1..], k), f);
      SumOfCons(points[0], Restrict(points[1..], (x: Key) => x != k), f);
      hide SumOf;
      assert [] + Restrict(points[1..], (x: Key) => x != k) == Restrict(points[1..], (x: Key) => x != k);
    }
  }

  lemma {:induction false} RestrictAll(s: seq<Point>, keep: Key -> bool)
    requires forall p :: p in s ==> keep(KeyOf(p))
    ensures Restrict(s, keep) == s
  {
    if s != [] { RestrictAll(s[1..], keep); }
  }

  lemma {:induction false} HasMember(s: seq<Point>)
    ensures s == [] || exists p :: p in s && KeyOf(p) in KeysOf(s)
  {
    if s != [] { assert s[0] in s; }
  }

  lemma {:induction false} DeduplicationTail(points: seq<Point>, result: seq<Point>)
    requires IsDeduplication(points, result) && result != []
    ensures IsDeduplication(Restrict(points, (x: Key) => x != KeyOf(result[0])), result[1..])
    ensures Group(points, KeyOf(result[0])) != [] && result[0] == Merged(Group(points, KeyOf(result[0])))
  {
    var k := KeyOf(result[0]);
    var others := (x: Key) => x != k;
    FirstNotInTail(result);
    RestrictAll(result[1..], others);
    assert Restrict(result, others) == [] + Restrict(result[1..], others);
    RestrictionCommutes(points, result, others);
  }

  /** Deduplication conserves the totals of numerators and of denominators. */
  lemma {:induction false} DeduplicationConservesTotals(points: seq<Point>, result: seq<Point>, f: Field)
    requires IsDeduplication(points, result)
    requires f == Numerator || f == Denominator
    ensures SumOf(result, f) == SumOf(points, f)
    decreases |result|
  {
    if result == [] {
      HasMember(points);
    } else {
      DeduplicationTail(points, result);
      hide IsDeduplication;
      var k := KeyOf(result[0]);
      DeduplicationConservesTotals(Restrict(points, (x: Key) => x != k), result[1..], f);
      SumSplits(points, k, f);
      SumOfCons(result[0], result[1..], f);
      assert result == [result[0]] + result[1..];
    }
  }

  lemma {:induction false} PresentIn(group: seq<Point>, f: Field, x: real)
    ensures x in Present(group, f) <==> exists p :: p in group && Get(p, f) == Some(x)
  {
    if group != [] {
      PresentIn(group[1..], f, x);
      assert group == [group[0]] + group[1..];
      assert x in Present(group, f) <==> Get(group[0], f) == Some(x) || x in Present(group[1..], f);
    }
  }

  lemma {:induction false} PresentBounds(group: seq<Point>, low: real, high: real)
    requires forall p :: p in group && p.value.Some? ==> low <= p.value.value <= high
    ensures forall x :: x in Present(group, Value) ==> low <= x <= high
    ensures Present(group, Value) == [] <==> forall p :: p in group ==> p.value.None?
  {
    if group != [] {
      assert group == [group[0]] + group[1..] && group[0] in group;
      assert forall p :: p in group[1..] ==> p in group;
      PresentBounds(group[1..], low, high);
    }
  }

  lemma {:induction false} MeanOf(xs: seq<real>, low: real, high: real)
    requires xs != [] && forall x :: x in xs ==> low <= x <= high
    ensures Mean(xs).Some? && low <= Mean(xs).value <= high
  {
    SumBetween(xs, low, high);
    MeanBetween(Sum(xs), |xs|, low, high);
    hide Sum;
  }

  /** A merged value is missing exactly when every duplicate lacks one, and otherwise lies within the
      duplicates' values. */
  lemma {:induction false} MergedValueBetween(group: seq<Point>, low: real, high: real)
    requires group != []
    requires forall p :: p in group && p.value.Some? ==> low <= p.value.value <= high
    ensures Merged(group).value.None? <==> forall p :: p in group ==> p.value.None?
    ensures Merged(group).value.Some? ==> low <= Merged(group).value.value <= high
  {
    var xs := Present(group, Value);
    assert Merged(group).value == Mean(xs);
    PresentBounds(group, low, high);
    hide Merged; hide Present; hide Sum;
    if xs != [] { MeanOf(xs, low, high); }
  }

  // ----- Pairs -----------------------------------------------------------------------------------

  datatype Pair = Pair(numerator: Point, denominator: Point)

  ghost predicate HasValueAt(s: seq<Point>, k: Key) {
    exists p :: p in s && KeyOf(p) == k && p.value.Some?
  }

  /** Exactly the keys where both sides have a value, once each and in key order. */
  ghost predicate PairsUp(a: seq<Point>, b: seq<Point>, pairs: seq<Pair>) {
    && (forall i, j :: 0 <= i < j < |pairs| ==> KeyLess(KeyOf(pairs[i].numerator), KeyOf(pairs[j].numerator)))
    && (forall q :: q in pairs ==>
          q.numerator in a && q.denominator in b && KeyOf(q.numerator) == KeyOf(q.denominator)
          && q.numerator.value.Some? && q.denominator.value.Some?)
    && (forall x, y :: x in a && y in b && KeyOf(x) == KeyOf(y) && x.value.Some? && y.value.Some? ==>
      Pair(x, y) in pairs)
  }

  ghost predicate IsPairing(numerators: seq<Point>, denominators: seq<Point>, pairs: seq<Pair>) {
    exists a, b :: IsDeduplication(numerators, a) && IsDeduplication(denominators, b) && PairsUp(a, b, pairs)
  }

  ghost predicate IndexesValues(s: seq<Point>, byKey: map<Key, Point>) {
    && (forall k :: k in byKey ==> byKey[k] in s && KeyOf(byKey[k]) == k && byKey[k].value.Some?)
    && (forall p :: p in s && p.value.Some? ==> KeyOf(p) in byKey)
  }

  method IndexValues(s: seq<Point>) returns (byKey: map<Key, Point>)
    ensures IndexesValues(s, byKey)
  {
    byKey := map[];
    for i := 0 to |s|
      invariant IndexesValues(s[..i], byKey)
    {
      assert s[..i + 1] == s[..i] + [s[i]];
      if s[i].value.Some? { byKey := byKey[KeyOf(s[i]) := s[i]]; }
    }
    assert s[..|s|] == s;
  }

  lemma {:induction false} SameKeySamePoint(s: seq<Point>, x: Point, y: Point)
    requires Increasing(s) && x in s && y in s && KeyOf(x) == KeyOf(y)
    ensures x == y
  {
    var i :| 0 <= i < |s| && s[i] == x;
    var j :| 0 <= j < |s| && s[j] == y;
    KeyTrichotomy(KeyOf(x), KeyOf(y));
    hide KeyLess;
  }

  lemma {:induction false} PairStep(a: seq<Point>, i: nat, b: seq<Point>, y: Option<Point>, pairs: seq<Pair>)
    requires i < |a| && Increasing(a) && Increasing(b) && PairsUp(a[..i], b, pairs)
    requires y.Some? ==> y.value in b && KeyOf(y.value) == KeyOf(a[i]) && y.value.value.Some? && a[i].value.Some?
    requires y.None? ==> a[i].value.None? || !HasValueAt(b, KeyOf(a[i]))
    ensures PairsUp(a[..i + 1], b, if y.Some? then pairs + [Pair(a[i], y.value)] else pairs)
  {
    assert a[..i + 1] == a[..i] + [a[i]];
    hide KeyLess;
    var now := if y.Some? then pairs + [Pair(a[i], y.value)] else pairs;
    forall q | q in pairs ensures KeyLess(KeyOf(q.numerator), KeyOf(a[i])) {
      var j :| 0 <= j < |a[..i]| && a[..i][j] == q.numerator;
    }
    forall z | z in b && KeyOf(z) == KeyOf(a[i]) && a[i].value.Some? && z.value.Some? ensures Pair(a[i], z) in now {
      SameKeySamePoint(b, z, y.value);
    }
  }

  method JoinByKey(a: seq<Point>, b: seq<Point>, numeratorByKey: map<Key, Point>, denominatorByKey: map<Key, Point>)
    returns (pairs: seq<Pair>)
    requires Increasing(a) && Increasing(b) && IndexesValues(a, numeratorByKey) && IndexesValues(b, denominatorByKey)
    ensures PairsUp(a, b, pairs)
  {
    pairs := [];
    for i := 0 to |a|
      invariant PairsUp(a[..i], b, pairs)
    {
      var k := KeyOf(a[i]);
      var both := k in numeratorByKey && k in denominatorByKey;
      if both { SameKeySamePoint(a, a[i], numeratorByKey[k]); }
      PairStep(a, i, b, if both then Some(denominatorByKey[k]) else None, pairs);
      hide PairsUp;
      if both { pairs := pairs + [Pair(numeratorByKey[k], denominatorByKey[k])]; }
    }
    assert a[..|a|] == a;
  }

  /** _pair_derived_points; deduplication already left the numerators in key order. */
  method PairDerived(numerators: seq<Point>, denominators: seq<Point>) returns (pairs: seq<Pair>)
    ensures IsPairing(numerators, denominators, pairs)
  {
    var a := Deduplicate(numerators);
    var b := Deduplicate(denominators);
    var numeratorByKey := IndexValues(a);
    var denominatorByKey := IndexValues(b);
    hide Increasing;
    pairs := JoinByKey(a, b, numeratorByKey, denominatorByKey);
    hide IsDeduplication;
    hide PairsUp;
  }

  /** Pairing is one to one: a numerator point and a denominator point each belong to at most one pair. */
  lemma {:induction false} PairingIsOneToOne(a: seq<Point>, b: seq<Point>, pairs: seq<Pair>, i: nat, j: nat)
    requires PairsUp(a, b, pairs) && i < j < |pairs|
    ensures pairs[i].numerator != pairs[j].numerator && pairs[i].denominator != pairs[j].denominator
  {
    KeyTrichotomy(KeyOf(pairs[i].numerator), KeyOf(pairs[j].numerator));
    hide KeyLess;
    assert pairs[i] in pairs && pairs[j] in pairs;
  }

  ghost function Numerators(pairs: seq<Pair>): (s: seq<Point>)
    ensures |s| == |pairs| && forall i :: 0 <= i < |s| ==> s[i] == pairs[i].numerator
  {
    seq(|pairs|, i requires 0 <= i < |pairs| => pairs[i].numerator)
  }

  lemma {:induction false} PairsAreUnique(a: seq<Point>, b: seq<Point>, p: seq<Pair>, q: seq<Pair>)
    requires Increasing(b) && PairsUp(a, b, p) && PairsUp(a, b, q)
    ensures p == q
  {
    hide KeyLess;
    var x, y := Numerators(p), Numerators(q);
    forall z ensures z in x <==> z in y {
      if z in x {
        var i :| 0 <= i < |x| && x[i] == z;
        assert p[i] in q;
        var j :| 0 <= j < |q| && q[j] == p[i];
        assert y[j] == z;
      }
      if z in y {
        var i :| 0 <= i < |y| && y[i] == z;
        assert q[i] in p;
        var j :| 0 <= j < |p| && p[j] == q[i];
        assert x[j] == z;
      }
    }
    IncreasingIsUnique(x, y);
    forall i | 0 <= i < |p| ensures p[i] == q[i] {
      assert x[i] == y[i] && p[i] in p && q[i] in q;
      SameKeySamePoint(b, p[i].denominator, q[i].denominator);
    }
  }

  /** Pairing lists that were deduplicated before gives the same pairs, so deduplicating first is harmless;
      and there is only one pairing. */
  lemma {:induction false} PairingOfDeduplicated(numerators: seq<Point>, denominators: seq<Point>,
                                                 a: seq<Point>, b: seq<Point>, p: seq<Pair>, q: seq<Pair>)
    requires IsDeduplication(numerators, a) && IsDeduplication(denominators, b)
    requires IsPairing(numerators, denominators, p) && IsPairing(a, b, q)
    ensures p == q
  {
    var a1, b1 :| IsDeduplication(numerators, a1) && IsDeduplication(denominators, b1) && PairsUp(a1, b1, p);
    var a2, b2 :| IsDeduplication(a, a2) && IsDeduplication(b, b2) && PairsUp(a2, b2, q);
    DeduplicationIsUnique(numerators, a, a1);
    DeduplicationIsUnique(denominators, b, b1);
    DeduplicationIsIdempotent(numerators, a, a2);
    DeduplicationIsIdempotent(denominators, b, b2);
    assert Increasing(b);
    hide IsDeduplication;
    hide PairsUp;
    PairsAreUnique(a, b, p, q);
  }
}
