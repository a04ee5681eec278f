/** The effective KPI scope, computed three times: for the maintenance pages (app/services/kpi_measurement_scope.py,
    lines 108 to 163 and 1347 to 1382), for a task's frozen snapshot (app/services/kpi_scope.py, lines 180 to 369)
    and for the daily health snapshot (app/services/kpi_daily_health_snapshot.py, lines 185 to 299 and 509 to 535).
    A table lists the rows of one network type. */
module Scope {
  import opened Texts
  import opened Wrappers

  // The details of a row are its other columns, which only the configuration of an item looks at.

  datatype Unit = Unit(id: string, name: string, enabled: bool, details: string)

  datatype Binding = Binding(unit: string, metric: Option<string>, state: string, details: string)

  datatype Derived =
    Derived(unit: string, metric: string, numerator: string, denominator: string, state: string, details: string)

  datatype Resource = Resource(id: string, kind: string, details: string)

  datatype Config = Config(unit: string, metric: string, details: string)

  datatype Tables =
    Tables(units: seq<Unit>, bindings: seq<Binding>, derived: seq<Derived>, resources: seq<Resource>,
           configs: seq<Config>)

  datatype Kind = Base | DerivedKind

  datatype Item = Item(unit: string, metric: string, kind: Kind)

  /** The unique key of the units table. */
  ghost predicate UniqueUnits(t: Tables) {
    forall i, j :: 0 <= i < j < |t.units| ==> t.units[i].id != t.units[j].id
  }

  // ----- What the scope is -----------------------------------------------------------------------

  predicate IsMetric(t: Tables, id: string) { exists r :: r in t.resources && r.id == id && r.kind == "me" }

  predicate Enabled(t: Tables, unit: string) { exists u :: u in t.units && u.id == unit && u.enabled }

  /** A confirmed source column stands for the metric. */
  predicate Confirmed(t: Tables, unit: string, metric: string) {
    metric != "" && exists b :: b in t.bindings && b.unit == unit && b.metric == Some(metric) && b.state == "confirmed"
  }

  predicate Defined(t: Tables, unit: string, metric: string) {
    exists d :: d in t.derived && d.unit == unit && d.metric == metric && d.state == "defined"
  }

  /** The metrics of an enabled unit: confirmed ones as base, and defined ones as derived unless confirmed. */
  predicate Effective(t: Tables, item: Item) {
    && Enabled(t, item.unit) && IsMetric(t, item.metric)
    && match item.kind
       case Base => Confirmed(t, item.unit, item.metric)
       case DerivedKind =>
         item.metric != "" && Defined(t, item.unit, item.metric) && !Confirmed(t, item.unit, item.metric)
  }

  /** A derived definition without a metric whose empty identifier is a metric resource. */
  predicate Nameless(t: Tables, item: Item) {
    item.kind == DerivedKind && item.metric == "" && Enabled(t, item.unit) && IsMetric(t, "")
      && Defined(t, item.unit, "")
  }

  ghost predicate OnceEach(items: seq<Item>) {
    forall i, j :: 0 <= i < j < |items| ==> items[i].unit != items[j].unit || items[i].metric != items[j].metric
  }

  // ----- Shared reading of the tables ------------------------------------------------------------

  function Existing(t: Tables, ids: set<string>): set<string> {
    set id | id in ids && IsMetric(t, id)
  }

  /** The items of one unit in the order of two lists of metrics. */
  function ItemsOf(unit: string, base: seq<string>, derived: seq<string>): (items: seq<Item>)
    ensures |items| == |base| + |derived|
  {
    seq(|base|, i requires 0 <= i < |base| => Item(unit, base[i], Base))
    + seq(|derived|, i requires 0 <= i < |derived| => Item(unit, derived[i], DerivedKind))
  }

  // ----- The maintenance scope -------------------------------------------------------------------

  /** _confirmed_metric_ids. */
  method ConfirmedMetricIds(t: Tables, unit: string) returns (ids: seq<string>)
    ensures Distinct(ids) && forall m :: m in ids <==> Confirmed(t, unit, m) && IsMetric(t, m)
  {
    var found :=
      set b | b in t.bindings && b.unit == unit && b.state == "confirmed" && b.metric.Some? && b.metric.value != "" ::
        b.metric.value;
    var sorted := SortedTexts(found);
    RisingDistinct(sorted);
    ids := [];
    for i := 0 to |sorted|
      invariant Distinct(ids) && forall m :: m in ids <==> m in sorted[..i] && IsMetric(t, m)
    {
      assert sorted[..i + 1] == sorted[..i] + [sorted[i]];
      assert sorted[i] !in sorted[..i];
      if IsMetric(t, sorted[i]) { ids := ids + [sorted[i]]; }
    }
    assert sorted[..|sorted|] == sorted;
    assert forall m :: m in sorted <==> m in Elems(sorted);
  }

  /** _defined_derived_ids. */
  method DefinedDerivedIds(t: Tables, unit: string, confirmed: seq<string>) returns (ids: seq<string>)
    ensures Distinct(ids) && forall m ::
      m in ids <==> m != "" && Defined(t, unit, m) && IsMetric(t, m) && m !in confirmed
  {
    var found := set d | d in t.derived && d.unit == unit && d.state == "defined" && d.metric != "" :: d.metric;
    var left := Existing(t, found) - Elems(confirmed);
    ids := SortedTexts(left);
    RisingDistinct(ids);
    assert forall m :: m in ids <==> m in Elems(ids);
  }

  /** resolve_measurement_scope. */
  method ResolveMeasurementScope(t: Tables) returns (items: seq<Item>)
    requires UniqueUnits(t)
    ensures OnceEach(items)
    ensures forall item :: item in items <==> Effective(t, item)
  {
    items := [];
    for n := 0 to |t.units|
      invariant OnceEach(items)
      invariant forall item :: item in items <==> Effective(t, item) && EnabledBefore(t, item.unit, n)
    {
      var unit := t.units[n];
      if unit.enabled {
        var base := ConfirmedMetricIds(t, unit.id);
        var derived := DefinedDerivedIds(t, unit.id, base);
        UnitItems(t, unit.id, base, derived);
        items := items + ItemsOf(unit.id, base, derived);
      }
    }
  }

  ghost predicate EnabledBefore(t: Tables, unit: string, n: nat) {
    n <= |t.units| && exists i :: 0 <= i < n && t.units[i].id == unit && t.units[i].enabled
  }

  lemma {:induction false} UnitItems(t: Tables, unit: string, base: seq<string>, derived: seq<string>)
    requires Enabled(t, unit) && Distinct(base) && Distinct(derived)
    requires forall m :: m in base <==> Confirmed(t, unit, m) && IsMetric(t, m)
    requires forall m :: m in derived <==> m != "" && Defined(t, unit, m) && IsMetric(t, m) && m !in base
    ensures OnceEach(ItemsOf(unit, base, derived))
    ensures forall item :: item in ItemsOf(unit, base, derived) <==> item.unit == unit && Effective(t, item)
  {
    hide Confirmed; hide Defined; hide IsMetric; hide Enabled;
    var items := ItemsOf(unit, base, derived);
    forall item ensures item in items <==> item.unit == unit && Effective(t, item) {
      if item in items { var i :| 0 <= i < |items| && items[i] == item; }
      if item.unit == unit && Effective(t, item) {
        if item.kind == Base {
          var i :| 0 <= i < |base| && base[i] == item.metric;
          assert items[i] == item;
        } else {
          assert item.metric in derived;
          var i :| 0 <= i < |derived| && derived[i] == item.metric;
          assert items[|base| + i] == item;
        }
      }
    }
    forall i, j | 0 <= i < j < |items| ensures items[i].metric != items[j].metric {
      if i < |base| <= j { assert derived[j - |base|] in derived && base[i] in base; }
    }
  }

  // ----- The frozen snapshot ---------------------------------------------------------------------

  /** What the resolver and the health snapshot admit: they do not drop a definition without a metric. */
  predicate Admitted(t: Tables, item: Item) { Effective(t, item) || Nameless(t, item) }

  predicate IsSource(b: Binding, unit: string, metric: string) {
    b.unit == unit && b.state == "confirmed" && b.metric == Some(metric) && metric != ""
  }

  predicate HasSource(rows: seq<Binding>, unit: string, metric: string) {
    exists b :: b in rows && IsSource(b, unit, metric)
  }

  /** _unit_base_items: the confirmed bindings of a unit grouped by metric, then the groups that are metrics. */
  method UnitBaseMetrics(t: Tables, unit: string) returns (ids: set<string>, byMetric: map<string, seq<Binding>>)
    ensures forall m :: m in ids <==> Confirmed(t, unit, m) && IsMetric(t, m)
    ensures forall m :: m in ids ==> m in byMetric && forall b ::
      b in byMetric[m] <==> b in t.bindings && IsSource(b, unit, m)
  {
    byMetric := map[];
    for n := 0 to |t.bindings|
      invariant forall m :: m in byMetric <==> HasSource(t.bindings[..n], unit, m)
      invariant forall m :: m in byMetric ==> forall b ::
        b in byMetric[m] <==> b in t.bindings[..n] && IsSource(b, unit, m)
    {
      var b := t.bindings[n];
      assert t.bindings[..n + 1] == t.bindings[..n] + [b];
      forall m
        ensures HasSource(t.bindings[..n + 1], unit, m)
          <==> HasSource(t.bindings[..n], unit, m) || IsSource(b, unit, m) { }
      hide HasSource;
      if b.unit == unit && b.state == "confirmed" && b.metric.Some? && b.metric.value != "" {
        var m := b.metric.value;
        byMetric := byMetric[m := (if m in byMetric then byMetric[m] else []) + [b]];
      }
    }
    assert t.bindings[..|t.bindings|] == t.bindings;
    ids := Existing(t, byMetric.Keys);
    assert forall m :: HasSource(t.bindings, unit, m) <==> Confirmed(t, unit, m);
  }

  /** _unit_derived_items. */
  method UnitDerivedMetrics(t: Tables, unit: string) returns (ids: seq<string>)
    ensures forall m :: m in ids <==> Defined(t, unit, m) && IsMetric(t, m)
  {
    ids := [];
    for n := 0 to |t.derived|
      invariant forall m :: m in ids <==> IsMetric(t, m) && exists d ::
        d in t.derived[..n] && d.unit == unit && d.metric == m && d.state == "defined"
    {
      var d := t.derived[n];
      assert t.derived[..n + 1] == t.derived[..n] + [d];
      hide IsMetric;
      if d.unit == unit && d.state == "defined" && IsMetric(t, d.metric) { ids := ids + [d.metric]; }
    }
    assert t.derived[..|t.derived|] == t.derived;
  }

  /** The dictionary of items by identity. */
  ghost predicate Holds(t: Tables, byIdentity: map<(string, string), Kind>, n: nat) {
    forall item :: Has(byIdentity, item) <==> Admitted(t, item) && EnabledBefore(t, item.unit, n)
  }

  predicate Has(byIdentity: map<(string, string), Kind>, item: Item) {
    (item.unit, item.metric) in byIdentity && byIdentity[(item.unit, item.metric)] == item.kind
  }

  /** The dictionary with the items of one more unit: base items win. */
  method AddUnit(byIdentity: map<(string, string), Kind>, unit: string, base: set<string>, derived: seq<string>)
    returns (now: map<(string, string), Kind>)
    ensures forall m :: m in base ==> Has(now, Item(unit, m, Base))
    ensures forall m :: m !in base && (unit, m) !in byIdentity && m in derived ==> Has(now, Item(unit, m, DerivedKind))
    ensures forall u, m :: (u, m) in now <==> (u, m) in byIdentity || (u == unit && (m in base || m in derived))
    ensures forall u, m :: (u, m) in byIdentity && (u != unit || m !in base) ==> now[(u, m)] == byIdentity[(u, m)]
  {
    now := byIdentity + map m | m in base :: (unit, m) := Base;
    ghost var based := now;
    for i := 0 to |derived|
      invariant forall u, m :: (u, m) in based ==> (u, m) in now && now[(u, m)] == based[(u, m)]
      invariant forall u, m :: (u, m) in now <==> (u, m) in based || (u == unit && m in derived[..i])
      invariant forall m :: m in derived[..i] && (unit, m) !in based ==> Has(now, Item(unit, m, DerivedKind))
    {
      assert derived[..i + 1] == derived[..i] + [derived[i]];
      if (unit, derived[i]) !in now { now := now[(unit, derived[i]) := DerivedKind]; }
    }
    assert derived[..|derived|] == derived;
  }

  ghost predicate InOrder(items: seq<Item>) {
    Ordered(items, Identity)
  }

  function MetricsOf(byIdentity: map<(string, string), Kind>, unit: string): set<string> {
    set k | k in byIdentity && k.0 == unit :: k.1
  }

  /** sorted() of the items by their identity. */
  method SortedItems(byIdentity: map<(string, string), Kind>) returns (items: seq<Item>)
    ensures InOrder(items) && OnceEach(items)
    ensures forall item :: item in items <==> Has(byIdentity, item)
  {
    var units := SortedTexts(set k | k in byIdentity :: k.0);
    items := [];
    for n := 0 to |units|
      invariant InOrder(items)
      invariant forall item :: item in items <==> Has(byIdentity, item) && item.unit in units[..n]
    {
      assert units[..n + 1] == units[..n] + [units[n]];
      var metrics := SortedTexts(MetricsOf(byIdentity, units[n]));
      assert forall m :: m in metrics <==> m in Elems(metrics);
      var added := UnitList(byIdentity, units[n], metrics);
      items := items + added;
    }
    assert forall item :: Has(byIdentity, item) ==> item.unit in Elems(units);
    OrderedOnce(items);
    assert units[..|units|] == units;
  }

  lemma {:induction false} OrderedOnce(items: seq<Item>)
    requires InOrder(items)
    ensures OnceEach(items)
  {
    forall i, j | 0 <= i < j < |items| ensures items[i].unit != items[j].unit || items[i].metric != items[j].metric {
      TextIrreflexive(items[i].unit);
      TextIrreflexive(items[i].metric);
    }
  }

  method UnitList(byIdentity: map<(string, string), Kind>, unit: string, metrics: seq<string>)
    returns (items: seq<Item>)
    requires Rising(metrics) && forall m :: m in metrics <==> (unit, m) in byIdentity
    ensures InOrder(items) && (forall item :: item in items <==> item.unit == unit && Has(byIdentity, item))
  {
    items := [];
    for i := 0 to |metrics|
      invariant |items| == i
        && forall j :: 0 <= j < i ==>
          items[j].unit == unit && items[j].metric == metrics[j] && Has(byIdentity, items[j])
    {
      assert metrics[i] in metrics;
      items := items + [Item(unit, metrics[i], byIdentity[(unit, metrics[i])])];
    }
    forall item: Item | item.unit == unit && Has(byIdentity, item) ensures item in items {
      assert item.metric in metrics;
      var i :| 0 <= i < |metrics| && metrics[i] == item.metric;
      assert items[i] == item;
    }
    hide TextLess;
  }

  lemma {:induction false} AddedUnit(t: Tables, n: nat, byIdentity: map<(string, string), Kind>, base: set<string>,
                                     derived: seq<string>,
                                     now: map<(string, string), Kind>)
    requires UniqueUnits(t) && n < |t.units| && t.units[n].enabled && Holds(t, byIdentity, n)
    requires forall m :: m in base <==> Confirmed(t, t.units[n].id, m) && IsMetric(t, m)
    requires forall m :: m in derived <==> Defined(t, t.units[n].id, m) && IsMetric(t, m)
    requires forall m :: m in base ==> Has(now, Item(t.units[n].id, m, Base))
    requires forall m :: m !in base && (t.units[n].id, m) !in byIdentity && m in derived ==>
      Has(now, Item(t.units[n].id, m, DerivedKind))
    requires forall u, m ::
      (u, m) in now <==> (u, m) in byIdentity || (u == t.units[n].id && (m in base || m in derived))
    requires forall u, m :: (u, m) in byIdentity && (u != t.units[n].id || m !in base) ==>
      now[(u, m)] == byIdentity[(u, m)]
    ensures Holds(t, now, n + 1)
  {
    var unit := t.units[n].id;
    assert Enabled(t, unit) by { assert t.units[n] in t.units; }
    assert forall m :: (unit, m) in byIdentity ==> Has(byIdentity, Item(unit, m, byIdentity[(unit, m)]));
    assert !EnabledBefore(t, unit, n);
    assert forall m :: (unit, m) !in byIdentity;
    assert !Confirmed(t, unit, "");
    hide Confirmed; hide Defined; hide IsMetric; hide Enabled;
    forall item ensures Has(now, item) <==> Admitted(t, item) && EnabledBefore(t, item.unit, n + 1) {
      if item.unit == unit {
        assert EnabledBefore(t, unit, n + 1);
      } else {
        assert EnabledBefore(t, item.unit, n + 1) <==> EnabledBefore(t, item.unit, n);
        assert Has(now, item) <==> Has(byIdentity, item);
      }
    }
  }

  /** KpiScopeResolver.resolve: the items of a frozen snapshot. */
  method ResolveTaskScope(t: Tables) returns (items: seq<Item>)
    requires UniqueUnits(t)
    ensures InOrder(items) && OnceEach(items)
    ensures forall item :: item in items <==> Admitted(t, item)
  {
    var byIdentity: map<(string, string), Kind> := map[];
    for n := 0 to |t.units|
      invariant Holds(t, byIdentity, n)
    {
      var unit := t.units[n];
      if unit.enabled {
        var base, sources := UnitBaseMetrics(t, unit.id);
        var derived := UnitDerivedMetrics(t, unit.id);
        hide Confirmed; hide Defined; hide IsMetric; hide Admitted;
        var now := AddUnit(byIdentity, unit.id, base, derived);
        AddedUnit(t, n, byIdentity, base, derived, now);
        hide Holds;
        byIdentity := now;
      }
    }
    hide InOrder;
    items := SortedItems(byIdentity);
    forall item | Admitted(t, item) ensures EnabledBefore(t, item.unit, |t.units|) {
      assert Enabled(t, item.unit);
    }
  }

  // ----- The fingerprint of the frozen snapshot --------------------------------------------------

  ghost predicate Ordered<T>(s: seq<T>, key: T -> (string, string)) {
    forall i, j :: 0 <= i < j < |s| ==> PairLess(key(s[i]), key(s[j]))
  }

  predicate PairLess(a: (string, string), b: (string, string)) {
    TextLess(a.0, b.0) || (a.0 == b.0 && TextLess(a.1, b.1))
  }

  function Identity(item: Item): (string, string) { (item.unit, item.metric) }

  /** ORDER BY name_zh, measurement_unit_id. */
  function NameAndId(u: Unit): (string, string) { (u.name, u.id) }

  /** A list in strict order of its keys is determined by its elements. */
  lemma {:induction false} OrderIsUnique<T>(a: seq<T>, b: seq<T>, key: T -> (string, string))
    requires Ordered(a, key) && Ordered(b, key) && (forall x :: x in a <==> x in b)
    ensures a == b
  {
    assert (a != [] ==> a[0] in a) && (b != [] ==> b[0] in b);
    if a != [] {
      LeastFirst(a, b, key);
      assert a == [a[0]] + a[1..] && b == [b[0]] + b[1..];
      HeadApart(a, key);
      HeadApart(b, key);
      hide Ordered;
      forall x ensures x in a[1..] <==> x in b[1..] {
        assert x in a <==> x == a[0] || x in a[1..];
        assert x in b <==> x == b[0] || x in b[1..];
      }
      OrderIsUnique(a[1..], b[1..], key);
    }
  }

  lemma {:induction false} PairOrder(a: (string, string), b: (string, string))
    ensures !(PairLess(a, b) && PairLess(b, a)) && !PairLess(a, a)
  {
    TextTrichotomy(a.0, b.0);
    TextTrichotomy(a.1, b.1);
    TextIrreflexive(a.0);
    TextIrreflexive(a.1);
    hide TextLess;
  }

  lemma {:induction false} LeastFirst<T>(a: seq<T>, b: seq<T>, key: T -> (string, string))
    requires Ordered(a, key) && Ordered(b, key) && a != [] && b != [] && (forall x :: x in a <==> x in b)
    ensures a[0] == b[0]
  {
    hide PairLess;
    assert a[0] in b && b[0] in a;
    var i :| 0 <= i < |b| && b[i] == a[0];
    var j :| 0 <= j < |a| && a[j] == b[0];
    PairOrder(key(a[0]), key(b[0]));
  }

  lemma {:induction false} HeadApart<T>(a: seq<T>, key: T -> (string, string))
    requires Ordered(a, key) && a != []
    ensures a[0] !in a[1..] && Ordered(a[1..], key)
  {
    hide PairLess;
    forall x | x in a[1..] ensures x != a[0] {
      var i :| 0 <= i < |a[1..]| && a[1..][i] == x;
      PairOrder(key(a[0]), key(a[0]));
    }
  }

  /** What _config_snapshot and _derived_config_snapshot make of the rows of an item. The source columns, files,
      display units and revisions of its bindings enter as sorted sets, so only the set of bindings counts. */
  datatype Describe = Describe(
    base: (Unit, Resource, set<Binding>, Option<Config>) -> string,
    derived: (Unit, Resource, Derived, Option<Config>, Option<Resource>, Option<Resource>) -> string)

  function Find<T>(rows: seq<T>, p: T -> bool): (row: Option<T>)
    ensures row.Some? ==> row.value in rows && p(row.value)
    ensures row.None? ==> forall x :: x in rows ==> !p(x)
  {
    if rows == [] then None
    else
      assert rows == [rows[0]] + rows[1..];
      if p(rows[0]) then Some(rows[0]) else Find(rows[1..], p)
  }

  function UnitRow(t: Tables, id: string): Option<Unit> { Find(t.units, (u: Unit) => u.id == id) }

  function MetricRow(t: Tables, id: string): Option<Resource> {
    Find(t.resources, (r: Resource) => r.id == id && r.kind == "me")
  }

  function ConfigRow(t: Tables, item: Item): Option<Config> {
    Find(t.configs, (c: Config) => c.unit == item.unit && c.metric == item.metric)
  }

  function DerivedRow(t: Tables, item: Item): Option<Derived> {
    Find(t.derived, (d: Derived) => d.unit == item.unit && d.metric == item.metric && d.state == "defined")
  }

  function Sources(t: Tables, item: Item): set<Binding> {
    set b | b in t.bindings && IsSource(b, item.unit, item.metric)
  }

  /** The config_snapshot of an item, if its rows are there. */
  function ConfigOf(t: Tables, describe: Describe, item: Item): Option<string> {
    var unit, resource, config, derived :=
      UnitRow(t, item.unit), MetricRow(t, item.metric), ConfigRow(t, item), DerivedRow(t, item);
    if unit.None? || resource.None? || (item.kind == DerivedKind && derived.None?) then None
    else match item.kind
      case Base => Some(describe.base(unit.value, resource.value, Sources(t, item), config))
      case DerivedKind =>
        Some(describe.derived(unit.value, resource.value, derived.value, config,
                              MetricRow(t, derived.value.numerator), MetricRow(t, derived.value.denominator)))
  }

  /** The arguments of the fingerprint, but for the network type of the tables. */
  datatype Frozen = Frozen(enabledUnits: seq<string>, items: seq<(Item, string)>)

  function Ids(units: seq<Unit>): seq<string> { seq(|units|, i requires 0 <= i < |units| => units[i].id) }

  function ItemsIn(frozen: Frozen): seq<Item> {
    seq(|frozen.items|, i requires 0 <= i < |frozen.items| => frozen.items[i].0)
  }

  /** _enabled_units. */
  ghost predicate IsEnabledUnits(t: Tables, units: seq<Unit>) {
    Ordered(units, NameAndId) && forall u :: u in units <==> u in t.units && u.enabled
  }

  /** The enabled units, with or without an item, in the order of their names, and the admitted items in the order of
      their identities, each with its configuration. */
  ghost predicate IsFrozen(t: Tables, describe: Describe, frozen: Frozen) {
    && (exists units :: IsEnabledUnits(t, units) && frozen.enabledUnits == Ids(units))
    && Ordered(ItemsIn(frozen), Identity)
    && (forall item :: item in ItemsIn(frozen) <==> Admitted(t, item))
    && (forall i :: 0 <= i < |frozen.items| ==> Some(frozen.items[i].1) == ConfigOf(t, describe, frozen.items[i].0))
  }

  /** The fingerprint's arguments; units is what the query for the enabled units returns. */
  method FreezeScope(t: Tables, describe: Describe, units: seq<Unit>) returns (frozen: Frozen)
    requires UniqueUnits(t) && IsEnabledUnits(t, units)
    ensures IsFrozen(t, describe, frozen)
  {
    var items := ResolveTaskScope(t);
    var entries: seq<(Item, string)> := [];
    for n := 0 to |items|
      invariant |entries| == n
      invariant forall i :: 0 <= i < n ==>
        entries[i].0 == items[i] && Some(entries[i].1) == ConfigOf(t, describe, items[i])
    {
      assert items[n] in items;
      ConfigExists(t, describe, items[n]);
      hide ConfigOf; hide Admitted;
      entries := entries + [(items[n], ConfigOf(t, describe, items[n]).value)];
    }
    hide ConfigOf; hide Admitted; hide IsEnabledUnits;
    frozen := Frozen(Ids(units), entries);
    assert ItemsIn(frozen) == items;
    assert Ordered(items, Identity);
  }

  lemma {:induction false} ConfigExists(t: Tables, describe: Describe, item: Item)
    requires Admitted(t, item)
    ensures ConfigOf(t, describe, item).Some?
  {
    hide Confirmed;
  }

  /** The unique keys of the tables: two rows with the same key are the same row. */
  ghost predicate UniqueRows(t: Tables) {
    && (forall x, y :: x in t.units && y in t.units && x.id == y.id ==> x == y)
    && (forall x, y :: x in t.resources && y in t.resources && x.id == y.id ==> x == y)
    && (forall x, y :: x in t.derived && y in t.derived && x.unit == y.unit && x.metric == y.metric ==> x == y)
    && (forall x, y :: x in t.configs && y in t.configs && x.unit == y.unit && x.metric == y.metric ==> x == y)
  }

  ghost predicate SameRows(t: Tables, t': Tables) {
    && (forall x :: x in t.units <==> x in t'.units) && (forall x :: x in t.bindings <==> x in t'.bindings)
    && (forall x :: x in t.derived <==> x in t'.derived) && (forall x :: x in t.resources <==> x in t'.resources)
    && (forall x :: x in t.configs <==> x in t'.configs)
  }

  lemma {:induction false} SameFind<T>(rows: seq<T>, rows': seq<T>, p: T -> bool)
    requires (forall x :: x in rows <==> x in rows')
      && (forall x, y :: x in rows && y in rows && p(x) && p(y) ==> x == y)
    ensures Find(rows, p) == Find(rows', p)
  {
  }

  lemma {:induction false} SameConfig(t: Tables, t': Tables, describe: Describe, item: Item)
    requires SameRows(t, t') && UniqueRows(t)
    ensures ConfigOf(t, describe, item) == ConfigOf(t', describe, item)
  {
    SameOwnRows(t, t', item);
    forall id ensures MetricRow(t, id) == MetricRow(t', id) {
      SameFind(t.resources, t'.resources, (r: Resource) => r.id == id && r.kind == "me");
    }
    hide Find; hide MetricRow; hide Sources; hide UnitRow; hide ConfigRow; hide DerivedRow; hide SameRows;
    hide UniqueRows;
  }

  lemma {:induction false} SameOwnRows(t: Tables, t': Tables, item: Item)
    requires SameRows(t, t') && UniqueRows(t)
    ensures UnitRow(t, item.unit) == UnitRow(t', item.unit) && ConfigRow(t, item) == ConfigRow(t', item)
    ensures DerivedRow(t, item) == DerivedRow(t', item) && Sources(t, item) == Sources(t', item)
  {
    SameFind(t.units, t'.units, (u: Unit) => u.id == item.unit);
    SameFind(t.configs, t'.configs, (c: Config) => c.unit == item.unit && c.metric == item.metric);
    SameFind(t.derived, t'.derived,
             (d: Derived) => d.unit == item.unit && d.metric == item.metric && d.state == "defined");
    hide Find;
  }

  lemma {:induction false} SameAdmitted(t: Tables, t': Tables, item: Item)
    requires SameRows(t, t')
    ensures Admitted(t, item) <==> Admitted(t', item)
  {
    assert forall id :: IsMetric(t, id) <==> IsMetric(t', id);
    assert forall u :: Enabled(t, u) <==> Enabled(t', u);
    assert forall u, m :: Confirmed(t, u, m) <==> Confirmed(t', u, m);
    assert forall u, m :: Defined(t, u, m) <==> Defined(t', u, m);
    hide IsMetric; hide Enabled; hide Confirmed; hide Defined;
  }

  /** The fingerprint does not depend on the order in which the tables return their rows. */
  lemma {:induction false} FingerprintIgnoresOrder(t: Tables, t': Tables, describe: Describe, f: Frozen, f': Frozen)
    requires SameRows(t, t') && UniqueRows(t) && IsFrozen(t, describe, f) && IsFrozen(t', describe, f')
    ensures f == f'
  {
    var units, units' :| IsEnabledUnits(t, units) && f.enabledUnits == Ids(units) && IsEnabledUnits(t', units')
      && f'.enabledUnits == Ids(units');
    OrderIsUnique(units, units', NameAndId);
    forall item: Item
      ensures Admitted(t, item) <==> Admitted(t', item)
      ensures ConfigOf(t, describe, item) == ConfigOf(t', describe, item)
    {
      SameAdmitted(t, t', item);
      SameConfig(t, t', describe, item);
    }
    hide ConfigOf; hide Admitted; hide SameRows; hide UniqueRows; hide Ordered; hide IsEnabledUnits;
    OrderIsUnique(ItemsIn(f), ItemsIn(f'), Identity);
    assert |ItemsIn(f)| == |f.items| && |ItemsIn(f')| == |f'.items|;
    forall i | 0 <= i < |f.items| ensures f.items[i] == f'.items[i] {
      assert ItemsIn(f)[i] == f.items[i].0 && ItemsIn(f')[i] == f'.items[i].0;
    }
  }

  // ----- The daily health snapshot ---------------------------------------------------------------

  predicate EndsWith(s: string, suffix: string) { |suffix| <= |s| && s[|s| - |suffix|..] == suffix }

  /** A numerator or denominator that only serves a success rate; upper is str.upper. */
  predicate IsInternalName(upper: string -> string, id: string) {
    id != "" && (EndsWith(upper(id), "_NUMERATOR") || EndsWith(upper(id), "_DENOMINATOR"))
  }

  /** The derived rows that the snapshot keeps. */
  predicate IsKept(t: Tables, d: Derived) {
    d in t.derived && d.state == "defined" && Enabled(t, d.unit) && IsMetric(t, d.metric)
      && !Confirmed(t, d.unit, d.metric)
  }

  predicate IsInternal(t: Tables, upper: string -> string, id: string) {
    IsInternalName(upper, id) && exists d ::
      d in t.derived && IsKept(t, d) && (d.numerator == id || d.denominator == id)
  }

  /** _load_scope: the confirmed bindings and the derived rows of the enabled units. */
  method LoadScope(t: Tables) returns (confirmed: seq<Binding>, derived: seq<Derived>)
    ensures forall b :: b in confirmed <==>
      b in t.bindings && b.state == "confirmed" && Enabled(t, b.unit) && b.metric.Some? && b.metric.value != ""
        && IsMetric(t, b.metric.value)
    ensures forall d :: d in derived <==> IsKept(t, d)
  {
    confirmed := [];
    for n := 0 to |t.bindings|
      invariant forall b :: b in confirmed <==>
        b in t.bindings[..n] && b.state == "confirmed" && Enabled(t, b.unit) && b.metric.Some? && b.metric.value != ""
          && IsMetric(t, b.metric.value)
    {
      var b := t.bindings[n];
      assert t.bindings[..n + 1] == t.bindings[..n] + [b];
      hide Enabled; hide IsMetric;
      if b.state == "confirmed" && Enabled(t, b.unit) && b.metric.Some? && b.metric.value != ""
        && IsMetric(t, b.metric.value) {
        confirmed := confirmed + [b];
      }
    }
    assert t.bindings[..|t.bindings|] == t.bindings;
    ghost var all := confirmed;
    derived := [];
    for n := 0 to |t.derived|
      invariant confirmed == all
      invariant forall d :: d in derived <==> d in t.derived[..n] && IsKept(t, d)
    {
      var d := t.derived[n];
      assert t.derived[..n + 1] == t.derived[..n] + [d] && d in t.derived;
      assert Enabled(t, d.unit) && IsMetric(t, d.metric) ==>
        (Confirmed(t, d.unit, d.metric) <==> exists b :: b in confirmed && IsSource(b, d.unit, d.metric));
      hide Enabled; hide IsMetric; hide Confirmed;
      if d.state == "defined" && Enabled(t, d.unit) && IsMetric(t, d.metric)
        && !(exists b :: b in confirmed && IsSource(b, d.unit, d.metric)) {
        derived := derived + [d];
      }
    }
    assert t.derived[..|t.derived|] == t.derived;
  }

  /** _internal_rate_dependency_ids. */
  method InternalDependencies(upper: string -> string, derived: seq<Derived>) returns (ids: set<string>)
    ensures forall id :: id in ids <==> IsInternalName(upper, id) && exists d ::
      d in derived && (d.numerator == id || d.denominator == id)
  {
    ids := {};
    for n := 0 to |derived|
      invariant forall id :: id in ids <==> IsInternalName(upper, id) && exists d ::
        d in derived[..n] && (d.numerator == id || d.denominator == id)
    {
      var d := derived[n];
      ghost var was := ids;
      assert derived[..n + 1] == derived[..n] + [d];
      hide IsInternalName;
      if IsInternalName(upper, d.numerator) { ids := ids + {d.numerator}; }
      if IsInternalName(upper, d.denominator) { ids := ids + {d.denominator}; }
    }
    assert derived[..|derived|] == derived;
  }

  /** The items of a unit in the metric loop, in the order of their identifiers. */
  method HealthUnit(unit: string, bound: set<string>, derived: set<string>) returns (items: seq<Item>)
    ensures forall item :: item in items <==>
      item.unit == unit && (item.metric in bound || item.metric in derived)
        && item.kind == if item.metric in derived then DerivedKind else Base
    ensures OnceEach(items)
  {
    var metrics := SortedTexts(bound + derived);
    RisingDistinct(metrics);
    assert forall m :: m in metrics <==> m in Elems(metrics);
    items := [];
    for i := 0 to |metrics|
      invariant |items| == i
      invariant forall j :: 0 <= j < i ==>
        items[j] == Item(unit, metrics[j], if metrics[j] in derived then DerivedKind else Base)
    {
      items := items + [Item(unit, metrics[i], if metrics[i] in derived then DerivedKind else Base)];
    }
    forall item: Item | item.unit == unit && item.metric in metrics
      && item.kind == (if item.metric in derived then DerivedKind else Base)
      ensures item in items
    {
      var i :| 0 <= i < |metrics| && metrics[i] == item.metric;
      assert items[i] == item;
    }
  }

  /** What the health snapshot shows. */
  predicate Shown(t: Tables, upper: string -> string, item: Item) {
    Admitted(t, item) && !IsInternal(t, upper, item.metric)
  }

  /** The metric selection of build_daily_health_snapshot. */
  method SelectHealthMetrics(t: Tables, upper: string -> string) returns (items: seq<Item>)
    requires UniqueUnits(t)
    ensures OnceEach(items)
    ensures forall item :: item in items <==> Shown(t, upper, item)
  {
    var confirmed, kept := LoadScope(t);
    var internal := InternalDependencies(upper, kept);
    assert forall id :: id in internal <==> IsInternal(t, upper, id);
    items := [];
    for n := 0 to |t.units|
      invariant OnceEach(items)
      invariant forall item :: item in items <==> Shown(t, upper, item) && EnabledBefore(t, item.unit, n)
    {
      var unit := t.units[n];
      if unit.enabled {
        assert Enabled(t, unit.id) by { assert unit in t.units; }
        var bound := BoundMetrics(t, unit.id, confirmed, internal);
        var derived := KeptMetrics(t, unit.id, kept, internal);
        var added := HealthUnit(unit.id, bound, derived);
        items := items + added;
      } else {
        hide Shown;
      }
    }
    hide Confirmed; hide IsMetric; hide Defined; hide IsInternal;
  }

  method BoundMetrics(t: Tables, unit: string, confirmed: seq<Binding>, internal: set<string>)
    returns (ids: set<string>)
    requires Enabled(t, unit)
    requires forall b :: b in confirmed <==>
      b in t.bindings && b.state == "confirmed" && Enabled(t, b.unit) && b.metric.Some? && b.metric.value != ""
        && IsMetric(t, b.metric.value)
    ensures forall m :: m in ids <==> Confirmed(t, unit, m) && IsMetric(t, m) && m !in internal
  {
    ids := set b | b in confirmed && b.unit == unit && b.metric.Some? && b.metric.value !in internal :: b.metric.value;
    hide Enabled; hide IsMetric;
  }

  method KeptMetrics(t: Tables, unit: string, kept: seq<Derived>, internal: set<string>) returns (ids: set<string>)
    requires forall d :: d in kept <==> IsKept(t, d)
    ensures forall m :: m in ids <==> (exists d :: IsKept(t, d) && d.unit == unit && d.metric == m) && m !in internal
  {
    ids := set d | d in kept && d.unit == unit && d.metric !in internal :: d.metric;
    hide IsKept;
  }

  // ----- Agreement -------------------------------------------------------------------------------

  /** The maintenance scope and the frozen scope agree exactly when no enabled unit defines a derived metric
      without an identifier while the empty identifier is a metric resource; the health snapshot is the frozen
      scope without the internal metrics. */
  lemma {:induction false} ScopesAgree(t: Tables, upper: string -> string, maintenance: seq<Item>, task: seq<Item>,
                                       health: seq<Item>)
    requires forall item :: item in maintenance <==> Effective(t, item)
    requires forall item :: item in task <==> Admitted(t, item)
    requires forall item :: item in health <==> Shown(t, upper, item)
    ensures (forall item :: item in task <==> item in maintenance) <==> !exists unit ::
      Nameless(t, Item(unit, "", DerivedKind))
    ensures forall item :: item in health <==> item in task && !IsInternal(t, upper, item.metric)
  {
    hide IsInternal; hide Enabled; hide IsMetric; hide Defined; hide Confirmed;
    if exists unit :: Nameless(t, Item(unit, "", DerivedKind)) {
      var unit :| Nameless(t, Item(unit, "", DerivedKind));
      assert Item(unit, "", DerivedKind) in task && Item(unit, "", DerivedKind) !in maintenance;
    } else {
      forall item ensures item in task <==> item in maintenance {
        assert Nameless(t, item) ==> Nameless(t, Item(item.unit, "", DerivedKind));
      }
    }
  }

  /** No resource has an empty id: the import, the registration and the materialization of resources refuse one. */
  ghost predicate ResourcesNamed(t: Tables) { forall r :: r in t.resources ==> r.id != "" }

  /** On such tables the three computations always agree: the maintenance scope and the frozen scope have the same
      items, each identity once with base before derived, and the health snapshot drops the internal metrics. */
  lemma {:induction false} NamedScopesAgree(t: Tables, upper: string -> string, maintenance: seq<Item>, task: seq<Item>,
                                            health: seq<Item>)
    requires ResourcesNamed(t)
    requires forall item :: item in maintenance <==> Effective(t, item)
    requires forall item :: item in task <==> Admitted(t, item)
    requires forall item :: item in health <==> Shown(t, upper, item)
    ensures forall item :: item in task <==> item in maintenance
    ensures forall item :: item in health <==> item in maintenance && !IsInternal(t, upper, item.metric)
    ensures forall item :: item in task && item.kind == DerivedKind ==> Item(item.unit, item.metric, Base) !in task
  {
    ScopesAgree(t, upper, maintenance, task, health);
    hide IsInternal; hide Enabled; hide Defined; hide Confirmed;
  }
}
