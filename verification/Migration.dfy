/** The migration of v5 KPI configuration to v6 (app/services/kpi_v6_migration.py). A table is the sequence
    of its rows, so that "no row changed or deleted" reads as "the old table is a prefix". Times, display
    columns and the two rows of shared revision state are dropped. */
module Migration {
  import opened Wrappers

  datatype NetType = CSP | UMF

  /** v5:<table>:<id>; the table names have no colon, so distinct rows have distinct keys. */
  datatype SourceKey =
    | ResourceKey(resource: string)
    | BindingKey(binding: int)
    | DerivedKey(derived: int)
    | MaintenanceKey(maintenance: int)

  // ----- Tables ----------------------------------------------------------------------------------

  datatype Body =
    | ResourceBody(kind: string, source: string)
    | UnitBody(inspectionEnabled: bool)
    | BindingBody(metric: Option<string>, state: string)
    | DerivedBody(numerator: string, denominator: string, template: string)
    | MaintenanceBody(role: string, direction: Option<string>)

  /** A v6 row: its network type, the rest of its first unique key, its legacy key, and the other columns. */
  datatype Row = Row(netType: NetType, identity: seq<string>, legacy: Option<SourceKey>, body: Body)

  datatype Reason = OrphanReference | MissingProduct | AmbiguousProduct | MigrationError

  datatype PendingRow = PendingRow(key: SourceKey, candidates: set<NetType>, reason: Reason, attempts: nat)

  datatype AuditResult = AuditFailed | AuditRecovered | AuditPending | AuditSkipped

  datatype AuditRow = AuditRow(key: SourceKey, netType: Option<NetType>, unit: Option<string>, metric: Option<string>,
                               result: AuditResult)

  datatype TableName = Resources | Units | Bindings | DerivedRows | MaintenanceRows

  datatype Tables = Tables(resources: seq<Row>, units: seq<Row>, bindings: seq<Row>, derived: seq<Row>,
                           maintenance: seq<Row>,
                           pendings: seq<PendingRow>, audits: seq<AuditRow>)
  {
    function Get(name: TableName): seq<Row> {
      match name
      case Resources => resources
      case Units => units
      case Bindings => bindings
      case DerivedRows => derived
      case MaintenanceRows => maintenance
    }

    function Put(name: TableName, rows: seq<Row>): Tables {
      match name
      case Resources => this.(resources := rows)
      case Units => this.(units := rows)
      case Bindings => this.(bindings := rows)
      case DerivedRows => this.(derived := rows)
      case MaintenanceRows => this.(maintenance := rows)
    }
  }

  /** Two rows of one table that cannot stand beside each other: equal in one of the two unique keys,
      where a missing legacy key equals nothing. */
  predicate Clash(a: Row, b: Row) {
    a.netType == b.netType && (a.identity == b.identity || (a.legacy.Some? && a.legacy == b.legacy))
  }

  predicate Taken(table: seq<Row>, row: Row) { exists r :: r in table && Clash(r, row) }

  ghost predicate UniqueKeys(table: seq<Row>) {
    forall i, j :: 0 <= i < j < |table| ==> !Clash(table[i], table[j])
  }

  datatype Write = Insert(table: TableName, row: Row) | Pend(pending: PendingRow) | Audit(audit: AuditRow)

  /** INSERT ... ON CONFLICT DO NOTHING. */
  function InsertIgnore(table: seq<Row>, row: Row): seq<Row> {
    if Taken(table, row) then table else table + [row]
  }

  predicate IsPending(pendings: seq<PendingRow>, key: SourceKey) { exists p :: p in pendings && p.key == key }

  predicate IsAudited(audits: seq<AuditRow>, key: SourceKey) { exists a :: a in audits && a.key == key }

  function Apply(t: Tables, w: Write): Tables {
    match w
    case Insert(name, row) => t.Put(name, InsertIgnore(t.Get(name), row))
    case Pend(p) => if IsPending(t.pendings, p.key) then t else t.(pendings := t.pendings + [p])
    case Audit(a) => if IsAudited(t.audits, a.key) then t else t.(audits := t.audits + [a])
  }

  ghost function ApplyAll(t: Tables, ws: seq<Write>): Tables {
    if ws == [] then t else Apply(ApplyAll(t, ws[..|ws| - 1]), ws[|ws| - 1])
  }

  /** No row of s is changed or deleted in t. */
  ghost predicate Extends(s: Tables, t: Tables) {
    && s.resources <= t.resources && s.units <= t.units && s.bindings <= t.bindings
    && s.derived <= t.derived && s.maintenance <= t.maintenance
    && s.pendings <= t.pendings && s.audits <= t.audits
  }

  ghost predicate AllUnique(t: Tables) {
    && UniqueKeys(t.resources) && UniqueKeys(t.units) && UniqueKeys(t.bindings) && UniqueKeys(t.derived)
      && UniqueKeys(t.maintenance)
    && (forall i, j :: 0 <= i < j < |t.pendings| ==> t.pendings[i].key != t.pendings[j].key)
    && (forall i, j :: 0 <= i < j < |t.audits| ==> t.audits[i].key != t.audits[j].key)
  }

  lemma {:induction false} ApplyExtends(t: Tables, w: Write)
    ensures Extends(t, Apply(t, w))
    ensures AllUnique(t) ==> AllUnique(Apply(t, w))
    ensures Apply(Apply(t, w), w) == Apply(t, w)
  {
    ApplyTwice(t, w);
    match w {
      case Insert(name, row) =>
        InsertOnce(t.Get(name), row);
        hide InsertIgnore; hide UniqueKeys; hide Taken;
      case Pend(p) =>
        hide UniqueKeys; hide Tables.Get; hide Tables.Put;
      case Audit(a) =>
        hide UniqueKeys; hide Tables.Get; hide Tables.Put;
    }
  }

  lemma {:induction false} ApplyTwice(t: Tables, w: Write)
    ensures Apply(Apply(t, w), w) == Apply(t, w)
  {
    match w {
      case Insert(name, row) =>
        InsertOnce(t.Get(name), row);
        hide InsertIgnore;
      case Pend(p) => assert p in t.pendings + [p];
      case Audit(a) => assert a in t.audits + [a];
    }
  }

  lemma {:induction false} InsertOnce(table: seq<Row>, row: Row)
    ensures table <= InsertIgnore(table, row)
    ensures UniqueKeys(table) ==> UniqueKeys(InsertIgnore(table, row))
    ensures InsertIgnore(InsertIgnore(table, row), row) == InsertIgnore(table, row)
    ensures Taken(InsertIgnore(table, row), row)
  {
    if !Taken(table, row) {
      assert row in table + [row] && Clash(row, row);
      forall i | 0 <= i < |table| ensures !Clash(table[i], row) { assert table[i] in table; }
    }
  }

  /** A write that changes nothing now changes nothing in any later state. */
  lemma {:induction false} StaysAbsorbed(s: Tables, t: Tables, w: Write)
    requires Extends(s, t) && Apply(s, w) == s
    ensures Apply(t, w) == t
  {
    match w {
      case Insert(name, row) =>
        hide Taken;
        assert t.Put(name, t.Get(name)) == t;
        assert s.Put(name, s.Get(name) + [row]).Get(name) == s.Get(name) + [row];
      case Pend(p) =>
        assert forall q :: q in s.pendings ==> q in t.pendings;
        assert |s.pendings + [p]| == |s.pendings| + 1;
      case Audit(a) =>
        assert forall q :: q in s.audits ==> q in t.audits;
        assert |s.audits + [a]| == |s.audits| + 1;
    }
  }

  lemma {:induction false} ExtendsTransitive(a: Tables, b: Tables, c: Tables)
    requires Extends(a, b) && Extends(b, c)
    ensures Extends(a, c)
  {
  }

  /** Writing keeps every row and both unique keys of every table; writing the same again changes nothing. */
  lemma {:induction false} WritesAreIdempotent(t: Tables, ws: seq<Write>)
    ensures Extends(t, ApplyAll(t, ws))
    ensures AllUnique(t) ==> AllUnique(ApplyAll(t, ws))
    ensures forall w :: w in ws ==> Apply(ApplyAll(t, ws), w) == ApplyAll(t, ws)
  {
    if ws != [] {
      var rest, last := ws[..|ws| - 1], ws[|ws| - 1];
      WritesAreIdempotent(t, rest);
      var mid := ApplyAll(t, rest);
      ApplyExtends(mid, last);
      var end := Apply(mid, last);
      ExtendsTransitive(t, mid, end);
      assert ws == rest + [last];
      hide Extends; hide AllUnique;
      forall w | w in ws ensures Apply(end, w) == end {
        if w in rest { StaysAbsorbed(mid, end, w); }
      }
    }
  }

  lemma {:induction false} AbsorbedTogether(t: Tables, ws: seq<Write>)
    requires forall w :: w in ws ==> Apply(t, w) == t
    ensures ApplyAll(t, ws) == t
  {
    if ws != [] {
      assert forall w :: w in ws[..|ws| - 1] ==> w in ws;
      AbsorbedTogether(t, ws[..|ws| - 1]);
    }
  }

  lemma {:induction false} ApplyAllConcat(t: Tables, a: seq<Write>, b: seq<Write>)
    ensures ApplyAll(t, a + b) == ApplyAll(ApplyAll(t, a), b)
  {
    if b == [] {
      assert a + b == a;
    } else {
      hide Apply;
      var all, front := a + b, b[..|b| - 1];
      ApplyAllConcat(t, a, front);
      assert ApplyAll(t, all) == Apply(ApplyAll(t, all[..|all| - 1]), all[|all| - 1]);
      assert ApplyAll(ApplyAll(t, a), b) == Apply(ApplyAll(ApplyAll(t, a), front), b[|b| - 1]);
      hide ApplyAll;
      assert all[..|all| - 1] == a + front;
    }
  }

  // ----- The v5 rows -----------------------------------------------------------------------------

  datatype Resource = Resource(id: string, kind: string, enabled: bool, source: string, originTask: Option<string>,
                               direction: Option<string>)

  datatype Binding = Binding(id: int, unit: string, metric: Option<string>, rawName: string, status: string,
                             enabled: bool, task: string)

  datatype Derived = Derived(id: int, unit: string, metric: string, numerator: string, denominator: string,
                             template: string, enabled: bool)

  datatype Maintenance = Maintenance(id: int, unit: string, metric: string, role: string)

  /** The v5 tables; tasks gives the network type of the tasks whose product names a supported one. */
  datatype V5 = V5(tasks: map<string, NetType>, resources: seq<Resource>, bindings: seq<Binding>, derived: seq<Derived>,
                   maintenance: seq<Maintenance>)

  function TypeOfTask(v5: V5, task: string): set<NetType> {
    if task in v5.tasks then {v5.tasks[task]} else {}
  }

  function OriginTask(r: Resource): string { if r.originTask.Some? then r.originTask.value else "" }

  predicate Set(metric: Option<string>) { metric.Some? && metric.value != "" }

  function FromResources(v5: V5, id: string, n: nat): set<NetType>
    requires n <= |v5.resources|
  {
    if n == 0 then {}
    else FromResources(v5, id, n - 1) + if v5.resources[n - 1].id == id then
      TypeOfTask(v5, OriginTask(v5.resources[n - 1])) else {}
  }

  function FromBindings(v5: V5, id: string, n: nat): set<NetType>
    requires n <= |v5.bindings|
  {
    if n == 0 then {}
    else
      var b := v5.bindings[n - 1];
      FromBindings(v5, id, n - 1) + if b.unit == id || (Set(b.metric) && b.metric.value == id) then
        TypeOfTask(v5, b.task) else {}
  }

  /** The network types that tasks give as evidence for a resource id. */
  function Evidence(v5: V5, id: string): set<NetType> {
    FromResources(v5, id, |v5.resources|) + FromBindings(v5, id, |v5.bindings|)
  }

  function UniqueType(candidates: set<NetType>): Option<NetType> {
    if candidates == {CSP} then Some(CSP) else if candidates == {UMF} then Some(UMF) else None
  }

  function PendingReason(candidates: set<NetType>, orphan: bool): Reason {
    if orphan then OrphanReference else if candidates == {} then MissingProduct else AmbiguousProduct
  }

  // ----- What becomes of each row ----------------------------------------------------------------

  /** Mapped and Broken rows tried an insert under their type; the insert of a Broken row failed. */
  datatype Outcome =
    | Unattributed(reason: Reason, candidates: set<NetType>)
    | Broken(netType: NetType)
    | Mapped(netType: NetType)
    | Skipped(netType: NetType)

  function ResourceOutcome(v5: V5, fails: SourceKey -> bool, r: Resource): Outcome {
    var candidates := Evidence(v5, r.id);
    match UniqueType(candidates)
    case None => Unattributed(PendingReason(candidates, false), candidates)
    case Some(t) => if fails(ResourceKey(r.id)) then Broken(t) else Mapped(t)
  }

  /** mapped_resource_ids. */
  predicate IsMapped(v5: V5, fails: SourceKey -> bool, id: string) {
    exists r :: r in v5.resources && r.id == id && ResourceOutcome(v5, fails, r).Mapped?
  }

  predicate IsResource(v5: V5, id: string) { exists r :: r in v5.resources && r.id == id }

  predicate BindingOrphan(v5: V5, fails: SourceKey -> bool, b: Binding) {
    || !IsResource(v5, b.unit)
    || (Set(b.metric) && !IsResource(v5, b.metric.value))
    || (Set(b.metric) && !(IsMapped(v5, fails, b.unit) && IsMapped(v5, fails, b.metric.value)))
  }

  function RequiredSets(v5: V5, b: Binding): seq<set<NetType>> {
    [TypeOfTask(v5, b.task), Evidence(v5, b.unit)] + if Set(b.metric) then [Evidence(v5, b.metric.value)] else []
  }

  function Union(sets: seq<set<NetType>>): set<NetType> {
    if sets == [] then {} else sets[0] + Union(sets[1..])
  }

  /** The intersection of the non-empty sets; empty when there is none. */
  function Common(sets: seq<set<NetType>>): set<NetType> {
    if sets == [] then {}
    else if sets[0] == {} then Common(sets[1..])
    else if Union(sets[1..]) == {} then sets[0]
    else sets[0] * Common(sets[1..])
  }

  predicate SingleOrEmpty(sets: seq<set<NetType>>) {
    sets == [] || ((sets[0] == {} || UniqueType(sets[0]).Some?) && SingleOrEmpty(sets[1..]))
  }

  function BindingType(v5: V5, fails: SourceKey -> bool, b: Binding): Option<NetType> {
    var sets := RequiredSets(v5, b);
    if SingleOrEmpty(sets) && !BindingOrphan(v5, fails, b) then UniqueType(Common(sets)) else None
  }

  function BindingOutcome(v5: V5, fails: SourceKey -> bool, b: Binding): Outcome {
    var candidates := Union(RequiredSets(v5, b));
    match BindingType(v5, fails, b)
    case None => Unattributed(PendingReason(candidates, BindingOrphan(v5, fails, b)), candidates)
    case Some(t) => if fails(BindingKey(b.id)) then Broken(t) else Mapped(t)
  }

  /** The type that unit and metric agree on. */
  function PairType(v5: V5, unit: string, metric: string): Option<NetType> {
    if Evidence(v5, unit) == Evidence(v5, metric) then UniqueType(Evidence(v5, unit)) else None
  }

  predicate DerivedOrphan(v5: V5, fails: SourceKey -> bool, d: Derived) {
    !(IsMapped(v5, fails, d.unit) && IsMapped(v5, fails, d.metric) && IsMapped(v5, fails, d.numerator)
      && IsMapped(v5, fails, d.denominator))
  }

  /** Whether a confirmed v6 binding with a metric already stands for this unit and metric. */
  predicate Confirmed(bindings: seq<Row>, t: NetType, unit: string, metric: string) {
    exists r :: r in bindings && IsConfirmed(r, t, unit, metric)
  }

  predicate IsConfirmed(r: Row, t: NetType, unit: string, metric: string) {
    r.netType == t && r.identity != [] && r.identity[0] == unit && r.body.BindingBody? && r.body.state == "confirmed"
      && r.body.metric == Some(metric)
  }

  function DerivedOutcome(v5: V5, fails: SourceKey -> bool, bindings: seq<Row>, d: Derived): Outcome {
    var orphan := DerivedOrphan(v5, fails, d);
    var candidates := Evidence(v5, d.unit) + Evidence(v5, d.metric);
    var netType := PairType(v5, d.unit, d.metric);
    if netType.None? || orphan then Unattributed(PendingReason(candidates, orphan), candidates)
    else if Confirmed(bindings, netType.value, d.unit, d.metric) then Skipped(netType.value)
    else if fails(DerivedKey(d.id)) then Broken(netType.value) else Mapped(netType.value)
  }

  function MaintenanceOutcome(v5: V5, fails: SourceKey -> bool, m: Maintenance): Outcome {
    var orphan := !(IsMapped(v5, fails, m.unit) && IsMapped(v5, fails, m.metric));
    var candidates := Evidence(v5, m.unit) + Evidence(v5, m.metric);
    var netType := PairType(v5, m.unit, m.metric);
    if netType.None? || orphan then Unattributed(PendingReason(candidates, orphan), candidates)
    else if fails(MaintenanceKey(m.id)) then Broken(netType.value) else Mapped(netType.value)
  }

  // ----- What each row writes --------------------------------------------------------------------

  function PendingOf(key: SourceKey, outcome: Outcome, candidates: set<NetType>): seq<Write> {
    match outcome
    case Unattributed(reason, c) => [Pend(PendingRow(key, c, reason, 0))]
    case Broken(_) => [Pend(PendingRow(key, candidates, MigrationError, 1))]
    case Mapped(_) => []
    case Skipped(_) => []
  }

  function ResourceRow(r: Resource, t: NetType): Row {
    Row(t, [r.id], Some(ResourceKey(r.id)),
        ResourceBody(r.kind, if r.source in {"preset", "discovered", "manual"} then r.source else "discovered"))
  }

  function UnitRow(r: Resource, t: NetType): Row { Row(t, [r.id], Some(ResourceKey(r.id)), UnitBody(r.enabled)) }

  function BindingRow(b: Binding, t: NetType): Row {
    Row(t, [b.unit, b.rawName], Some(BindingKey(b.id)),
        BindingBody(b.metric,
                    if b.status in {"candidate", "confirmed", "conflict", "ignored"} then b.status else "candidate"))
  }

  function DerivedRow(d: Derived, t: NetType): Row {
    Row(t, [d.unit, d.metric], Some(DerivedKey(d.id)), DerivedBody(d.numerator, d.denominator, d.template))
  }

  function DirectionOf(v5: V5, metric: string, n: nat): Option<string>
    requires n <= |v5.resources|
  {
    if n == 0 then None
    else if v5.resources[n - 1].id == metric && v5.resources[n - 1].kind == "me" then v5.resources[n - 1].direction
    else DirectionOf(v5, metric, n - 1)
  }

  function MaintenanceRow(v5: V5, m: Maintenance, t: NetType): Row {
    Row(t, [m.unit, m.metric], Some(MaintenanceKey(m.id)),
        MaintenanceBody(m.role, DirectionOf(v5, m.metric, |v5.resources|)))
  }

  /** The recovery result by type alone, as the audits are written. */
  function ResultOf(netType: Option<NetType>, broken: bool): AuditResult {
    if broken then AuditFailed else if netType.Some? then AuditRecovered else AuditPending
  }

  function ResourceWrites(v5: V5, fails: SourceKey -> bool, r: Resource): seq<Write> {
    var outcome, netType := ResourceOutcome(v5, fails, r), UniqueType(Evidence(v5, r.id));
    PendingOf(ResourceKey(r.id), outcome, Evidence(v5, r.id))
    + (if !outcome.Mapped? then []
       else [Insert(Resources, ResourceRow(r, outcome.netType))] + if r.kind == "mu" then
         [Insert(Units, UnitRow(r, outcome.netType))] else [])
    + (if r.kind == "me" && !r.enabled
       then [Audit(AuditRow(ResourceKey(r.id), netType, None, Some(r.id), ResultOf(netType, outcome.Broken?)))] else [])
  }

  function TypeOf(outcome: Outcome): Option<NetType> {
    if outcome.Unattributed? then None else Some(outcome.netType)
  }

  function BindingWrites(v5: V5, fails: SourceKey -> bool, b: Binding): seq<Write> {
    var outcome := BindingOutcome(v5, fails, b);
    PendingOf(BindingKey(b.id), outcome, Union(RequiredSets(v5, b)))
    + (if outcome.Mapped? then [Insert(Bindings, BindingRow(b, outcome.netType))] else [])
    + (if b.enabled then []
       else [Audit(AuditRow(BindingKey(b.id), TypeOf(outcome), Some(b.unit), b.metric,
                            ResultOf(TypeOf(outcome), outcome.Broken?)))])
  }

  function DerivedWrites(v5: V5, fails: SourceKey -> bool, bindings: seq<Row>, d: Derived): seq<Write> {
    var outcome, netType := DerivedOutcome(v5, fails, bindings, d), PairType(v5, d.unit, d.metric);
    var audit :=
      (result: AuditResult) => Audit(AuditRow(DerivedKey(d.id), netType, Some(d.unit), Some(d.metric), result));
    var conflict := netType.Some? && Confirmed(bindings, netType.value, d.unit, d.metric);
    PendingOf(DerivedKey(d.id), outcome, Evidence(v5, d.unit) + Evidence(v5, d.metric))
    + (if outcome.Mapped? then [Insert(DerivedRows, DerivedRow(d, outcome.netType))] else [])
    + (if outcome.Skipped? then [audit(AuditSkipped)] else [])
    + (if !d.enabled && !conflict then [audit(ResultOf(netType, outcome.Broken?))] else [])
  }

  function MaintenanceWrites(v5: V5, fails: SourceKey -> bool, m: Maintenance): seq<Write> {
    var outcome := MaintenanceOutcome(v5, fails, m);
    PendingOf(MaintenanceKey(m.id), outcome, Evidence(v5, m.unit) + Evidence(v5, m.metric))
    + (if outcome.Mapped? then [Insert(MaintenanceRows, MaintenanceRow(v5, m, outcome.netType))] else [])
  }

  // ----- The whole migration ---------------------------------------------------------------------

  ghost function ResourcePhase(v5: V5, fails: SourceKey -> bool, n: nat): seq<Write>
    requires n <= |v5.resources|
  {
    if n == 0 then [] else ResourcePhase(v5, fails, n - 1) + ResourceWrites(v5, fails, v5.resources[n - 1])
  }

  ghost function BindingPhase(v5: V5, fails: SourceKey -> bool, n: nat): seq<Write>
    requires n <= |v5.bindings|
  {
    if n == 0 then [] else BindingPhase(v5, fails, n - 1) + BindingWrites(v5, fails, v5.bindings[n - 1])
  }

  ghost function DerivedPhase(v5: V5, fails: SourceKey -> bool, bindings: seq<Row>, n: nat): seq<Write>
    requires n <= |v5.derived|
  {
    if n == 0 then []
    else DerivedPhase(v5, fails, bindings, n - 1) + DerivedWrites(v5, fails, bindings, v5.derived[n - 1])
  }

  ghost function MaintenancePhase(v5: V5, fails: SourceKey -> bool, n: nat): seq<Write>
    requires n <= |v5.maintenance|
  {
    if n == 0 then [] else MaintenancePhase(v5, fails, n - 1) + MaintenanceWrites(v5, fails, v5.maintenance[n - 1])
  }

  /** The tables after the binding phase; the derived rows look at its bindings. */
  ghost function Bound(v5: V5, fails: SourceKey -> bool, t: Tables): Tables {
    ApplyAll(ApplyAll(t, ResourcePhase(v5, fails, |v5.resources|)), BindingPhase(v5, fails, |v5.bindings|))
  }

  ghost function LaterWrites(v5: V5, fails: SourceKey -> bool, bindings: seq<Row>): seq<Write> {
    DerivedPhase(v5, fails, bindings, |v5.derived|) + MaintenancePhase(v5, fails, |v5.maintenance|)
  }

  ghost function Migrated(v5: V5, fails: SourceKey -> bool, t: Tables): Tables {
    ApplyAll(Bound(v5, fails, t), LaterWrites(v5, fails, Bound(v5, fails, t).bindings))
  }

  predicate WritesBindings(w: Write) { w.Insert? && w.table == Bindings }

  lemma {:induction false} BindingsUntouched(t: Tables, ws: seq<Write>)
    requires forall w :: w in ws ==> !WritesBindings(w)
    ensures ApplyAll(t, ws).bindings == t.bindings
  {
    if ws != [] {
      assert ws[|ws| - 1] in ws && forall w :: w in ws[..|ws| - 1] ==> w in ws;
      BindingsUntouched(t, ws[..|ws| - 1]);
      hide InsertIgnore;
    }
  }

  lemma {:induction false} LaterWritesKeepBindings(v5: V5, fails: SourceKey -> bool, t: Tables, bindings: seq<Row>)
    ensures ApplyAll(t, LaterWrites(v5, fails, bindings)).bindings == t.bindings
  {
    hide DerivedPhase; hide MaintenancePhase; hide ApplyAll;
    forall w | w in LaterWrites(v5, fails, bindings) ensures !WritesBindings(w) {
      if w.Insert? {
        if w in DerivedPhase(v5, fails, bindings, |v5.derived|) {
          DerivedPhaseInserts(v5, fails, bindings, |v5.derived|, w.table, w.row);
        } else {
          MaintenancePhaseInserts(v5, fails, |v5.maintenance|, w.table, w.row);
        }
      }
    }
    hide WritesBindings; hide LaterWrites;
    BindingsUntouched(t, LaterWrites(v5, fails, bindings));
  }

  /** The migration changes and deletes no row, and keeps both unique keys of every table. */
  lemma {:induction false} MigrationOnlyAdds(v5: V5, fails: SourceKey -> bool, t: Tables)
    ensures Extends(t, Bound(v5, fails, t)) && Extends(Bound(v5, fails, t), Migrated(v5, fails, t))
    ensures Extends(t, Migrated(v5, fails, t))
    ensures AllUnique(t) ==> AllUnique(Migrated(v5, fails, t))
  {
    var r, b := ResourcePhase(v5, fails, |v5.resources|), BindingPhase(v5, fails, |v5.bindings|);
    var bound := Bound(v5, fails, t);
    WritesAreIdempotent(t, r);
    WritesAreIdempotent(ApplyAll(t, r), b);
    WritesAreIdempotent(bound, LaterWrites(v5, fails, bound.bindings));
    ExtendsTransitive(t, ApplyAll(t, r), bound);
    hide Extends; hide ApplyAll; hide AllUnique;
    ExtendsTransitive(t, bound, Migrated(v5, fails, t));
  }

  lemma {:induction false} AbsorbedLater(s: Tables, t: Tables, ws: seq<Write>)
    requires Extends(s, t) && forall w :: w in ws ==> Apply(s, w) == s
    ensures ApplyAll(t, ws) == t
  {
    forall w | w in ws ensures Apply(t, w) == t { StaysAbsorbed(s, t, w); }
    hide Apply;
    AbsorbedTogether(t, ws);
  }

  /** A second run on unchanged v5 tables adds nothing, and its derived rows meet the same bindings. */
  lemma {:induction false} SecondRunAddsNothing(v5: V5, fails: SourceKey -> bool, t: Tables)
    ensures var once := Migrated(v5, fails, t);
      Migrated(v5, fails, once) == once && Bound(v5, fails, once).bindings == Bound(v5, fails, t).bindings
  {
    var r, b := ResourcePhase(v5, fails, |v5.resources|), BindingPhase(v5, fails, |v5.bindings|);
    var bound, once := Bound(v5, fails, t), Migrated(v5, fails, t);
    MigrationOnlyAdds(v5, fails, t);
    WritesAreIdempotent(t, r);
    WritesAreIdempotent(ApplyAll(t, r), b);
    WritesAreIdempotent(bound, LaterWrites(v5, fails, bound.bindings));
    LaterWritesKeepBindings(v5, fails, bound, bound.bindings);
    hide Extends; hide ApplyAll; hide Apply;
    ExtendsTransitive(ApplyAll(t, r), bound, once);
    AbsorbedLater(ApplyAll(t, r), once, r);
    AbsorbedLater(bound, once, b);
    AbsorbedTogether(once, LaterWrites(v5, fails, bound.bindings));
  }

  // ----- Counts ----------------------------------------------------------------------------------

  datatype Tally = Tally(pending: nat, mapped: nat, skipped: nat)

  function Tallied(tally: Tally, outcome: Outcome): Tally {
    match outcome
    case Unattributed(_, _) => tally.(pending := tally.pending + 1)
    case Broken(_) => tally.(pending := tally.pending + 1)
    case Mapped(_) => tally.(mapped := tally.mapped + 1)
    case Skipped(_) => tally.(skipped := tally.skipped + 1)
  }

  ghost function ResourceTally(v5: V5, fails: SourceKey -> bool, n: nat): Tally
    requires n <= |v5.resources|
  {
    if n == 0 then Tally(0, 0, 0)
    else Tallied(ResourceTally(v5, fails, n - 1), ResourceOutcome(v5, fails, v5.resources[n - 1]))
  }

  ghost function BindingTally(v5: V5, fails: SourceKey -> bool, n: nat): Tally
    requires n <= |v5.bindings|
  {
    if n == 0 then Tally(0, 0, 0)
    else Tallied(BindingTally(v5, fails, n - 1), BindingOutcome(v5, fails, v5.bindings[n - 1]))
  }

  ghost function DerivedTally(v5: V5, fails: SourceKey -> bool, bindings: seq<Row>, n: nat): Tally
    requires n <= |v5.derived|
  {
    if n == 0 then Tally(0, 0, 0)
    else Tallied(DerivedTally(v5, fails, bindings, n - 1), DerivedOutcome(v5, fails, bindings, v5.derived[n - 1]))
  }

  ghost function MaintenanceTally(v5: V5, fails: SourceKey -> bool, n: nat): Tally
    requires n <= |v5.maintenance|
  {
    if n == 0 then Tally(0, 0, 0)
    else Tallied(MaintenanceTally(v5, fails, n - 1), MaintenanceOutcome(v5, fails, v5.maintenance[n - 1]))
  }

  datatype Report = Report(pending: nat, resources: nat, bindings: nat, derived: nat, maintenance: nat)

  /** The counts a migration from t returns. */
  ghost function ReportOf(v5: V5, fails: SourceKey -> bool, t: Tables): Report {
    var r, b := ResourceTally(v5, fails, |v5.resources|), BindingTally(v5, fails, |v5.bindings|);
    var d, m :=
      DerivedTally(v5, fails, Bound(v5, fails, t).bindings, |v5.derived|),
        MaintenanceTally(v5, fails, |v5.maintenance|);
    Report(r.pending + b.pending + d.pending + m.pending, r.mapped, b.mapped, d.mapped, m.mapped)
  }

  function Rows(tally: Tally): nat { tally.pending + tally.mapped + tally.skipped }

  lemma {:induction false} TalliedOne(tally: Tally, outcome: Outcome)
    ensures Rows(Tallied(tally, outcome)) == Rows(tally) + 1
    ensures !outcome.Skipped? ==> Tallied(tally, outcome).skipped == tally.skipped
  {
  }

  lemma {:induction false} OnlyDerivedSkipped(v5: V5, fails: SourceKey -> bool, r: Resource, b: Binding, m: Maintenance)
    ensures !ResourceOutcome(v5, fails, r).Skipped? && !BindingOutcome(v5, fails, b).Skipped?
      && !MaintenanceOutcome(v5, fails, m).Skipped?
  {
    hide Evidence; hide UniqueType; hide PairType; hide RequiredSets; hide Union; hide BindingType; hide BindingOrphan;
    hide IsMapped;
  }

  lemma {:induction false} ResourceTallyCovers(v5: V5, fails: SourceKey -> bool, n: nat)
    requires n <= |v5.resources|
    ensures Rows(ResourceTally(v5, fails, n)) == n && ResourceTally(v5, fails, n).skipped == 0
  {
    hide ResourceOutcome; hide Tallied;
    if n > 0 {
      ResourceTallyCovers(v5, fails, n - 1);
      OnlyDerivedSkipped(v5, fails, v5.resources[n - 1], Binding(0, "", None, "", "", false, ""),
                         Maintenance(0, "", "", ""));
      TalliedOne(ResourceTally(v5, fails, n - 1), ResourceOutcome(v5, fails, v5.resources[n - 1]));
      hide Rows;
    }
  }

  lemma {:induction false} BindingTallyCovers(v5: V5, fails: SourceKey -> bool, n: nat)
    requires n <= |v5.bindings|
    ensures Rows(BindingTally(v5, fails, n)) == n && BindingTally(v5, fails, n).skipped == 0
  {
    hide BindingOutcome; hide Tallied;
    if n > 0 {
      BindingTallyCovers(v5, fails, n - 1);
      OnlyDerivedSkipped(v5, fails, Resource("", "", false, "", None, None), v5.bindings[n - 1],
                         Maintenance(0, "", "", ""));
      TalliedOne(BindingTally(v5, fails, n - 1), BindingOutcome(v5, fails, v5.bindings[n - 1]));
      hide Rows;
    }
  }

  lemma {:induction false} DerivedTallyCovers(v5: V5, fails: SourceKey -> bool, bindings: seq<Row>, n: nat)
    requires n <= |v5.derived|
    ensures Rows(DerivedTally(v5, fails, bindings, n)) == n
  {
    hide DerivedOutcome; hide Tallied;
    if n > 0 {
      DerivedTallyCovers(v5, fails, bindings, n - 1);
      TalliedOne(DerivedTally(v5, fails, bindings, n - 1), DerivedOutcome(v5, fails, bindings, v5.derived[n - 1]));
      hide Rows;
    }
  }

  lemma {:induction false} MaintenanceTallyCovers(v5: V5, fails: SourceKey -> bool, n: nat)
    requires n <= |v5.maintenance|
    ensures Rows(MaintenanceTally(v5, fails, n)) == n && MaintenanceTally(v5, fails, n).skipped == 0
  {
    hide MaintenanceOutcome; hide Tallied;
    if n > 0 {
      MaintenanceTallyCovers(v5, fails, n - 1);
      OnlyDerivedSkipped(v5, fails, Resource("", "", false, "", None, None), Binding(0, "", None, "", "", false, ""),
                         v5.maintenance[n - 1]);
      TalliedOne(MaintenanceTally(v5, fails, n - 1), MaintenanceOutcome(v5, fails, v5.maintenance[n - 1]));
      hide Rows;
    }
  }

  /** Every v5 row is mapped, pending or, for a derived row only, skipped: the counts and the skipped rows
      add up to all rows. */
  lemma {:induction false} CountsCoverAllRows(v5: V5, fails: SourceKey -> bool, t: Tables)
    ensures var report := ReportOf(v5, fails, t);
      report.pending + report.resources + report.bindings + report.derived + report.maintenance
      + DerivedTally(v5, fails, Bound(v5, fails, t).bindings, |v5.derived|).skipped
      == |v5.resources| + |v5.bindings| + |v5.derived| + |v5.maintenance|
  {
    ResourceTallyCovers(v5, fails, |v5.resources|);
    BindingTallyCovers(v5, fails, |v5.bindings|);
    DerivedTallyCovers(v5, fails, Bound(v5, fails, t).bindings, |v5.derived|);
    MaintenanceTallyCovers(v5, fails, |v5.maintenance|);
  }

  /** A second run returns the same counts. */
  lemma {:induction false} SecondRunCountsTheSame(v5: V5, fails: SourceKey -> bool, t: Tables)
    ensures ReportOf(v5, fails, Migrated(v5, fails, t)) == ReportOf(v5, fails, t)
  {
    SecondRunAddsNothing(v5, fails, t);
  }

  // ----- References of the migrated rows ---------------------------------------------------------

  ghost predicate HasResource(rows: seq<Row>, t: NetType, id: string) {
    exists r :: r in rows && r.netType == t && r.identity == [id]
  }

  /** A legacy key names the resource that stands in its row. */
  ghost predicate LegacyConsistent(rows: seq<Row>) {
    forall r :: r in rows && r.legacy.Some? && r.legacy.value.ResourceKey? ==> r.identity == [r.legacy.value.resource]
  }

  lemma {:induction false} RowOrigin(t: Tables, ws: seq<Write>, name: TableName, row: Row)
    requires row in ApplyAll(t, ws).Get(name)
    ensures row in t.Get(name) || Insert(name, row) in ws
  {
    if ws != [] {
      var rest, last := ws[..|ws| - 1], ws[|ws| - 1];
      assert ws == rest + [last];
      OriginStep(ApplyAll(t, rest), last, name, row);
      if row in ApplyAll(t, rest).Get(name) { RowOrigin(t, rest, name, row); }
    }
  }

  lemma {:induction false} OriginStep(t: Tables, w: Write, name: TableName, row: Row)
    requires row in Apply(t, w).Get(name)
    ensures row in t.Get(name) || w == Insert(name, row)
  {
    hide Taken;
  }

  ghost predicate InsertsRow(v5: V5, fails: SourceKey -> bool, r: Resource, name: TableName, row: Row) {
    var outcome := ResourceOutcome(v5, fails, r);
    outcome.Mapped? && row == if name == Resources then ResourceRow(r, outcome.netType) else UnitRow(r, outcome.netType)
  }

  lemma {:induction false} ResourceInserts(v5: V5, fails: SourceKey -> bool, r: Resource, name: TableName, row: Row)
    requires Insert(name, row) in ResourceWrites(v5, fails, r)
    ensures name == Resources || name == Units
    ensures InsertsRow(v5, fails, r, name, row)
  {
    hide ResourceOutcome; hide ResourceRow; hide UnitRow; hide Evidence; hide UniqueType;
  }

  lemma {:induction false} ResourcePhaseInserts(v5: V5, fails: SourceKey -> bool, n: nat, name: TableName, row: Row)
    requires n <= |v5.resources| && Insert(name, row) in ResourcePhase(v5, fails, n)
    ensures name == Resources || name == Units
    ensures exists r :: r in v5.resources && InsertsRow(v5, fails, r, name, row)
  {
    hide InsertsRow; hide ResourceWrites;
    if Insert(name, row) in ResourcePhase(v5, fails, n - 1) {
      ResourcePhaseInserts(v5, fails, n - 1, name, row);
    } else {
      ResourceInserts(v5, fails, v5.resources[n - 1], name, row);
    }
  }

  lemma {:induction false} BindingInserts(v5: V5, fails: SourceKey -> bool, b: Binding, name: TableName, row: Row)
    requires Insert(name, row) in BindingWrites(v5, fails, b)
    ensures name == Bindings && BindingOutcome(v5, fails, b).Mapped?
      && row == BindingRow(b, BindingOutcome(v5, fails, b).netType)
  {
    hide BindingOutcome; hide BindingRow; hide RequiredSets; hide Union;
  }

  lemma {:induction false} BindingPhaseInserts(v5: V5, fails: SourceKey -> bool, n: nat, name: TableName, row: Row)
    requires n <= |v5.bindings| && Insert(name, row) in BindingPhase(v5, fails, n)
    ensures name == Bindings
    ensures exists b ::
      b in v5.bindings && BindingOutcome(v5, fails, b).Mapped?
        && row == BindingRow(b, BindingOutcome(v5, fails, b).netType)
  {
    hide BindingOutcome; hide BindingRow; hide BindingWrites;
    if Insert(name, row) in BindingPhase(v5, fails, n - 1) {
      BindingPhaseInserts(v5, fails, n - 1, name, row);
    } else {
      BindingInserts(v5, fails, v5.bindings[n - 1], name, row);
    }
  }

  lemma {:induction false} DerivedInserts(v5: V5, fails: SourceKey -> bool, bindings: seq<Row>, d: Derived,
                                          name: TableName, row: Row)
    requires Insert(name, row) in DerivedWrites(v5, fails, bindings, d)
    ensures name == DerivedRows && DerivedOutcome(v5, fails, bindings, d).Mapped?
    ensures row == DerivedRow(d, DerivedOutcome(v5, fails, bindings, d).netType)
  {
    hide DerivedOutcome; hide DerivedRow; hide PairType; hide Confirmed; hide Evidence;
  }

  lemma {:induction false} DerivedPhaseInserts(v5: V5, fails: SourceKey -> bool, bindings: seq<Row>, n: nat,
                                               name: TableName, row: Row)
    requires n <= |v5.derived| && Insert(name, row) in DerivedPhase(v5, fails, bindings, n)
    ensures name == DerivedRows
    ensures exists d ::
      d in v5.derived && DerivedOutcome(v5, fails, bindings, d).Mapped?
        && row == DerivedRow(d, DerivedOutcome(v5, fails, bindings, d).netType)
  {
    hide DerivedOutcome; hide DerivedRow; hide DerivedWrites;
    if Insert(name, row) in DerivedPhase(v5, fails, bindings, n - 1) {
      DerivedPhaseInserts(v5, fails, bindings, n - 1, name, row);
    } else {
      DerivedInserts(v5, fails, bindings, v5.derived[n - 1], name, row);
    }
  }

  lemma {:induction false} MaintenanceInserts(v5: V5, fails: SourceKey -> bool, m: Maintenance, name: TableName,
                                              row: Row)
    requires Insert(name, row) in MaintenanceWrites(v5, fails, m)
    ensures name == MaintenanceRows && MaintenanceOutcome(v5, fails, m).Mapped?
    ensures row == MaintenanceRow(v5, m, MaintenanceOutcome(v5, fails, m).netType)
  {
    hide MaintenanceOutcome; hide MaintenanceRow; hide Evidence;
  }

  lemma {:induction false} MaintenancePhaseInserts(v5: V5, fails: SourceKey -> bool, n: nat, name: TableName, row: Row)
    requires n <= |v5.maintenance| && Insert(name, row) in MaintenancePhase(v5, fails, n)
    ensures name == MaintenanceRows
    ensures exists m ::
      m in v5.maintenance && MaintenanceOutcome(v5, fails, m).Mapped?
        && row == MaintenanceRow(v5, m, MaintenanceOutcome(v5, fails, m).netType)
  {
    hide MaintenanceOutcome; hide MaintenanceRow; hide MaintenanceWrites;
    if Insert(name, row) in MaintenancePhase(v5, fails, n - 1) {
      MaintenancePhaseInserts(v5, fails, n - 1, name, row);
    } else {
      MaintenanceInserts(v5, fails, v5.maintenance[n - 1], name, row);
    }
  }

  lemma {:induction false} PhaseContains(v5: V5, fails: SourceKey -> bool, n: nat, r: Resource, i: nat)
    requires i < n <= |v5.resources| && v5.resources[i] == r && ResourceOutcome(v5, fails, r).Mapped?
    ensures Insert(Resources, ResourceRow(r, ResourceOutcome(v5, fails, r).netType)) in ResourcePhase(v5, fails, n)
  {
    if i == n - 1 {
      hide ResourceOutcome; hide ResourceRow;
      assert Insert(Resources, ResourceRow(r, ResourceOutcome(v5, fails, r).netType)) in ResourceWrites(v5, fails, r);
    } else {
      PhaseContains(v5, fails, n - 1, r, i);
    }
  }

  lemma {:induction false} ConsistencyKept(v5: V5, fails: SourceKey -> bool, t: Tables)
    requires LegacyConsistent(t.resources)
    ensures LegacyConsistent(ApplyAll(t, ResourcePhase(v5, fails, |v5.resources|)).resources)
  {
    var ws := ResourcePhase(v5, fails, |v5.resources|);
    hide ResourcePhase; hide ApplyAll; hide ResourceOutcome;
    forall row | row in ApplyAll(t, ws).resources && row.legacy.Some? && row.legacy.value.ResourceKey?
      ensures row.identity == [row.legacy.value.resource]
    {
      assert row in ApplyAll(t, ws).Get(Resources);
      RowOrigin(t, ws, Resources, row);
      if row !in t.resources { ResourcePhaseInserts(v5, fails, |v5.resources|, Resources, row); }
    }
  }

  /** Every mapped resource has a row under its type after the resource phase. */
  lemma {:induction false} MappedHasRow(v5: V5, fails: SourceKey -> bool, t: Tables, r: Resource)
    requires LegacyConsistent(t.resources) && r in v5.resources && ResourceOutcome(v5, fails, r).Mapped?
    ensures HasResource(ApplyAll(t, ResourcePhase(v5, fails, |v5.resources|)).resources,
                        ResourceOutcome(v5, fails, r).netType, r.id)
  {
    var ws := ResourcePhase(v5, fails, |v5.resources|);
    var after := ApplyAll(t, ws);
    var row := ResourceRow(r, ResourceOutcome(v5, fails, r).netType);
    var i :| 0 <= i < |v5.resources| && v5.resources[i] == r;
    PhaseContains(v5, fails, |v5.resources|, r, i);
    WritesAreIdempotent(t, ws);
    ConsistencyKept(v5, fails, t);
    hide ResourcePhase; hide ApplyAll; hide ResourceOutcome; hide Extends; hide AllUnique;
    assert Apply(after, Insert(Resources, row)) == after;
    AbsorbedInsert(after, row);
    var x :| x in after.resources && Clash(x, row);
  }

  lemma {:induction false} AbsorbedInsert(t: Tables, row: Row)
    requires Apply(t, Insert(Resources, row)) == t
    ensures Taken(t.resources, row)
  {
    hide Taken;
    assert t.Put(Resources, t.resources + [row]).resources == t.resources + [row];
  }

  lemma {:induction false} EvidenceOfBinding(v5: V5, b: Binding)
    requires b in v5.bindings
    ensures TypeOfTask(v5, b.task) <= Evidence(v5, b.unit)
    ensures Set(b.metric) ==> TypeOfTask(v5, b.task) <= Evidence(v5, b.metric.value)
  {
    var i :| 0 <= i < |v5.bindings| && v5.bindings[i] == b;
    FromBindingsIncludes(v5, i, |v5.bindings|, b.unit);
    if Set(b.metric) { FromBindingsIncludes(v5, i, |v5.bindings|, b.metric.value); }
  }

  lemma {:induction false} FromBindingsIncludes(v5: V5, i: nat, n: nat, id: string)
    requires i < n <= |v5.bindings|
    requires v5.bindings[i].unit == id || (Set(v5.bindings[i].metric) && v5.bindings[i].metric.value == id)
    ensures TypeOfTask(v5, v5.bindings[i].task) <= FromBindings(v5, id, n)
  {
    hide TypeOfTask; hide Set;
    if i < n - 1 { FromBindingsIncludes(v5, i, n - 1, id); }
  }

  /** A mapped binding's type is the only evidence for its unit and, if set, for its metric. */
  lemma {:induction false} BindingTypes(v5: V5, fails: SourceKey -> bool, b: Binding)
    requires b in v5.bindings && BindingOutcome(v5, fails, b).Mapped?
    ensures IsResource(v5, b.unit) && UniqueType(Evidence(v5, b.unit)) == Some(BindingOutcome(v5, fails, b).netType)
    ensures Set(b.metric) ==> IsMapped(v5, fails, b.unit) && IsMapped(v5, fails, b.metric.value)
    ensures Set(b.metric) ==> UniqueType(Evidence(v5, b.metric.value)) == Some(BindingOutcome(v5, fails, b).netType)
  {
    EvidenceOfBinding(v5, b);
    var task, unit := TypeOfTask(v5, b.task), Evidence(v5, b.unit);
    hide Evidence; hide TypeOfTask; hide IsMapped; hide Common; hide SingleOrEmpty; hide UniqueType;
    if Set(b.metric) {
      assert RequiredSets(v5, b) == [task, unit, Evidence(v5, b.metric.value)];
      CommonOfThree(task, unit, Evidence(v5, b.metric.value));
    } else {
      assert RequiredSets(v5, b) == [task, unit];
      CommonOfTwo(task, unit);
    }
  }

  lemma {:induction false} CommonOfTwo(task: set<NetType>, unit: set<NetType>)
    requires task <= unit && SingleOrEmpty([task, unit]) && UniqueType(Common([task, unit])).Some?
    ensures UniqueType(unit) == UniqueType(Common([task, unit]))
  {
    assert [task, unit][1..] == [unit] && [unit][1..] == [];
    assert Common([unit]) == unit && Union([unit]) == unit + {};
  }

  lemma {:induction false} CommonOfThree(task: set<NetType>, unit: set<NetType>, metric: set<NetType>)
    requires task <= unit && SingleOrEmpty([task, unit, metric]) && UniqueType(Common([task, unit, metric])).Some?
    requires UniqueType(unit).Some? && UniqueType(metric).Some?
    ensures UniqueType(unit) == UniqueType(metric) == UniqueType(Common([task, unit, metric]))
  {
    assert [task, unit, metric][1..] == [unit, metric] && [unit, metric][1..] == [metric] && [metric][1..] == [];
    assert Common([metric]) == metric && Union([metric]) == metric + {};
    assert Union([unit, metric]) == unit + Union([metric]) && Common([unit, metric]) == unit * metric;
  }

  /** An identifier that is mapped, and whose evidence is netType, has a v6 resource under netType. */
  lemma {:induction false} MappedIdHasResource(v5: V5, fails: SourceKey -> bool, t: Tables, id: string)
    requires LegacyConsistent(t.resources) && IsMapped(v5, fails, id)
    ensures UniqueType(Evidence(v5, id)).Some?
    ensures HasResource(Migrated(v5, fails, t).resources, UniqueType(Evidence(v5, id)).value, id)
  {
    var r :| r in v5.resources && r.id == id && ResourceOutcome(v5, fails, r).Mapped?;
    ResourceIsMigrated(v5, fails, t, r);
  }

  lemma {:induction false} ResourceIsMigrated(v5: V5, fails: SourceKey -> bool, t: Tables, r: Resource)
    requires LegacyConsistent(t.resources) && r in v5.resources && ResourceOutcome(v5, fails, r).Mapped?
    ensures HasResource(Migrated(v5, fails, t).resources, ResourceOutcome(v5, fails, r).netType, r.id)
  {
    var after := ApplyAll(t, ResourcePhase(v5, fails, |v5.resources|));
    MappedHasRow(v5, fails, t, r);
    MigrationOnlyAdds(v5, fails, t);
    WritesAreIdempotent(after, BindingPhase(v5, fails, |v5.bindings|));
    hide Extends; hide ApplyAll; hide AllUnique; hide ResourceOutcome; hide HasResource;
    ExtendsTransitive(after, Bound(v5, fails, t), Migrated(v5, fails, t));
  }

  ghost predicate IsNew(before: seq<Row>, after: seq<Row>, row: Row) { row in after && row !in before }

  /** The v5 row that a row of a v6 table was made from. */
  ghost predicate IsMadeFrom(v5: V5, fails: SourceKey -> bool, bindings: seq<Row>, name: TableName, row: Row) {
    match name
    case Resources => exists r :: r in v5.resources && InsertsRow(v5, fails, r, name, row)
    case Units => exists r :: r in v5.resources && InsertsRow(v5, fails, r, name, row)
    case Bindings => exists b ::
      b in v5.bindings && BindingOutcome(v5, fails, b).Mapped?
        && row == BindingRow(b, BindingOutcome(v5, fails, b).netType)
    case DerivedRows =>
      exists d ::
        d in v5.derived && DerivedOutcome(v5, fails, bindings, d).Mapped?
          && row == DerivedRow(d, DerivedOutcome(v5, fails, bindings, d).netType)
    case MaintenanceRows =>
      exists m ::
        m in v5.maintenance && MaintenanceOutcome(v5, fails, m).Mapped?
          && row == MaintenanceRow(v5, m, MaintenanceOutcome(v5, fails, m).netType)
  }

  /** Every row that a migration adds to a table was made from a mapped v5 row of that kind. */
  lemma {:induction false} NewRow(v5: V5, fails: SourceKey -> bool, t: Tables, name: TableName, row: Row)
    requires IsNew(t.Get(name), Migrated(v5, fails, t).Get(name), row)
    ensures IsMadeFrom(v5, fails, Bound(v5, fails, t).bindings, name, row)
  {
    var after := ApplyAll(t, ResourcePhase(v5, fails, |v5.resources|));
    var bound := Bound(v5, fails, t);
    var later := LaterWrites(v5, fails, bound.bindings);
    RowOrigin(bound, later, name, row);
    hide Bound; hide ApplyAll; hide LaterWrites; hide IsMadeFrom; hide InsertsRow; hide Tables.Get;
    if Insert(name, row) in later {
      LaterInserts(v5, fails, bound.bindings, name, row);
    } else {
      SourceInserts(v5, fails, t, name, row);
    }
  }

  lemma {:induction false} LaterInserts(v5: V5, fails: SourceKey -> bool, bindings: seq<Row>, name: TableName, row: Row)
    requires Insert(name, row) in LaterWrites(v5, fails, bindings)
    ensures name != Bindings && IsMadeFrom(v5, fails, bindings, name, row)
  {
    hide DerivedPhase; hide MaintenancePhase; hide DerivedOutcome; hide MaintenanceOutcome; hide DerivedRow;
    hide MaintenanceRow; hide BindingOutcome;
    hide BindingRow; hide InsertsRow;
    if Insert(name, row) in DerivedPhase(v5, fails, bindings, |v5.derived|) {
      DerivedPhaseInserts(v5, fails, bindings, |v5.derived|, name, row);
    } else {
      MaintenancePhaseInserts(v5, fails, |v5.maintenance|, name, row);
    }
  }

  lemma {:induction false} SourceInserts(v5: V5, fails: SourceKey -> bool, t: Tables, name: TableName, row: Row)
    requires IsNew(t.Get(name), Bound(v5, fails, t).Get(name), row)
    ensures IsMadeFrom(v5, fails, Bound(v5, fails, t).bindings, name, row)
  {
    var after := ApplyAll(t, ResourcePhase(v5, fails, |v5.resources|));
    RowOrigin(after, BindingPhase(v5, fails, |v5.bindings|), name, row);
    if row in after.Get(name) {
      RowOrigin(t, ResourcePhase(v5, fails, |v5.resources|), name, row);
      ResourcePhaseInserts(v5, fails, |v5.resources|, name, row);
    } else {
      BindingPhaseInserts(v5, fails, |v5.bindings|, name, row);
    }
    hide DerivedOutcome; hide MaintenanceOutcome; hide DerivedRow; hide MaintenanceRow; hide BindingOutcome;
    hide BindingRow; hide InsertsRow;
    hide ApplyAll; hide ResourcePhase; hide BindingPhase; hide Bound;
  }

  ghost predicate RowsNamed(rows: seq<Row>) { forall row :: row in rows ==> row.identity != [""] }

  /** A migration keeps legacy keys consistent, and with named v5 resources it adds none with an empty id. */
  lemma {:induction false} MigrationKeepsConsistency(v5: V5, fails: SourceKey -> bool, t: Tables)
    requires LegacyConsistent(t.resources)
    ensures LegacyConsistent(Migrated(v5, fails, t).resources)
    ensures (forall r :: r in v5.resources ==> r.id != "") && RowsNamed(t.resources) ==>
      RowsNamed(Migrated(v5, fails, t).resources)
  {
    hide Migrated; hide Bound; hide ResourceOutcome;
    forall row | row in Migrated(v5, fails, t).resources && row !in t.resources
      ensures exists r :: r in v5.resources && row.identity == [r.id] && row.legacy == Some(ResourceKey(r.id))
    {
      NewRow(v5, fails, t, Resources, row);
    }
  }

  /** The tables after any number of migrations, each of the v5 tables and with the failures of its time. */
  ghost function MigratedBy(t: Tables, runs: seq<(V5, SourceKey -> bool)>): Tables {
    if runs == [] then t
    else
      var last := runs[|runs| - 1];
      Migrated(last.0, last.1, MigratedBy(t, runs[..|runs| - 1]))
  }

  /** So the references below hold after every migration of a database that started with consistent keys, and
      no row is lost in between. */
  lemma {:induction false} RunsKeepConsistency(t: Tables, runs: seq<(V5, SourceKey -> bool)>)
    requires LegacyConsistent(t.resources)
    ensures LegacyConsistent(MigratedBy(t, runs).resources) && Extends(t, MigratedBy(t, runs))
  {
    hide LegacyConsistent; hide Migrated; hide Extends; hide AllUnique;
    if runs == [] {
      ExtendsReflexive(t);
    } else {
      var last, before := runs[|runs| - 1], MigratedBy(t, runs[..|runs| - 1]);
      RunsKeepConsistency(t, runs[..|runs| - 1]);
      MigrationKeepsConsistency(last.0, last.1, before);
      MigrationOnlyAdds(last.0, last.1, before);
      ExtendsTransitive(t, before, Migrated(last.0, last.1, before));
    }
  }

  lemma {:induction false} ExtendsReflexive(t: Tables)
    ensures Extends(t, t)
  {
  }

  /** A binding with a metric is migrated only together with both of its resources, under its own type. */
  lemma {:induction false} MetricBindingReferences(v5: V5, fails: SourceKey -> bool, t: Tables, row: Row)
    requires LegacyConsistent(t.resources) && IsNew(t.bindings, Migrated(v5, fails, t).bindings, row)
    requires row.body.BindingBody? && Set(row.body.metric) && row.identity != []
    ensures HasResource(Migrated(v5, fails, t).resources, row.netType, row.identity[0])
    ensures HasResource(Migrated(v5, fails, t).resources, row.netType, row.body.metric.value)
  {
    NewRow(v5, fails, t, Bindings, row);
    hide Bound; hide BindingOutcome; hide BindingRow;
    var b :| b in v5.bindings && BindingOutcome(v5, fails, b).Mapped?
      && row == BindingRow(b, BindingOutcome(v5, fails, b).netType);
    BindingTypes(v5, fails, b);
    hide Migrated; hide Evidence; hide IsMapped; hide HasResource;
    MappedIdHasResource(v5, fails, t, b.unit);
    MappedIdHasResource(v5, fails, t, b.metric.value);
  }

  /** A mapped binding without a metric has its unit resource under its own type exactly when the insert of
      that resource did not fail or the row was there before. */
  lemma {:induction false} UnitBindingReference(v5: V5, fails: SourceKey -> bool, t: Tables, b: Binding)
    requires LegacyConsistent(t.resources) && b in v5.bindings && BindingOutcome(v5, fails, b).Mapped? && !Set(b.metric)
    ensures var netType := BindingOutcome(v5, fails, b).netType;
      HasResource(Migrated(v5, fails, t).resources, netType, b.unit)
      <==> !fails(ResourceKey(b.unit)) || HasResource(t.resources, netType, b.unit)
  {
    var netType := BindingOutcome(v5, fails, b).netType;
    BindingTypes(v5, fails, b);
    var r :| r in v5.resources && r.id == b.unit;
    hide BindingOutcome; hide Migrated; hide Evidence;
    if !fails(ResourceKey(b.unit)) {
      ResourceIsMigrated(v5, fails, t, r);
    } else {
      MigrationOnlyAdds(v5, fails, t);
      if HasResource(Migrated(v5, fails, t).resources, netType, b.unit) {
        FailedResourceIsOld(v5, fails, t, netType, b.unit);
      }
    }
  }

  function NoTables(): Tables { Tables([], [], [], [], [], [], []) }

  function LoneBinding(): V5 {
    V5(map["t" := CSP], [Resource("u", "mu", true, "preset", Some("t"), None)],
       [Binding(1, "u", None, "column", "candidate", true, "t")], [], [])
  }

  lemma {:induction false} LoneBindingMapped(fails: SourceKey -> bool)
    requires !fails(BindingKey(1))
    ensures BindingOutcome(LoneBinding(), fails, LoneBinding().bindings[0]) == Mapped(CSP)
  {
    var v5 := LoneBinding();
    var b := v5.bindings[0];
    assert FromResources(v5, "u", 0) == {} && FromResources(v5, "u", 1) == {CSP};
    assert FromBindings(v5, "u", 0) == {} && FromBindings(v5, "u", 1) == {CSP};
    assert Evidence(v5, "u") == {CSP} && TypeOfTask(v5, "t") == {CSP} && RequiredSets(v5, b) == [{CSP}, {CSP}];
    assert v5.resources[0] in v5.resources;
    hide Evidence; hide TypeOfTask;
    assert SingleOrEmpty([{CSP}, {CSP}]) by { assert [{CSP}, {CSP}][1..] == [{CSP}] && [{CSP}][1..] == []; }
    assert UniqueType({CSP}) == Some(CSP);
    CommonOfTwo({CSP}, {CSP});
    hide RequiredSets; hide Common; hide SingleOrEmpty; hide UniqueType; hide Union;
  }

  lemma {:induction false} LoneBindingWritten(fails: SourceKey -> bool)
    requires BindingOutcome(LoneBinding(), fails, LoneBinding().bindings[0]) == Mapped(CSP)
    ensures BindingRow(LoneBinding().bindings[0], CSP) in Bound(LoneBinding(), fails, NoTables()).bindings
  {
    var v5, t := LoneBinding(), NoTables();
    var row, resources := BindingRow(v5.bindings[0], CSP), ResourcePhase(v5, fails, 1);
    hide BindingOutcome; hide BindingRow; hide ResourcePhase; hide Union;
    forall w | w in resources ensures !WritesBindings(w) {
      if w.Insert? { ResourcePhaseInserts(v5, fails, 1, w.table, w.row); }
    }
    BindingsUntouched(t, resources);
    var x := ApplyAll(t, resources);
    assert BindingWrites(v5, fails, v5.bindings[0]) == [Insert(Bindings, row)];
    assert BindingPhase(v5, fails, 0) == [] && BindingPhase(v5, fails, 1) == [Insert(Bindings, row)];
    hide BindingPhase; hide BindingWrites; hide WritesBindings;
    InsertedFirst(x, row);
    hide ApplyAll; hide Apply; hide InsertIgnore;
  }

  lemma {:induction false} InsertedFirst(t: Tables, row: Row)
    requires t.bindings == []
    ensures ApplyAll(t, [Insert(Bindings, row)]).bindings == [row]
  {
    assert [Insert(Bindings, row)][..0] == [];
    assert ApplyAll(t, []) == t && ApplyAll(t, [Insert(Bindings, row)]) == Apply(t, Insert(Bindings, row));
  }

  /** It does happen that the unit is missing: when its insert fails and the one of its binding does not. */
  lemma {:induction false} BindingWithoutUnit()
    ensures var v5, fails := LoneBinding(), (key: SourceKey) => key == ResourceKey("u");
      && BindingOutcome(v5, fails, v5.bindings[0]) == Mapped(CSP)
      && BindingRow(v5.bindings[0], CSP) in Migrated(v5, fails, NoTables()).bindings
      && !HasResource(Migrated(v5, fails, NoTables()).resources, CSP, "u")
  {
    var v5, fails, t := LoneBinding(), (key: SourceKey) => key == ResourceKey("u"), NoTables();
    LoneBindingMapped(fails);
    UnitBindingReference(v5, fails, t, v5.bindings[0]);
    LoneBindingWritten(fails);
    MigrationOnlyAdds(v5, fails, t);
    hide Migrated; hide Bound; hide BindingOutcome; hide Extends;
    assert Bound(v5, fails, t).bindings <= Migrated(v5, fails, t).bindings by {
      assert Extends(Bound(v5, fails, t), Migrated(v5, fails, t));
    }
  }

  lemma {:induction false} FailedResourceIsOld(v5: V5, fails: SourceKey -> bool, t: Tables, netType: NetType,
                                               id: string)
    requires fails(ResourceKey(id)) && HasResource(Migrated(v5, fails, t).resources, netType, id)
    ensures HasResource(t.resources, netType, id)
  {
    hide Migrated; hide Bound; hide Evidence;
    var row :| row in Migrated(v5, fails, t).resources && row.netType == netType && row.identity == [id];
    if row !in t.resources { NewRow(v5, fails, t, Resources, row); }
  }

  /** A migrated derived row has its unit and metric under its own type and its numerator and denominator
      under some type, and no confirmed binding under its type stands for the same unit and metric. */
  lemma {:induction false} DerivedReferences(v5: V5, fails: SourceKey -> bool, t: Tables, row: Row)
    requires LegacyConsistent(t.resources) && IsNew(t.derived, Migrated(v5, fails, t).derived, row)
    ensures |row.identity| == 2 && row.body.DerivedBody?
    ensures HasResource(Migrated(v5, fails, t).resources, row.netType, row.identity[0])
    ensures HasResource(Migrated(v5, fails, t).resources, row.netType, row.identity[1])
    ensures exists n :: HasResource(Migrated(v5, fails, t).resources, n, row.body.numerator)
    ensures exists n :: HasResource(Migrated(v5, fails, t).resources, n, row.body.denominator)
    ensures !Confirmed(Migrated(v5, fails, t).bindings, row.netType, row.identity[0], row.identity[1])
  {
    hide Bound; hide Evidence; hide IsMapped; hide HasResource; hide Confirmed; hide LaterWrites; hide ApplyAll;
    NewRow(v5, fails, t, DerivedRows, row);
    var bindings := Bound(v5, fails, t).bindings;
    var d :| d in v5.derived && DerivedOutcome(v5, fails, bindings, d).Mapped?
      && row == DerivedRow(d, DerivedOutcome(v5, fails, bindings, d).netType);
    LaterWritesKeepBindings(v5, fails, Bound(v5, fails, t), Bound(v5, fails, t).bindings);
    assert Migrated(v5, fails, t).bindings == Bound(v5, fails, t).bindings;
    hide Migrated;
    MappedIdHasResource(v5, fails, t, d.unit);
    MappedIdHasResource(v5, fails, t, d.metric);
    MappedIdHasResource(v5, fails, t, d.numerator);
    MappedIdHasResource(v5, fails, t, d.denominator);
  }

  /** A migrated maintenance row has its unit and metric under its own type. */
  lemma {:induction false} MaintenanceReferences(v5: V5, fails: SourceKey -> bool, t: Tables, row: Row)
    requires LegacyConsistent(t.resources) && IsNew(t.maintenance, Migrated(v5, fails, t).maintenance, row)
    ensures |row.identity| == 2
    ensures HasResource(Migrated(v5, fails, t).resources, row.netType, row.identity[0])
    ensures HasResource(Migrated(v5, fails, t).resources, row.netType, row.identity[1])
  {
    NewRow(v5, fails, t, MaintenanceRows, row);
    var m := MadeFromMaintenance(v5, fails, Bound(v5, fails, t).bindings, row);
    hide *;
    MappedIdHasResource(v5, fails, t, m.unit);
    MappedIdHasResource(v5, fails, t, m.metric);
  }

  lemma {:induction false} MadeFromMaintenance(v5: V5, fails: SourceKey -> bool, bindings: seq<Row>, row: Row)
    returns (m: Maintenance)
    requires IsMadeFrom(v5, fails, bindings, MaintenanceRows, row)
    ensures row.identity == [m.unit, m.metric] && IsMapped(v5, fails, m.unit) && IsMapped(v5, fails, m.metric)
    ensures UniqueType(Evidence(v5, m.unit)) == Some(row.netType) == UniqueType(Evidence(v5, m.metric))
  {
    m :| m in v5.maintenance && MaintenanceOutcome(v5, fails, m).Mapped?
      && row == MaintenanceRow(v5, m, MaintenanceOutcome(v5, fails, m).netType);
    hide Evidence; hide IsMapped; hide UniqueType;
  }

  // ----- What the recovery audits say ------------------------------------------------------------

  predicate SaysRecovered(w: Write) { w.Audit? && w.audit.result == AuditRecovered }

  /** A resource or binding is audited as recovered only when its row was written. */
  lemma {:induction false} RecoveredIsMapped(v5: V5, fails: SourceKey -> bool, r: Resource, b: Binding)
    ensures (exists w :: w in ResourceWrites(v5, fails, r) && SaysRecovered(w)) <==>
      r.kind == "me" && !r.enabled && ResourceOutcome(v5, fails, r).Mapped?
    ensures (exists w :: w in BindingWrites(v5, fails, b) && SaysRecovered(w))
      <==> !b.enabled && BindingOutcome(v5, fails, b).Mapped?
  {
    ResourceRecovered(v5, fails, r);
    BindingRecovered(v5, fails, b);
  }

  lemma {:induction false} ResourceRecovered(v5: V5, fails: SourceKey -> bool, r: Resource)
    ensures (exists w :: w in ResourceWrites(v5, fails, r) && SaysRecovered(w)) <==>
      r.kind == "me" && !r.enabled && ResourceOutcome(v5, fails, r).Mapped?
  {
    var ws, netType := ResourceWrites(v5, fails, r), UniqueType(Evidence(v5, r.id));
    hide Evidence; hide UniqueType;
    if r.kind == "me" && !r.enabled {
      assert ws[|ws| - 1]
        == Audit(AuditRow(ResourceKey(r.id), netType, None, Some(r.id),
                          ResultOf(netType, ResourceOutcome(v5, fails, r).Broken?)));
      assert ws[|ws| - 1] in ws;
    }
  }

  lemma {:induction false} BindingRecovered(v5: V5, fails: SourceKey -> bool, b: Binding)
    ensures (exists w :: w in BindingWrites(v5, fails, b) && SaysRecovered(w))
      <==> !b.enabled && BindingOutcome(v5, fails, b).Mapped?
  {
    var ws, outcome := BindingWrites(v5, fails, b), BindingOutcome(v5, fails, b);
    assert !outcome.Skipped?;
    hide BindingOutcome;
    if !b.enabled {
      assert ws[|ws| - 1]
        == Audit(AuditRow(BindingKey(b.id), TypeOf(outcome), Some(b.unit), b.metric,
                          ResultOf(TypeOf(outcome), outcome.Broken?)));
      assert ws[|ws| - 1] in ws;
    }
  }

  /** A derived row is audited as recovered although it was left pending exactly when it is disabled, its
      unit and metric agree on a type, no confirmed binding stands in its place, and a reference is not mapped. */
  lemma {:induction false} RecoveredThoughPending(v5: V5, fails: SourceKey -> bool, bindings: seq<Row>, d: Derived)
    ensures var netType := PairType(v5, d.unit, d.metric);
      (exists w :: w in DerivedWrites(v5, fails, bindings, d) && SaysRecovered(w))
      && !DerivedOutcome(v5, fails, bindings, d).Mapped?
      <==>
      !d.enabled && netType.Some? && !Confirmed(bindings, netType.value, d.unit, d.metric)
      && DerivedOrphan(v5, fails, d)
  {
    var ws, outcome, netType :=
      DerivedWrites(v5, fails, bindings, d), DerivedOutcome(v5, fails, bindings, d), PairType(v5, d.unit, d.metric);
    hide PairType; hide Confirmed; hide DerivedOrphan; hide Evidence;
    if !d.enabled && !(netType.Some? && Confirmed(bindings, netType.value, d.unit, d.metric)) {
      assert ws[|ws| - 1]
        == Audit(AuditRow(DerivedKey(d.id), netType, Some(d.unit), Some(d.metric), ResultOf(netType, outcome.Broken?)));
      assert ws[|ws| - 1] in ws;
    }
  }

  function SampleTables(): V5 {
    V5(map["t" := CSP],
       [Resource("u", "mu", true, "preset", Some("t"), None), Resource("m", "me", true, "preset", Some("t"), None)],
       [], [Derived(1, "u", "m", "x", "x", "success_rate", false)], [])
  }

  /** It does happen: a disabled definition whose numerator is no resource. */
  lemma {:induction false} PendingButAuditedRecovered(fails: SourceKey -> bool)
    ensures var v5 := SampleTables();
      DerivedOutcome(v5, fails, [], v5.derived[0]).Unattributed?
      && exists w :: w in DerivedWrites(v5, fails, [], v5.derived[0]) && SaysRecovered(w)
  {
    var v5 := SampleTables();
    assert FromResources(v5, "u", 2) == {CSP} && FromResources(v5, "m", 2) == {CSP} by {
      assert FromResources(v5, "u", 0) == {} && FromResources(v5, "m", 0) == {};
      assert FromResources(v5, "u", 1) == {CSP} && FromResources(v5, "m", 1) == {};
    }
    assert FromBindings(v5, "u", 0) == {} && FromBindings(v5, "m", 0) == {};
    assert Evidence(v5, "u") == {CSP} && Evidence(v5, "m") == {CSP};
    assert !IsMapped(v5, fails, "x");
    RecoveredThoughPending(v5, fails, [], v5.derived[0]);
  }
}
