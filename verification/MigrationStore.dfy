/** The migration as it runs: the evidence dictionary and the four loops over the v5 rows
    (app/services/kpi_v6_migration.py, lines 308 to 710), against the specification in Migration. */
module MigrationStore {
  import opened Wrappers
  import opened Migration

  // ----- The algorithm ---------------------------------------------------------------------------

  /** The evidence dictionary. */
  function Lookup(evidence: map<string, set<NetType>>, id: string): set<NetType> {
    if id in evidence then evidence[id] else {}
  }

  ghost predicate EvidenceUpTo(v5: V5, evidence: map<string, set<NetType>>, n: nat, k: nat) {
    n <= |v5.resources| && k <= |v5.bindings| && forall id ::
      Lookup(evidence, id) == FromResources(v5, id, n) + FromBindings(v5, id, k)
  }

  function AddEvidence(evidence: map<string, set<NetType>>, id: string, types: set<NetType>): map<string, set<NetType>>
  {
    if types == {} then evidence else evidence[id := Lookup(evidence, id) + types]
  }

  lemma {:induction false} BindingEvidence(v5: V5, evidence: map<string, set<NetType>>, k: nat)
    requires k < |v5.bindings| && EvidenceUpTo(v5, evidence, |v5.resources|, k)
    ensures var b := v5.bindings[k]; var types := TypeOfTask(v5, b.task);
      var unitAdded := AddEvidence(evidence, b.unit, types);
      EvidenceUpTo(v5, if Set(b.metric) then AddEvidence(unitAdded, b.metric.value, types) else unitAdded,
                   |v5.resources|, k + 1)
  {
    hide TypeOfTask;
    hide FromResources;
  }

  ghost predicate IsEvidence(v5: V5, evidence: map<string, set<NetType>>) {
    forall id :: Lookup(evidence, id) == Evidence(v5, id)
  }

  method BuildEvidence(v5: V5) returns (evidence: map<string, set<NetType>>)
    ensures IsEvidence(v5, evidence)
  {
    evidence := map[];
    for n := 0 to |v5.resources|
      invariant EvidenceUpTo(v5, evidence, n, 0)
    {
      evidence := AddEvidence(evidence, v5.resources[n].id, TypeOfTask(v5, OriginTask(v5.resources[n])));
    }
    for k := 0 to |v5.bindings|
      invariant EvidenceUpTo(v5, evidence, |v5.resources|, k)
    {
      BindingEvidence(v5, evidence, k);
      var b := v5.bindings[k];
      var types := TypeOfTask(v5, b.task);
      evidence := AddEvidence(evidence, b.unit, types);
      if Set(b.metric) { evidence := AddEvidence(evidence, b.metric.value, types); }
    }
  }

  ghost predicate MappedUpTo(v5: V5, fails: SourceKey -> bool, mapped: set<string>, n: nat) {
    n <= |v5.resources|
    && forall id ::
         id in mapped <==>
         exists i :: 0 <= i < n && v5.resources[i].id == id && ResourceOutcome(v5, fails, v5.resources[i]).Mapped?
  }

  /** Nothing written and nothing counted before the first row of a loop. */
  lemma {:induction false} LoopsStart(v5: V5, fails: SourceKey -> bool, bindings: seq<Row>)
    ensures ResourcePhase(v5, fails, 0) == [] && ResourceTally(v5, fails, 0) == Tally(0, 0, 0)
      && MappedUpTo(v5, fails, {}, 0)
    ensures BindingPhase(v5, fails, 0) == [] && BindingTally(v5, fails, 0) == Tally(0, 0, 0)
    ensures DerivedPhase(v5, fails, bindings, 0) == [] && DerivedTally(v5, fails, bindings, 0) == Tally(0, 0, 0)
    ensures MaintenancePhase(v5, fails, 0) == [] && MaintenanceTally(v5, fails, 0) == Tally(0, 0, 0)
  {
  }
  lemma {:induction false} ResourceNext(v5: V5, fails: SourceKey -> bool, n: nat, before: seq<Write>,
                                        mapped: set<string>)
    requires n < |v5.resources| && MappedUpTo(v5, fails, mapped, n)
    ensures before + ResourcePhase(v5, fails, n + 1) == before + ResourcePhase(v5, fails, n)
      + ResourceWrites(v5, fails, v5.resources[n])
    ensures ResourceTally(v5, fails, n + 1)
      == Tallied(ResourceTally(v5, fails, n), ResourceOutcome(v5, fails, v5.resources[n]))
    ensures MappedUpTo(v5, fails,
                       if ResourceOutcome(v5, fails, v5.resources[n]).Mapped? then mapped + {v5.resources[n].id}
                       else mapped, n + 1)
  {
    hide ResourceOutcome;
    hide ResourceWrites;
    hide Tallied;
  }

  /** What the later loops look up: evidence, resource_ids and mapped_resource_ids. */
  datatype Index = Index(evidence: map<string, set<NetType>>, resources: set<string>, mapped: set<string>)

  ghost predicate IsIndex(v5: V5, fails: SourceKey -> bool, index: Index) {
    && IsEvidence(v5, index.evidence)
    && (forall id :: id in index.resources <==> IsResource(v5, id))
    && (forall id :: id in index.mapped <==> IsMapped(v5, fails, id))
  }

  lemma {:induction false} IndexAt(v5: V5, fails: SourceKey -> bool, index: Index, id: string)
    requires IsIndex(v5, fails, index)
    ensures Lookup(index.evidence, id) == Evidence(v5, id)
    ensures id in index.resources <==> IsResource(v5, id)
    ensures id in index.mapped <==> IsMapped(v5, fails, id)
  {
  }

  lemma {:induction false} IndexComplete(v5: V5, fails: SourceKey -> bool, index: Index)
    requires IsEvidence(v5, index.evidence) && MappedUpTo(v5, fails, index.mapped, |v5.resources|)
    requires index.resources == set r | r in v5.resources :: r.id
    ensures IsIndex(v5, fails, index)
  {
    hide ResourceOutcome;
    hide IsEvidence;
  }

  lemma {:induction false} BindingNext(v5: V5, fails: SourceKey -> bool, n: nat, before: seq<Write>)
    requires n < |v5.bindings|
    ensures before + BindingPhase(v5, fails, n + 1) == before + BindingPhase(v5, fails, n)
      + BindingWrites(v5, fails, v5.bindings[n])
    ensures BindingTally(v5, fails, n + 1)
      == Tallied(BindingTally(v5, fails, n), BindingOutcome(v5, fails, v5.bindings[n]))
  {
    hide BindingOutcome;
    hide BindingWrites;
    hide Tallied;
  }

  lemma {:induction false} DerivedNext(v5: V5, fails: SourceKey -> bool, bindings: seq<Row>, n: nat, before: seq<Write>)
    requires n < |v5.derived|
    ensures before + DerivedPhase(v5, fails, bindings, n + 1)
         == before + DerivedPhase(v5, fails, bindings, n) + DerivedWrites(v5, fails, bindings, v5.derived[n])
    ensures DerivedTally(v5, fails, bindings, n + 1)
      == Tallied(DerivedTally(v5, fails, bindings, n), DerivedOutcome(v5, fails, bindings, v5.derived[n]))
  {
    hide DerivedOutcome;
    hide DerivedWrites;
    hide Tallied;
  }

  lemma {:induction false} MaintenanceNext(v5: V5, fails: SourceKey -> bool, n: nat, before: seq<Write>)
    requires n < |v5.maintenance|
    ensures before + MaintenancePhase(v5, fails, n + 1) == before + MaintenancePhase(v5, fails, n)
      + MaintenanceWrites(v5, fails, v5.maintenance[n])
    ensures MaintenanceTally(v5, fails, n + 1)
      == Tallied(MaintenanceTally(v5, fails, n), MaintenanceOutcome(v5, fails, v5.maintenance[n]))
  {
    hide MaintenanceOutcome;
    hide MaintenanceWrites;
    hide Tallied;
  }

  /** The v6 tables of the database. The ghost fields keep the tables of the start of a run and the writes
      since then. */
  class V6Store {
    var resources: seq<Row>
    var units: seq<Row>
    var bindings: seq<Row>
    var derived: seq<Row>
    var maintenance: seq<Row>
    var pendings: seq<PendingRow>
    var audits: seq<AuditRow>
    ghost var start: Tables
    ghost var writes: seq<Write>

    ghost function Contents(): Tables
      reads `resources, `units, `bindings, `derived, `maintenance, `pendings, `audits
    {
      Tables(resources, units, bindings, derived, maintenance, pendings, audits)
    }

    ghost predicate Valid()
      reads this
    {
      Contents() == ApplyAll(start, writes)
    }

    lemma {:induction false} OneMore(t: Tables, ws: seq<Write>, w: Write)
      ensures ApplyAll(t, ws + [w]) == Apply(ApplyAll(t, ws), w)
    {
      assert (ws + [w])[..|ws|] == ws;
    }

    /** _insert_ignore on one of the five configuration tables. */
    method InsertRow(name: TableName, row: Row)
      requires Valid()
      modifies this
      ensures Valid() && start == old(start) && writes == old(writes) + [Insert(name, row)]
    {
      OneMore(start, writes, Insert(name, row));
      hide ApplyAll; hide Taken; hide InsertIgnore;
      match name {
        case Resources => resources := InsertIgnore(resources, row);
        case Units => units := InsertIgnore(units, row);
        case Bindings => bindings := InsertIgnore(bindings, row);
        case DerivedRows => derived := InsertIgnore(derived, row);
        case MaintenanceRows => maintenance := InsertIgnore(maintenance, row);
      }
      writes := writes + [Insert(name, row)];
    }

    /** _insert_pending. */
    method InsertPending(key: SourceKey, candidates: set<NetType>, reason: Reason, attempts: nat)
      requires Valid()
      modifies this
      ensures Valid() && start == old(start)
        && writes == old(writes) + [Pend(PendingRow(key, candidates, reason, attempts))]
    {
      var row := PendingRow(key, candidates, reason, attempts);
      OneMore(start, writes, Pend(row));
      hide ApplyAll; hide IsPending;
      if !IsPending(pendings, key) { pendings := pendings + [row]; }
      writes := writes + [Pend(row)];
    }

    /** _insert_recovery_audit. */
    method InsertAudit(row: AuditRow)
      requires Valid()
      modifies this
      ensures Valid() && start == old(start) && writes == old(writes) + [Audit(row)]
    {
      OneMore(start, writes, Audit(row));
      hide ApplyAll; hide IsAudited;
      if !IsAudited(audits, row.key) { audits := audits + [row]; }
      writes := writes + [Audit(row)];
    }

    /** One resource of the first loop. */
    method MigrateResource(v5: V5, fails: SourceKey -> bool, evidence: map<string, set<NetType>>, r: Resource)
      returns (outcome: Outcome)
      requires Valid() && IsEvidence(v5, evidence)
      modifies this
      ensures outcome == ResourceOutcome(v5, fails, r)
      ensures Valid() && start == old(start) && writes == old(writes) + ResourceWrites(v5, fails, r)
    {
      hide Valid; hide Evidence; hide UniqueType; hide ResourceRow; hide UnitRow; hide PendingReason;
      var candidates := Lookup(evidence, r.id);
      assert candidates == Evidence(v5, r.id);
      hide IsEvidence;
      var netType := UniqueType(candidates);
      if netType.None? {
        outcome := Unattributed(PendingReason(candidates, false), candidates);
        InsertPending(ResourceKey(r.id), candidates, PendingReason(candidates, false), 0);
      } else if fails(ResourceKey(r.id)) {
        outcome := Broken(netType.value);
        InsertPending(ResourceKey(r.id), candidates, MigrationError, 1);
      } else {
        outcome := Mapped(netType.value);
        InsertRow(Resources, ResourceRow(r, netType.value));
        if r.kind == "mu" { InsertRow(Units, UnitRow(r, netType.value)); }
      }
      if r.kind == "me" && !r.enabled {
        InsertAudit(AuditRow(ResourceKey(r.id), netType, None, Some(r.id), ResultOf(netType, outcome.Broken?)));
      }
      hide ResultOf;
    }

    /** The resource loop, with mapped_resource_ids. */
    method MigrateResources(v5: V5, fails: SourceKey -> bool, evidence: map<string, set<NetType>>)
      returns (tally: Tally, mapped: set<string>)
      requires Valid() && IsEvidence(v5, evidence)
      modifies this
      ensures Valid() && start == old(start) && writes == old(writes) + ResourcePhase(v5, fails, |v5.resources|)
      ensures tally == ResourceTally(v5, fails, |v5.resources|)
      ensures MappedUpTo(v5, fails, mapped, |v5.resources|)
    {
      hide *;
      tally, mapped := Tally(0, 0, 0), {};
      LoopsStart(v5, fails, []);
      for n := 0 to |v5.resources|
        invariant Valid() && start == old(start) && writes == old(writes) + ResourcePhase(v5, fails, n)
        invariant tally == ResourceTally(v5, fails, n)
        invariant MappedUpTo(v5, fails, mapped, n)
      {
        var outcome := MigrateResource(v5, fails, evidence, v5.resources[n]);
        ResourceNext(v5, fails, n, old(writes), mapped);
        tally := Tallied(tally, outcome);
        if outcome.Mapped? { mapped := mapped + {v5.resources[n].id}; }
      }
    }

    /** The attribution of a binding: its candidates, whether a reference is an orphan, and its type. */
    method AttributeBinding(v5: V5, fails: SourceKey -> bool, index: Index, b: Binding)
      returns (candidates: set<NetType>, orphan: bool, netType: Option<NetType>)
      requires IsIndex(v5, fails, index)
      ensures candidates == Union(RequiredSets(v5, b)) && orphan == BindingOrphan(v5, fails, b)
        && netType == BindingType(v5, fails, b)
    {
      IndexAt(v5, fails, index, b.unit);
      if Set(b.metric) { IndexAt(v5, fails, index, b.metric.value); }
      hide IsIndex; hide Evidence; hide UniqueType; hide IsMapped; hide IsResource; hide Common; hide Union;
      hide SingleOrEmpty; hide TypeOfTask; hide Lookup;
      var taskCandidates := TypeOfTask(v5, b.task);
      var unitCandidates := Lookup(index.evidence, b.unit);
      var mapped := b.unit in index.mapped && (!Set(b.metric) || b.metric.value in index.mapped);
      orphan :=
        b.unit !in index.resources || (Set(b.metric) && b.metric.value !in index.resources)
          || (!mapped && Set(b.metric));
      var sets := [taskCandidates, unitCandidates] + if Set(b.metric) then [Lookup(index.evidence, b.metric.value)]
                                                     else [];
      candidates := Union(sets);
      netType := if SingleOrEmpty(sets) && !orphan then UniqueType(Common(sets)) else None;
    }

    /** One binding of the second loop. */
    method MigrateBinding(v5: V5, fails: SourceKey -> bool, index: Index, b: Binding) returns (outcome: Outcome)
      requires Valid() && IsIndex(v5, fails, index)
      modifies this
      ensures outcome == BindingOutcome(v5, fails, b)
      ensures Valid() && start == old(start) && writes == old(writes) + BindingWrites(v5, fails, b)
    {
      hide Valid; hide IsIndex; hide PendingReason; hide Union; hide RequiredSets; hide BindingOrphan; hide BindingType;
      hide BindingRow;
      var candidates, orphan, netType := AttributeBinding(v5, fails, index, b);
      if netType.None? {
        outcome := Unattributed(PendingReason(candidates, orphan), candidates);
        InsertPending(BindingKey(b.id), candidates, PendingReason(candidates, orphan), 0);
      } else if fails(BindingKey(b.id)) {
        outcome := Broken(netType.value);
        InsertPending(BindingKey(b.id), candidates, MigrationError, 1);
      } else {
        outcome := Mapped(netType.value);
        InsertRow(Bindings, BindingRow(b, netType.value));
      }
      if !b.enabled {
        InsertAudit(AuditRow(BindingKey(b.id), netType, Some(b.unit), b.metric, ResultOf(netType, outcome.Broken?)));
      }
      hide ResultOf;
    }

    /** The attribution of a row by its unit and metric; required are the references that must be mapped. */
    method AttributePair(v5: V5, fails: SourceKey -> bool, index: Index, unit: string, metric: string,
                         required: set<string>)
      returns (candidates: set<NetType>, orphan: bool, netType: Option<NetType>)
      requires IsIndex(v5, fails, index)
      ensures candidates == Evidence(v5, unit) + Evidence(v5, metric) && netType == PairType(v5, unit, metric)
      ensures orphan == !(required <= index.mapped)
    {
      IndexAt(v5, fails, index, unit);
      IndexAt(v5, fails, index, metric);
      hide IsIndex; hide Evidence; hide UniqueType; hide Lookup;
      var unitCandidates, metricCandidates := Lookup(index.evidence, unit), Lookup(index.evidence, metric);
      candidates := unitCandidates + metricCandidates;
      netType := if unitCandidates == metricCandidates then UniqueType(unitCandidates) else None;
      orphan := !(required <= index.mapped);
    }

    lemma {:induction false} OrphanBySet(v5: V5, fails: SourceKey -> bool, index: Index, d: Derived)
      requires IsIndex(v5, fails, index)
      ensures DerivedOrphan(v5, fails, d) == !({d.unit, d.metric, d.numerator, d.denominator} <= index.mapped)
    {
      hide IsMapped; hide IsEvidence;
    }

    /** One definition of the third loop; was holds the v6 bindings after the second loop. */
    method MigrateDerived(v5: V5, fails: SourceKey -> bool, index: Index, was: seq<Row>, d: Derived)
      returns (outcome: Outcome)
      requires Valid() && IsIndex(v5, fails, index)
      modifies this
      ensures outcome == DerivedOutcome(v5, fails, was, d)
      ensures Valid() && start == old(start) && writes == old(writes) + DerivedWrites(v5, fails, was, d)
    {
      hide Valid; hide IsIndex; hide PendingReason; hide Evidence; hide PairType; hide DerivedOrphan; hide DerivedRow;
      hide Confirmed;
      var candidates, orphan, netType :=
        AttributePair(v5, fails, index, d.unit, d.metric, {d.unit, d.metric, d.numerator, d.denominator});
      OrphanBySet(v5, fails, index, d);
      var conflict := netType.Some? && Confirmed(was, netType.value, d.unit, d.metric);
      if netType.None? || orphan {
        outcome := Unattributed(PendingReason(candidates, orphan), candidates);
        InsertPending(DerivedKey(d.id), candidates, PendingReason(candidates, orphan), 0);
      } else if conflict {
        outcome := Skipped(netType.value);
        InsertAudit(AuditRow(DerivedKey(d.id), netType, Some(d.unit), Some(d.metric), AuditSkipped));
      } else if fails(DerivedKey(d.id)) {
        outcome := Broken(netType.value);
        InsertPending(DerivedKey(d.id), candidates, MigrationError, 1);
      } else {
        outcome := Mapped(netType.value);
        InsertRow(DerivedRows, DerivedRow(d, netType.value));
      }
      if !d.enabled && !conflict {
        InsertAudit(AuditRow(DerivedKey(d.id), netType, Some(d.unit), Some(d.metric),
                             ResultOf(netType, outcome.Broken?)));
      }
    }

    /** One configuration of the fourth loop. */
    method MigrateMaintenance(v5: V5, fails: SourceKey -> bool, index: Index, m: Maintenance) returns (outcome: Outcome)
      requires Valid() && IsIndex(v5, fails, index)
      modifies this
      ensures outcome == MaintenanceOutcome(v5, fails, m)
      ensures Valid() && start == old(start) && writes == old(writes) + MaintenanceWrites(v5, fails, m)
    {
      IndexAt(v5, fails, index, m.unit);
      IndexAt(v5, fails, index, m.metric);
      hide Valid; hide IsIndex; hide PendingReason; hide Evidence; hide PairType; hide IsMapped; hide MaintenanceRow;
      var candidates, orphan, netType := AttributePair(v5, fails, index, m.unit, m.metric, {m.unit, m.metric});
      if netType.None? || orphan {
        outcome := Unattributed(PendingReason(candidates, orphan), candidates);
        InsertPending(MaintenanceKey(m.id), candidates, PendingReason(candidates, orphan), 0);
      } else if fails(MaintenanceKey(m.id)) {
        outcome := Broken(netType.value);
        InsertPending(MaintenanceKey(m.id), candidates, MigrationError, 1);
      } else {
        outcome := Mapped(netType.value);
        InsertRow(MaintenanceRows, MaintenanceRow(v5, m, netType.value));
      }
    }

    method MigrateBindings(v5: V5, fails: SourceKey -> bool, index: Index) returns (tally: Tally)
      requires Valid() && IsIndex(v5, fails, index)
      modifies this
      ensures Valid() && start == old(start) && writes == old(writes) + BindingPhase(v5, fails, |v5.bindings|)
      ensures tally == BindingTally(v5, fails, |v5.bindings|)
    {
      hide *;
      tally := Tally(0, 0, 0);
      LoopsStart(v5, fails, []);
      for n := 0 to |v5.bindings|
        invariant Valid() && start == old(start) && writes == old(writes) + BindingPhase(v5, fails, n)
        invariant tally == BindingTally(v5, fails, n)
      {
        var outcome := MigrateBinding(v5, fails, index, v5.bindings[n]);
        BindingNext(v5, fails, n, old(writes));
        tally := Tallied(tally, outcome);
      }
    }

    method MigrateDerivedRows(v5: V5, fails: SourceKey -> bool, index: Index) returns (tally: Tally)
      requires Valid() && IsIndex(v5, fails, index)
      modifies this
      ensures Valid() && start == old(start)
        && writes == old(writes) + DerivedPhase(v5, fails, old(bindings), |v5.derived|)
      ensures tally == DerivedTally(v5, fails, old(bindings), |v5.derived|)
    {
      hide *;
      var was := bindings;
      tally := Tally(0, 0, 0);
      LoopsStart(v5, fails, was);
      for n := 0 to |v5.derived|
        invariant Valid() && start == old(start) && writes == old(writes) + DerivedPhase(v5, fails, was, n)
        invariant tally == DerivedTally(v5, fails, was, n)
      {
        var outcome := MigrateDerived(v5, fails, index, was, v5.derived[n]);
        DerivedNext(v5, fails, was, n, old(writes));
        tally := Tallied(tally, outcome);
      }
    }

    method MigrateMaintenanceRows(v5: V5, fails: SourceKey -> bool, index: Index) returns (tally: Tally)
      requires Valid() && IsIndex(v5, fails, index)
      modifies this
      ensures Valid() && start == old(start) && writes == old(writes) + MaintenancePhase(v5, fails, |v5.maintenance|)
      ensures tally == MaintenanceTally(v5, fails, |v5.maintenance|)
    {
      hide *;
      tally := Tally(0, 0, 0);
      LoopsStart(v5, fails, []);
      for n := 0 to |v5.maintenance|
        invariant Valid() && start == old(start) && writes == old(writes) + MaintenancePhase(v5, fails, n)
        invariant tally == MaintenanceTally(v5, fails, n)
      {
        var outcome := MigrateMaintenance(v5, fails, index, v5.maintenance[n]);
        MaintenanceNext(v5, fails, n, old(writes));
        tally := Tallied(tally, outcome);
      }
    }

    lemma {:induction false} Phases(v5: V5, fails: SourceKey -> bool, t: Tables, r: seq<Write>, b: seq<Write>,
                                    later: seq<Write>)
      requires r == ResourcePhase(v5, fails, |v5.resources|) && b == BindingPhase(v5, fails, |v5.bindings|)
      ensures ApplyAll(t, r + b) == Bound(v5, fails, t)
      ensures later == LaterWrites(v5, fails, Bound(v5, fails, t).bindings) ==>
        ApplyAll(t, r + b + later) == Migrated(v5, fails, t)
    {
      ApplyAllConcat(t, r, b);
      ApplyAllConcat(t, r + b, later);
    }

    /** The evidence and the first two loops. */
    method MigrateSources(v5: V5, fails: SourceKey -> bool)
      returns (index: Index, resourceTally: Tally, bindingTally: Tally)
      requires Valid() && writes == []
      modifies this
      ensures IsIndex(v5, fails, index)
      ensures Valid() && start == old(start)
      ensures writes == ResourcePhase(v5, fails, |v5.resources|) + BindingPhase(v5, fails, |v5.bindings|)
      ensures resourceTally == ResourceTally(v5, fails, |v5.resources|)
        && bindingTally == BindingTally(v5, fails, |v5.bindings|)
    {
      hide *;
      var evidence := BuildEvidence(v5);
      var ids := set r | r in v5.resources :: r.id;
      var mapped;
      resourceTally, mapped := MigrateResources(v5, fails, evidence);
      index := Index(evidence, ids, mapped);
      IndexComplete(v5, fails, index);
      bindingTally := MigrateBindings(v5, fails, index);
    }

    lemma {:induction false} ReportFrom(v5: V5, fails: SourceKey -> bool, t: Tables, r: Tally, b: Tally, d: Tally,
                                        m: Tally)
      requires r == ResourceTally(v5, fails, |v5.resources|) && b == BindingTally(v5, fails, |v5.bindings|)
      requires d == DerivedTally(v5, fails, Bound(v5, fails, t).bindings, |v5.derived|)
        && m == MaintenanceTally(v5, fails, |v5.maintenance|)
      ensures ReportOf(v5, fails, t)
        == Report(r.pending + b.pending + d.pending + m.pending, r.mapped, b.mapped, d.mapped, m.mapped)
    {
    }

    lemma {:induction false} ContentsAre(t: Tables)
      requires Valid() && ApplyAll(start, writes) == t
      ensures Contents() == t && bindings == t.bindings
    {
    }

    lemma {:induction false} ValidAtStart()
      requires start == Contents() && writes == []
      ensures Valid()
    {
    }

    /** migrate_kpi_v6, in one transaction. */
    method Migrate(v5: V5, fails: SourceKey -> bool) returns (report: Report)
      modifies this
      ensures Contents() == Migrated(v5, fails, old(Contents()))
      ensures report == ReportOf(v5, fails, old(Contents()))
    {
      hide *;
      start, writes := Contents(), [];
      ghost var t := start;
      ValidAtStart();
      var index, r, b := MigrateSources(v5, fails);
      ghost var sources := writes;
      Phases(v5, fails, t, ResourcePhase(v5, fails, |v5.resources|), BindingPhase(v5, fails, |v5.bindings|), []);
      ContentsAre(Bound(v5, fails, t));
      var d := MigrateDerivedRows(v5, fails, index);
      var m := MigrateMaintenanceRows(v5, fails, index);
      Later(v5, fails, Bound(v5, fails, t).bindings, sources);
      Phases(v5, fails, t, ResourcePhase(v5, fails, |v5.resources|), BindingPhase(v5, fails, |v5.bindings|),
             LaterWrites(v5, fails, Bound(v5, fails, t).bindings));
      ContentsAre(Migrated(v5, fails, t));
      ReportFrom(v5, fails, t, r, b, d, m);
      report := Report(r.pending + b.pending + d.pending + m.pending, r.mapped, b.mapped, d.mapped, m.mapped);
    }

    lemma {:induction false} Later(v5: V5, fails: SourceKey -> bool, was: seq<Row>, sources: seq<Write>)
      ensures sources + DerivedPhase(v5, fails, was, |v5.derived|) + MaintenancePhase(v5, fails, |v5.maintenance|)
           == sources + LaterWrites(v5, fails, was)
    {
    }
  }
}
