/** Confirmation of measurement bindings (app/services/kpi_measurement_units.py, lines 900 to 978 and
    1199 to 1337). Time stamps, names and messages are dropped; each commit is one atomic step. */
module Bindings {
  import opened Wrappers

  datatype Status = Candidate | Confirmed | Ignored | Conflict

  datatype Binding = Binding(unit: string, metric: Option<string>, status: Status, enabled: bool)

  type Table = map<int, Binding>

  datatype Resource = Resource(kind: string, name: string)

  datatype Error = StatusInvalid | BindingNotFound | BindingConflict | BatchEmpty | BatchTooLarge
                 | InvalidRequest | AlreadyRegistered | NotUnregistered | MetricNotFound | MetricKindInvalid
                 | NameConflict | IdGenerateFailed

  datatype Result<+T> = Ok(value: T) | Err(error: Error)

  /** A metric id the program takes for set: it tests it for truth, so an empty one does not count. */
  predicate HasMetric(b: Binding) { b.metric.Some? && b.metric.value != "" }

  /** Each metric is confirmed under at most one measurement unit. */
  ghost predicate OneOwner(rows: Table) {
    forall a, b | a in rows && b in rows && rows[a].status == Confirmed && rows[b].status == Confirmed
        && HasMetric(rows[a]) && rows[a].metric == rows[b].metric ::
      rows[a].unit == rows[b].unit
  }

  // ----- Single confirmation ---------------------------------------------------------------------

  /** Another row confirms the metric of this one for another unit. */
  ghost predicate OwnedElsewhere(rows: Table, id: int)
    requires id in rows
  {
    exists other :: other in rows && rows[other].status == Confirmed
      && rows[other].metric == rows[id].metric && rows[other].unit != rows[id].unit
  }

  ghost function StatusSet(rows: Table, id: int, status: Status, enabled: Option<bool>): (Table, Result<Binding>) {
    if status == Conflict then (rows, Err(StatusInvalid))
    else if id !in rows then (rows, Err(BindingNotFound))
    else if HasMetric(rows[id]) && status == Confirmed && OwnedElsewhere(rows, id) then (rows, Err(BindingConflict))
    else
      var row := rows[id].(status := status, enabled := if enabled.Some? then enabled.value else rows[id].enabled);
      (rows[id := row], Ok(row))
  }

  lemma {:induction false} StatusSetKeepsOwner(rows: Table, id: int, status: Status, enabled: Option<bool>)
    requires OneOwner(rows)
    ensures OneOwner(StatusSet(rows, id, status, enabled).0)
  {
  }

  // ----- Batches ---------------------------------------------------------------------------------

  datatype Outcome = Done | AlreadyConfirmed | NotFound | NotConfirmable | MetricMissing | Conflicting

  /** The rows of a batch that may be confirmed for a metric. */
  ghost predicate IsCandidates(rows: Table, ids: set<int>, candidates: map<string, set<int>>) {
    forall metric, id :: (metric in candidates && id in candidates[metric]) <==> Selected(rows, ids, id, metric)
  }

  ghost predicate Selected(rows: Table, ids: set<int>, id: int, metric: string) {
    id in ids && id in rows && rows[id].status == Candidate && rows[id].metric == Some(metric)
  }

  /** The outcome of one id of a batch, given the table and the set of ids: confirmed unless the batch
      selects the metric for two units, or the table already has it for another. */
  ghost function OutcomeOf(rows: Table, ids: set<int>, id: int): Outcome {
    if id !in rows then NotFound
    else if rows[id].status == Confirmed then AlreadyConfirmed
    else if rows[id].status != Candidate then NotConfirmable
    else if rows[id].metric.None? then MetricMissing
    else if Contested(rows, ids, id) then Conflicting
    else Done
  }

  ghost predicate Contested(rows: Table, ids: set<int>, id: int)
    requires id in rows && rows[id].metric.Some?
  {
    var metric := rows[id].metric.value;
    || (exists other :: Selected(rows, ids, other, metric) && rows[other].unit != rows[id].unit)
    || (exists other :: other in rows && rows[other].status == Confirmed && rows[other].metric == Some(metric)
          && rows[other].unit != rows[id].unit)
  }

  /** The table after a batch. */
  ghost function BatchConfirmed(rows: Table, ids: set<int>): Table {
    map id | id in rows ::
      if id in ids && OutcomeOf(rows, ids, id) == Done then rows[id].(status := Confirmed) else rows[id]
  }

  lemma {:induction false} BatchKeepsOwner(rows: Table, ids: set<int>)
    requires OneOwner(rows)
    ensures OneOwner(BatchConfirmed(rows, ids))
  {
    var after := BatchConfirmed(rows, ids);
    forall a, b | a in after && b in after && after[a].status == Confirmed && after[b].status == Confirmed
        && HasMetric(after[a]) && after[a].metric == after[b].metric
      ensures after[a].unit == after[b].unit
    {
    }
  }

  lemma {:induction false} RepeatedOutcome(rows: Table, ids: set<int>, id: int)
    requires id in ids
    ensures OutcomeOf(BatchConfirmed(rows, ids), ids, id) ==
      if OutcomeOf(rows, ids, id) == Done then AlreadyConfirmed else OutcomeOf(rows, ids, id)
  {
    var after := BatchConfirmed(rows, ids);
    if OutcomeOf(rows, ids, id) == Conflicting {
      var metric := rows[id].metric.value;
      if other :| Selected(rows, ids, other, metric) && rows[other].unit != rows[id].unit {
        assert Selected(rows, ids, id, metric);
        assert Contested(rows, ids, other);
        assert Selected(after, ids, other, metric);
      } else {
        var other :| other in rows && rows[other].status == Confirmed && rows[other].metric == Some(metric)
          && rows[other].unit != rows[id].unit;
        assert other in after && after[other] == rows[other];
      }
      assert Contested(after, ids, id);
    }
  }

  /** Repeating a batch changes no row; what it confirmed is reported as already confirmed, and every
      other outcome stays. */
  lemma {:induction false} RepeatedBatch(rows: Table, ids: set<int>)
    ensures BatchConfirmed(BatchConfirmed(rows, ids), ids) == BatchConfirmed(rows, ids)
    ensures forall id :: id in ids ==>
      OutcomeOf(BatchConfirmed(rows, ids), ids, id) ==
        (if OutcomeOf(rows, ids, id) == Done then AlreadyConfirmed else OutcomeOf(rows, ids, id))
  {
    hide OutcomeOf;
    forall id | id in ids
      ensures OutcomeOf(BatchConfirmed(rows, ids), ids, id) ==
        if OutcomeOf(rows, ids, id) == Done then AlreadyConfirmed else OutcomeOf(rows, ids, id)
    {
      RepeatedOutcome(rows, ids, id);
    }
  }

  lemma {:induction false} ElemsSnoc(s: seq<int>, x: int)
    ensures Elems(s + [x]) == Elems(s) + {x}
    ensures x in s <==> x in Elems(s)
  {
  }

  function Unique(ids: seq<int>): (unique: seq<int>)
    ensures Elems(unique) == Elems(ids) && Distinct(unique)
  {
    if ids == [] then []
    else
      var rest, last := Unique(ids[..|ids| - 1]), ids[|ids| - 1];
      assert ids == ids[..|ids| - 1] + [last];
      ElemsSnoc(ids[..|ids| - 1], last);
      ElemsSnoc(rest, last);
      if last in rest then rest else rest + [last]
  }

  ghost function Outcomes(rows: Table, unique: seq<int>): (outcomes: seq<(int, Outcome)>)
    ensures |outcomes| == |unique|
  {
    seq(|unique|, i requires 0 <= i < |unique| => (unique[i], OutcomeOf(rows, Elems(unique), unique[i])))
  }

  /** A batch reports on each distinct id once, in the order of first mention; an id's outcome, and the
      table afterwards, depend on the set of ids only. */
  ghost function Batch(rows: Table, ids: seq<int>): (Table, Result<seq<(int, Outcome)>>) {
    var unique := Unique(ids);
    if unique == [] then (rows, Err(BatchEmpty))
    else if |unique| > 200 then (rows, Err(BatchTooLarge))
    else (BatchConfirmed(rows, Elems(ids)), Ok(Outcomes(rows, unique)))
  }

  // ----- Registration ----------------------------------------------------------------------------

  const MANUAL_METRIC_PREFIX := "ME__MANUAL_"

  /** Names and ids are already stripped; rest is the readable and random part of a generated id that no resource
      has yet, missing when every attempt met an existing id. */
  datatype Registration =
    Registration(nameZh: Option<string>, nameEn: Option<string>, existing: Option<string>, rest: Option<string>)

  predicate TooLong(name: Option<string>) { name.Some? && |name.value| > 256 }

  predicate UsesExisting(r: Registration) { r.existing.Some? && r.existing.value != "" }

  predicate Malformed(r: Registration) {
    || (if UsesExisting(r) then r.nameZh.Some? || r.nameEn.Some? else r.nameZh.None? || r.nameZh.value == "")
    || TooLong(r.nameZh) || TooLong(r.nameEn)
  }

  datatype Store = Store(rows: Table, resources: map<string, Resource>)

  ghost predicate NameTaken(resources: map<string, Resource>, name: string) {
    exists id :: id in resources && resources[id] == Resource("me", name)
  }

  ghost function Registered(s: Store, id: int, r: Registration): (Store, Result<string>) {
    if Malformed(r) then (s, Err(InvalidRequest))
    else if id !in s.rows then (s, Err(BindingNotFound))
    else if s.rows[id].metric.Some? then (s, Err(AlreadyRegistered))
    else if s.rows[id].status != Candidate then (s, Err(NotUnregistered))
    else if UsesExisting(r) then
      var metric := r.existing.value;
      if metric !in s.resources then (s, Err(MetricNotFound))
      else if s.resources[metric].kind != "me" then (s, Err(MetricKindInvalid))
      else (s.(rows := s.rows[id := s.rows[id].(metric := Some(metric))]), Ok(metric))
    else if NameTaken(s.resources, r.nameZh.value) then (s, Err(NameConflict))
    else if r.rest.None? || MANUAL_METRIC_PREFIX + r.rest.value in s.resources then (s, Err(IdGenerateFailed))
    else
      var metric := MANUAL_METRIC_PREFIX + r.rest.value;
      (Store(s.rows[id := s.rows[id].(metric := Some(metric))], s.resources[metric := Resource("me", r.nameZh.value)]),
       Ok(metric))
  }

  // ----- The service -----------------------------------------------------------------------------

  class BindingService {
    var rows: Table
    var resources: map<string, Resource>

    constructor (rows: Table, resources: map<string, Resource>)
      ensures this.rows == rows && this.resources == resources
    {
      this.rows, this.resources := rows, resources;
    }

    method SetStatus(id: int, status: Status, enabled: Option<bool>) returns (result: Result<Binding>)
      modifies this`rows
      ensures (rows, result) == StatusSet(old(rows), id, status, enabled)
    {
      if status == Conflict { return Err(StatusInvalid); }
      if id !in rows { return Err(BindingNotFound); }
      var row := rows[id];
      if HasMetric(row) && status == Confirmed {
        var conflicts := set other | other in rows && rows[other].metric == row.metric
          && rows[other].unit != row.unit && rows[other].status == Confirmed && other != id;
        assert conflicts != {} <==> OwnedElsewhere(rows, id) by {
          if OwnedElsewhere(rows, id) {
            var other :| other in rows && rows[other].status == Confirmed
              && rows[other].metric == rows[id].metric && rows[other].unit != rows[id].unit;
            assert other in conflicts;
          }
        }
        if conflicts != {} { return Err(BindingConflict); }
      }
      row := row.(status := status);
      if enabled.Some? { row := row.(enabled := enabled.value); }
      rows := rows[id := row];
      result := Ok(row);
    }

    /** The first loop of a batch: the outcome of each id before conflicts are looked at, and the
        candidates of each metric. */
    method Sort(unique: seq<int>) returns (items: seq<Outcome>, candidates: map<string, set<int>>)
      ensures |items| == |unique|
      ensures forall i :: 0 <= i < |unique| ==> items[i] == Preliminary(rows, unique[i])
      ensures IsCandidates(rows, Elems(unique), candidates)
    {
      items, candidates := [], map[];
      for n := 0 to |unique|
        invariant |items| == n
        invariant forall i :: 0 <= i < n ==> items[i] == Preliminary(rows, unique[i])
        invariant forall metric, id ::
          (metric in candidates && id in candidates[metric]) <==> Selected(rows, Elems(unique[..n]), id, metric)
      {
        var id := unique[n];
        assert unique[..n + 1] == unique[..n] + [id];
        ElemsSnoc(unique[..n], id);
        assert forall metric, c :: Selected(rows, Elems(unique[..n]) + {id}, c, metric) <==>
          Selected(rows, Elems(unique[..n]), c, metric)
          || (c == id && id in rows && rows[id].status == Candidate && rows[id].metric == Some(metric));
        hide Selected; hide Elems;
        if id !in rows {
          items := items + [NotFound];
        } else if rows[id].status == Confirmed {
          items := items + [AlreadyConfirmed];
        } else if rows[id].status != Candidate {
          items := items + [NotConfirmable];
        } else if rows[id].metric.None? {
          items := items + [MetricMissing];
        } else {
          var metric := rows[id].metric.value;
          candidates := candidates[metric := (if metric in candidates then candidates[metric] else {}) + {id}];
          items := items + [Done];
        }
      }
      assert unique[..|unique|] == unique;
    }

    /** One selected id of the second loop: refused when the batch selects its metric for another unit, or
        the table has it confirmed for one. */
    method ConfirmSelected(before: Table, id: int, selected: set<int>) returns (outcome: Outcome)
      requires id in before && id in rows && before[id].metric.Some? && forall c :: c in selected ==> c in before
      modifies this`rows
      ensures outcome == UnitsOutcome(before, id, selected)
      ensures rows == if outcome == Done then old(rows)[id := old(rows)[id].(status := Confirmed)] else old(rows)
    {
      var metric := before[id].metric.value;
      var selectedUnits := set c | c in selected :: before[c].unit;
      var existingUnits := (set c | c in before && before[c].status == Confirmed && before[c].metric == Some(metric)
                            :: before[c].unit) - {before[id].unit};
      if selectedUnits != {before[id].unit} || existingUnits != {} { return Conflicting; }
      rows := rows[id := rows[id].(status := Confirmed)];
      outcome := Done;
    }

    method BatchConfirm(ids: seq<int>) returns (result: Result<seq<(int, Outcome)>>)
      modifies this`rows
      ensures (rows, result) == Batch(old(rows), ids)
    {
      var unique := Unique(ids);
      if unique == [] { return Err(BatchEmpty); }
      if |unique| > 200 { return Err(BatchTooLarge); }
      var outcomes := ConfirmEach(unique);
      AllConfirmed(old(rows), ids, unique);
      hide Outcomes;
      result := Ok(outcomes);
    }

    method ConfirmEach(unique: seq<int>) returns (outcomes: seq<(int, Outcome)>)
      modifies this`rows
      ensures outcomes == Outcomes(old(rows), unique) && rows == PartlyConfirmed(old(rows), unique, |unique|)
    {
      hide *;
      var items, candidates := Sort(unique);
      var before := rows;
      outcomes := [];
      NoneConfirmed(before, unique);
      for n := 0 to |unique|
        invariant outcomes == Outcomes(before, unique)[..n]
        invariant rows == PartlyConfirmed(before, unique, n)
      {
        var id := unique[n];
        PartlyStep(before, unique, n);
        OutcomesMore(before, unique, n);
        var outcome := items[n];
        if outcome == Done {
          SelectedUnits(before, unique, n, candidates);
          outcome := ConfirmSelected(before, id, candidates[before[id].metric.value]);
        }
        outcomes := outcomes + [(id, outcome)];
      }
      assert |Outcomes(before, unique)| == |unique|;
      assert Outcomes(before, unique)[..|unique|] == Outcomes(before, unique);
    }

    method Register(id: int, r: Registration) returns (result: Result<string>)
      modifies this
      ensures (Store(rows, resources), result) == Registered(Store(old(rows), old(resources)), id, r)
    {
      if UsesExisting(r) {
        if r.nameZh.Some? || r.nameEn.Some? { return Err(InvalidRequest); }
      } else if r.nameZh.None? || r.nameZh.value == "" {
        return Err(InvalidRequest);
      }
      if TooLong(r.nameZh) || TooLong(r.nameEn) { return Err(InvalidRequest); }
      if id !in rows { return Err(BindingNotFound); }
      var row := rows[id];
      if row.metric.Some? { return Err(AlreadyRegistered); }
      if row.status != Candidate { return Err(NotUnregistered); }
      if UsesExisting(r) {
        var metric := r.existing.value;
        if metric !in resources { return Err(MetricNotFound); }
        if resources[metric].kind != "me" { return Err(MetricKindInvalid); }
        rows := rows[id := row.(metric := Some(metric), status := Candidate)];
        return Ok(metric);
      }
      var duplicates := set m | m in resources && resources[m].kind == "me" && resources[m].name == r.nameZh.value;
      assert duplicates != {} <==> NameTaken(resources, r.nameZh.value) by {
        if NameTaken(resources, r.nameZh.value) {
          var m :| m in resources && resources[m] == Resource("me", r.nameZh.value);
          assert m in duplicates;
        }
      }
      if duplicates != {} { return Err(NameConflict); }
      if r.rest.None? || MANUAL_METRIC_PREFIX + r.rest.value in resources { return Err(IdGenerateFailed); }
      var metric := MANUAL_METRIC_PREFIX + r.rest.value;
      resources := resources[metric := Resource("me", r.nameZh.value)];
      rows := rows[id := row.(metric := Some(metric), status := Candidate)];
      result := Ok(metric);
    }
  }

  /** The outcome of an id before conflicts between units are looked at. */
  function Preliminary(rows: Table, id: int): Outcome {
    if id !in rows then NotFound
    else if rows[id].status == Confirmed then AlreadyConfirmed
    else if rows[id].status != Candidate then NotConfirmable
    else if rows[id].metric.None? then MetricMissing
    else Done
  }

  /** The table when the first n ids of a batch were dealt with. */
  ghost function PartlyConfirmed(rows: Table, unique: seq<int>, n: nat): Table
    requires n <= |unique|
  {
    map id | id in rows ::
      if id in unique[..n] && OutcomeOf(rows, Elems(unique), id) == Done then rows[id].(status := Confirmed)
      else rows[id]
  }

  lemma {:induction false} PartlyStep(rows: Table, unique: seq<int>, n: nat)
    requires n < |unique|
    ensures n == 0 ==> PartlyConfirmed(rows, unique, 0) == rows
    ensures OutcomeOf(rows, Elems(unique), unique[n]) == Done ==>
      unique[n] in rows && PartlyConfirmed(rows, unique, n + 1)
        == PartlyConfirmed(rows, unique,
                           n)[unique[n] := PartlyConfirmed(rows, unique, n)[unique[n]].(status := Confirmed)]
    ensures OutcomeOf(rows, Elems(unique), unique[n]) != Done ==>
      PartlyConfirmed(rows, unique, n + 1) == PartlyConfirmed(rows, unique, n)
  {
    assert unique[..n + 1] == unique[..n] + [unique[n]];
    assert OutcomeOf(rows, Elems(unique), unique[n]) == Done ==> unique[n] in rows;
    hide OutcomeOf;
  }

  /** What the two unit sets of the second loop decide. */
  function UnitsOutcome(rows: Table, id: int, selected: set<int>): Outcome
    requires id in rows && rows[id].metric.Some? && forall c :: c in selected ==> c in rows
  {
    var selectedUnits := set c | c in selected :: rows[c].unit;
    var existingUnits := (set c | c in rows && rows[c].status == Confirmed && rows[c].metric == rows[id].metric
                          :: rows[c].unit) - {rows[id].unit};
    if selectedUnits != {rows[id].unit} || existingUnits != {} then Conflicting else Done
  }

  lemma {:induction false} OutcomesMore(rows: Table, unique: seq<int>, n: nat)
    requires n < |unique|
    ensures Preliminary(rows, unique[n]) != Done ==>
      OutcomeOf(rows, Elems(unique), unique[n]) == Preliminary(rows, unique[n])
    ensures Outcomes(rows, unique)[..n + 1] == Outcomes(rows, unique)[..n]
      + [(unique[n], OutcomeOf(rows, Elems(unique), unique[n]))]
    ensures Preliminary(rows, unique[n]) == Done ==>
      unique[n] in rows && rows[unique[n]].metric.Some? && unique[n] in PartlyConfirmed(rows, unique, n)
  {
    assert Preliminary(rows, unique[n]) != Done ==>
      OutcomeOf(rows, Elems(unique), unique[n]) == Preliminary(rows, unique[n]);
    hide OutcomeOf;
  }

  /** The two unit sets of the second loop decide whether the row is contested. */
  lemma {:induction false} SelectedUnits(rows: Table, unique: seq<int>, n: nat, candidates: map<string, set<int>>)
    requires n < |unique| && Preliminary(rows, unique[n]) == Done
    requires IsCandidates(rows, Elems(unique), candidates)
    ensures
      var id := unique[n];
      var metric := rows[id].metric.value;
      && metric in candidates && (forall c :: c in candidates[metric] ==> c in rows)
      && OutcomeOf(rows, Elems(unique), id) == UnitsOutcome(rows, id, candidates[metric])
  {
    var id := unique[n];
    var metric := rows[id].metric.value;
    assert id in Elems(unique) && Selected(rows, Elems(unique), id, metric);
    assert forall c :: c in candidates[metric] <==> Selected(rows, Elems(unique), c, metric);
    var selectedUnits := set c | c in candidates[metric] :: rows[c].unit;
    var existingUnits := (set c | c in rows && rows[c].status == Confirmed && rows[c].metric == rows[id].metric
                          :: rows[c].unit) - {rows[id].unit};
    assert rows[id].unit in selectedUnits;
    hide Elems;
    if Contested(rows, Elems(unique), id) {
      if other :| Selected(rows, Elems(unique), other, metric) && rows[other].unit != rows[id].unit {
        assert rows[other].unit in selectedUnits;
      } else {
        var other :| other in rows && rows[other].status == Confirmed && rows[other].metric == Some(metric)
          && rows[other].unit != rows[id].unit;
        assert rows[other].unit in existingUnits;
      }
    } else {
      assert selectedUnits <= {rows[id].unit};
      assert existingUnits <= {};
    }
  }

  lemma {:induction false} NoneConfirmed(rows: Table, unique: seq<int>)
    ensures Outcomes(rows, unique)[..0] == [] && PartlyConfirmed(rows, unique, 0) == rows
  {
    hide OutcomeOf;
  }

  lemma {:induction false} AllConfirmed(rows: Table, ids: seq<int>, unique: seq<int>)
    requires unique == Unique(ids)
    ensures PartlyConfirmed(rows, unique, |unique|) == BatchConfirmed(rows, Elems(ids))
  {
    assert unique[..|unique|] == unique;
    assert forall id :: id in unique <==> id in Elems(ids);
    assert Elems(unique) == Elems(ids);
    hide OutcomeOf; hide Unique;
  }

  // ----- Runs ------------------------------------------------------------------------------------

  datatype Call =
    | CallSetStatus(id: int, status: Status, enabled: Option<bool>)
    | CallBatch(ids: seq<int>)
    | CallRegister(bindingId: int, registration: Registration)

  ghost function Apply(s: Store, call: Call): Store {
    match call
    case CallSetStatus(id, status, enabled) => s.(rows := StatusSet(s.rows, id, status, enabled).0)
    case CallBatch(ids) => s.(rows := Batch(s.rows, ids).0)
    case CallRegister(id, r) => Registered(s, id, r).0
  }

  ghost function Run(s: Store, calls: seq<Call>): Store {
    if calls == [] then s else Apply(Run(s, calls[..|calls| - 1]), calls[|calls| - 1])
  }

  lemma {:induction false} RegisterKeepsOwner(s: Store, id: int, r: Registration)
    requires OneOwner(s.rows)
    ensures OneOwner(Registered(s, id, r).0.rows)
  {
  }

  /** Single ownership survives every sequence of calls. */
  lemma {:induction false} RunsKeepOwner(s: Store, calls: seq<Call>)
    requires OneOwner(s.rows)
    ensures OneOwner(Run(s, calls).rows)
  {
    hide OneOwner; hide StatusSet; hide BatchConfirmed; hide Registered;
    if calls != [] {
      var t := Run(s, calls[..|calls| - 1]);
      RunsKeepOwner(s, calls[..|calls| - 1]);
      match calls[|calls| - 1]
      case CallSetStatus(id, status, enabled) => StatusSetKeepsOwner(t.rows, id, status, enabled);
      case CallBatch(ids) => BatchKeepsOwner(t.rows, Elems(ids));
      case CallRegister(id, r) => RegisterKeepsOwner(t, id, r);
    }
  }

  /** A batch in another order, or with repetitions, changes the table in the same way and gives each
      id the same outcome. */
  lemma {:induction false} BatchOrder(rows: Table, ids: seq<int>, other: seq<int>)
    requires Elems(ids) == Elems(other)
    ensures Batch(rows, ids).0 == Batch(rows, other).0
    ensures Batch(rows, ids).1.Ok? <==> Batch(rows, other).1.Ok?
    ensures Batch(rows, ids).1.Ok? ==>
      forall i, j | 0 <= i < |Batch(rows, ids).1.value| && 0 <= j < |Batch(rows, other).1.value|
          && Batch(rows, ids).1.value[i].0 == Batch(rows, other).1.value[j].0 ::
        Batch(rows, ids).1.value[i] == Batch(rows, other).1.value[j]
  {
    DistinctSize(Unique(ids));
    DistinctSize(Unique(other));
    hide OutcomeOf; hide BatchConfirmed;
  }

  lemma {:induction false} DistinctSize(s: seq<int>)
    requires Distinct(s)
    ensures |Elems(s)| == |s|
  {
    if s != [] {
      var front := s[..|s| - 1];
      DistinctSize(front);
      assert s == front + [s[|s| - 1]];
      assert Elems(s) == Elems(front) + {s[|s| - 1]};
    }
  }

  /** No resource has an empty id, and no binding refers to one. */
  ghost predicate IdsNamed(s: Store) {
    "" !in s.resources && forall id :: id in s.rows ==> s.rows[id].metric != Some("")
  }

  lemma {:induction false} ApplyKeepsIds(s: Store, call: Call)
    requires IdsNamed(s)
    ensures IdsNamed(Apply(s, call))
  {
    match call
    case CallSetStatus(_, _, _) =>
    case CallBatch(ids) => hide OutcomeOf; hide Unique;
    case CallRegister(_, r) => assert r.rest.Some? ==> MANUAL_METRIC_PREFIX + r.rest.value != "";
  }

  /** Each metric of whatever id is confirmed under at most one measurement unit. */
  ghost predicate EachOwnedOnce(rows: Table) {
    forall a, b | a in rows && b in rows && rows[a].status == Confirmed && rows[b].status == Confirmed
        && rows[a].metric.Some? && rows[a].metric == rows[b].metric ::
      rows[a].unit == rows[b].unit
  }

  /** Ids stay named over every sequence of calls, and so the ownership of every metric is unique. */
  lemma {:induction false} RunsOwnEachOnce(s: Store, calls: seq<Call>)
    requires IdsNamed(s) && EachOwnedOnce(s.rows)
    ensures IdsNamed(Run(s, calls)) && EachOwnedOnce(Run(s, calls).rows)
  {
    RunsKeepIds(s, calls);
    RunsKeepOwner(s, calls);
    hide Run;
  }

  lemma {:induction false} RunsKeepIds(s: Store, calls: seq<Call>)
    requires IdsNamed(s)
    ensures IdsNamed(Run(s, calls))
  {
    hide IdsNamed; hide Apply;
    if calls != [] {
      RunsKeepIds(s, calls[..|calls| - 1]);
      ApplyKeepsIds(Run(s, calls[..|calls| - 1]), calls[|calls| - 1]);
    }
  }
}
