/** Recovery retries and pending attributions as idempotent maintenance operations
    (app/services/kpi_measurement_scope.py, lines 657 to 855 and 925 to 1330). Every commit is one atomic
    change, and a call can stop between any two of them. Calls do not overlap. An operation is identified by
    its idempotency key, which is unique in its table. */
module Maintenance {
  import opened Texts
  import opened Wrappers

  // ----- Rows ------------------------------------------------------------------------------------

  datatype AuditResult = AuditPending | AuditFailed | AuditRecovered | AuditSkipped

  datatype AuditError = TypeMissing | TypeInvalid | OtherError

  datatype AuditRow = AuditRow(netType: Option<string>, result: AuditResult, error: Option<AuditError>, attempts: nat)

  datatype Resolution = Unresolved | Assigned | Materialized | FailedResolution | OtherResolution

  datatype PendingRow = PendingRow(table: string, payload: map<string, string>, key: string, state: Resolution,
                                   assignedType: Option<string>, attempts: nat, failed: bool)

  datatype ItemResult = ItemPending | ItemSucceeded | ItemFailed

  datatype Item = Item(target: int, result: ItemResult)

  datatype Status = Queued | Running | Succeeded | PartialSuccess | Failed

  /** The fingerprint of a request: its operation type and payload. */
  datatype Request = RetryRequest(audits: multiset<int>) | ResolveRequest(pending: int, netType: string)

  datatype Operation = Operation(request: Request, status: Status, total: nat, succeeded: nat, failed: nat,
                                 pending: nat, items: seq<Item>)

  datatype ResourceRow = ResourceRow(netType: string, id: string, kind: string, key: string)
  datatype UnitRow = UnitRow(netType: string, id: string, key: string)
  datatype BindingRow = BindingRow(netType: string, unit: string, rawName: string, metric: Option<string>,
                                   state: string, key: string)
  datatype DerivedRow = DerivedRow(netType: string, unit: string, metric: string, numerator: string,
                                   denominator: string, key: string)
  datatype ConfigRow = ConfigRow(netType: string, unit: string, metric: string, key: string)

  datatype V6 = V6(resources: set<ResourceRow>, units: set<UnitRow>, bindings: set<BindingRow>,
                   derived: set<DerivedRow>, configs: set<ConfigRow>)

  datatype State = State(audits: map<int, AuditRow>, pendings: map<int, PendingRow>, operations: map<string, Operation>,
                         v6: V6)

  // ----- Materializing one pending row -----------------------------------------------------------

  /** A text field of a snapshot; a missing one is empty. */
  function Field(payload: map<string, string>, name: string): string {
    if name in payload then Strip(payload[name]) else ""
  }

  predicate HasResource(v6: V6, t: string, id: string) { exists r :: r in v6.resources && r.netType == t && r.id == id }

  predicate HasMetric(v6: V6, t: string, id: string) {
    exists r :: r in v6.resources && r.netType == t && r.id == id && r.kind == "me"
  }

  predicate HasUnit(v6: V6, t: string, id: string) { exists u :: u in v6.units && u.netType == t && u.id == id }

  predicate HasBinding(v6: V6, t: string, unit: string, raw: string) {
    exists b :: b in v6.bindings && b.netType == t && b.unit == unit && b.rawName == raw
  }

  predicate IsConfirmedBase(v6: V6, t: string, unit: string, metric: string) {
    exists b ::
      b in v6.bindings && b.netType == t && b.unit == unit && b.metric == Some(metric) && b.state == "confirmed"
  }

  predicate HasDerived(v6: V6, t: string, unit: string, metric: string) {
    exists d :: d in v6.derived && d.netType == t && d.unit == unit && d.metric == metric
  }

  predicate HasConfig(v6: V6, t: string, unit: string, metric: string) {
    exists c :: c in v6.configs && c.netType == t && c.unit == unit && c.metric == metric
  }

  datatype Materialization = Done(v6: V6) | ValueError | LookupError | DatabaseError

  /** The legacy keys are unique per type in each table; a second use fails in the database. */
  function MaterializeResource(v6: V6, t: string, payload: map<string, string>, key: string): Materialization {
    var id, kind := Field(payload, "resource_id"), Field(payload, "kind");
    if id == "" || kind !in {"mu", "me", "unit"} || Field(payload, "name_zh") == ""
      || Field(payload, "name_en") == "" then ValueError
    else
      var addResource, addUnit := !HasResource(v6, t, id), kind == "mu" && !HasUnit(v6, t, id);
      if addResource && (exists r :: r in v6.resources && r.netType == t && r.key == key) then DatabaseError
      else if addUnit && (exists u :: u in v6.units && u.netType == t && u.key == key) then DatabaseError
      else
        Done(v6.(resources := if addResource then v6.resources + {ResourceRow(t, id, kind, key)} else v6.resources,
                 units := if addUnit then v6.units + {UnitRow(t, id, key)} else v6.units))
  }

  function MaterializeBinding(v6: V6, t: string, payload: map<string, string>, key: string): Materialization {
    var unit, raw := Field(payload, "measurement_unit_id"), Field(payload, "raw_source_name");
    if unit == "" || raw == "" then ValueError
    else if !HasUnit(v6, t, unit) then LookupError
    else if HasBinding(v6, t, unit, raw) then Done(v6)
    else if exists b :: b in v6.bindings && b.netType == t && b.key == key then DatabaseError
    else
      var metric := if "metric_resource_id" in payload && payload["metric_resource_id"] != "" then
        Some(payload["metric_resource_id"]) else None;
      var status := if "status" in payload then payload["status"] else "candidate";
      var state := if status in {"candidate", "confirmed", "conflict", "ignored"} then status else "candidate";
      Done(v6.(bindings := v6.bindings + {BindingRow(t, unit, raw, metric, state, key)}))
  }

  function MaterializeDerived(v6: V6, t: string, payload: map<string, string>, key: string): Materialization {
    var unit, metric := Field(payload, "measurement_unit_id"), Field(payload, "metric_resource_id");
    var numerator, denominator := Field(payload, "numerator_metric_id"), Field(payload, "denominator_metric_id");
    if unit == "" || metric == "" || numerator == "" || denominator == "" || Field(payload, "template") == "" then
      ValueError
    else if IsConfirmedBase(v6, t, unit, metric) then ValueError
    else if !(HasResource(v6, t, unit) && HasResource(v6, t, metric) && HasResource(v6, t, numerator)
      && HasResource(v6, t, denominator)) then LookupError
    else if HasDerived(v6, t, unit, metric) then Done(v6)
    else if exists d :: d in v6.derived && d.netType == t && d.key == key then DatabaseError
    else Done(v6.(derived := v6.derived + {DerivedRow(t, unit, metric, numerator, denominator, key)}))
  }

  function MaterializeConfig(v6: V6, t: string, payload: map<string, string>, key: string): Materialization {
    var unit, metric := Field(payload, "measurement_unit_id"), Field(payload, "metric_resource_id");
    if unit == "" || metric == "" then ValueError
    else if !HasMetric(v6, t, metric) then LookupError
    else if HasConfig(v6, t, unit, metric) then Done(v6)
    else if exists c :: c in v6.configs && c.netType == t && c.key == key then DatabaseError
    else Done(v6.(configs := v6.configs + {ConfigRow(t, unit, metric, key)}))
  }

  /** _materialize_pending. */
  function Materialize(v6: V6, p: PendingRow): Materialization {
    var t := if p.assignedType.Some? then p.assignedType.value else "";
    if p.table == "kpi_measurement_resources" then MaterializeResource(v6, t, p.payload, p.key)
    else if p.table == "kpi_measurement_bindings" then MaterializeBinding(v6, t, p.payload, p.key)
    else if p.table == "kpi_measurement_derived" then MaterializeDerived(v6, t, p.payload, p.key)
    else if p.table == "kpi_metric_maintenance_configs" then MaterializeConfig(v6, t, p.payload, p.key)
    else ValueError
  }

  /** What "materialized" promises: the row stands under the assigned type, with what it refers to. */
  predicate Stands(v6: V6, p: PendingRow) {
    p.assignedType.Some? &&
    var t, unit, metric :=
      p.assignedType.value, Field(p.payload, "measurement_unit_id"), Field(p.payload, "metric_resource_id");
    match p.table
    case "kpi_measurement_resources" =>
      HasResource(v6, t, Field(p.payload, "resource_id"))
        && (Field(p.payload, "kind") == "mu" ==> HasUnit(v6, t, Field(p.payload, "resource_id")))
    case "kpi_measurement_bindings" => HasBinding(v6, t, unit, Field(p.payload, "raw_source_name"))
      && HasUnit(v6, t, unit)
    case "kpi_measurement_derived" =>
      HasDerived(v6, t, unit, metric) && HasResource(v6, t, unit) && HasResource(v6, t, metric)
      && HasResource(v6, t, Field(p.payload, "numerator_metric_id"))
        && HasResource(v6, t, Field(p.payload, "denominator_metric_id"))
    case "kpi_metric_maintenance_configs" => HasConfig(v6, t, unit, metric) && HasMetric(v6, t, metric)
    case _ => false
  }

  predicate Grows(v6: V6, w6: V6) {
    v6.resources <= w6.resources && v6.units <= w6.units && v6.bindings <= w6.bindings && v6.derived <= w6.derived
      && v6.configs <= w6.configs
  }

  /** A successful materialization deletes nothing and leaves the row standing. */
  lemma {:induction false} MaterializeStands(v6: V6, p: PendingRow)
    requires p.assignedType.Some? && Materialize(v6, p).Done?
    ensures Grows(v6, Materialize(v6, p).v6) && Stands(Materialize(v6, p).v6, p)
  {
    hide Field;
  }

  // ----- Retrying audits -------------------------------------------------------------------------

  predicate Usable(a: AuditRow) {
    a.netType.Some? && a.netType.value != "" && a.netType.value !in {"*", "COMMON", "PUBLIC"}
  }

  /** An audit after one attempt. */
  function Retried(a: AuditRow): AuditRow {
    var b := a.(attempts := a.attempts + 1);
    if Usable(a) then b.(result := AuditRecovered, error := None)
    else b.(result := AuditFailed,
            error := Some(if a.netType.None? || a.netType.value == "" then TypeMissing else TypeInvalid))
  }

  function RetriedAll(audits: map<int, AuditRow>, ids: seq<int>): map<int, AuditRow> {
    if ids == [] then audits
    else
      var rest, last := RetriedAll(audits, ids[..|ids| - 1]), ids[|ids| - 1];
      if last in rest then rest[last := Retried(rest[last])] else rest
  }

  function ItemsOf(audits: map<int, AuditRow>, ids: seq<int>): seq<Item> {
    if ids == [] then []
    else
      var last := ids[|ids| - 1];
      ItemsOf(audits, ids[..|ids| - 1])
        + [Item(last, if last in audits && Usable(audits[last]) then ItemSucceeded else ItemFailed)]
  }

  predicate Retryable(audits: map<int, AuditRow>, id: int) {
    id in audits && (audits[id].result == AuditPending || audits[id].result == AuditFailed)
  }

  lemma {:induction false} RetriedAt(audits: map<int, AuditRow>, ids: seq<int>, a: int)
    requires Distinct(ids)
    ensures a in RetriedAll(audits, ids) <==> a in audits
    ensures a in audits ==> RetriedAll(audits, ids)[a] == if a in ids then Retried(audits[a]) else audits[a]
  {
    hide Retried;
    if ids != [] {
      var last := ids[|ids| - 1];
      assert ids == ids[..|ids| - 1] + [last];
      assert last !in ids[..|ids| - 1] by { assert forall i :: 0 <= i < |ids| - 1 ==> ids[i] != last; }
      RetriedAt(audits, ids[..|ids| - 1], a);
      RetriedAt(audits, ids[..|ids| - 1], last);
    }
  }

  // ----- Operations ------------------------------------------------------------------------------

  function Targets(request: Request): nat {
    match request
    case RetryRequest(audits) => |audits|
    case ResolveRequest(_, _) => 1
  }

  function PendingItems(targets: seq<int>): (items: seq<Item>)
    ensures |items| == |targets|
  {
    seq(|targets|, i requires 0 <= i < |targets| => Item(targets[i], ItemPending))
  }

  function NewOperation(request: Request, targets: seq<int>): Operation {
    Operation(request, Queued, |targets|, 0, 0, |targets|, PendingItems(targets))
  }

  function CountItems(items: seq<Item>, result: ItemResult): nat {
    if items == [] then 0 else CountItems(items[..|items| - 1], result) + if items[|items| - 1].result == result then 1
      else 0
  }

  /** _finish_operation. */
  function Finish(op: Operation, items: seq<Item>): Operation {
    var succeeded, failed, pending :=
      CountItems(items, ItemSucceeded), CountItems(items, ItemFailed), CountItems(items, ItemPending);
    op.(status := if pending > 0 then Running else if failed == 0 then Succeeded else if succeeded == 0 then Failed
      else PartialSuccess,
        succeeded := succeeded, failed := failed, pending := pending, items := items)
  }

  predicate IsFinished(op: Operation) { op.status != Queued && op.status != Running }

  predicate Balanced(op: Operation) {
    op.succeeded + op.failed + op.pending == op.total == Targets(op.request) && (IsFinished(op) ==> op.pending == 0)
  }

  lemma {:induction false} ItemsAddUp(items: seq<Item>)
    ensures CountItems(items, ItemSucceeded) + CountItems(items, ItemFailed) + CountItems(items, ItemPending) == |items|
  {
    if items != [] { ItemsAddUp(items[..|items| - 1]); }
  }

  lemma {:induction false} ItemsOfSettled(audits: map<int, AuditRow>, ids: seq<int>)
    ensures |ItemsOf(audits, ids)| == |ids| && CountItems(ItemsOf(audits, ids), ItemPending) == 0
  {
    if ids != [] {
      ItemsOfSettled(audits, ids[..|ids| - 1]);
      var items := ItemsOf(audits, ids);
      assert items[..|items| - 1] == ItemsOf(audits, ids[..|ids| - 1]);
    }
  }

  // ----- The invariant and the progress of the database ------------------------------------------

  ghost predicate ValidState(s: State) {
    && (forall k :: k in s.operations ==> Balanced(s.operations[k]))
    && (forall p :: p in s.pendings && s.pendings[p].state == Materialized ==> Stands(s.v6, s.pendings[p]))
  }

  ghost predicate AuditsProgress(a: map<int, AuditRow>, b: map<int, AuditRow>) {
    forall i :: i in a ==> i in b && a[i].attempts <= b[i].attempts && (a[i].result == AuditRecovered ==> b[i] == a[i])
  }

  /** No row of s is lost in t, attempts only grow, and what is recovered, materialized or finished stays as it is. */
  ghost predicate Progress(s: State, t: State) {
    && AuditsProgress(s.audits, t.audits)
    && (forall p :: p in s.pendings ==> p in t.pendings && s.pendings[p].attempts <= t.pendings[p].attempts
                                        && (s.pendings[p].state == Materialized ==> t.pendings[p] == s.pendings[p]))
    && (forall k :: k in s.operations && IsFinished(s.operations[k]) ==>
      k in t.operations && t.operations[k] == s.operations[k])
    && Grows(s.v6, t.v6)
  }

  lemma {:induction false} ProgressTransitive(s: State, t: State, u: State)
    requires Progress(s, t) && Progress(t, u)
    ensures Progress(s, u)
  {
    hide IsFinished;
  }

  lemma {:induction false} ProgressReflexive(s: State)
    ensures Progress(s, s)
  {
  }

  datatype Response = Forbidden | Conflict | Invalid | NotFound | Accepted | Stopped

  ghost predicate Replayed(s: State, key: string, request: Request) {
    key in s.operations && s.operations[key].request == request && IsFinished(s.operations[key])
  }

  ghost predicate Taken(s: State, key: string, request: Request) {
    key in s.operations && s.operations[key].request != request
  }

  /** The operation that a call works on: the stored unfinished one, or a new one. */
  function Opened(s: State, key: string, request: Request, targets: seq<int>): Operation {
    if key in s.operations then s.operations[key] else NewOperation(request, targets)
  }

  /** What a retry call may do to the database, by its response. */
  ghost predicate RetryStep(s: State, t: State, admin: bool, key: string, ids: seq<int>, r: Response) {
    var request := RetryRequest(multiset(ids));
    var op := Opened(s, key, request, ids);
    match r
    case Forbidden => t == s && !admin
    case Conflict => t == s && admin && Taken(s, key, request)
    case NotFound => false
    case Invalid =>
      admin && !Taken(s, key, request) && !Replayed(s, key, request)
        && (exists id :: id in ids && !Retryable(s.audits, id))
      && t == s.(operations := s.operations - {key})
    case Accepted =>
      admin && !Taken(s, key, request) &&
      if Replayed(s, key, request) then t == s
      else
        (forall id :: id in ids ==> Retryable(s.audits, id))
        && t == s.(audits := RetriedAll(s.audits, ids),
                   operations := s.operations[key := Finish(op.(status := Running), ItemsOf(s.audits, ids))])
    case Stopped =>
      admin && !Taken(s, key, request) && !Replayed(s, key, request)
      && exists n :: 0 <= n <= |ids| && StoppedRetry(s, t, key, ids, op, n)
  }

  /** A retry that stopped after n audits. */
  ghost predicate StoppedRetry(s: State, t: State, key: string, ids: seq<int>, op: Operation, n: nat)
    requires n <= |ids|
  {
    || (n == 0
      && (t == s || t == s.(operations := s.operations[key := op]) || t == s.(operations := s.operations - {key})))
    || ((forall id :: id in ids ==> Retryable(s.audits, id))
        && t == s.(audits := RetriedAll(s.audits, ids[..n]), operations := s.operations[key := op.(status := Running)]))
  }

  // ----- Every step keeps the invariant and makes progress ---------------------------------------

  lemma {:induction false} RetriedProgress(audits: map<int, AuditRow>, ids: seq<int>, n: nat)
    requires Distinct(ids) && n <= |ids| && forall id :: id in ids ==> Retryable(audits, id)
    ensures AuditsProgress(audits, RetriedAll(audits, ids[..n]))
  {
    assert forall a :: a in ids[..n] ==> a in ids;
    forall a | a in audits ensures a in RetriedAll(audits, ids[..n])
      ensures RetriedAll(audits, ids[..n])[a] == if a in ids[..n] then Retried(audits[a]) else audits[a]
    {
      RetriedAt(audits, ids[..n], a);
    }
  }

  lemma {:induction false} FinishIsBalanced(op: Operation, items: seq<Item>)
    requires op.total == Targets(op.request) == |items| && CountItems(items, ItemPending) == 0
    ensures Balanced(Finish(op, items)) && IsFinished(Finish(op, items))
  {
    ItemsAddUp(items);
    hide CountItems;
    hide Targets;
  }

  lemma {:induction false} PutOperation(s: State, key: string, op: Operation)
    requires ValidState(s) && Balanced(op) && (key in s.operations ==> !IsFinished(s.operations[key]))
    ensures ValidState(s.(operations := s.operations[key := op]))
      && Progress(s, s.(operations := s.operations[key := op]))
  {
    hide Balanced; hide IsFinished; hide Stands;
  }

  lemma {:induction false} DropOperation(s: State, key: string)
    requires ValidState(s) && (key in s.operations ==> !IsFinished(s.operations[key]))
    ensures ValidState(s.(operations := s.operations - {key})) && Progress(s, s.(operations := s.operations - {key}))
  {
    hide Balanced; hide IsFinished; hide Stands;
  }

  lemma {:induction false} PutAudits(s: State, ids: seq<int>, n: nat)
    requires ValidState(s) && Distinct(ids) && n <= |ids| && forall id :: id in ids ==> Retryable(s.audits, id)
    ensures ValidState(s.(audits := RetriedAll(s.audits, ids[..n])))
      && Progress(s, s.(audits := RetriedAll(s.audits, ids[..n])))
  {
    RetriedProgress(s.audits, ids, n);
    hide RetriedAll; hide Retryable; hide Balanced; hide IsFinished; hide Stands; hide Distinct;
  }

  /** An operation found or opened for a request that is neither taken nor finished. */
  lemma {:induction false} OpenedIsOpen(s: State, key: string, request: Request, targets: seq<int>)
    requires ValidState(s) && Targets(request) == |targets| && !Taken(s, key, request) && !Replayed(s, key, request)
    ensures key in s.operations ==> !IsFinished(s.operations[key])
    ensures var op := Opened(s, key, request, targets);
      Balanced(op) && !IsFinished(op) && Balanced(op.(status := Running)) && op.request == request
        && op.total == |targets|
  {
    hide Targets;
  }

  lemma {:induction false} RetryOpened(s: State, key: string, ids: seq<int>)
    requires ValidState(s) && !Taken(s, key, RetryRequest(multiset(ids)))
      && !Replayed(s, key, RetryRequest(multiset(ids)))
    ensures key in s.operations ==> !IsFinished(s.operations[key])
    ensures var op := Opened(s, key, RetryRequest(multiset(ids)), ids);
      Balanced(op) && Balanced(op.(status := Running))
        && Balanced(Finish(op.(status := Running), ItemsOf(s.audits, ids)))
  {
    assert |multiset(ids)| == |ids|;
    var request := RetryRequest(multiset(ids));
    OpenedIsOpen(s, key, request, ids);
    ItemsOfSettled(s.audits, ids);
    hide Opened; hide ItemsOf;
    FinishIsBalanced(Opened(s, key, request, ids).(status := Running), ItemsOf(s.audits, ids));
  }

  lemma {:induction false} StoppedRetryKeeps(s: State, t: State, key: string, ids: seq<int>, n: nat)
    requires ValidState(s) && Distinct(ids) && n <= |ids|
    requires !Taken(s, key, RetryRequest(multiset(ids))) && !Replayed(s, key, RetryRequest(multiset(ids)))
    requires StoppedRetry(s, t, key, ids, Opened(s, key, RetryRequest(multiset(ids)), ids), n)
    ensures ValidState(t) && Progress(s, t)
  {
    var op := Opened(s, key, RetryRequest(multiset(ids)), ids);
    RetryOpened(s, key, ids);
    ProgressReflexive(s);
    PutOperation(s, key, op);
    DropOperation(s, key);
    hide Opened; hide Balanced; hide RetriedAll; hide Retryable; hide Distinct;
    if forall id :: id in ids ==> Retryable(s.audits, id) {
      PutAudits(s, ids, n);
      var u := s.(audits := RetriedAll(s.audits, ids[..n]));
      PutOperation(u, key, op.(status := Running));
      hide ValidState; hide Progress;
      ProgressTransitive(s, u, u.(operations := u.operations[key := op.(status := Running)]));
    }
  }

  lemma {:induction false} RetryKeeps(s: State, t: State, admin: bool, key: string, ids: seq<int>, r: Response)
    requires ValidState(s) && Distinct(ids) && RetryStep(s, t, admin, key, ids, r)
    ensures ValidState(t) && Progress(s, t)
  {
    var request := RetryRequest(multiset(ids));
    var op := Opened(s, key, request, ids);
    ProgressReflexive(s);
    hide Distinct; hide ValidState; hide Progress; hide Retryable; hide StoppedRetry; hide Opened; hide Finish;
    hide ItemsOf; hide RetriedAll;
    if !Taken(s, key, request) && !Replayed(s, key, request) {
      RetryOpened(s, key, ids);
      hide Taken; hide Replayed;
      DropOperation(s, key);
      if r.Stopped? {
        var n :| 0 <= n <= |ids| && StoppedRetry(s, t, key, ids, op, n);
        StoppedRetryKeeps(s, t, key, ids, n);
      } else if r.Accepted? {
        PutAudits(s, ids, |ids|);
        assert ids[..|ids|] == ids;
        var u := s.(audits := RetriedAll(s.audits, ids));
        PutOperation(u, key, Finish(op.(status := Running), ItemsOf(s.audits, ids)));
        ProgressTransitive(s, u, t);
      }
    }
  }

  /** After n audits of a retry some audit of it can no longer be retried exactly when one of the n was usable. */
  lemma {:induction false} RecoveredBeforeStop(s: State, t: State, key: string, ids: seq<int>, n: nat)
    requires Distinct(ids) && n <= |ids| && forall id :: id in ids ==> Retryable(s.audits, id)
    requires t.audits == RetriedAll(s.audits, ids[..n])
    ensures (exists id :: id in ids && !Retryable(t.audits, id))
      <==> (exists k :: 0 <= k < n && ids[k] in s.audits && Usable(s.audits[ids[k]]))
  {
    forall id | id in ids
      ensures id in s.audits && (!Retryable(t.audits, id) <==> id in ids[..n] && Usable(s.audits[id])) {
      RetriedAt(s.audits, ids[..n], id);
    }
    hide Retryable; hide Usable;
    if exists k :: 0 <= k < n && ids[k] in s.audits && Usable(s.audits[ids[k]]) {
      var k :| 0 <= k < n && ids[k] in s.audits && Usable(s.audits[ids[k]]);
      assert ids[..n][k] == ids[k] && ids[k] in ids;
    }
    if exists id :: id in ids && !Retryable(t.audits, id) {
      var id :| id in ids && !Retryable(t.audits, id);
      var k :| 0 <= k < |ids[..n]| && ids[..n][k] == id;
      assert ids[k] == id;
    }
  }

  /** The operation that a stopped call leaves under its key is its own and unfinished. */
  lemma {:induction false} StoppedIsOpen(s: State, t: State, key: string, ids: seq<int>, n: nat)
    requires n <= |ids| && !Taken(s, key, RetryRequest(multiset(ids))) && !Replayed(s, key, RetryRequest(multiset(ids)))
    requires StoppedRetry(s, t, key, ids, Opened(s, key, RetryRequest(multiset(ids)), ids), n)
    ensures !Taken(t, key, RetryRequest(multiset(ids))) && !Replayed(t, key, RetryRequest(multiset(ids)))
    ensures t.audits == RetriedAll(s.audits, ids[..n])
  {
    hide Retryable;
    assert n == 0 ==> ids[..n] == [];
  }

  /** Replaying a retry that stopped after n audits is refused, and its operation deleted, exactly when one of
      these n audits was recovered before the stop; otherwise the replay is accepted and retries every audit. */
  lemma {:induction false} StoppedRetryRefused(s: State, t: State, u: State, key: string, ids: seq<int>, n: nat,
                                               r: Response)
    requires Distinct(ids) && n <= |ids| && forall id :: id in ids ==> Retryable(s.audits, id)
    requires !Taken(s, key, RetryRequest(multiset(ids))) && !Replayed(s, key, RetryRequest(multiset(ids)))
    requires StoppedRetry(s, t, key, ids, Opened(s, key, RetryRequest(multiset(ids)), ids), n)
    requires RetryStep(t, u, true, key, ids, r) && r != Stopped
    ensures
      if exists k :: 0 <= k < n && ids[k] in s.audits && Usable(s.audits[ids[k]])
      then r == Invalid && u == t.(operations := t.operations - {key})
      else r == Accepted && u.audits == RetriedAll(t.audits, ids)
  {
    StoppedIsOpen(s, t, key, ids, n);
    RecoveredBeforeStop(s, t, key, ids, n);
    hide Retryable; hide Usable; hide Taken; hide Replayed; hide StoppedRetry; hide RetriedAll; hide ItemsOf;
    hide Finish; hide Opened;
    hide Distinct;
  }

  function OneAudit(result: AuditResult, attempts: nat): State {
    State(map[1 := AuditRow(Some("LTE"), result, None, attempts)], map[], map[], V6({}, {}, {}, {}, {}))
  }

  /** Such a run: the only audit was recovered, the call stopped before its last commit, and its replay is
      refused and leaves no operation. */
  lemma {:induction false} RetryStoppedTooLate(key: string)
    ensures var op := NewOperation(RetryRequest(multiset([1])), [1]);
      var t := OneAudit(AuditRecovered, 1).(operations := map[key := op.(status := Running)]);
      && RetryStep(OneAudit(AuditPending, 0), t, true, key, [1], Stopped)
      && RetryStep(t, OneAudit(AuditRecovered, 1), true, key, [1], Invalid)
  {
    var request := RetryRequest(multiset([1]));
    var s, op := OneAudit(AuditPending, 0), NewOperation(request, [1]);
    var t := OneAudit(AuditRecovered, 1).(operations := map[key := op.(status := Running)]);
    assert [1][..1] == [1] && [1][..0] == [];
    assert RetriedAll(s.audits, []) == s.audits;
    assert RetriedAll(s.audits, [1]) == t.audits;
    assert Retryable(s.audits, 1) && !Retryable(t.audits, 1) && 1 in [1];
    assert op.request == request && op.status == Queued;
    hide NewOperation; hide RetriedAll; hide Retryable;
    assert s.operations[key := op.(status := Running)] == t.operations;
    assert Opened(s, key, request, [1]) == op && !Taken(s, key, request) && !Replayed(s, key, request);
    assert StoppedRetry(s, t, key, [1], op, 1);
    assert RetryStep(s, t, true, key, [1], Stopped);
    assert !Taken(t, key, request) && !Replayed(t, key, request);
    assert t.operations - {key} == map[];
    assert OneAudit(AuditRecovered, 1) == t.(operations := t.operations - {key});
  }

  // ----- Resolving a pending attribution ---------------------------------------------------------

  predicate Resolvable(p: PendingRow) { p.state == Unresolved || p.state == FailedResolution || p.state == Assigned }

  function AssignedRow(p: PendingRow, netType: string): PendingRow {
    p.(state := Assigned, assignedType := Some(netType), attempts := p.attempts + 1, failed := false)
  }

  /** The first commit of a resolve call. */
  function AfterAssign(s: State, key: string, pending: int, netType: string, op: Operation): State
    requires pending in s.pendings
  {
    s.(pendings := s.pendings[pending := AssignedRow(s.pendings[pending], netType)],
       operations := s.operations[key := op.(status := Running)])
  }

  /** The second commit: the row materialized together with its v6 rows, or marked as failed. */
  function AfterMaterialize(s: State, pending: int): State
    requires pending in s.pendings
  {
    var p := s.pendings[pending];
    match Materialize(s.v6, p)
    case Done(w6) => s.(v6 := w6, pendings := s.pendings[pending := p.(state := Materialized, failed := false)])
    case _ => s.(pendings := s.pendings[pending := p.(state := FailedResolution, failed := true)])
  }

  function ResolveItem(s: State, pending: int): Item
    requires pending in s.pendings
  {
    Item(pending, if Materialize(s.v6, s.pendings[pending]).Done? then ItemSucceeded else ItemFailed)
  }

  /** The third commit. */
  function AfterFinish(s: State, key: string, op: Operation, item: Item): State {
    s.(operations := s.operations[key := Finish(op, [item])])
  }

  /** What a resolve call may do to the database, by its response. */
  ghost predicate ResolveStep(s: State, t: State, admin: bool, key: string, pending: int, netType: string, r: Response)
  {
    var request := ResolveRequest(pending, netType);
    var op := Opened(s, key, request, [pending]);
    var open := admin && !Taken(s, key, request) && !Replayed(s, key, request);
    match r
    case Forbidden => t == s && !admin
    case Conflict => t == s && admin && Taken(s, key, request)
    case NotFound => open && pending !in s.pendings && t == s.(operations := s.operations - {key})
    case Invalid => open && pending in s.pendings && !Resolvable(s.pendings[pending])
      && t == s.(operations := s.operations - {key})
    case Accepted =>
      admin && !Taken(s, key, request) &&
      if Replayed(s, key, request) then t == s
      else
        pending in s.pendings && Resolvable(s.pendings[pending])
        && var u := AfterAssign(s, key, pending, netType, op);
           t == AfterFinish(AfterMaterialize(u, pending), key, op.(status := Running), ResolveItem(u, pending))
    case Stopped => open && StoppedResolve(s, t, key, pending, netType, op)
  }

  ghost predicate StoppedResolve(s: State, t: State, key: string, pending: int, netType: string, op: Operation) {
    || t == s || t == s.(operations := s.operations[key := op]) || t == s.(operations := s.operations - {key})
    || (pending in s.pendings && Resolvable(s.pendings[pending])
        && var u := AfterAssign(s, key, pending, netType, op);
           t == u || t == AfterMaterialize(u, pending))
  }

  lemma {:induction false} PutPending(s: State, pending: int, p: PendingRow, w6: V6)
    requires ValidState(s) && pending in s.pendings && s.pendings[pending].state != Materialized && Grows(s.v6, w6)
    requires s.pendings[pending].attempts <= p.attempts && (p.state == Materialized ==> Stands(w6, p))
    ensures var t := s.(pendings := s.pendings[pending := p], v6 := w6); ValidState(t) && Progress(s, t)
  {
    forall q | q in s.pendings && s.pendings[q].state == Materialized ensures Stands(w6, s.pendings[q]) { }
    hide Balanced; hide IsFinished; hide Stands; hide Grows;
  }

  lemma {:induction false} SameStanding(v6: V6, p: PendingRow, q: PendingRow)
    requires p.table == q.table && p.payload == q.payload && p.assignedType == q.assignedType && Stands(v6, p)
    ensures Stands(v6, q)
  {
    hide Field;
  }

  lemma {:induction false} AssignKeeps(s: State, key: string, pending: int, netType: string, op: Operation)
    requires ValidState(s) && pending in s.pendings && Resolvable(s.pendings[pending])
    requires (key in s.operations ==> !IsFinished(s.operations[key])) && Balanced(op.(status := Running))
    ensures var t := AfterAssign(s, key, pending, netType, op); ValidState(t) && Progress(s, t)
    ensures var t := AfterAssign(s, key, pending, netType, op);
      pending in t.pendings && t.pendings[pending].state == Assigned
        && t.pendings[pending].assignedType == Some(netType)
      && key in t.operations && t.operations[key] == op.(status := Running)
  {
    var p := AssignedRow(s.pendings[pending], netType);
    var u := s.(pendings := s.pendings[pending := p], v6 := s.v6);
    PutPending(s, pending, p, s.v6);
    hide Balanced; hide ValidState; hide Progress;
    PutOperation(u, key, op.(status := Running));
    ProgressTransitive(s, u, u.(operations := u.operations[key := op.(status := Running)]));
  }

  lemma {:induction false} MaterializeKeeps(s: State, pending: int)
    requires ValidState(s) && pending in s.pendings && s.pendings[pending].state == Assigned
      && s.pendings[pending].assignedType.Some?
    ensures ValidState(AfterMaterialize(s, pending)) && Progress(s, AfterMaterialize(s, pending))
    ensures AfterMaterialize(s, pending).operations == s.operations
  {
    var p := s.pendings[pending];
    match Materialize(s.v6, p) {
      case Done(w6) =>
        MaterializeStands(s.v6, p);
        SameStanding(w6, p, p.(state := Materialized, failed := false));
        hide Materialize; hide ValidState; hide Progress; hide Stands;
        PutPending(s, pending, p.(state := Materialized, failed := false), w6);
      case _ =>
        hide Materialize; hide ValidState; hide Progress; hide Stands;
        PutPending(s, pending, p.(state := FailedResolution, failed := true), s.v6);
    }
  }

  lemma {:induction false} ResolveKeeps(s: State, t: State, admin: bool, key: string, pending: int, netType: string,
                                        r: Response)
    requires ValidState(s) && ResolveStep(s, t, admin, key, pending, netType, r)
    ensures ValidState(t) && Progress(s, t)
  {
    var request := ResolveRequest(pending, netType);
    var op := Opened(s, key, request, [pending]);
    ProgressReflexive(s);
    if !Taken(s, key, request) && !Replayed(s, key, request) {
      OpenedIsOpen(s, key, request, [pending]);
      hide Opened; hide Taken; hide Replayed; hide ValidState; hide Progress; hide Balanced; hide AfterMaterialize;
      hide AfterAssign; hide Finish;
      PutOperation(s, key, op);
      DropOperation(s, key);
      if pending in s.pendings && Resolvable(s.pendings[pending]) { ResolvedKeeps(s, key, pending, netType, op); }
    }
  }

  lemma {:induction false} ResolvedKeeps(s: State, key: string, pending: int, netType: string, op: Operation)
    requires ValidState(s) && pending in s.pendings && Resolvable(s.pendings[pending])
    requires key in s.operations ==> !IsFinished(s.operations[key])
    requires Balanced(op.(status := Running)) && op.total == 1
    ensures var u := AfterAssign(s, key, pending, netType, op);
      var v := AfterMaterialize(u, pending);
      var w := AfterFinish(v, key, op.(status := Running), ResolveItem(u, pending));
      ValidState(u) && ValidState(v) && ValidState(w) && Progress(s, u) && Progress(s, v) && Progress(s, w)
  {
    var u := AfterAssign(s, key, pending, netType, op);
    AssignKeeps(s, key, pending, netType, op);
    MaterializeKeeps(u, pending);
    var v := AfterMaterialize(u, pending);
    var item := ResolveItem(u, pending);
    OneItem(op.(status := Running), item);
    hide AfterAssign; hide AfterMaterialize; hide ValidState; hide Progress; hide Balanced; hide Finish;
    ProgressTransitive(s, u, v);
    PutOperation(v, key, Finish(op.(status := Running), [item]));
    ProgressTransitive(s, v, AfterFinish(v, key, op.(status := Running), item));
  }

  /** Replaying a resolve call that stopped before its last commit is refused, and its operation deleted,
      exactly when the materialization had succeeded; in every other case the replay is accepted. */
  lemma {:induction false} StoppedResolveRefused(s: State, t: State, u: State, key: string, pending: int,
                                                 netType: string, r: Response)
    requires pending in s.pendings && Resolvable(s.pendings[pending])
    requires ResolveStep(s, t, true, key, pending, netType, Stopped)
    requires ResolveStep(t, u, true, key, pending, netType, r) && r != Stopped
    ensures pending in t.pendings
    ensures
      if t.pendings[pending].state == Materialized
      then r == Invalid && u == t.(operations := t.operations - {key})
      else r == Accepted
    ensures t.pendings[pending].state == Materialized ==>
      var v := AfterAssign(s, key, pending, netType, Opened(s, key, ResolveRequest(pending, netType), [pending]));
      t == AfterMaterialize(v, pending) && Materialize(v.v6, v.pendings[pending]).Done?
  {
    hide Materialize; hide Finish; hide ResolveItem;
    var request := ResolveRequest(pending, netType);
    StoppedResolveIsOpen(s, t, key, pending, netType);
    hide StoppedResolve; hide AfterMaterialize; hide AfterAssign; hide Opened; hide Taken; hide Replayed;
  }

  lemma {:induction false} StoppedResolveIsOpen(s: State, t: State, key: string, pending: int, netType: string)
    requires pending in s.pendings && Resolvable(s.pendings[pending])
    requires ResolveStep(s, t, true, key, pending, netType, Stopped)
    ensures !Taken(t, key, ResolveRequest(pending, netType)) && !Replayed(t, key, ResolveRequest(pending, netType))
    ensures pending in t.pendings && (!Resolvable(t.pendings[pending]) <==> t.pendings[pending].state == Materialized)
    ensures t.pendings[pending].state == Materialized ==>
      var v := AfterAssign(s, key, pending, netType, Opened(s, key, ResolveRequest(pending, netType), [pending]));
      t == AfterMaterialize(v, pending) && Materialize(v.v6, v.pendings[pending]).Done?
  {
    hide Materialize;
  }

  lemma {:induction false} OneItem(op: Operation, item: Item)
    requires Balanced(op) && op.total == 1 && item.result != ItemPending
    ensures Balanced(Finish(op, [item]))
  {
    assert [item][..0] == [];
    assert forall result: ItemResult ::
      CountItems([item], result) == CountItems([], result) + if item.result == result then 1 else 0;
    hide Targets;
  }

  // ----- Runs of calls ---------------------------------------------------------------------------

  datatype Call = RetryCall(admin: bool, key: string, ids: seq<int>) | ResolveCall(admin: bool, key: string,
      pending: int, netType: string)

  ghost predicate Step(s: State, t: State, call: Call, r: Response) {
    match call
    case RetryCall(admin, key, ids) => Distinct(ids) && RetryStep(s, t, admin, key, ids, r)
    case ResolveCall(admin, key, pending, netType) => ResolveStep(s, t, admin, key, pending, netType, r)
  }

  function KeyOf(call: Call): string { call.key }

  function RequestOf(call: Call): Request {
    match call
    case RetryCall(_, _, ids) => RetryRequest(multiset(ids))
    case ResolveCall(_, _, pending, netType) => ResolveRequest(pending, netType)
  }

  /** states[i + 1] is a state that call i can leave behind, completed or stopped. */
  ghost predicate IsRun(states: seq<State>, calls: seq<Call>, responses: seq<Response>) {
    && |states| == |calls| + 1 == |responses| + 1
    && forall i :: 0 <= i < |calls| ==> Step(states[i], states[i + 1], calls[i], responses[i])
  }

  lemma {:induction false} StepKeeps(s: State, t: State, call: Call, r: Response)
    requires ValidState(s) && Step(s, t, call, r)
    ensures ValidState(t) && Progress(s, t)
  {
    match call
    case RetryCall(admin, key, ids) => RetryKeeps(s, t, admin, key, ids, r);
    case ResolveCall(admin, key, pending, netType) => ResolveKeeps(s, t, admin, key, pending, netType, r);
  }

  /** Over any run: the counts of every operation add up, every materialized row stands, and between any two
      states nothing recovered, materialized or finished is left or changed and no attempt count drops. */
  lemma {:induction false} RunsKeep(states: seq<State>, calls: seq<Call>, responses: seq<Response>, i: nat, j: nat)
    requires IsRun(states, calls, responses) && ValidState(states[0]) && i <= j < |states|
    ensures ValidState(states[j]) && Progress(states[i], states[j])
    decreases j
  {
    hide Step; hide ValidState; hide Progress;
    if i == j {
      ProgressReflexive(states[j]);
      if j > 0 {
        RunsKeep(states, calls, responses, j - 1, j - 1);
        StepKeeps(states[j - 1], states[j], calls[j - 1], responses[j - 1]);
      }
    } else {
      RunsKeep(states, calls, responses, i, j - 1);
      StepKeeps(states[j - 1], states[j], calls[j - 1], responses[j - 1]);
      ProgressTransitive(states[i], states[j - 1], states[j]);
    }
  }

  /** No v6 resource has an empty id. */
  predicate Named(v6: V6) { forall r :: r in v6.resources ==> r.id != "" }

  lemma {:induction false} StepKeepsNames(s: State, t: State, call: Call, r: Response)
    requires Named(s.v6) && Step(s, t, call, r)
    ensures Named(t.v6)
  {
    hide Finish; hide ResolveItem; hide Opened; hide Materialize; hide Named;
    if call.ResolveCall? && call.pending in s.pendings {
      var u :=
        AfterAssign(s, call.key, call.pending, call.netType, Opened(s, call.key, RequestOf(call), [call.pending]));
      if Materialize(u.v6, u.pendings[call.pending]).Done? { MaterializeKeepsNames(u.v6, u.pendings[call.pending]); }
      assert Named(AfterMaterialize(u, call.pending).v6);
      hide AfterMaterialize; hide AfterAssign;
    }
  }

  lemma {:induction false} MaterializeKeepsNames(v6: V6, p: PendingRow)
    requires Named(v6) && Materialize(v6, p).Done?
    ensures Named(Materialize(v6, p).v6)
  {
    hide Field;
  }

  /** No call stores a resource with an empty id, whatever the payloads hold. */
  lemma {:induction false} RunsKeepNames(states: seq<State>, calls: seq<Call>, responses: seq<Response>, j: nat)
    requires IsRun(states, calls, responses) && Named(states[0].v6) && j < |states|
    ensures Named(states[j].v6)
  {
    hide Step; hide Named;
    if j > 0 {
      RunsKeepNames(states, calls, responses, j - 1);
      StepKeepsNames(states[j - 1], states[j], calls[j - 1], responses[j - 1]);
    }
  }

  /** Once an operation is finished, repeating its request under its key changes nothing, at any later time. */
  lemma {:induction false} FinishedKeyReplays(states: seq<State>, calls: seq<Call>, responses: seq<Response>, i: nat,
                                              j: nat)
    requires IsRun(states, calls, responses) && ValidState(states[0]) && i <= j < |calls|
    requires Replayed(states[i], KeyOf(calls[j]), RequestOf(calls[j]))
    ensures states[j + 1] == states[j] && (responses[j] == Accepted || responses[j] == Forbidden)
  {
    RunsKeep(states, calls, responses, i, j);
    assert Replayed(states[j], KeyOf(calls[j]), RequestOf(calls[j]));
    assert Step(states[j], states[j + 1], calls[j], responses[j]);
    hide Progress; hide ValidState;
  }

  // ----- The calls as they run -------------------------------------------------------------------

  class MaintenanceDb {
    var audits: map<int, AuditRow>
    var pendings: map<int, PendingRow>
    var operations: map<string, Operation>
    var v6: V6

    ghost function Current(): State
      reads this
    {
      State(audits, pendings, operations, v6)
    }

    /** _create_operation: None for a key that another request has used. */
    method CreateOperation(key: string, request: Request, targets: seq<int>) returns (op: Option<Operation>)
      modifies this`operations
      ensures op.None? <==> Taken(old(Current()), key, request)
      ensures op.None? ==> Current() == old(Current())
      ensures op.Some? ==> op.value == Opened(old(Current()), key, request, targets)
      ensures op.Some? ==> Current() == old(Current()).(operations := old(operations)[key := op.value])
      ensures key in old(operations) ==> Current() == old(Current())
    {
      if key in operations {
        if operations[key].request != request { return None; }
        assert operations == operations[key := operations[key]];
        return Some(operations[key]);
      }
      op := Some(NewOperation(request, targets));
      operations := operations[key := op.value];
    }

    /** One audit of the retry loop. */
    method RetryAudit(id: int) returns (item: Item)
      modifies this`audits
      ensures item == Item(id, if id in old(audits) && Usable(old(audits)[id]) then ItemSucceeded else ItemFailed)
      ensures audits == if id in old(audits) then old(audits)[id := Retried(old(audits)[id])] else old(audits)
    {
      if id !in audits { return Item(id, ItemFailed); }
      var audit := audits[id];
      audit := audit.(attempts := audit.attempts + 1);
      if audit.netType.None? || audit.netType.value == "" {
        audit := audit.(result := AuditFailed, error := Some(TypeMissing));
        item := Item(id, ItemFailed);
      } else if audit.netType.value in {"*", "COMMON", "PUBLIC"} {
        audit := audit.(result := AuditFailed, error := Some(TypeInvalid));
        item := Item(id, ItemFailed);
      } else {
        audit := audit.(result := AuditRecovered, error := None);
        item := Item(id, ItemSucceeded);
      }
      audits := audits[id := audit];
    }

    lemma {:induction false} RetryNext(start: map<int, AuditRow>, ids: seq<int>, n: nat)
      requires Distinct(ids) && n < |ids| && ids[n] in start
      ensures var now := RetriedAll(start, ids[..n]);
        ids[n] in now && Usable(now[ids[n]]) == Usable(start[ids[n]])
        && RetriedAll(start, ids[..n + 1]) == now[ids[n] := Retried(now[ids[n]])]
        && ItemsOf(start, ids[..n + 1]) == ItemsOf(start, ids[..n])
          + [Item(ids[n], if Usable(start[ids[n]]) then ItemSucceeded else ItemFailed)]
    {
      assert ids[..n + 1][..n] == ids[..n];
      RetriedAt(start, ids[..n], ids[n]);
      assert ids[n] !in ids[..n] by { assert forall i :: 0 <= i < n ==> ids[i] != ids[n]; }
    }

    /** The retry loop: one commit for each audit. */
    method RetryAudits(ids: seq<int>) returns (stopped: bool, items: seq<Item>, ghost n: nat)
      requires Distinct(ids) && forall i :: 0 <= i < |ids| ==> ids[i] in audits
      modifies this`audits
      ensures n <= |ids| && audits == RetriedAll(old(audits), ids[..n])
      ensures !stopped ==> n == |ids| && items == ItemsOf(old(audits), ids)
    {
      ghost var start := audits;
      items, n := [], 0;
      for k := 0 to |ids|
        invariant n == k && items == ItemsOf(start, ids[..k]) && audits == RetriedAll(start, ids[..k])
      {
        if * { return true, items, n; }
        RetryNext(start, ids, k);
        hide RetriedAll; hide ItemsOf; hide Retried; hide Usable; hide Distinct;
        var item := RetryAudit(ids[k]);
        items, n := items + [item], k + 1;
      }
      assert ids[..|ids|] == ids;
      stopped := false;
    }

    /** retry_legacy_recovery. */
    method Retry(admin: bool, key: string, ids: seq<int>) returns (r: Response)
      requires Distinct(ids)
      modifies this
      ensures RetryStep(old(Current()), Current(), admin, key, ids, r)
      ensures ValidState(old(Current())) ==> ValidState(Current()) && Progress(old(Current()), Current())
    {
      ghost var s := Current();
      hide ValidState; hide Progress;
      r := TryRetry(admin, key, ids);
      if ValidState(s) { RetryKeeps(s, Current(), admin, key, ids, r); }
    }

    method TryRetry(admin: bool, key: string, ids: seq<int>) returns (r: Response)
      requires Distinct(ids)
      modifies this
      ensures RetryStep(old(Current()), Current(), admin, key, ids, r)
    {
      ghost var s := Current();
      if !admin { return Forbidden; }
      var request := RetryRequest(multiset(ids));
      var op := CreateOperation(key, request, ids);
      if op.None? { return Conflict; }
      if IsFinished(op.value) {
        assert Replayed(s, key, request);
        return Accepted;
      }
      assert !Replayed(s, key, request) && !Taken(s, key, request);
      hide Opened; hide Replayed; hide Taken; hide OpenRetryStep; hide Finish; hide ItemsOf; hide RetriedAll;
      hide Distinct; hide StoppedRetry;
      r := RetryOpen(s, key, ids, op.value);
    }

    /** The retry step of a call whose operation op is stored and unfinished. */
    ghost predicate OpenRetryStep(s: State, t: State, key: string, ids: seq<int>, op: Operation, r: Response) {
      match r
      case Invalid => (exists id :: id in ids && !Retryable(s.audits, id))
        && t == s.(operations := s.operations - {key})
      case Accepted =>
        (forall id :: id in ids ==> Retryable(s.audits, id))
        && t == s.(audits := RetriedAll(s.audits, ids),
                   operations := s.operations[key := Finish(op.(status := Running), ItemsOf(s.audits, ids))])
      case Stopped => exists n :: 0 <= n <= |ids| && StoppedRetry(s, t, key, ids, op, n)
      case _ => false
    }

    method RetryOpen(ghost s: State, key: string, ids: seq<int>, op: Operation) returns (r: Response)
      requires Distinct(ids) && Current() == s.(operations := s.operations[key := op])
      modifies this
      ensures OpenRetryStep(s, Current(), key, ids, op, r)
    {
      hide Finish; hide ItemsOf; hide RetriedAll; hide Distinct; hide Retryable;
      if * {
        assert StoppedRetry(s, Current(), key, ids, op, 0);
        return Stopped;
      }
      if exists id :: id in ids && !Retryable(audits, id) {
        operations := operations - {key};
        assert operations == s.operations - {key};
        return Invalid;
      }
      operations := operations[key := op.(status := Running)];
      assert operations == s.operations[key := op.(status := Running)];
      AllPresent(audits, ids);
      var stopped, items; ghost var n;
      stopped, items, n := RetryAudits(ids);
      assert Current()
        == s.(audits := RetriedAll(s.audits, ids[..n]), operations := s.operations[key := op.(status := Running)]);
      if * { stopped := true; }
      if stopped {
        assert StoppedRetry(s, Current(), key, ids, op, n);
        return Stopped;
      }
      assert ids[..n] == ids;
      operations := operations[key := Finish(op.(status := Running), items)];
      assert operations == s.operations[key := Finish(op.(status := Running), items)];
      r := Accepted;
    }

    lemma {:induction false} AllPresent(rows: map<int, AuditRow>, ids: seq<int>)
      requires forall id :: id in ids ==> Retryable(rows, id)
      ensures forall i :: 0 <= i < |ids| ==> ids[i] in rows
    {
      forall i | 0 <= i < |ids| ensures ids[i] in rows { assert Retryable(rows, ids[i]); }
    }

    /** The first commit of a resolve call on an existing pending row. */
    method Assign(pending: int, netType: string, key: string)
      requires pending in pendings && key in operations
      modifies this
      ensures Current() == AfterAssign(old(Current()), key, pending, netType, old(operations)[key])
    {
      var p := pendings[pending];
      pendings :=
        pendings[pending := p.(state := Assigned, assignedType := Some(netType), attempts := p.attempts + 1,
                               failed := false)];
      operations := operations[key := operations[key].(status := Running)];
    }

    /** The second commit: materialize, or roll back and mark the row. */
    method MaterializeRow(pending: int) returns (item: Item)
      requires pending in pendings
      modifies this
      ensures Current() == AfterMaterialize(old(Current()), pending) && item == ResolveItem(old(Current()), pending)
    {
      var p := pendings[pending];
      hide Materialize;
      match Materialize(v6, p) {
        case Done(w6) =>
          v6 := w6;
          pendings := pendings[pending := p.(state := Materialized, failed := false)];
          item := Item(pending, ItemSucceeded);
        case _ =>
          pendings := pendings[pending := p.(state := FailedResolution, failed := true)];
          item := Item(pending, ItemFailed);
      }
    }

    /** resolve_pending_attribution. */
    method Resolve(admin: bool, key: string, pending: int, netType: string) returns (r: Response)
      modifies this
      ensures ResolveStep(old(Current()), Current(), admin, key, pending, netType, r)
      ensures ValidState(old(Current())) ==> ValidState(Current()) && Progress(old(Current()), Current())
    {
      ghost var s := Current();
      hide ValidState; hide Progress;
      r := TryResolve(admin, key, pending, netType);
      if ValidState(s) { ResolveKeeps(s, Current(), admin, key, pending, netType, r); }
    }

    method TryResolve(admin: bool, key: string, pending: int, netType: string) returns (r: Response)
      modifies this
      ensures ResolveStep(old(Current()), Current(), admin, key, pending, netType, r)
    {
      ghost var s := Current();
      if !admin { return Forbidden; }
      var request := ResolveRequest(pending, netType);
      var op := CreateOperation(key, request, [pending]);
      if op.None? { return Conflict; }
      if IsFinished(op.value) {
        assert Replayed(s, key, request);
        return Accepted;
      }
      assert !Replayed(s, key, request) && !Taken(s, key, request);
      hide Opened; hide Replayed; hide Taken; hide Finish; hide AfterMaterialize; hide ResolveItem;
      if * { return Stopped; }
      if pending !in pendings {
        operations := operations - {key};
        assert operations == s.operations - {key};
        return NotFound;
      }
      if !Resolvable(pendings[pending]) {
        operations := operations - {key};
        assert operations == s.operations - {key};
        return Invalid;
      }
      ghost var u := AfterAssign(s, key, pending, netType, op.value);
      Assign(pending, netType, key);
      assert Current() == u;
      hide AfterAssign;
      if * { return Stopped; }
      var item := MaterializeRow(pending);
      assert Current() == AfterMaterialize(u, pending) && item == ResolveItem(u, pending);
      if * { return Stopped; }
      operations := operations[key := Finish(op.value.(status := Running), [item])];
      r := Accepted;
    }
  }
}
