/** One task run: extraction, prepare and inspection behind fixed barriers, with the prepare cache
    (app/services/executor.py). Rule bodies, pattern matching and file hashing are functions given to
    the run; a stop of the process can fall between any two changes of the prepared directories. */
module Executor {
  import opened Wrappers
  import opened Units
  import opened Parallel

  datatype Rule = Rule(code: string, hidden: bool, patterns: seq<string>, prepare: Option<string>)

  /** order lists every code by priority and code; extracts is the extraction plan, main package first. */
  datatype Registry = Registry(rules: map<string, Rule>, order: seq<string>, extracts: seq<string>)
  {
    ghost predicate Valid() {
      && Distinct(order) && Distinct(extracts)
      && (forall c :: c in order <==> c in rules)
      && (forall c :: c in extracts ==> c in rules)
      && (forall c :: c in rules ==> rules[c].code == c)
    }
  }

  /** What the surroundings decide about one run: matching before and after extraction (None for a
      rejected pattern), file sizes, rule bodies run in the parent, the pools of the two stages, and
      whether the callback after extraction and the building of the catalogue succeed. */
  datatype Site = Site(
    before: string -> Option<seq<string>>,
    after: string -> Option<seq<string>>,
    bytes: seq<string> -> nat,
    direct: (string, seq<string>) -> RuleResult,
    prepareEnv: Environment,
    inspectEnv: Environment,
    callbackOk: bool,
    catalogOk: bool)

  // ----- Plans -----------------------------------------------------------------------------------

  function Filter(codes: seq<string>, keep: string -> bool): (kept: seq<string>)
    ensures forall c :: c in kept <==> c in codes && keep(c)
  {
    if codes == [] then []
    else
      assert codes == [codes[0]] + codes[1..];
      (if keep(codes[0]) then [codes[0]] else []) + Filter(codes[1..], keep)
  }

  lemma {:induction false} FilterDistinct(codes: seq<string>, keep: string -> bool)
    requires Distinct(codes)
    ensures Distinct(Filter(codes, keep))
  {
    if codes != [] { FilterDistinct(codes[1..], keep); }
  }

  /** _matched_files. */
  function Files(rule: Rule, matches: string -> Option<seq<string>>): Option<seq<string>> {
    if rule.patterns == [] then Some([]) else matches(rule.code)
  }

  /** _plan_prepare as a value: a state when no worker is needed, a request otherwise. */
  function PreparePlan(rule: Rule, files: Option<seq<string>>, marker: Option<string>, hash: string, force: bool,
                       bytes: seq<string> -> nat): UnitPlan
    requires rule.prepare.Some?
  {
    var plan := UnitPlan(PrepareUnit, rule.prepare.value, rule.code, None, 0, None, None, []);
    if files.None? then
      plan.(prepareState := Some(Failed), logs := [LogLine("error", "pattern_rejected", rule.code)])
    else if files.value == [] then
      plan.(prepareState := Some(Skip), logs := [LogLine("info", "prepare_skip", rule.code)])
    else if !force && marker == Some(hash) then
      plan.(prepareState := Some(Hit), matchedBytes := bytes(files.value),
            logs := [LogLine("info", "prepare_cache_hit", rule.code)])
    else
      plan.(matchedBytes := bytes(files.value),
            request := Some(UnitRequest(PrepareUnit, rule.prepare.value, rule.code, files.value, None)))
  }

  /** _plan_inspect as a value. */
  function InspectPlan(rule: Rule, state: Option<PrepareState>, files: Option<seq<string>>,
                       bytes: seq<string> -> nat): UnitPlan
  {
    var plan := UnitPlan(InspectUnit, rule.code, rule.code, None, 0, state, None, []);
    var running := LogLine("info", "inspect_run", rule.code);
    if state == Some(Failed) then
      plan.(shortCircuit := Some(RuleResult(rule.code, SkipResult, "prepare not ready")),
            logs := [LogLine("info", "inspect_skip_prepare_not_ready", rule.code)])
    else if state == Some(Skip) then
      plan.(shortCircuit := Some(RuleResult(rule.code, SkipResult, "no matching file")))
    else if files.None? then
      plan.(shortCircuit := Some(RuleResult(rule.code, ErrorResult, "source_patterns error")),
            logs := [LogLine("error", "pattern_rejected", rule.code)])
    else if rule.patterns != [] && files.value == [] then
      plan.(matchedBytes := bytes([]), logs := [running, LogLine("info", "inspect_skip_no_match", rule.code)],
            shortCircuit := Some(RuleResult(rule.code, SkipResult, "no matching file")))
    else
      plan.(matchedBytes := bytes(files.value), logs := [running],
            request := Some(UnitRequest(InspectUnit, rule.code, rule.code, files.value, state)))
  }

  /** The state a prepare plan ends in. */
  function SettledState(plan: UnitPlan, outcome: Option<UnitOutcome>): PrepareState
    requires outcome.None? ==> plan.prepareState.Some?
  {
    match outcome
    case None => plan.prepareState.value
    case Some(o) => if o.prepareState == Some(Rebuilt) then Rebuilt else Failed
  }

  /** The result recorded for an inspect plan. */
  function FinalResult(plan: UnitPlan, outcome: Option<UnitOutcome>): RuleResult {
    var missing := RuleResult(plan.code, ErrorResult, "rule execution error");
    match outcome
    case None => if plan.shortCircuit.Some? then plan.shortCircuit.value else missing
    case Some(o) => if o.result.Some? then o.result.value else missing
  }

  ghost predicate HasError(results: map<string, RuleResult>) {
    exists c :: c in results && results[c].status == ErrorResult
  }

  /** A stage leaves a slot empty exactly when its plan had nothing to run. */
  lemma {:induction false} EmptySlots(execute: UnitRequest -> Run, env: Environment, plans: seq<UnitPlan>, h: History,
                                      i: nat)
    requires i < |plans| && OnceEach(execute, env, plans, PendingFrom(plans, 0), h)
    ensures StageOutcome(execute, env, plans, Elems(h.recovery), i).None? <==> plans[i].request.None?
  {
    hide Sound;
    assert i in Elems(h.recovery) ==> i in PendingFrom(plans, 0);
  }

  // ----- The prepared directories ----------------------------------------------------------------

  /** The prepared directories of a task as they are on disk: the marker of each owner directory. */
  class PreparedStore {
    var markers: map<string, string>
    ghost var built: map<string, string>  // the rule hash whose prepare reported REBUILT since the last wipe

    ghost predicate Valid()
      reads this
    {
      forall o :: o in markers ==> o in built && built[o] == markers[o]
    }

    constructor ()
      ensures Valid() && markers == map[]
    {
      markers, built := map[], map[];
    }

    /** rmtree and mkdir of an owner directory. */
    method Wipe(owner: string)
      requires Valid()
      modifies this
      ensures Valid() && markers == old(markers) - {owner} && built == old(built) - {owner}
    {
      markers, built := markers - {owner}, built - {owner};
    }

    ghost method Report(owner: string, hash: string)
      requires Valid() && owner !in markers
      modifies this`built
      ensures Valid() && built == old(built)[owner := hash]
    {
      built := built[owner := hash];
    }

    method WriteMarker(owner: string, hash: string)
      requires Valid() && owner in built && built[owner] == hash
      modifies this`markers
      ensures Valid() && markers == old(markers)[owner := hash]
    {
      markers := markers[owner := hash];
    }
  }

  /** The part of a task context that the executor changes. */
  class TaskContext {
    const store: PreparedStore
    var prepareStates: map<string, PrepareState>

    constructor (store: PreparedStore)
      ensures this.store == store && prepareStates == map[]
    {
      this.store, prepareStates := store, map[];
    }
  }

  /** Ghost record of the plans and outcomes of the two stages. */
  datatype Record = Record(preparePlans: seq<UnitPlan>, prepareHistory: History, inspectPlans: seq<UnitPlan>,
                           inspectHistory: History)

  datatype TaskRun =
    | Blocked(results: map<string, RuleResult>)    // an extraction ended with an error
    | Completed(results: map<string, RuleResult>)
    | Raised                                       // the callback or the catalogue raised
    | Stopped                                      // the process ended in between

  class TaskExecutor {
    const registry: Registry
    const scope: Option<set<string>>
    const policy: ParallelPolicy
    const execute: UnitRequest -> Run
    const hash: string -> string
    var collected: map<string, RuleResult>

    ghost predicate Valid()
    {
      registry.Valid() && policy.Valid()
    }

    constructor (registry: Registry, scope: Option<set<string>>, policy: ParallelPolicy, execute: UnitRequest -> Run,
                 hash: string -> string)
      requires registry.Valid() && policy.Valid()
      ensures Valid() && collected == map[]
      ensures this.registry == registry && this.scope == scope && this.policy == policy && this.execute == execute
        && this.hash == hash
    {
      this.registry, this.scope, this.policy, this.execute, this.hash := registry, scope, policy, execute, hash;
      collected := map[];
    }

    predicate InScope(code: string) { scope.None? || code in scope.value }

    /** The owners of prepare_plan. */
    function Owners(): (owners: seq<string>)
      requires registry.Valid()
      ensures forall c :: c in owners <==> c in registry.rules && registry.rules[c].prepare.Some? && InScope(c)
    {
      Filter(registry.order, c => c in registry.rules && registry.rules[c].prepare.Some? && InScope(c))
    }

    /** inspect_plan. */
    function Visible(): (codes: seq<string>)
      requires registry.Valid()
      ensures forall c :: c in codes <==> c in registry.rules && !registry.rules[c].hidden && InScope(c)
    {
      Filter(registry.order, c => c in registry.rules && !registry.rules[c].hidden && InScope(c))
    }

    lemma {:induction false} PlansDistinct()
      requires registry.Valid()
      ensures Distinct(Owners()) && Distinct(Visible())
    {
      FilterDistinct(registry.order, c => c in registry.rules && registry.rules[c].prepare.Some? && InScope(c));
      FilterDistinct(registry.order, c => c in registry.rules && !registry.rules[c].hidden && InScope(c));
    }

    function StateOf(rule: Rule, states: map<string, PrepareState>): Option<PrepareState> {
      if rule.prepare.Some? && rule.code in states then Some(states[rule.code]) else None
    }

    /** The plan of an inspection under the given prepare states. */
    function InspectPlanOf(code: string, states: map<string, PrepareState>, matches: string -> Option<seq<string>>,
                           bytes: seq<string> -> nat): UnitPlan
      requires code in registry.rules
    {
      var rule := registry.rules[code];
      InspectPlan(rule, StateOf(rule, states), Files(rule, matches), bytes)
    }

    /** What run_one returns: the short circuit, or the rule body run in the parent. */
    function DirectResult(code: string, states: map<string, PrepareState>, site: Site): RuleResult
      requires code in registry.rules
    {
      var plan := InspectPlanOf(code, states, site.before, site.bytes);
      if plan.shortCircuit.Some? then plan.shortCircuit.value
      else site.direct(code, if plan.request.Some? then plan.request.value.files else [])
    }

    method StoreResult(result: RuleResult)
      modifies this`collected
      ensures collected == old(collected)[result.code := result]
    {
      collected := collected[result.code := result];
    }

    /** run_one. */
    method RunOne(code: string, ctx: TaskContext, site: Site) returns (result: RuleResult)
      requires Valid() && code in registry.rules
      modifies this`collected
      ensures result == DirectResult(code, ctx.prepareStates, site)
      ensures collected == old(collected)[result.code := result]
    {
      var plan := InspectPlanOf(code, ctx.prepareStates, site.before, site.bytes);
      if plan.shortCircuit.Some? {
        result := plan.shortCircuit.value;
      } else {
        result := site.direct(code, if plan.request.Some? then plan.request.value.files else []);
      }
      StoreResult(result);
    }

    lemma {:induction false} ErrorStep(results: map<string, RuleResult>, code: string, result: RuleResult)
      requires code !in results
      ensures HasError(results[code := result]) <==> HasError(results) || result.status == ErrorResult
    {
      var now := results[code := result];
      assert forall c :: c in results ==> c in now && now[c] == results[c];
      assert code in now && now[code] == result;
    }

    /** The extraction loop: every extraction runs, also after one that failed. */
    method RunExtraction(ctx: TaskContext, site: Site) returns (results: map<string, RuleResult>, failed: bool)
      requires Valid()
      modifies this`collected
      ensures results.Keys == Elems(registry.extracts)
      ensures forall c :: c in results ==>
        results[c] == DirectResult(c, ctx.prepareStates, site) && results[c].code in collected
      ensures failed <==> HasError(results)
    {
      results, failed := map[], false;
      for i := 0 to |registry.extracts|
        invariant results.Keys == Elems(registry.extracts[..i])
        invariant forall c :: c in results ==>
          c in registry.rules && results[c] == DirectResult(c, ctx.prepareStates, site) && results[c].code in collected
        invariant failed <==> HasError(results)
      {
        var code := registry.extracts[i];
        assert registry.extracts[..i + 1] == registry.extracts[..i] + [code];
        hide DirectResult;
        hide HasError;
        assert code !in results by { assert forall j :: 0 <= j < i ==> registry.extracts[j] != code; }
        var result := RunOne(code, ctx, site);
        ghost var was := results;
        results := results[code := result];
        ErrorStep(was, code, result);
        failed := failed || result.status == ErrorResult;
      }
      assert registry.extracts[..|registry.extracts|] == registry.extracts;
    }

    /** The prepare plan of an owner, given the markers found on disk. */
    function PlanOf(owner: string, markers: map<string, string>, site: Site): UnitPlan
      requires owner in registry.rules && registry.rules[owner].prepare.Some?
    {
      var rule := registry.rules[owner];
      PreparePlan(rule, Files(rule, site.after), MarkerOf(owner, markers), hash(owner), false, site.bytes)
    }

    function MarkerOf(owner: string, markers: map<string, string>): Option<string> {
      if owner in markers then Some(markers[owner]) else None
    }

    /** The owner directory after planning; was is its marker before. */
    ghost predicate PlannedAt(owner: string, plan: UnitPlan, was: Option<string>, states: map<string, PrepareState>,
                              markers: map<string, string>)
    {
      && plan.owner == owner
      && MarkerOf(owner, markers) == (if plan.request.Some? then None else was)
      && (plan.request.None? ==> plan.prepareState.Some? && owner in states && states[owner] == plan.prepareState.value
                                 && plan.prepareState != Some(Rebuilt))
      && (plan.prepareState == Some(Hit) ==> was == Some(hash(owner)) && plan.request.None?)
    }

    /** The marker that the prepare stage leaves: a unit that ran has one exactly when it reported REBUILT. */
    function MarkerAfter(owner: string, plan: UnitPlan, outcome: Option<UnitOutcome>,
                         was: Option<string>): Option<string>
    {
      if outcome.None? then was else if outcome.value.prepareState == Some(Rebuilt) then Some(hash(owner)) else None
    }

    /** The owner directory is settled, and its marker is the rule's hash whenever the state lets the rule run. */
    ghost predicate ReadyAt(owner: string, plan: UnitPlan, outcome: Option<UnitOutcome>, was: Option<string>,
                            states: map<string, PrepareState>, markers: map<string, string>)
    {
      && (outcome.None? ==> plan.prepareState.Some?)
      && owner in states && states[owner] == SettledState(plan, outcome)
      && MarkerOf(owner, markers) == MarkerAfter(owner, plan, outcome, was)
      && (states[owner] == Hit || states[owner] == Rebuilt ==> owner in markers && markers[owner] == hash(owner))
    }

    /** Two maps that differ only at the given owners. */
    ghost predicate SameElsewhere<T>(owners: seq<string>, m: map<string, T>, m': map<string, T>) {
      m' - Elems(owners) == m - Elems(owners)
    }

    lemma {:induction false} OnlyAt<T>(owners: seq<string>, n: nat, m: map<string, T>, m': map<string, T>,
                                       m'': map<string, T>)
      requires n < |owners| && SameElsewhere(owners, m, m') && m'' - {owners[n]} == m' - {owners[n]}
      ensures SameElsewhere(owners, m, m'')
    {
      assert owners[n] in Elems(owners);
      assert forall k :: k in m'' - Elems(owners) <==> k in (m'' - {owners[n]}) - Elems(owners);
      assert m'' - Elems(owners) == (m'' - {owners[n]}) - Elems(owners);
      assert m' - Elems(owners) == (m' - {owners[n]}) - Elems(owners);
    }

    lemma {:induction false} PlannedElsewhere(owner: string, other: string, plan: UnitPlan, was: Option<string>,
                                              states: map<string, PrepareState>, markers: map<string, string>,
                                              states': map<string, PrepareState>, markers': map<string, string>)
      requires owner != other && PlannedAt(owner, plan, was, states, markers)
      requires states' - {other} == states - {other} && markers' - {other} == markers - {other}
      ensures PlannedAt(owner, plan, was, states', markers')
    {
      assert owner in states' - {other} <==> owner in states - {other};
      assert owner in markers' - {other} <==> owner in markers - {other};
      assert owner in states ==> (states' - {other})[owner] == (states - {other})[owner];
      assert owner in markers ==> (markers' - {other})[owner] == (markers - {other})[owner];
    }

    /** _plan_prepare: decide from the marker, and wipe the owner directory before a worker rebuilds it. */
    method PlanPrepare(owner: string, ctx: TaskContext, site: Site, force: bool) returns (plan: UnitPlan)
      requires Valid() && ctx.store.Valid()
      requires owner in registry.rules && registry.rules[owner].prepare.Some?
      modifies ctx, ctx.store
      ensures ctx.store.Valid()
      ensures plan == PreparePlan(registry.rules[owner], Files(registry.rules[owner], site.after),
                                  MarkerOf(owner, old(ctx.store.markers)),
                                  hash(owner), force, site.bytes)
      ensures !force ==> plan == PlanOf(owner, old(ctx.store.markers), site)
      ensures !force ==>
        PlannedAt(owner, plan, MarkerOf(owner, old(ctx.store.markers)), ctx.prepareStates, ctx.store.markers)
      ensures ctx.prepareStates - {owner} == old(ctx.prepareStates) - {owner}
      ensures ctx.store.markers - {owner} == old(ctx.store.markers) - {owner}
      ensures plan.request.Some? ==>
        ctx.store.markers == old(ctx.store.markers) - {owner} && ctx.store.built == old(ctx.store.built) - {owner}
        && ctx.prepareStates == old(ctx.prepareStates)
      ensures plan.request.None? ==>
        unchanged(ctx.store) && plan.prepareState.Some?
          && ctx.prepareStates == old(ctx.prepareStates)[owner := plan.prepareState.value]
    {
      var rule := registry.rules[owner];
      var marker := MarkerOf(owner, ctx.store.markers);
      plan := PreparePlan(rule, Files(rule, site.after), marker, hash(owner), force, site.bytes);
      if plan.request.Some? {
        ctx.store.Wipe(owner);
      } else {
        ctx.prepareStates := ctx.prepareStates[owner := plan.prepareState.value];
      }
    }

    /** _finish_prepare: the marker is written only for a prepare that reported REBUILT. */
    method FinishPrepare(ctx: TaskContext, plan: UnitPlan, outcome: UnitOutcome) returns (stopped: bool)
      requires ctx.store.Valid() && plan.owner !in ctx.store.markers
      modifies ctx, ctx.store
      ensures ctx.store.Valid()
      ensures !stopped ==> ctx.prepareStates == old(ctx.prepareStates)[plan.owner := SettledState(plan, Some(outcome))]
      ensures !stopped && outcome.prepareState == Some(Rebuilt) ==>
        ctx.store.markers == old(ctx.store.markers)[plan.owner := hash(plan.owner)]
      ensures outcome.prepareState != Some(Rebuilt) ==> unchanged(ctx.store) && !stopped
      ensures ctx.prepareStates - {plan.owner} == old(ctx.prepareStates) - {plan.owner}
      ensures ctx.store.markers - {plan.owner} == old(ctx.store.markers) - {plan.owner}
    {
      stopped := false;
      if outcome.prepareState == Some(Rebuilt) {
        ctx.store.Report(plan.owner, hash(plan.owner));
        if * { return true; }
        ctx.store.WriteMarker(plan.owner, hash(plan.owner));
        ctx.prepareStates := ctx.prepareStates[plan.owner := Rebuilt];
      } else {
        ctx.prepareStates := ctx.prepareStates[plan.owner := Failed];
      }
    }

    method PlanPrepares(owners: seq<string>, ctx: TaskContext, site: Site) returns (plans: seq<UnitPlan>, stopped: bool)
      requires Valid() && ctx.store.Valid() && Distinct(owners)
      requires forall o :: o in owners ==> o in registry.rules && registry.rules[o].prepare.Some?
      modifies ctx, ctx.store
      ensures ctx.store.Valid()
      ensures !stopped ==> |plans| == |owners|
      ensures !stopped ==> forall i :: 0 <= i < |owners| ==> plans[i] == PlanOf(owners[i], old(ctx.store.markers), site)
      ensures !stopped ==> forall i :: 0 <= i < |owners| ==>
        PlannedAt(owners[i], plans[i], MarkerOf(owners[i], old(ctx.store.markers)), ctx.prepareStates,
                  ctx.store.markers)
      ensures SameElsewhere(owners, old(ctx.prepareStates), ctx.prepareStates)
      ensures SameElsewhere(owners, old(ctx.store.markers), ctx.store.markers)
    {
      plans := [];
      ghost var states0, markers0 := ctx.prepareStates, ctx.store.markers;
      for n := 0 to |owners|
        invariant ctx.store.Valid() && |plans| == n
        invariant forall i :: 0 <= i < n ==> plans[i] == PlanOf(owners[i], markers0, site)
        invariant forall i :: 0 <= i < n ==>
          PlannedAt(owners[i], plans[i], MarkerOf(owners[i], markers0), ctx.prepareStates, ctx.store.markers)
        invariant forall i :: n <= i < |owners| ==>
          MarkerOf(owners[i], ctx.store.markers) == MarkerOf(owners[i], markers0)
        invariant SameElsewhere(owners, states0, ctx.prepareStates)
          && SameElsewhere(owners, markers0, ctx.store.markers)
      {
        if * { return plans, true; }
        ghost var states, markers := ctx.prepareStates, ctx.store.markers;
        var plan := PlanPrepare(owners[n], ctx, site, false);
        assert PlanOf(owners[n], markers, site) == PlanOf(owners[n], markers0, site);
        OnlyAt(owners, n, states0, states, ctx.prepareStates);
        OnlyAt(owners, n, markers0, markers, ctx.store.markers);
        hide PreparePlan; hide PlannedAt; hide PlanOf; hide SameElsewhere; hide Elems;
        forall i | 0 <= i < |owners| && i != n
          ensures i < n ==>
            PlannedAt(owners[i], plans[i], MarkerOf(owners[i], markers0), ctx.prepareStates, ctx.store.markers)
          ensures MarkerOf(owners[i], ctx.store.markers) == MarkerOf(owners[i], markers)
        {
          SameMarker(owners[i], owners[n], markers, ctx.store.markers);
          if i < n {
            PlannedElsewhere(owners[i], owners[n], plans[i], MarkerOf(owners[i], markers0), states, markers,
                             ctx.prepareStates, ctx.store.markers);
          }
        }
        plans := plans + [plan];
      }
      stopped := false;
    }

    lemma {:induction false} SameMarker(owner: string, other: string, m: map<string, string>, m': map<string, string>)
      requires owner != other && m' - {other} == m - {other}
      ensures MarkerOf(owner, m') == MarkerOf(owner, m)
    {
      assert owner in m' - {other} <==> owner in m - {other};
      assert owner in m ==> (m' - {other})[owner] == (m - {other})[owner];
    }

    /** The hook calls of the prepare stage, in plan order. */
    method FinishPrepares(owners: seq<string>, plans: seq<UnitPlan>, outcomes: seq<Option<UnitOutcome>>,
                          ghost markers0: map<string, string>,
                          ctx: TaskContext)
      returns (stopped: bool)
      requires ctx.store.Valid() && Distinct(owners) && |plans| == |owners| == |outcomes|
      requires forall i :: 0 <= i < |owners| ==>
        PlannedAt(owners[i], plans[i], MarkerOf(owners[i], markers0), ctx.prepareStates, ctx.store.markers)
      requires forall i :: 0 <= i < |owners| ==> (outcomes[i].None? <==> plans[i].request.None?)
      modifies ctx, ctx.store
      ensures ctx.store.Valid()
      ensures !stopped ==> forall i :: 0 <= i < |owners| ==>
        ReadyAt(owners[i], plans[i], outcomes[i], MarkerOf(owners[i], markers0), ctx.prepareStates, ctx.store.markers)
      ensures !stopped ==> SameElsewhere(owners, old(ctx.prepareStates), ctx.prepareStates)
      ensures !stopped ==> SameElsewhere(owners, old(ctx.store.markers), ctx.store.markers)
    {
      ghost var states1, markers1 := ctx.prepareStates, ctx.store.markers;
      for n := 0 to |owners|
        invariant ctx.store.Valid()
        invariant forall i :: 0 <= i < n ==>
          ReadyAt(owners[i], plans[i], outcomes[i], MarkerOf(owners[i], markers0), ctx.prepareStates, ctx.store.markers)
        invariant forall i :: n <= i < |owners| ==>
          PlannedAt(owners[i], plans[i], MarkerOf(owners[i], markers0), ctx.prepareStates, ctx.store.markers)
        invariant SameElsewhere(owners, states1, ctx.prepareStates)
          && SameElsewhere(owners, markers1, ctx.store.markers)
      {
        if * { return true; }
        assert PlannedAt(owners[n], plans[n], MarkerOf(owners[n], markers0), ctx.prepareStates, ctx.store.markers);
        if outcomes[n].Some? {
          ghost var states, markers := ctx.prepareStates, ctx.store.markers;
          stopped := FinishPrepare(ctx, plans[n], outcomes[n].value);
          if stopped { return; }
          OthersKept(owners, plans, outcomes, markers0, n, states, markers, ctx.prepareStates, ctx.store.markers);
          OnlyAt(owners, n, states1, states, ctx.prepareStates);
          OnlyAt(owners, n, markers1, markers, ctx.store.markers);
        }
        assert ReadyAt(owners[n], plans[n], outcomes[n], MarkerOf(owners[n], markers0), ctx.prepareStates,
                       ctx.store.markers);
        hide ReadyAt; hide PlannedAt; hide SameElsewhere; hide Elems; hide Distinct;
      }
      stopped := false;
    }

    lemma {:induction false} OthersKept(owners: seq<string>, plans: seq<UnitPlan>, outcomes: seq<Option<UnitOutcome>>,
                                        markers0: map<string, string>, n: nat,
                                        states: map<string, PrepareState>, markers: map<string, string>,
                                        states': map<string, PrepareState>, markers': map<string, string>)
      requires Distinct(owners) && |plans| == |owners| == |outcomes| && n < |owners|
      requires forall i :: 0 <= i < n ==>
        ReadyAt(owners[i], plans[i], outcomes[i], MarkerOf(owners[i], markers0), states, markers)
      requires forall i :: n <= i < |owners| ==>
        PlannedAt(owners[i], plans[i], MarkerOf(owners[i], markers0), states, markers)
      requires states' - {owners[n]} == states - {owners[n]} && markers' - {owners[n]} == markers - {owners[n]}
      ensures forall i :: 0 <= i < n ==>
        ReadyAt(owners[i], plans[i], outcomes[i], MarkerOf(owners[i], markers0), states', markers')
      ensures forall i :: n < i < |owners| ==>
        PlannedAt(owners[i], plans[i], MarkerOf(owners[i], markers0), states', markers')
    {
      forall i | 0 <= i < |owners| && i != n
        ensures i < n ==> ReadyAt(owners[i], plans[i], outcomes[i], MarkerOf(owners[i], markers0), states', markers')
        ensures i > n ==> PlannedAt(owners[i], plans[i], MarkerOf(owners[i], markers0), states', markers')
      {
        assert owners[i] != owners[n];
        var was := MarkerOf(owners[i], markers0);
        hide Distinct; hide PlannedAt; hide ReadyAt;
        if i < n {
          ReadyElsewhere(owners[i], owners[n], plans[i], outcomes[i], was, states, markers, states', markers');
        } else {
          PlannedElsewhere(owners[i], owners[n], plans[i], was, states, markers, states', markers');
        }
      }
    }

    lemma {:induction false} ReadyElsewhere(owner: string, other: string, plan: UnitPlan, outcome: Option<UnitOutcome>,
                                            was: Option<string>,
                                            states: map<string, PrepareState>, markers: map<string, string>,
                                            states': map<string, PrepareState>, markers': map<string, string>)
      requires owner != other && ReadyAt(owner, plan, outcome, was, states, markers)
      requires states' - {other} == states - {other} && markers' - {other} == markers - {other}
      ensures ReadyAt(owner, plan, outcome, was, states', markers')
    {
      assert owner in states' - {other} <==> owner in states - {other};
      assert owner in states ==> (states' - {other})[owner] == (states - {other})[owner];
      SameMarker(owner, other, markers, markers');
      hide SettledState; hide MarkerAfter;
    }

    /** Whether a rule may run: its prepare, if it has one, left a directory of its current version. */
    ghost predicate MayRun(code: string, states: map<string, PrepareState>, store: PreparedStore)
      reads store
    {
      code in registry.rules && registry.rules[code].prepare.Some? ==>
        && code in states && (states[code] == Hit || states[code] == Rebuilt)
        && code in store.built && store.built[code] == hash(code)
    }

    /** What the prepare stage leaves, given its plans and its history. */
    ghost predicate Prepared(site: Site, plans: seq<UnitPlan>, h: History, states0: map<string, PrepareState>,
                             markers0: map<string, string>, states: map<string, PrepareState>,
                             markers: map<string, string>)
      requires registry.Valid()
    {
      && |plans| == |Owners()|
      && (forall i :: 0 <= i < |plans| ==> PlanMatches(i, plans, markers0, site))
      && (forall i :: 0 <= i < |plans| ==>
            ReadyAt(Owners()[i], plans[i], StageOutcome(execute, site.prepareEnv, plans, Elems(h.recovery), i),
                    MarkerOf(Owners()[i], markers0), states, markers))
      && SameElsewhere(Owners(), states0, states) && SameElsewhere(Owners(), markers0, markers)
      && OnceEach(execute, site.prepareEnv, plans, PendingFrom(plans, 0), h)
    }

    lemma {:induction false} Transitively<T>(owners: seq<string>, m: map<string, T>, m': map<string, T>,
                                             m'': map<string, T>)
      requires SameElsewhere(owners, m, m') && SameElsewhere(owners, m', m'')
      ensures SameElsewhere(owners, m, m'')
    {
    }

    /** The prepare stage. */
    method RunPrepares(ctx: TaskContext, site: Site, runner: StageRunner)
      returns (stopped: bool, ghost plans: seq<UnitPlan>, ghost h: History)
      requires Valid() && ctx.store.Valid() && runner.Valid() && runner.execute == execute && runner.policy == policy
      modifies ctx, ctx.store, runner
      ensures ctx.store.Valid() && runner.Valid()
      ensures !stopped ==>
        Prepared(site, plans, h, old(ctx.prepareStates), old(ctx.store.markers), ctx.prepareStates, ctx.store.markers)
      ensures !stopped && plans != [] ==> h.mode == runner.EndsIn(site.prepareEnv, old(runner.broken), plans)
    {
      var owners := Owners();
      PlansDistinct();
      var thePlans;
      ghost var states0, markers0 := ctx.prepareStates, ctx.store.markers;
      h := History(SerialMode, [], {}, [], 0, 0);
      thePlans, stopped := PlanPrepares(owners, ctx, site);
      plans := thePlans;
      if stopped { return; }
      ghost var states1, markers1 := ctx.prepareStates, ctx.store.markers;
      var outcomes, h' := runner.RunStage(site.prepareEnv, thePlans);
      h := h';
      forall i | 0 <= i < |owners| ensures outcomes[i].None? <==> plans[i].request.None? {
        EmptySlots(execute, site.prepareEnv, plans, h, i);
      }
      stopped := FinishPrepares(owners, thePlans, outcomes, markers0, ctx);
      if stopped { return; }
      Transitively(owners, states0, states1, ctx.prepareStates);
      Transitively(owners, markers0, markers1, ctx.store.markers);
      hide ReadyAt; hide SameElsewhere; hide OnceEach; hide StageOutcome; hide PlanOf; hide Filter;
    }

    ghost predicate PlanMatches(i: nat, plans: seq<UnitPlan>, markers: map<string, string>, site: Site)
      requires registry.Valid() && i < |plans| == |Owners()|
    {
      assert Owners()[i] in Owners();
      plans[i] == PlanOf(Owners()[i], markers, site)
    }

    ghost predicate IsInspectPlan(codes: seq<string>, plans: seq<UnitPlan>, i: nat, states: map<string, PrepareState>,
                                  site: Site)
    {
      i < |plans| && i < |codes| && codes[i] in registry.rules
        && plans[i] == InspectPlanOf(codes[i], states, site.after, site.bytes)
    }

    /** The inspect plans, read off the prepare states. */
    method PlanInspects(codes: seq<string>, ctx: TaskContext, site: Site) returns (plans: seq<UnitPlan>)
      requires forall c :: c in codes ==> c in registry.rules
      ensures |plans| == |codes|
      ensures forall i :: 0 <= i < |plans| ==> IsInspectPlan(codes, plans, i, ctx.prepareStates, site)
    {
      plans := [];
      for n := 0 to |codes|
        invariant |plans| == n
        invariant forall i :: 0 <= i < n ==> IsInspectPlan(codes, plans, i, ctx.prepareStates, site)
      {
        assert codes[n] in codes;
        ghost var was := plans;
        plans := plans + [InspectPlanOf(codes[n], ctx.prepareStates, site.after, site.bytes)];
        hide InspectPlanOf;
        assert forall i :: 0 <= i < n ==> IsInspectPlan(codes, was, i, ctx.prepareStates, site) && was[i] == plans[i];
      }
    }

    /** The results of the inspect stage, added to those of the extraction. */
    method StoreResults(codes: seq<string>, plans: seq<UnitPlan>, outcomes: seq<Option<UnitOutcome>>,
                        extracted: map<string, RuleResult>)
      returns (results: map<string, RuleResult>)
      requires |codes| == |plans| == |outcomes| && Distinct(codes)
      requires forall i :: 0 <= i < |plans| ==> plans[i].code == codes[i]
      modifies this`collected
      ensures results.Keys == extracted.Keys + Elems(codes)
      ensures forall i :: 0 <= i < |codes| ==>
        codes[i] in results && results[codes[i]] == FinalResult(plans[i], outcomes[i])
      ensures forall c :: c in extracted && c !in codes ==> results[c] == extracted[c]
      ensures forall i :: 0 <= i < |codes| ==> FinalResult(plans[i], outcomes[i]).code in collected
      ensures old(collected).Keys <= collected.Keys
    {
      results := extracted;
      for n := 0 to |codes|
        invariant results.Keys == extracted.Keys + Elems(codes[..n])
        invariant forall i :: 0 <= i < n ==>
          codes[i] in results && results[codes[i]] == FinalResult(plans[i], outcomes[i])
        invariant forall c :: c in extracted && c !in codes ==> results[c] == extracted[c]
        invariant forall i :: 0 <= i < n ==> FinalResult(plans[i], outcomes[i]).code in collected
        invariant old(collected).Keys <= collected.Keys
      {
        assert codes[..n + 1] == codes[..n] + [codes[n]];
        ElemsConcat(codes[..n], [codes[n]]);
        assert Elems([codes[n]]) == {codes[n]};
        hide Elems;
        hide FinalResult;
        var result := FinalResult(plans[n], outcomes[n]);
        StoreResult(result);
        results := results[plans[n].code := result];
      }
      assert codes[..|codes|] == codes;
    }

    lemma {:induction false} RunsOnlyWhenReady(ctx: TaskContext, site: Site, plans: seq<UnitPlan>, h: History,
                                               states0: map<string, PrepareState>, markers0: map<string, string>,
                                               code: string)
      requires Valid() && ctx.store.Valid() && code in Visible()
      requires Prepared(site, plans, h, states0, markers0, ctx.prepareStates, ctx.store.markers)
      ensures registry.rules[code].prepare.Some? ==> code in ctx.prepareStates
      ensures InspectPlanOf(code, ctx.prepareStates, site.after, site.bytes).request.Some? ==>
        MayRun(code, ctx.prepareStates, ctx.store)
    {
      hide StageOutcome; hide SettledState; hide OnceEach; hide PlanMatches; hide SameElsewhere;
      if registry.rules[code].prepare.Some? {
        assert code in Owners();
        var i :| 0 <= i < |Owners()| && Owners()[i] == code;
        assert ReadyAt(code, plans[i], StageOutcome(execute, site.prepareEnv, plans, Elems(h.recovery), i),
                       MarkerOf(code, markers0), ctx.prepareStates, ctx.store.markers);
      }
    }

    // ----- The serial reference of a run -----------------------------------------------------------------

    /** The state in which a prepare unit run in the parent process leaves an owner. */
    function SerialState(owner: string, site: Site, markers0: map<string, string>): PrepareState
      requires owner in registry.rules && registry.rules[owner].prepare.Some?
    {
      var plan := PlanOf(owner, markers0, site);
      SettledState(plan, SerialOutcome(execute, plan))
    }

    function SerialMarker(owner: string, site: Site, markers0: map<string, string>): Option<string>
      requires owner in registry.rules && registry.rules[owner].prepare.Some?
    {
      var plan := PlanOf(owner, markers0, site);
      MarkerAfter(owner, plan, SerialOutcome(execute, plan), MarkerOf(owner, markers0))
    }

    /** The prepare states after a run without pools. */
    function SerialStates(site: Site, states0: map<string, PrepareState>, markers0: map<string, string>)
      : map<string, PrepareState>
      requires registry.Valid()
    {
      map o | o in states0.Keys + Elems(Owners()) :: if o in Owners() then SerialState(o, site, markers0)
                                                     else states0[o]
    }

    /** The markers after a run without pools. */
    function SerialMarkers(site: Site, markers0: map<string, string>): map<string, string>
      requires registry.Valid()
    {
      map o | o in markers0.Keys + Elems(Owners()) && (o in Owners() ==> SerialMarker(o, site, markers0).Some?)
        :: if o in Owners() then SerialMarker(o, site, markers0).value else markers0[o]
    }

    /** The results of a run without pools. */
    function SerialResults(site: Site, states0: map<string, PrepareState>, markers0: map<string, string>)
      : map<string, RuleResult>
      requires registry.Valid()
    {
      map c | c in Elems(registry.extracts) + Elems(Visible()) ::
        if c in Visible() then
          var plan := InspectPlanOf(c, SerialStates(site, states0, markers0), site.after, site.bytes);
          FinalResult(plan, SerialOutcome(execute, plan))
        else DirectResult(c, states0, site)
    }

    /** Every recovery run of a stage came back. */
    ghost predicate NoneLost(env: Environment, h: History) {
      forall i :: i in h.recovery ==> env.recovers(i)
    }

    lemma {:induction false} SameAsSerial(env: Environment, plans: seq<UnitPlan>, h: History, i: nat)
      requires i < |plans| && NoneLost(env, h)
      ensures StageOutcome(execute, env, plans, Elems(h.recovery), i) == SerialOutcome(execute, plans[i])
    {
    }

    lemma {:induction false} SerialStatesAre(site: Site, states0: map<string, PrepareState>,
                                             markers0: map<string, string>,
                                             states: map<string, PrepareState>)
      requires registry.Valid() && SameElsewhere(Owners(), states0, states)
      requires forall o :: o in Owners() ==> o in states && states[o] == SerialState(o, site, markers0)
      ensures states == SerialStates(site, states0, markers0)
    {
      hide SerialState; hide Filter; hide Owners;
      OutsideAlike(Owners(), states0, states);
      hide SameElsewhere;
      assert states.Keys == states0.Keys + Elems(Owners());
    }

    lemma {:induction false} SerialMarkersAre(site: Site, markers0: map<string, string>, markers: map<string, string>)
      requires registry.Valid() && SameElsewhere(Owners(), markers0, markers)
      requires forall o :: o in Owners() ==> MarkerOf(o, markers) == SerialMarker(o, site, markers0)
      ensures markers == SerialMarkers(site, markers0)
    {
      hide SerialMarker; hide Filter; hide Owners;
      OutsideAlike(Owners(), markers0, markers);
      hide SameElsewhere;
      var serial := SerialMarkers(site, markers0);
      forall o ensures o in markers <==> o in serial {
        if o in Owners() { assert MarkerOf(o, markers) == SerialMarker(o, site, markers0); }
      }
    }

    /** With no recovery run lost, the prepare stage leaves what it leaves without pools. */
    lemma {:induction false} PreparedSerially(site: Site, plans: seq<UnitPlan>, h: History,
                                              states0: map<string, PrepareState>,
                                              markers0: map<string, string>, states: map<string, PrepareState>,
                                              markers: map<string, string>)
      requires registry.Valid() && Prepared(site, plans, h, states0, markers0, states, markers)
      requires NoneLost(site.prepareEnv, h)
      ensures states == SerialStates(site, states0, markers0) && markers == SerialMarkers(site, markers0)
    {
      PreparedElsewhere(site, plans, h, states0, markers0, states, markers);
      hide *;
      forall o | o in Owners()
        ensures o in states && states[o] == SerialState(o, site, markers0)
        ensures MarkerOf(o, markers) == SerialMarker(o, site, markers0)
      {
        PreparedOwner(site, plans, h, states0, markers0, states, markers, o);
      }
      SerialStatesAre(site, states0, markers0, states);
      SerialMarkersAre(site, markers0, markers);
    }

    lemma {:induction false} OutsideAlike<T>(owners: seq<string>, m: map<string, T>, m': map<string, T>)
      requires SameElsewhere(owners, m, m')
      ensures forall o :: o !in owners ==> (o in m' <==> o in m)
      ensures forall o :: o !in owners && o in m ==> m'[o] == m[o]
    {
      forall o | o !in owners ensures (o in m' <==> o in m) && (o in m ==> m'[o] == m[o]) {
        assert o in m' - Elems(owners) <==> o in m - Elems(owners);
        assert o in m ==> (m' - Elems(owners))[o] == (m - Elems(owners))[o];
      }
    }

    lemma {:induction false} PreparedOwner(site: Site, plans: seq<UnitPlan>, h: History,
                                           states0: map<string, PrepareState>,
                                           markers0: map<string, string>, states: map<string, PrepareState>,
                                           markers: map<string, string>, owner: string)
      requires registry.Valid() && Prepared(site, plans, h, states0, markers0, states, markers)
      requires NoneLost(site.prepareEnv, h) && owner in Owners()
      ensures owner in states && states[owner] == SerialState(owner, site, markers0)
      ensures MarkerOf(owner, markers) == SerialMarker(owner, site, markers0)
    {
      var i :| 0 <= i < |Owners()| && Owners()[i] == owner;
      assert PlanMatches(i, plans, markers0, site);
      SameAsSerial(site.prepareEnv, plans, h, i);
      hide StageOutcome; hide SettledState; hide OnceEach; hide SameElsewhere; hide Owners; hide PlanOf;
      hide MarkerAfter; hide NoneLost;
      assert ReadyAt(owner, plans[i], StageOutcome(execute, site.prepareEnv, plans, Elems(h.recovery), i),
                     MarkerOf(owner, markers0), states, markers);
    }

    /** What both stages leave, given the record of their plans and histories. */
    ghost predicate Ran(site: Site, record: Record, states0: map<string, PrepareState>, markers0: map<string, string>,
                        states: map<string, PrepareState>, markers: map<string, string>)
      requires registry.Valid()
    {
      && Prepared(site, record.preparePlans, record.prepareHistory, states0, markers0, states, markers)
      && |record.inspectPlans| == |Visible()|
      && (forall i :: 0 <= i < |Visible()| ==> IsInspectPlan(Visible(), record.inspectPlans, i, states, site))
      && OnceEach(execute, site.inspectEnv, record.inspectPlans, PendingFrom(record.inspectPlans, 0),
                  record.inspectHistory)
    }

    ghost predicate NothingLost(site: Site, record: Record) {
      NoneLost(site.prepareEnv, record.prepareHistory) && NoneLost(site.inspectEnv, record.inspectHistory)
    }

    /** Whatever the policy, the pools and the completion order: when no recovery run is lost, the results, the
        prepare states and the markers are those of the run without pools. */
    lemma {:induction false} RunIsSerial(site: Site, record: Record, states0: map<string, PrepareState>,
                                         markers0: map<string, string>,
                                         states: map<string, PrepareState>, markers: map<string, string>,
                                         results: map<string, RuleResult>)
      requires registry.Valid() && Ran(site, record, states0, markers0, states, markers) && NothingLost(site, record)
      requires results.Keys == Elems(registry.extracts) + Elems(Visible())
      requires forall c :: c in registry.extracts && c !in Visible() ==>
        c in results && results[c] == DirectResult(c, states0, site)
      requires forall i :: 0 <= i < |Visible()| ==> InspectedAt(site, record, results, states, i)
      ensures states == SerialStates(site, states0, markers0) && markers == SerialMarkers(site, markers0)
      ensures results == SerialResults(site, states0, markers0)
    {
      RanParts(site, record, states0, markers0, states, markers);
      hide Prepared; hide NoneLost; hide Filter; hide DirectResult; hide InspectPlanOf; hide FinalResult;
      hide InspectedAt;
      PreparedSerially(site, record.preparePlans, record.prepareHistory, states0, markers0, states, markers);
      forall c | c in Visible()
        ensures c in results
        ensures var plan := InspectPlanOf(c, states, site.after, site.bytes);
          results[c] == FinalResult(plan, SerialOutcome(execute, plan))
      {
        var i :| 0 <= i < |Visible()| && Visible()[i] == c;
        InspectedSerially(site, record, results, states, i);
      }
      hide *;
      SerialResultsAre(site, states0, markers0, results);
    }

    lemma {:induction false} RanParts(site: Site, record: Record, states0: map<string, PrepareState>,
                                      markers0: map<string, string>,
                                      states: map<string, PrepareState>, markers: map<string, string>)
      requires registry.Valid() && Ran(site, record, states0, markers0, states, markers) && NothingLost(site, record)
      ensures |record.inspectPlans| == |Visible()|
      ensures Prepared(site, record.preparePlans, record.prepareHistory, states0, markers0, states, markers)
      ensures NoneLost(site.prepareEnv, record.prepareHistory) && NoneLost(site.inspectEnv, record.inspectHistory)
    {
      hide Prepared; hide NoneLost; hide OnceEach; hide Visible; hide Filter; hide IsInspectPlan;
    }

    lemma {:induction false} InspectedSerially(site: Site, record: Record, results: map<string, RuleResult>,
                                               states: map<string, PrepareState>, i: nat)
      requires registry.Valid() && i < |Visible()| == |record.inspectPlans|
        && NoneLost(site.inspectEnv, record.inspectHistory)
      requires InspectedAt(site, record, results, states, i)
      ensures Visible()[i] in results && Visible()[i] in registry.rules
      ensures var plan := InspectPlanOf(Visible()[i], states, site.after, site.bytes);
        results[Visible()[i]] == FinalResult(plan, SerialOutcome(execute, plan))
    {
      SameAsSerial(site.inspectEnv, record.inspectPlans, record.inspectHistory, i);
      assert Visible()[i] in Visible();
      hide NoneLost; hide StageOutcome; hide FinalResult; hide InspectPlanOf; hide SerialOutcome; hide Filter;
    }

    lemma {:induction false} SerialResultsAre(site: Site, states0: map<string, PrepareState>,
                                              markers0: map<string, string>,
                                              results: map<string, RuleResult>)
      requires registry.Valid() && results.Keys == Elems(registry.extracts) + Elems(Visible())
      requires forall c :: c in registry.extracts && c !in Visible() ==>
        c in results && results[c] == DirectResult(c, states0, site)
      requires forall c :: c in Visible() ==> c in results
      requires forall c :: c in Visible() ==>
        var plan := InspectPlanOf(c, SerialStates(site, states0, markers0), site.after, site.bytes);
        results[c] == FinalResult(plan, SerialOutcome(execute, plan))
      ensures results == SerialResults(site, states0, markers0)
    {
      hide Visible; hide Filter; hide SerialStates; hide InspectPlanOf; hide FinalResult; hide SerialOutcome;
      hide DirectResult;
    }

    ghost predicate IsLastIndex(codes: seq<string>, code: string, i: nat) {
      i < |codes| && codes[i] == code && forall j :: i < j < |codes| ==> codes[j] != code
    }

    /** assign_order: the execution order of a result is the last position of its code in the whole plan. */
    method AssignOrder(plan: seq<string>, results: map<string, RuleResult>) returns (order: map<string, nat>)
      ensures forall c :: c in order <==> c in results && c in plan
      ensures forall c :: c in order ==> IsLastIndex(plan, c, order[c])
    {
      order := map[];
      for i := 0 to |plan|
        invariant forall c :: c in order <==> c in results && c in plan[..i]
        invariant forall c :: c in order ==> order[c] < i && IsLastIndex(plan[..i], c, order[c])
      {
        assert plan[..i + 1] == plan[..i] + [plan[i]];
        if plan[i] in results { order := order[plan[i] := i]; }
      }
      assert plan[..|plan|] == plan;
    }

    /** The result of an inspected rule, given the plans and the history of the inspect stage. */
    ghost function InspectResult(site: Site, record: Record, i: nat): RuleResult
      requires i < |record.inspectPlans|
    {
      FinalResult(record.inspectPlans[i],
                  StageOutcome(execute, site.inspectEnv, record.inspectPlans, Elems(record.inspectHistory.recovery), i))
    }

    /** What is recorded for the visible rule number i. */
    ghost predicate InspectedAt(site: Site, record: Record, results: map<string, RuleResult>,
                                states: map<string, PrepareState>, i: nat)
      requires registry.Valid() && i < |Visible()| == |record.inspectPlans|
    {
      var code := Visible()[i];
      && code in results && results[code] == InspectResult(site, record, i)
      && IsInspectPlan(Visible(), record.inspectPlans, i, states, site)
      && (registry.rules[code].prepare.Some? ==> code in states)
    }

    /** A visible rule is run only when its prepared directory, if it has one, is of its current version. */
    ghost predicate RunIsReady(record: Record, states: map<string, PrepareState>, store: PreparedStore, i: nat)
      requires registry.Valid() && i < |Visible()| == |record.inspectPlans|
      reads store
    {
      Visible()[i] in registry.rules && (record.inspectPlans[i].request.Some? ==> MayRun(Visible()[i], states, store))
    }

    /** Without pools nothing is recovered, so nothing is lost. */
    lemma {:induction false} SerialLosesNothing(env: Environment, plans: seq<UnitPlan>, h: History)
      requires OnceEach(execute, env, plans, PendingFrom(plans, 0), h)
      requires plans == [] || h.mode == SerialMode
      ensures NoneLost(env, h)
    {
      if plans == [] { assert forall i :: i in h.recovery ==> i in Elems(h.recovery); }
    }

    /** The two stages after extraction. */
    method RunStages(ctx: TaskContext, site: Site, extracted: map<string, RuleResult>)
      returns (stopped: bool, results: map<string, RuleResult>, ghost record: Record)
      requires Valid() && ctx.store.Valid()
      modifies this`collected, ctx, ctx.store
      ensures ctx.store.Valid()
      ensures old(collected).Keys <= collected.Keys
      ensures !stopped ==> results.Keys == extracted.Keys + Elems(Visible())
      ensures !stopped ==> forall c :: c in extracted && c !in Visible() ==> results[c] == extracted[c]
      ensures !stopped ==>
        Ran(site, record, old(ctx.prepareStates), old(ctx.store.markers), ctx.prepareStates, ctx.store.markers)
      ensures !stopped && !policy.enabled ==> NothingLost(site, record)
      ensures !stopped ==> forall i :: 0 <= i < |Visible()| ==> InspectedAt(site, record, results, ctx.prepareStates, i)
      ensures !stopped ==> forall i :: 0 <= i < |Visible()| ==> RunIsReady(record, ctx.prepareStates, ctx.store, i)
      ensures !stopped ==> forall i :: 0 <= i < |Visible()| ==> InspectResult(site, record, i).code in collected
    {
      results := map[];
      ghost var none := History(SerialMode, [], {}, [], 0, 0);
      ghost var states0, markers0 := ctx.prepareStates, ctx.store.markers;
      record := Record([], none, [], none);
      hide Prepared; hide Filter; hide SerialOutcome;
      var runner := new StageRunner(policy, execute);
      ghost var preparePlans, h;
      stopped, preparePlans, h := RunPrepares(ctx, site, runner);
      if stopped { return; }
      PreparedElsewhere(site, preparePlans, h, states0, markers0, ctx.prepareStates, ctx.store.markers);
      var codes := Visible();
      var plans := PlanInspects(codes, ctx, site);
      var outcomes, h' := runner.RunStage(site.inspectEnv, plans);
      record := Record(preparePlans, h, plans, h');
      if !policy.enabled {
        SerialLosesNothing(site.prepareEnv, preparePlans, h);
        SerialLosesNothing(site.inspectEnv, plans, h');
      }
      PlansDistinct();
      CodesOfPlans(codes, plans, ctx.prepareStates, site);
      results := StoreResults(codes, plans, outcomes, extracted);
      runner.Close();
      StoredResults(ctx, site, record, states0, markers0, outcomes, results);
    }

    lemma {:induction false} StoredResults(ctx: TaskContext, site: Site, record: Record,
                                           states0: map<string, PrepareState>,
                                           markers0: map<string, string>, outcomes: seq<Option<UnitOutcome>>,
                                           results: map<string, RuleResult>)
      requires Valid() && ctx.store.Valid()
        && Ran(site, record, states0, markers0, ctx.prepareStates, ctx.store.markers)
      requires |outcomes| == |Visible()|
      requires forall i :: 0 <= i < |outcomes| ==>
        outcomes[i]
          == StageOutcome(execute, site.inspectEnv, record.inspectPlans, Elems(record.inspectHistory.recovery), i)
      requires forall i :: 0 <= i < |outcomes| ==>
        Visible()[i] in results && results[Visible()[i]] == FinalResult(record.inspectPlans[i], outcomes[i])
      requires forall i :: 0 <= i < |outcomes| ==> FinalResult(record.inspectPlans[i], outcomes[i]).code in collected
      ensures forall i :: 0 <= i < |Visible()| ==> InspectedAt(site, record, results, ctx.prepareStates, i)
      ensures forall i :: 0 <= i < |Visible()| ==> RunIsReady(record, ctx.prepareStates, ctx.store, i)
      ensures forall i :: 0 <= i < |Visible()| ==> InspectResult(site, record, i).code in collected
    {
      hide Prepared; hide StageOutcome; hide OnceEach; hide FinalResult; hide Filter; hide Owners; hide MayRun;
      hide InspectPlanOf;
      forall i | 0 <= i < |Visible()|
        ensures InspectedAt(site, record, results, ctx.prepareStates, i)
          && RunIsReady(record, ctx.prepareStates, ctx.store, i)
        ensures InspectResult(site, record, i).code in collected
      {
        assert Visible()[i] in Visible() && IsInspectPlan(Visible(), record.inspectPlans, i, ctx.prepareStates, site);
        RunsOnlyWhenReady(ctx, site, record.preparePlans, record.prepareHistory, states0, markers0, Visible()[i]);
      }
    }

    lemma {:induction false} PreparedElsewhere(site: Site, plans: seq<UnitPlan>, h: History,
                                               states0: map<string, PrepareState>,
                                               markers0: map<string, string>, states: map<string, PrepareState>,
                                               markers: map<string, string>)
      requires registry.Valid() && Prepared(site, plans, h, states0, markers0, states, markers)
      ensures OnceEach(execute, site.prepareEnv, plans, PendingFrom(plans, 0), h)
      ensures SameElsewhere(Owners(), states0, states) && SameElsewhere(Owners(), markers0, markers)
    {
      hide OnceEach; hide ReadyAt; hide PlanMatches; hide SameElsewhere; hide Owners; hide Filter; hide StageOutcome;
    }

    lemma {:induction false} CodesOfPlans(codes: seq<string>, plans: seq<UnitPlan>, states: map<string, PrepareState>,
                                          site: Site)
      requires registry.Valid() && |plans| == |codes|
      requires forall i :: 0 <= i < |plans| ==> IsInspectPlan(codes, plans, i, states, site)
      ensures forall i :: 0 <= i < |plans| ==> plans[i].code == codes[i]
    {
      forall i | 0 <= i < |plans| ensures plans[i].code == codes[i] {
        assert IsInspectPlan(codes, plans, i, states, site);
      }
    }

    /** run_all. */
    method RunAll(ctx: TaskContext, site: Site) returns (run: TaskRun, ghost record: Record)
      requires Valid() && ctx.store.Valid()
      modifies this`collected, ctx, ctx.store
      // The prepared directories stay sound wherever the run ends.
      ensures ctx.store.Valid()
      // An error in extraction: only extraction results, and no prepare and no inspection.
      ensures run.Blocked? <==> exists c ::
        c in registry.extracts && DirectResult(c, old(ctx.prepareStates), site).status == ErrorResult
      ensures run.Blocked? ==> unchanged(ctx, ctx.store) && run.results.Keys == Elems(registry.extracts)
      ensures !site.callbackOk || !site.catalogOk ==> run.Blocked? || (run.Raised? && unchanged(ctx, ctx.store))
      // Otherwise one result for each extraction and each visible rule in scope, and a settled state for
      // each of these rules that has a prepare.
      ensures run.Completed? ==> run.results.Keys == Elems(registry.extracts) + Elems(Visible())
      ensures run.Blocked? || run.Completed? ==>
        forall c :: c in registry.extracts && (run.Blocked? || c !in Visible()) ==>
          c in run.results && run.results[c] == DirectResult(c, old(ctx.prepareStates), site)
      // The plans and histories of the two stages: every unit at most once in each pool.
      ensures run.Completed? ==>
        Ran(site, record, old(ctx.prepareStates), old(ctx.store.markers), ctx.prepareStates, ctx.store.markers)
      ensures run.Completed? ==> forall i :: 0 <= i < |Visible()| ==>
        InspectedAt(site, record, run.results, ctx.prepareStates, i)
      // With no recovery run lost, and so always under a serial policy, everything is as in the run without pools.
      ensures run.Completed? && !policy.enabled ==> NothingLost(site, record)
      ensures run.Completed? && NothingLost(site, record) ==>
        && run.results == SerialResults(site, old(ctx.prepareStates), old(ctx.store.markers))
        && ctx.prepareStates == SerialStates(site, old(ctx.prepareStates), old(ctx.store.markers))
        && ctx.store.markers == SerialMarkers(site, old(ctx.store.markers))
      // A rule is never run on a missing, failed or outdated prepared directory.
      ensures run.Completed? ==> forall i :: 0 <= i < |Visible()| ==>
        RunIsReady(record, ctx.prepareStates, ctx.store, i)
    {
      ghost var none := History(SerialMode, [], {}, [], 0, 0);
      record := Record([], none, [], none);
      hide DirectResult; hide Filter; hide InspectedAt; hide RunIsReady; hide Ran; hide NothingLost;
      hide SerialStates; hide SerialMarkers; hide SerialResults;
      var results, failed := RunExtraction(ctx, site);
      assert forall c :: c in registry.extracts ==> c in results;
      if failed { return Blocked(results), record; }
      if !site.callbackOk || !site.catalogOk { return TaskRun.Raised, record; }
      var stopped, all;
      ghost var states0, markers0 := ctx.prepareStates, ctx.store.markers;
      stopped, all, record := RunStages(ctx, site, results);
      run := if stopped then Stopped else Completed(all);
      if !stopped && NothingLost(site, record) {
        RunIsSerial(site, record, states0, markers0, ctx.prepareStates, ctx.store.markers, all);
      }
    }
  }
}
