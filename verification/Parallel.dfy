/** The stage runtime (app/services/parallel.py).

    The process pools are the environment of a stage. Which submissions are accepted and which
    results come back are arbitrary functions of the unit, given to the stage as an argument; the
    set of units that completes first is chosen by a nondeterministic assignment. Every contract
    below holds for all of these choices. A pending pair (index, plan) is written as its index into
    the list of plans. */
module Parallel {
  import opened Wrappers
  import opened Units

  datatype Mode = SerialMode | ParallelMode | DegradedMode

  datatype Reason = Eligible | NoPendingUnits | PolicyDisabled | BrokerBroken | TooFewUnits | TooFewBytes

  datatype ParallelPolicy =
    ParallelPolicy(maxWorkers: nat, minUnits: nat, minMatchedBytes: nat, enabled: bool)
  {
    predicate Valid() { 0 < maxWorkers }

    function Decide(pendingUnits: nat, matchedBytes: nat): (bool, Reason) {
      if !enabled then (false, PolicyDisabled)
      else if pendingUnits < minUnits then (false, TooFewUnits)
      else if matchedBytes < minMatchedBytes then (false, TooFewBytes)
      else (true, Eligible)
    }

    function WorkersFor(pendingUnits: nat): nat { Min(maxWorkers, pendingUnits) }
  }

  datatype UnitPlan =
    UnitPlan(kind: UnitKind, code: string, owner: string, request: Option<UnitRequest>,
             matchedBytes: nat, prepareState: Option<PrepareState>,
             shortCircuit: Option<RuleResult>, logs: seq<LogLine>)

  /** One entry of a task log; a call of the on_outcome hook is an entry too, so that the log
      fixes the order of hooks and lines. */
  datatype Event =
    | StageStart(mode: Mode, reason: Reason, workers: nat, pendingUnits: nat, bytes: nat)
    | StageDone(doneMode: Mode, doneReason: Reason, doneWorkers: nat, donePending: nat, doneBytes: nat)
    | Degraded(affected: nat, errored: nat)
    | ExecutionError(code: string)
    | Line(line: LogLine)
    | Hook(plan: UnitPlan, outcome: UnitOutcome)

  /** What the pools do during one stage, unit by unit: whether the shared pool accepts its
      submission, whether the shared pool sends its result back, and whether a recovery pool does. */
  datatype Environment = Environment(accepts: nat -> bool, delivers: nat -> bool, recovers: nat -> bool)

  /** Ghost record of what the environment was asked to run during one stage. */
  datatype History =
    History(mode: Mode,
            shared: seq<nat>,      // accepted submissions to the shared pool, in order
            settled: set<nat>,     // units whose result the shared pool delivered
            recovery: seq<nat>,    // submissions to a recovery pool, in order
            peak: nat,             // largest number of units in flight
            errored: nat)          // recovered units that ended with a crash outcome

  // ----- The serial reference --------------------------------------------------------------------

  function CrashOutcome(plan: UnitPlan): UnitOutcome {
    if plan.kind == PrepareUnit then
      UnitOutcome(plan.kind, plan.code, CRASHED, None, Some(Failed),
                  [LogLine("error", "prepare_error", plan.code)])
    else
      UnitOutcome(plan.kind, plan.code, CRASHED,
                  Some(RuleResult(plan.code, ErrorResult, "rule execution error")), None,
                  [LogLine("error", "rule execution error", plan.code)])
  }

  /** The outcome the serial path gives a plan. */
  function SerialOutcome(execute: UnitRequest -> Run, plan: UnitPlan): Option<UnitOutcome> {
    match plan.request
    case None => None
    case Some(request) =>
      match execute(request)
      case Returned(outcome) => Some(outcome)
      case Raised => Some(CrashOutcome(plan))
  }

  /** The outcome of a plan in a stage that re-ran the units in recovery: the crash outcome for a
      unit whose own recovery run did not come back, and the serial outcome for every other. */
  function StageOutcome(execute: UnitRequest -> Run, env: Environment, plans: seq<UnitPlan>, recovery: set<nat>, i: nat)
    : Option<UnitOutcome>
    requires i < |plans|
  {
    if i in recovery && !env.recovers(i) then Some(CrashOutcome(plans[i])) else SerialOutcome(execute, plans[i])
  }

  /** What the shared pool can deliver of a run: an outcome that is not itself a crash. */
  function Settled(run: Run): Option<UnitOutcome> {
    if run.Returned? && run.outcome.status == OK then Some(run.outcome) else None
  }

  /** What the shared pool gives back for a unit: nothing when the worker died or the result could
      not be sent, when the run raised, and when the run reports a crash. */
  function PoolResult(execute: UnitRequest -> Run, env: Environment, plans: seq<UnitPlan>, i: nat): Option<UnitOutcome>
  {
    if i < |plans| && plans[i].request.Some? && env.delivers(i) then Settled(execute(plans[i].request.value)) else None
  }

  /** Whether the shared pool takes and settles every pending unit. */
  ghost predicate Sound(execute: UnitRequest -> Run, env: Environment, plans: seq<UnitPlan>, pending: seq<nat>) {
    forall i :: i in pending ==> env.accepts(i) && PoolResult(execute, env, plans, i).Some?
  }

  function PendingFrom(plans: seq<UnitPlan>, from: nat): (pending: seq<nat>)
    requires from <= |plans|
    ensures forall i :: i in pending <==> from <= i < |plans| && plans[i].request.Some?
    ensures forall a, b :: 0 <= a < b < |pending| ==> pending[a] < pending[b]
    decreases |plans| - from
  {
    if from == |plans| then []
    else
      var rest := PendingFrom(plans, from + 1);
      if plans[from].request.Some? then
        assert forall i :: 0 <= i < |rest| ==> rest[i] in rest;
        [from] + rest
      else rest
  }

  function TotalBytes(plans: seq<UnitPlan>): nat {
    if plans == [] then 0 else plans[0].matchedBytes + TotalBytes(plans[1..])
  }

  function Lines(logs: seq<LogLine>): seq<Event> {
    seq(|logs|, i requires 0 <= i < |logs| => Line(logs[i]))
  }

  /** The log block of one unit: planning lines, worker lines, hook. */
  function Block(plan: UnitPlan, outcome: Option<UnitOutcome>): seq<Event> {
    match outcome
    case None => Lines(plan.logs)
    case Some(o) => Lines(plan.logs) + Lines(o.logs) + [Hook(plan, o)]
  }

  /** The blocks of the first n units, in plan order. */
  function Blocks(plans: seq<UnitPlan>, outcomes: seq<Option<UnitOutcome>>, n: nat): seq<Event>
    requires n <= |plans| == |outcomes|
  {
    if n == 0 then [] else Blocks(plans, outcomes, n - 1) + Block(plans[n - 1], outcomes[n - 1])
  }

  /** The error lines of the serial path: one for each unit that raises, in plan order. */
  function SerialErrors(execute: UnitRequest -> Run, plans: seq<UnitPlan>, pending: seq<nat>): seq<Event>
    requires forall i :: i in pending ==> i < |plans|
  {
    if pending == [] then []
    else
      assert pending[|pending| - 1] in pending;
      var last := plans[pending[|pending| - 1]];
      var rest := pending[..|pending| - 1];
      assert forall i :: i in rest ==> i in pending;
      SerialErrors(execute, plans, rest) +
      (if last.request.Some? && execute(last.request.value).Raised? then [ExecutionError(last.code)] else [])
  }

  function CrashCount(outcomes: map<nat, UnitOutcome>): nat {
    |Crashes(outcomes)|
  }

  function Crashes(outcomes: map<nat, UnitOutcome>): set<nat> {
    set i | i in outcomes && outcomes[i].status == CRASHED
  }

  // ----- Facts about the log ---------------------------------------------------------------------

  /** The hook calls recorded in a log, in order. */
  function Hooks(log: seq<Event>): seq<(UnitPlan, UnitOutcome)> {
    if log == [] then []
    else
      var rest := Hooks(log[..|log| - 1]);
      var e := log[|log| - 1];
      if e.Hook? then rest + [(e.plan, e.outcome)] else rest
  }

  /** The (plan, outcome) pairs of the first n units that have an outcome, in plan order. */
  function Delivered(plans: seq<UnitPlan>, outcomes: seq<Option<UnitOutcome>>, n: nat): seq<(UnitPlan, UnitOutcome)>
    requires n <= |plans| == |outcomes|
  {
    if n == 0 then []
    else Delivered(plans, outcomes, n - 1) + Delivery(plans[n - 1], outcomes[n - 1])
  }

  function Delivery(plan: UnitPlan, outcome: Option<UnitOutcome>): seq<(UnitPlan, UnitOutcome)> {
    match outcome
    case None => []
    case Some(o) => [(plan, o)]
  }

  lemma {:induction false} HooksAppend(a: seq<Event>, b: seq<Event>)
    ensures Hooks(a + b) == Hooks(a) + Hooks(b)
  {
    if b == [] {
      assert a + b == a;
    } else {
      HooksAppend(a, b[..|b| - 1]);
      assert (a + b)[..|a + b| - 1] == a + b[..|b| - 1];
    }
  }

  lemma {:induction false} LinesHaveNoHooks(logs: seq<LogLine>)
    ensures Hooks(Lines(logs)) == []
    decreases |logs|
  {
    if logs != [] {
      LinesHaveNoHooks(logs[..|logs| - 1]);
      assert Lines(logs)[..|logs| - 1] == Lines(logs[..|logs| - 1]);
    }
  }

  lemma {:induction false} BlockHooks(plan: UnitPlan, outcome: Option<UnitOutcome>)
    ensures Hooks(Block(plan, outcome)) == Delivery(plan, outcome)
  {
    LinesHaveNoHooks(plan.logs);
    if outcome.Some? {
      var o := outcome.value;
      LinesHaveNoHooks(o.logs);
      HooksAppend(Lines(plan.logs), Lines(o.logs));
      HooksAppend(Lines(plan.logs) + Lines(o.logs), [Hook(plan, o)]);
      assert [Hook(plan, o)][..0] == [];
    }
  }

  /** Whatever the completion order, the hooks of a stage are called exactly once for every unit
      with an outcome, in plan order. */
  lemma {:induction false} HooksInPlanOrder(plans: seq<UnitPlan>, outcomes: seq<Option<UnitOutcome>>, n: nat)
    requires n <= |plans| == |outcomes|
    ensures Hooks(Blocks(plans, outcomes, n)) == Delivered(plans, outcomes, n)
  {
    hide *;
    OneBlock(plans, outcomes, n);
    if n > 0 {
      HooksInPlanOrder(plans, outcomes, n - 1);
      HooksAppend(Blocks(plans, outcomes, n - 1), Block(plans[n - 1], outcomes[n - 1]));
      BlockHooks(plans[n - 1], outcomes[n - 1]);
    }
  }

  lemma {:induction false} OneBlock(plans: seq<UnitPlan>, outcomes: seq<Option<UnitOutcome>>, n: nat)
    requires n <= |plans| == |outcomes|
    ensures n == 0 ==> Hooks(Blocks(plans, outcomes, n)) == Delivered(plans, outcomes, n)
    ensures n > 0 ==>
      Blocks(plans, outcomes, n) == Blocks(plans, outcomes, n - 1) + Block(plans[n - 1], outcomes[n - 1])
    ensures n > 0 ==>
      Delivered(plans, outcomes, n) == Delivered(plans, outcomes, n - 1) + Delivery(plans[n - 1], outcomes[n - 1])
  {
    hide Block; hide Delivery;
  }

  /** len(in_flight). A name of its own, so that proofs can leave cardinalities folded. */
  function Size(inFlight: set<nat>): nat { |inFlight| }

  lemma {:induction false} SizeWithout(inFlight: set<nat>, done: set<nat>)
    requires done <= inFlight && done != {}
    ensures Size(inFlight - done) < Size(inFlight)
  {
    assert |inFlight| == |inFlight - done| + |done| by { assert inFlight == (inFlight - done) + done; }
  }

  /** Where the submitted units are while the shared pool runs: each is in flight, measured or
      crashed, never in two of these, and crashed at most once. */
  ghost predicate Partition(submitted: set<nat>, inFlight: set<nat>, measured: map<nat, UnitOutcome>, crashed: seq<nat>)
  {
    && submitted == inFlight + measured.Keys + Elems(crashed)
    && inFlight !! measured.Keys
    && inFlight !! Elems(crashed)
    && measured.Keys !! Elems(crashed)
    && Distinct(crashed)
  }

  /** Every measured outcome is what the shared pool gives back, and it gives nothing for the
      crashed units. */
  ghost predicate ByPool(execute: UnitRequest -> Run, env: Environment, plans: seq<UnitPlan>,
                         measured: map<nat, UnitOutcome>, crashed: seq<nat>)
  {
    && (forall i :: i in measured ==> Some(measured[i]) == PoolResult(execute, env, plans, i))
    && (forall i :: i in crashed ==> PoolResult(execute, env, plans, i).None?)
  }

  /** The crashed units that were not measured after all. */
  function Unmeasured(crashed: seq<nat>, measured: map<nat, UnitOutcome>): seq<nat> {
    if crashed == [] then []
    else (if crashed[0] in measured then [] else [crashed[0]]) + Unmeasured(crashed[1..], measured)
  }

  lemma {:induction false} AllUnmeasured(crashed: seq<nat>, measured: map<nat, UnitOutcome>)
    requires forall i :: i in crashed ==> i !in measured
    ensures Unmeasured(crashed, measured) == crashed
  {
    if crashed != [] { AllUnmeasured(crashed[1..], measured); }
  }

  lemma {:induction false} ElemsConcat<T>(a: seq<T>, b: seq<T>)
    ensures Elems(a + b) == Elems(a) + Elems(b)
  {
  }

  lemma {:induction false} TakeElems(pending: seq<nat>, k0: nat, k: nat)
    requires k0 <= k <= |pending|
    ensures Elems(pending[..k]) == Elems(pending[..k0]) + Elems(pending[k0..k])
    ensures Distinct(pending) ==> Elems(pending[..k0]) !! Elems(pending[k0..k])
    ensures k0 == k ==> Elems(pending[k0..k]) == {}
  {
    assert pending[..k] == pending[..k0] + pending[k0..k];
    ElemsConcat(pending[..k0], pending[k0..k]);
  }

  /** One accepted submission: the unit at position k joins the ones in flight. */
  lemma {:induction false} Push(pending: seq<nat>, k0: nat, k: nat, inFlight0: set<nat>)
    requires Distinct(pending) && k0 <= k < |pending| && inFlight0 <= Elems(pending[..k0])
    ensures pending[k..][1..] == pending[k + 1..] && [pending[k]] + pending[k + 1..] == pending[k..]
    ensures Elems(pending[k0..k + 1]) == Elems(pending[k0..k]) + {pending[k]}
    ensures pending[k] !in inFlight0 && pending[k] !in Elems(pending[k0..k])
  {
    assert pending[k0..k + 1] == pending[k0..k] + [pending[k]];
  }

  lemma {:induction false} NothingSubmitted(execute: UnitRequest -> Run, env: Environment, plans: seq<UnitPlan>,
                                            pending: seq<nat>)
    ensures Partition(Elems(pending[..0]), {}, map[], [])
    ensures ByPool(execute, env, plans, map[], [])
    ensures Size({}) == 0
  {
  }

  /** The window was filled: the newly submitted units are in flight. */
  lemma {:induction false} Filled(pending: seq<nat>, k0: nat, k: nat, inFlight0: set<nat>,
                                  measured: map<nat, UnitOutcome>)
    requires Distinct(pending) && k0 <= k <= |pending|
    requires Partition(Elems(pending[..k0]), inFlight0, measured, [])
    ensures inFlight0 <= Elems(pending[..k0])
    ensures Partition(Elems(pending[..k]), inFlight0 + Elems(pending[k0..k]), measured, [])
  {
    TakeElems(pending, k0, k);
  }

  /** What SettleAll asks for. */
  lemma {:induction false} BeforeSettling(submitted: set<nat>, pending: seq<nat>, inFlight: set<nat>, done: set<nat>,
                       measured: map<nat, UnitOutcome>, crashed: seq<nat>)
    requires Partition(submitted, inFlight, measured, crashed) && done <= inFlight
    requires submitted <= Elems(pending)
    ensures Partition(done + measured.Keys + Elems(crashed), done, measured, crashed)
    ensures forall i :: i in done ==> i in pending
  {
    assert forall i :: i in done ==> i in Elems(pending);
  }

  /** What its result means for the whole partition. */
  lemma {:induction false} AfterSettling(submitted: set<nat>, inFlight: set<nat>, done: set<nat>,
                      measured0: map<nat, UnitOutcome>, crashed0: seq<nat>,
                      measured: map<nat, UnitOutcome>, crashed: seq<nat>)
    requires Partition(submitted, inFlight, measured0, crashed0) && done <= inFlight
    requires Partition(done + measured0.Keys + Elems(crashed0), {}, measured, crashed)
    ensures Partition(submitted, inFlight - done, measured, crashed)
  {
    assert measured.Keys <= done + measured0.Keys + Elems(crashed0);
    assert Elems(crashed) <= done + measured0.Keys + Elems(crashed0);
  }

  lemma {:induction false} PrefixOf(pending: seq<nat>, k: nat)
    requires k <= |pending|
    ensures Elems(pending[..k]) <= Elems(pending)
  {
  }

  /** The units left over: the crashed ones, then the ones never submitted. */
  lemma {:induction false} LeftOver(pending: seq<nat>, k: nat, measured: map<nat, UnitOutcome>, crashed: seq<nat>)
    requires Distinct(pending) && k <= |pending|
    requires Partition(Elems(pending[..k]), {}, measured, crashed)
    ensures Partition(Elems(pending), {}, measured, crashed + pending[k..])
  {
    TakeElems(pending, k, |pending|);
    var rest := pending[k..];
    assert pending[..|pending|] == pending && pending[k..|pending|] == rest;
    ElemsConcat(crashed, rest);
    DistinctConcat(crashed, rest);
  }

  lemma {:induction false} DistinctConcat<T>(a: seq<T>, b: seq<T>)
    requires Distinct(a) && Distinct(b) && Elems(a) !! Elems(b)
    ensures Distinct(a + b)
  {
    forall i, j | 0 <= i < j < |a + b| ensures (a + b)[i] != (a + b)[j] {
      if i < |a| <= j {
        assert (a + b)[i] in Elems(a) && (a + b)[j] in Elems(b);
      }
    }
  }

  /** What a serial run of the stage returns. */
  function SerialOutcomes(execute: UnitRequest -> Run, plans: seq<UnitPlan>): seq<Option<UnitOutcome>> {
    seq(|plans|, i requires 0 <= i < |plans| => SerialOutcome(execute, plans[i]))
  }

  /** A stage whose recovery runs all came back returns what a serial stage returns and calls the
      same hooks; otherwise it differs from the serial one only at units whose own recovery run did
      not come back. */
  lemma {:induction false} RefinesSerial(execute: UnitRequest -> Run, env: Environment, plans: seq<UnitPlan>,
                                         recovery: set<nat>, outcomes: seq<Option<UnitOutcome>>)
    requires |outcomes| == |plans|
    requires forall i :: 0 <= i < |plans| ==> outcomes[i] == StageOutcome(execute, env, plans, recovery, i)
    ensures forall i :: 0 <= i < |plans| && outcomes[i] != SerialOutcomes(execute, plans)[i] ==>
      i in recovery && !env.recovers(i) && outcomes[i] == Some(CrashOutcome(plans[i]))
    ensures (forall i :: i in recovery ==> env.recovers(i)) ==>
      outcomes == SerialOutcomes(execute, plans)
      && Hooks(Blocks(plans, outcomes, |plans|)) == Delivered(plans, SerialOutcomes(execute, plans), |plans|)
  {
    if forall i :: i in recovery ==> env.recovers(i) {
      assert outcomes == SerialOutcomes(execute, plans);
      HooksInPlanOrder(plans, outcomes, |plans|);
    }
  }

  /** The measured outcomes of a stage, see StageOutcome. */
  ghost predicate MeasuredByStage(execute: UnitRequest -> Run, env: Environment, plans: seq<UnitPlan>,
                                  recovery: set<nat>, measured: map<nat, UnitOutcome>)
  {
    forall i :: i in measured ==> i < |plans| && Some(measured[i]) == StageOutcome(execute, env, plans, recovery, i)
  }

  /** A stage's runs: each pending unit is submitted at most once to the shared pool, in plan order,
      and at most once to a recovery pool, and a unit that the shared pool settled is not run again. */
  ghost predicate OnceEach(execute: UnitRequest -> Run, env: Environment, plans: seq<UnitPlan>, pending: seq<nat>,
                           h: History)
  {
    && h.shared <= pending && h.settled <= Elems(h.shared)
    && Distinct(h.recovery) && Elems(h.recovery) <= Elems(pending)
    && Elems(h.recovery) !! h.settled
    && (forall i :: i in h.shared ==> env.accepts(i) && (i in h.settled <==> PoolResult(execute, env, plans, i).Some?))
    && (h.mode == SerialMode ==> h.shared == [] && h.recovery == [])
    && (h.mode == ParallelMode ==> h.settled == Elems(pending) && h.recovery == [])
    && (h.mode == DegradedMode ==> h.settled + Elems(h.recovery) == Elems(pending))
  }

  lemma {:induction false} Leftovers(pending: seq<nat>, measured: map<nat, UnitOutcome>, unsettled: seq<nat>)
    requires Partition(Elems(pending), {}, measured, unsettled)
    ensures Distinct(unsettled) && forall i :: i in unsettled ==> i in pending
  {
    assert forall i :: i in unsettled ==> i in Elems(unsettled);
  }

  /** How many of the re-run units ended with a crash outcome. */
  function Errored(measured: map<nat, UnitOutcome>, recovery: seq<nat>): nat {
    CrashCount(map i | i in recovery && i in measured :: measured[i])
  }

  function ErroredSlots(outcomes: seq<Option<UnitOutcome>>, recovery: seq<nat>): nat {
    |CrashedSlots(outcomes, recovery)|
  }

  function CrashedSlots(outcomes: seq<Option<UnitOutcome>>, recovery: seq<nat>): set<nat> {
    set i | i in recovery && i < |outcomes| && outcomes[i].Some? && outcomes[i].value.status == CRASHED
  }

  /** What RunParallel says of its history. */
  ghost predicate PooledHistory(execute: UnitRequest -> Run, env: Environment, plans: seq<UnitPlan>, pending: seq<nat>,
                                measured: map<nat, UnitOutcome>, h: History)
  {
    && h.shared <= pending && measured.Keys <= Elems(h.shared) && h.settled == measured.Keys
    && (forall i :: i in h.shared ==> env.accepts(i) && (i in measured <==> PoolResult(execute, env, plans, i).Some?))
    && (forall i :: i in measured ==> i < |plans| && Some(measured[i]) == PoolResult(execute, env, plans, i))
  }

  /** PooledHistory says nothing of the recovery fields of a history. */
  lemma {:induction false} WithRecovery(execute: UnitRequest -> Run, env: Environment, plans: seq<UnitPlan>,
                                        pending: seq<nat>, measured: map<nat, UnitOutcome>, h: History,
                                        recovery: seq<nat>, errored: nat)
    requires PooledHistory(execute, env, plans, pending, measured, h)
    ensures PooledHistory(execute, env, plans, pending, measured, h.(recovery := recovery, errored := errored))
  {
  }

  /** A run that the shared pool finished on its own. */
  lemma {:induction false} NotDegraded(execute: UnitRequest -> Run, env: Environment, plans: seq<UnitPlan>,
                                       pending: seq<nat>, measured: map<nat, UnitOutcome>, h: History)
    requires Partition(Elems(pending), {}, measured, [])
    requires PooledHistory(execute, env, plans, pending, measured, h)
    requires h.mode == ParallelMode && h.recovery == []
    ensures measured.Keys == Elems(pending)
    ensures MeasuredByStage(execute, env, plans, {}, measured) && OnceEach(execute, env, plans, pending, h)
    ensures Elems(h.recovery) == {}
  {
  }

  /** Recovery completes what the shared pool delivered, without touching it. */
  lemma {:induction false} Merged(execute: UnitRequest -> Run, env: Environment, plans: seq<UnitPlan>,
                                  pending: seq<nat>,
                                  measured: map<nat, UnitOutcome>, recovered: map<nat, UnitOutcome>, h: History)
    requires Partition(Elems(pending), {}, measured, h.recovery)
    requires PooledHistory(execute, env, plans, pending, measured, h)
    requires h.mode == DegradedMode
    requires recovered.Keys == Elems(h.recovery)
    requires MeasuredByStage(execute, env, plans, recovered.Keys, recovered)
    ensures (measured + recovered).Keys == Elems(pending)
    ensures MeasuredByStage(execute, env, plans, Elems(h.recovery), measured + recovered)
    ensures OnceEach(execute, env, plans, pending, h)
    ensures Errored(measured + recovered, h.recovery) == CrashCount(recovered)
  {
    assert forall i :: i in recovered <==> i in h.recovery;
    assert recovered == map i | i in h.recovery && i in measured + recovered :: (measured + recovered)[i];
  }

  /** What the loop of RunParallel knows when it leaves. */
  lemma {:induction false} DispatchDone(execute: UnitRequest -> Run, env: Environment, plans: seq<UnitPlan>,
                                        pending: seq<nat>, k: nat,
                                    measured: map<nat, UnitOutcome>, crashed: seq<nat>, h: History)
    requires k <= |pending| && Partition(Elems(pending[..k]), {}, measured, crashed)
    requires ByPool(execute, env, plans, measured, crashed)
    requires forall i :: i in pending[..k] ==> env.accepts(i)
    requires h.shared == pending[..k] && h.settled == measured.Keys
    ensures PooledHistory(execute, env, plans, pending, measured, h)
    ensures k == |pending| && crashed == [] ==> Sound(execute, env, plans, pending)
    ensures crashed != [] ==> !Sound(execute, env, plans, pending)
    ensures k < |pending| && !env.accepts(pending[k]) ==> !Sound(execute, env, plans, pending)
    ensures forall i :: i in crashed ==> i !in measured
  {
    assert forall i :: i in crashed ==> i in Elems(crashed);
    assert forall i :: i in pending[..k] ==> i in Elems(pending[..k]);
    assert forall i :: i in measured ==> i in Elems(pending[..k]);
    assert k == |pending| ==> pending[..k] == pending;
    if crashed != [] { assert crashed[0] in Elems(pending[..k]); }
  }

  lemma {:induction false} PendingDistinct(plans: seq<UnitPlan>)
    ensures Distinct(PendingFrom(plans, 0))
    ensures plans == [] ==> PendingFrom(plans, 0) == []
  {
  }

  lemma {:induction false} ErroredAgree(measured: map<nat, UnitOutcome>, outcomes: seq<Option<UnitOutcome>>,
                                        recovery: seq<nat>)
    requires forall i :: i in recovery ==> i in measured && i < |outcomes| && outcomes[i] == Some(measured[i])
    ensures Errored(measured, recovery) == ErroredSlots(outcomes, recovery)
  {
    var recovered := map i | i in recovery && i in measured :: measured[i];
    assert Crashes(recovered) == CrashedSlots(outcomes, recovery);
  }

  /** The outcome slots read off the measured outcomes. */
  lemma {:induction false} Slots(execute: UnitRequest -> Run, env: Environment, plans: seq<UnitPlan>, h: History,
                                 measured: map<nat, UnitOutcome>, outcomes: seq<Option<UnitOutcome>>)
    requires measured.Keys == Elems(PendingFrom(plans, 0))
    requires MeasuredByStage(execute, env, plans, Elems(h.recovery), measured)
    requires OnceEach(execute, env, plans, PendingFrom(plans, 0), h)
    requires |outcomes| == |plans|
    requires forall i :: 0 <= i < |plans| ==> outcomes[i] == Slot(measured, i)
    ensures forall i :: 0 <= i < |plans| ==> outcomes[i] == StageOutcome(execute, env, plans, Elems(h.recovery), i)
    ensures Errored(measured, h.recovery) == ErroredSlots(outcomes, h.recovery)
  {
    hide Errored; hide ErroredSlots;
    forall i | i in h.recovery ensures i in measured && i < |outcomes| && outcomes[i] == Some(measured[i]) {
      assert i in Elems(PendingFrom(plans, 0));
      assert outcomes[i] == Slot(measured, i);
    }
    ErroredAgree(measured, outcomes, h.recovery);
    forall i | 0 <= i < |plans| ensures outcomes[i] == StageOutcome(execute, env, plans, Elems(h.recovery), i) {
      assert outcomes[i] == Slot(measured, i);
      assert i in Elems(h.recovery) ==> i in Elems(PendingFrom(plans, 0));
    }
  }

  function Slot(measured: map<nat, UnitOutcome>, i: nat): Option<UnitOutcome> {
    if i in measured then Some(measured[i]) else None
  }

  lemma {:induction false} SerialOnce(execute: UnitRequest -> Run, env: Environment, plans: seq<UnitPlan>, h: History)
    requires h == History(SerialMode, [], {}, [], 0, 0)
    ensures OnceEach(execute, env, plans, PendingFrom(plans, 0), h) && Elems(h.recovery) == {}
  {
  }

  lemma {:induction false} BlocksAgree(plans: seq<UnitPlan>, outcomes: seq<Option<UnitOutcome>>,
                                       plans': seq<UnitPlan>, outcomes': seq<Option<UnitOutcome>>, n: nat)
    requires n <= |plans| == |outcomes| && n <= |plans'| == |outcomes'|
    requires plans[..n] == plans'[..n] && outcomes[..n] == outcomes'[..n]
    ensures Blocks(plans, outcomes, n) == Blocks(plans', outcomes', n)
  {
    if n > 0 {
      assert plans[..n - 1] == plans[..n][..n - 1] && outcomes[..n - 1] == outcomes[..n][..n - 1];
      BlocksAgree(plans, outcomes, plans', outcomes', n - 1);
      assert plans[n - 1] == plans[..n][n - 1] && outcomes[n - 1] == outcomes[..n][n - 1];
    }
  }

  lemma {:induction false} BlocksStep(plans: seq<UnitPlan>, outcomes: seq<Option<UnitOutcome>>,
                                      outcome: Option<UnitOutcome>, n: nat)
    requires n == |outcomes| < |plans|
    ensures Blocks(plans[..n + 1], outcomes + [outcome], n + 1)
         == Blocks(plans[..n], outcomes, n) + Block(plans[n], outcome)
  {
    BlocksAgree(plans[..n + 1], outcomes + [outcome], plans[..n], outcomes, n);
  }

  /** Whether a stage runs in the pool, and the reason its start line gives. */
  function Decision(policy: ParallelPolicy, broken: bool, plans: seq<UnitPlan>): (bool, Reason) {
    var pending := PendingFrom(plans, 0);
    var (parallel, reason) := policy.Decide(|pending|, TotalBytes(plans));
    if pending == [] then (false, NoPendingUnits)
    else if parallel && broken then (false, BrokerBroken)
    else (parallel, reason)
  }

  /** What a stage writes between its start line and its first block. */
  function Middle(execute: UnitRequest -> Run, plans: seq<UnitPlan>, h: History): seq<Event> {
    match h.mode
    case SerialMode => SerialErrors(execute, plans, PendingFrom(plans, 0))
    case ParallelMode => []
    case DegradedMode => [Degraded(|h.recovery|, h.errored)]
  }

  /** Everything a stage writes: one block for each unit, in plan order whatever the completion order. */
  function StageLog(policy: ParallelPolicy, execute: UnitRequest -> Run, broken: bool, plans: seq<UnitPlan>,
                    outcomes: seq<Option<UnitOutcome>>, h: History): seq<Event>
    requires |plans| == |outcomes|
  {
    var (parallel, reason) := Decision(policy, broken, plans);
    var n, bytes := |PendingFrom(plans, 0)|, TotalBytes(plans);
    var workers := if parallel then policy.WorkersFor(n) else 0;
    [StageStart(if parallel then ParallelMode else SerialMode, reason, workers, n, bytes)]
    + Middle(execute, plans, h)
    + Blocks(plans, outcomes, |plans|)
    + [StageDone(h.mode, if h.mode == DegradedMode then BrokerBroken else reason, workers, n, bytes)]
  }

  // ----- The runner ------------------------------------------------------------------------------

  class StageRunner {
    const policy: ParallelPolicy
    const execute: UnitRequest -> Run
    var poolOpen: bool
    var broken: bool
    var log: seq<Event>
    ghost var modes: seq<Mode>  // how each stage of this runner ended

    /** A stage that degrades breaks the runner, and every later stage is serial. */
    ghost predicate Valid()
      reads this
    {
      && policy.Valid()
      && (broken <==> DegradedMode in modes)
      && (forall a, b :: 0 <= a < b < |modes| && modes[a] == DegradedMode ==> modes[b] == SerialMode)
    }

    constructor (policy: ParallelPolicy, execute: UnitRequest -> Run)
      requires policy.Valid()
      ensures Valid() && !broken && !poolOpen && log == [] && modes == []
      ensures this.policy == policy && this.execute == execute
    {
      this.policy, this.execute := policy, execute;
      poolOpen, broken, log := false, false, [];
      modes := [];
    }

    /** ProcessPoolExecutor.submit: refused when the pool is already broken. */
    method Submit(env: Environment, index: nat) returns (accepted: bool)
      ensures accepted == env.accepts(index)
    {
      accepted := env.accepts(index);
    }

    /** future.result() with its exceptions: the outcome of the run, unless it did not come back, the
        run raised, or the run reports a crash. */
    method Settle(env: Environment, plans: seq<UnitPlan>, index: nat) returns (outcome: Option<UnitOutcome>)
      requires index < |plans| && plans[index].request.Some?
      ensures outcome == PoolResult(execute, env, plans, index)
    {
      if !env.delivers(index) { return None; }
      match execute(plans[index].request.value)
      case Raised => outcome := None;
      case Returned(o) =>
        if o.status == CRASHED { outcome := None; } else { outcome := Some(o); }
    }

    /** One recovery run in a fresh single-process pool; None when it raises or does not come back. */
    method RecoverOne(env: Environment, plans: seq<UnitPlan>, index: nat) returns (outcome: Option<UnitOutcome>)
      requires index < |plans| && plans[index].request.Some?
      ensures outcome ==
        if !env.recovers(index) || execute(plans[index].request.value).Raised? then None
        else Some(execute(plans[index].request.value).outcome)
    {
      outcome := None;
      if env.recovers(index) {
        match execute(plans[index].request.value)
        case Raised =>
        case Returned(o) => outcome := Some(o);
      }
    }

    /** Settles the futures of a set of units, in any order: outcomes go to measured, the others
        to crashed. */
    method SettleAll(env: Environment, plans: seq<UnitPlan>, done: set<nat>,
                     measured0: map<nat, UnitOutcome>, crashed0: seq<nat>)
      returns (measured: map<nat, UnitOutcome>, crashed: seq<nat>)
      requires forall i :: i in done ==> i < |plans| && plans[i].request.Some?
      requires Partition(done + measured0.Keys + Elems(crashed0), done, measured0, crashed0)
      requires ByPool(execute, env, plans, measured0, crashed0)
      ensures ByPool(execute, env, plans, measured, crashed)
      ensures Partition(done + measured0.Keys + Elems(crashed0), {}, measured, crashed)
      ensures crashed0 <= crashed
    {
      measured, crashed := measured0, crashed0;
      var left := done;
      while left != {}
        invariant left <= done
        invariant ByPool(execute, env, plans, measured, crashed)
        invariant Partition(done + measured0.Keys + Elems(crashed0), left, measured, crashed)
        invariant crashed0 <= crashed
        decreases left
      {
        var index :| index in left;
        left := left - {index};
        var outcome := Settle(env, plans, index);
        if outcome.None? {
          ElemsConcat(crashed, [index]);
          assert index !in Elems(crashed);
          crashed := crashed + [index];
        } else {
          measured := measured[index := outcome.value];
        }
      }
    }

    /** The inner dispatch loop: submits from the head of the queue while the window has room. A
        refused unit goes back to the head of the queue. */
    method FillWindow(env: Environment, pending: seq<nat>, inFlight0: set<nat>, window: nat, k0: nat)
      returns (queue: seq<nat>, inFlight: set<nat>, ghost k: nat)
      requires Distinct(pending) && !broken
      requires k0 <= |pending| && inFlight0 <= Elems(pending[..k0]) && Size(inFlight0) <= window
      requires forall i :: i in pending[..k0] ==> env.accepts(i)
      modifies this`broken
      ensures k0 <= k <= |pending| && queue == pending[k..]
      ensures inFlight == inFlight0 + Elems(pending[k0..k])
      ensures Size(inFlight) == Size(inFlight0) + (k - k0) <= window
      ensures forall i :: i in pending[..k] ==> env.accepts(i)
      ensures if broken then k < |pending| && !env.accepts(pending[k]) else queue == [] || Size(inFlight) == window
    {
      hide Elems; hide Distinct;
      queue, inFlight, k := pending[k0..], inFlight0, k0;
      TakeElems(pending, k0, k0);
      while queue != [] && Size(inFlight) < window && !broken
        invariant k0 <= k <= |pending| && queue == pending[k..]
        invariant inFlight == inFlight0 + Elems(pending[k0..k])
        invariant Size(inFlight) == Size(inFlight0) + (k - k0) <= window
        invariant forall i :: i in pending[..k] ==> env.accepts(i)
        invariant !broken
        decreases |queue|
      {
        var index := queue[0];
        queue := queue[1..];
        var accepted := Submit(env, index);
        if !accepted {
          broken := true;
          queue := [index] + queue;
          break;
        }
        Push(pending, k0, k, inFlight0);
        inFlight, k := inFlight + {index}, k + 1;
      }
    }

    /** The bounded window over the shared pool. */
    method RunParallel(env: Environment, plans: seq<UnitPlan>, pending: seq<nat>)
      returns (measured: map<nat, UnitOutcome>, unsettled: seq<nat>, degraded: bool, ghost h: History)
      requires policy.Valid() && !broken
      requires Distinct(pending) && pending != []
      requires forall i :: i in pending ==> i < |plans| && plans[i].request.Some?
      modifies this`poolOpen, this`broken
      ensures poolOpen && broken == degraded
      ensures degraded || unsettled == []
      ensures degraded <==> !Sound(execute, env, plans, pending)
      ensures Partition(Elems(pending), {}, measured, unsettled)
      ensures PooledHistory(execute, env, plans, pending, measured, h)
      ensures h.recovery == []
      ensures h.mode == if degraded then DegradedMode else ParallelMode
      ensures h.peak <= policy.WorkersFor(|pending|)
    {
      hide Elems; hide Partition; hide Distinct; hide Unmeasured; hide Size; hide ByPool; hide Sound;
      hide PooledHistory;
      measured, unsettled, degraded := map[], [], false;
      poolOpen := true;
      var queue := pending;
      var window := policy.WorkersFor(|pending|);
      var inFlight: set<nat> := {};
      var crashed: seq<nat> := [];
      ghost var k: nat, peak: nat := 0, 0;
      NothingSubmitted(execute, env, plans, pending);
      while queue != [] || inFlight != {}
        invariant k <= |pending| && queue == pending[k..]
        invariant Partition(Elems(pending[..k]), inFlight, measured, [])
        invariant forall i :: i in pending[..k] ==> env.accepts(i)
        invariant Size(inFlight) <= window && peak <= window
        invariant poolOpen && !broken && !degraded && crashed == []
        invariant ByPool(execute, env, plans, measured, [])
        decreases |queue| + Size(inFlight)
      {
        Filled(pending, k, k, inFlight, measured);
        ghost var k0, inFlight0 := k, inFlight;
        queue, inFlight, k := FillWindow(env, pending, inFlight, window, |pending| - |queue|);
        Filled(pending, k0, k, inFlight0, measured);
        degraded, peak := broken, Max(peak, Size(inFlight));
        if inFlight == {} { break; }

        var done: set<nat> :| done <= inFlight && done != {};
        PrefixOf(pending, k);
        BeforeSettling(Elems(pending[..k]), pending, inFlight, done, measured, []);
        ghost var measured0 := measured;
        measured, crashed := SettleAll(env, plans, done, measured, crashed);
        AfterSettling(Elems(pending[..k]), inFlight, done, measured0, [], measured, crashed);
        SizeWithout(inFlight, done);
        inFlight := inFlight - done;
        if crashed != [] {
          broken, degraded := true, true;
        }
        if broken {
          BeforeSettling(Elems(pending[..k]), pending, inFlight, inFlight, measured, crashed);
          ghost var measured1, crashed1 := measured, crashed;
          measured, crashed := SettleAll(env, plans, inFlight, measured, crashed);
          AfterSettling(Elems(pending[..k]), inFlight, inFlight, measured1, crashed1, measured, crashed);
          assert inFlight - inFlight == {};
          h := History(DegradedMode, pending[..k], measured.Keys, [], peak, 0);
          DispatchDone(execute, env, plans, pending, k, measured, crashed, h);
          AllUnmeasured(crashed, measured);
          LeftOver(pending, k, measured, crashed);
          unsettled := Unmeasured(crashed, measured) + queue;
          return;
        }
      }
      unsettled := queue;
      h := History(if degraded then DegradedMode else ParallelMode, pending[..k], measured.Keys, [], peak, 0);
      DispatchDone(execute, env, plans, pending, k, measured, [], h);
      LeftOver(pending, k, measured, []);
      assert [] + queue == queue;
    }

    /** Re-runs the unsettled units one at a time; a unit whose own run fails gets the crash outcome
        and is not retried. */
    method RecoverUnits(env: Environment, plans: seq<UnitPlan>, unsettled: seq<nat>)
      returns (recovered: map<nat, UnitOutcome>)
      requires Distinct(unsettled)
      requires forall i :: i in unsettled ==> i < |plans| && plans[i].request.Some?
      ensures recovered.Keys == Elems(unsettled)
      ensures MeasuredByStage(execute, env, plans, recovered.Keys, recovered)
    {
      recovered := map[];
      for n := 0 to |unsettled|
        invariant recovered.Keys == Elems(unsettled[..n])
        invariant MeasuredByStage(execute, env, plans, recovered.Keys, recovered)
      {
        var index := unsettled[n];
        assert unsettled[..n + 1] == unsettled[..n] + [index];
        assert index !in recovered;
        assert index in unsettled;
        var outcome := RecoverOne(env, plans, index);
        recovered := recovered[index := if outcome.Some? then outcome.value else CrashOutcome(plans[index])];
      }
      assert unsettled[..|unsettled|] == unsettled;
    }

    /** The serial path of one unit, in the parent process. */
    method ExecutePlan(plan: UnitPlan) returns (outcome: Option<UnitOutcome>)
      modifies this`log
      ensures outcome == SerialOutcome(execute, plan)
      ensures log == old(log) +
        if plan.request.Some? && execute(plan.request.value).Raised? then [ExecutionError(plan.code)] else []
    {
      if plan.request.None? { return None; }
      match execute(plan.request.value)
      case Returned(o) => outcome := Some(o);
      case Raised =>
        log := log + [ExecutionError(plan.code)];
        outcome := Some(CrashOutcome(plan));
    }

    method FlushLogs(logs: seq<LogLine>)
      modifies this`log
      ensures log == old(log) + Lines(logs)
    {
      for n := 0 to |logs|
        invariant log == old(log) + Lines(logs)[..n]
      {
        log := log + [Line(logs[n])];
      }
    }

    /** Writes the block of one unit: planning lines, worker lines, then the hook. */
    method FlushUnit(plan: UnitPlan, outcome: Option<UnitOutcome>)
      modifies this`log
      ensures log == old(log) + Block(plan, outcome)
    {
      FlushLogs(plan.logs);
      if outcome.None? { return; }
      FlushLogs(outcome.value.logs);
      log := log + [Hook(plan, outcome.value)];
    }

    /** The rerun of a single unit: always serial, never builds a pool. */
    method RunSingle(plan: UnitPlan) returns (outcome: Option<UnitOutcome>)
      modifies this`log
      ensures outcome == SerialOutcome(execute, plan)
      ensures log == old(log) + SerialErrors(execute, [plan], PendingFrom([plan], 0)) + Block(plan, outcome)
    {
      outcome := ExecutePlan(plan);
      assert PendingFrom([plan], 0) == if plan.request.Some? then [0] else [];
      FlushUnit(plan, outcome);
    }

    method Close()
      modifies this`poolOpen
      ensures !poolOpen
    {
      poolOpen := false;
    }

    /** The serial branch of a stage. */
    method RunSerially(env: Environment, plans: seq<UnitPlan>, pending: seq<nat>)
      returns (measured: map<nat, UnitOutcome>)
      requires forall i :: i in pending ==> i < |plans| && plans[i].request.Some?
      modifies this`log
      ensures measured.Keys == Elems(pending)
      ensures MeasuredByStage(execute, env, plans, {}, measured)
      ensures log == old(log) + SerialErrors(execute, plans, pending)
    {
      measured := map[];
      for n := 0 to |pending|
        invariant measured.Keys == Elems(pending[..n])
        invariant MeasuredByStage(execute, env, plans, {}, measured)
        invariant forall i :: i in pending[..n] ==> i in pending
        invariant log == old(log) + SerialErrors(execute, plans, pending[..n])
      {
        var index := pending[n];
        assert index in pending;
        assert pending[..n + 1] == pending[..n] + [index];
        assert pending[..n + 1][..n] == pending[..n];
        var outcome := ExecutePlan(plans[index]);
        measured := measured[index := outcome.value];
      }
      assert pending[..|pending|] == pending;
    }

    /** The parallel branch of a stage, with its recovery. */
    method RunPooled(env: Environment, plans: seq<UnitPlan>, pending: seq<nat>)
      returns (measured: map<nat, UnitOutcome>, degraded: bool, ghost h: History)
      requires policy.Valid() && !broken
      requires Distinct(pending) && pending != []
      requires forall i :: i in pending ==> i < |plans| && plans[i].request.Some?
      modifies this`poolOpen, this`broken, this`log
      ensures poolOpen && broken == degraded
      ensures degraded <==> !Sound(execute, env, plans, pending)
      ensures h.mode == if degraded then DegradedMode else ParallelMode
      ensures measured.Keys == Elems(pending)
      ensures MeasuredByStage(execute, env, plans, Elems(h.recovery), measured)
      ensures OnceEach(execute, env, plans, pending, h)
      ensures h.peak <= policy.WorkersFor(|pending|)
      ensures !degraded ==> log == old(log)
      ensures degraded ==> log == old(log) + [Degraded(|h.recovery|, h.errored)]
      ensures degraded ==> h.errored == Errored(measured, h.recovery)
    {
      hide *;
      var unsettled;
      measured, unsettled, degraded, h := RunParallel(env, plans, pending);
      if degraded {
        Leftovers(pending, measured, unsettled);
        var recovered := RecoverUnits(env, plans, unsettled);
        WithRecovery(execute, env, plans, pending, measured, h, unsettled, CrashCount(recovered));
        h := h.(recovery := unsettled, errored := CrashCount(recovered));
        Merged(execute, env, plans, pending, measured, recovered, h);
        log := log + [Degraded(|unsettled|, CrashCount(recovered))];
        measured := measured + recovered;
      } else {
        NotDegraded(execute, env, plans, pending, measured, h);
      }
    }

    lemma {:induction false} FlushStart(plans: seq<UnitPlan>)
      ensures Blocks(plans[..0], [], 0) == [] && plans[..|plans|] == plans
    {
    }

    /** The flush loop of a stage. */
    method FlushAll(plans: seq<UnitPlan>, measured: map<nat, UnitOutcome>) returns (outcomes: seq<Option<UnitOutcome>>)
      modifies this`log
      ensures |outcomes| == |plans| && forall i :: 0 <= i < |plans| ==> outcomes[i] == Slot(measured, i)
      ensures log == old(log) + Blocks(plans, outcomes, |plans|)
    {
      hide *;
      outcomes := [];
      FlushStart(plans);
      for n := 0 to |plans|
        invariant |outcomes| == n
        invariant forall i :: 0 <= i < n ==> outcomes[i] == Slot(measured, i)
        invariant log == old(log) + Blocks(plans[..n], outcomes, n)
      {
        var outcome := Slot(measured, n);
        FlushUnit(plans[n], outcome);
        BlocksStep(plans, outcomes, outcome, n);
        outcomes := outcomes + [outcome];
      }
    }

    /** The choice between the pool and the serial path. */
    method Choose(plans: seq<UnitPlan>, pending: seq<nat>, bytes: nat) returns (parallel: bool, reason: Reason)
      requires pending == PendingFrom(plans, 0) && bytes == TotalBytes(plans)
      ensures (parallel, reason) == Decision(policy, broken, plans)
    {
      hide PendingFrom; hide TotalBytes;
      var (p, r) := policy.Decide(|pending|, bytes);
      parallel, reason := p, r;
      if pending == [] {
        parallel, reason := false, NoPendingUnits;
      } else if parallel && broken {
        parallel, reason := false, BrokerBroken;
      }
    }

    /** How a stage ends, by the decision and the environment. */
    ghost function EndsIn(env: Environment, wasBroken: bool, plans: seq<UnitPlan>): Mode {
      if !Decision(policy, wasBroken, plans).0 then SerialMode
      else if Sound(execute, env, plans, PendingFrom(plans, 0)) then ParallelMode
      else DegradedMode
    }

    lemma {:induction false} LogOfStage(wasBroken: bool, plans: seq<UnitPlan>, outcomes: seq<Option<UnitOutcome>>,
                                        h: History,
                                        parallel: bool, reason: Reason, mode: Mode, middle: seq<Event>)
      requires |outcomes| == |plans| && (parallel, reason) == Decision(policy, wasBroken, plans) && mode == h.mode
      requires middle == Middle(execute, plans, h)
      ensures
        var n, bytes, workers := |PendingFrom(plans, 0)|, TotalBytes(plans), if parallel then
          policy.WorkersFor(|PendingFrom(plans, 0)|) else 0;
        [StageStart(if parallel then ParallelMode else SerialMode, reason, workers, n, bytes)] + middle
          + Blocks(plans, outcomes, |plans|)
        + [StageDone(mode, if mode == DegradedMode then BrokerBroken else reason, workers, n, bytes)]
        == StageLog(policy, execute, wasBroken, plans, outcomes, h)
    {
      hide Decision; hide Blocks; hide Middle; hide PendingFrom; hide TotalBytes;
    }

    /** Measures the pending units of a stage; middle is what that adds to the log. */
    method Measure(env: Environment, plans: seq<UnitPlan>, pending: seq<nat>, parallel: bool)
      returns (measured: map<nat, UnitOutcome>, mode: Mode, ghost h: History)
      requires policy.Valid() && (parallel ==> !broken && pending != []) && pending == PendingFrom(plans, 0)
      modifies this`poolOpen, this`broken, this`log
      ensures measured.Keys == Elems(pending)
      ensures MeasuredByStage(execute, env, plans, Elems(h.recovery), measured)
        && OnceEach(execute, env, plans, pending, h)
      ensures h.peak <= policy.WorkersFor(|pending|) && mode == h.mode
      ensures h.mode == if !parallel then SerialMode else if Sound(execute, env, plans, pending) then ParallelMode
                                                          else DegradedMode
      ensures broken == (old(broken) || h.mode == DegradedMode) && poolOpen == (old(poolOpen) || h.mode != SerialMode)
      ensures h.mode == DegradedMode ==> h.errored == Errored(measured, h.recovery)
      ensures log == old(log) + Middle(execute, plans, h)
    {
      PendingDistinct(plans);
      hide PendingFrom; hide Elems; hide Distinct; hide MeasuredByStage; hide OnceEach; hide Sound; hide Errored;
      hide SerialErrors;
      if parallel {
        var degraded;
        measured, degraded, h := RunPooled(env, plans, pending);
        mode := if degraded then DegradedMode else ParallelMode;
      } else {
        mode, h := SerialMode, History(SerialMode, [], {}, [], 0, 0);
        SerialOnce(execute, env, plans, h);
        measured := RunSerially(env, plans, pending);
      }
    }

    /** One whole stage of at least one plan, but for the record of modes. */
    method RunPlans(env: Environment, plans: seq<UnitPlan>)
      returns (outcomes: seq<Option<UnitOutcome>>, ghost h: History)
      requires policy.Valid() && plans != []
      modifies this`poolOpen, this`broken, this`log
      ensures |outcomes| == |plans|
      ensures forall i :: 0 <= i < |plans| ==> outcomes[i] == StageOutcome(execute, env, plans, Elems(h.recovery), i)
      ensures OnceEach(execute, env, plans, PendingFrom(plans, 0), h)
      ensures h.peak <= policy.WorkersFor(|PendingFrom(plans, 0)|)
      ensures h.mode == EndsIn(env, old(broken), plans)
      ensures broken == (old(broken) || h.mode == DegradedMode) && poolOpen == (old(poolOpen) || h.mode != SerialMode)
      ensures h.mode == DegradedMode ==> h.errored == ErroredSlots(outcomes, h.recovery)
      ensures log == old(log) + StageLog(policy, execute, old(broken), plans, outcomes, h)
    {
      hide *;
      var pending, bytes := PendingFrom(plans, 0), TotalBytes(plans);
      var parallel, reason := Choose(plans, pending, bytes);
      ParallelMeans(plans, pending, parallel, reason);
      var workers := if parallel then policy.WorkersFor(|pending|) else 0;
      log := log + [StageStart(if parallel then ParallelMode else SerialMode, reason, workers, |pending|, bytes)];
      var measured, mode;
      measured, mode, h := Measure(env, plans, pending, parallel);
      outcomes := FlushAll(plans, measured);
      Slots(execute, env, plans, h, measured, outcomes);
      log := log + [StageDone(mode, if mode == DegradedMode then BrokerBroken else reason, workers, |pending|, bytes)];
      LogOfStage(old(broken), plans, outcomes, h, parallel, reason, mode, Middle(execute, plans, h));
      EndsAs(env, old(broken), plans, parallel, reason, h.mode);
    }

    lemma {:induction false} ParallelMeans(plans: seq<UnitPlan>, pending: seq<nat>, parallel: bool, reason: Reason)
      requires pending == PendingFrom(plans, 0) && (parallel, reason) == Decision(policy, broken, plans)
      ensures parallel ==> !broken && pending != []
    {
      hide PendingFrom; hide TotalBytes;
    }

    lemma {:induction false} EndsAs(env: Environment, wasBroken: bool, plans: seq<UnitPlan>, parallel: bool,
                                    reason: Reason, mode: Mode)
      requires (parallel, reason) == Decision(policy, wasBroken, plans)
      requires mode == if !parallel then SerialMode
                       else if Sound(execute, env, plans, PendingFrom(plans, 0)) then ParallelMode else DegradedMode
      ensures mode == EndsIn(env, wasBroken, plans)
    {
      hide Decision; hide Sound;
    }

    /** run_stage. */
    method RunStage(env: Environment, plans: seq<UnitPlan>)
      returns (outcomes: seq<Option<UnitOutcome>>, ghost h: History)
      requires Valid()
      modifies this
      ensures Valid()
      // One outcome slot for each plan: the serial outcome, unless the unit's own recovery run was lost.
      ensures |outcomes| == |plans|
      ensures forall i :: 0 <= i < |plans| ==> outcomes[i] == StageOutcome(execute, env, plans, Elems(h.recovery), i)
      // Nothing runs twice in one pool, and what the shared pool delivered is not run again.
      ensures OnceEach(execute, env, plans, PendingFrom(plans, 0), h)
      ensures h.peak <= policy.WorkersFor(|PendingFrom(plans, 0)|)
      // How the stage ends, and that the runner is broken from then on when it degrades.
      ensures plans == [] ==> unchanged(this)
      ensures plans != [] ==> modes == old(modes) + [h.mode] && h.mode == EndsIn(env, old(broken), plans)
      ensures broken == (old(broken) || (plans != [] && h.mode == DegradedMode))
      ensures poolOpen == (old(poolOpen) || (plans != [] && h.mode != SerialMode))
      ensures h.mode == DegradedMode ==> h.errored == ErroredSlots(outcomes, h.recovery)
      // The log blocks come in plan order whatever the completion order was.
      ensures plans != [] ==> log == old(log) + StageLog(policy, execute, old(broken), plans, outcomes, h)
    {
      hide StageOutcome; hide OnceEach; hide PendingFrom; hide StageLog; hide ErroredSlots; hide Elems; hide Sound;
      hide TotalBytes;
      if plans == [] {
        h := History(SerialMode, [], {}, [], 0, 0);
        SerialOnce(execute, env, plans, h);
        return [], h;
      }
      outcomes, h := RunPlans(env, plans);
      modes := modes + [h.mode];
    }
  }
}
