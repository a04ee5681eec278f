/** Execution units: what the parent process sends to a worker and gets back
    (app/services/unit_runtime.py). Durations, memory figures and message texts are dropped. */
module Units {
  import opened Wrappers

  datatype UnitKind = PrepareUnit | InspectUnit

  datatype PrepareState = Rebuilt | Failed | Hit | Skip

  datatype RuleStatus = Pass | Warn | Fail | SkipResult | ErrorResult

  datatype RuleResult = RuleResult(code: string, status: RuleStatus, summary: string)

  datatype UnitRequest =
    UnitRequest(kind: UnitKind, code: string, owner: string, files: seq<string>,
                prepareState: Option<PrepareState>)

  datatype UnitStatus = OK | CRASHED

  datatype LogLine = LogLine(level: string, message: string, unit: string)

  datatype UnitOutcome =
    UnitOutcome(kind: UnitKind, code: string, status: UnitStatus, result: Option<RuleResult>,
                prepareState: Option<PrepareState>, logs: seq<LogLine>)

  /** What one call of execute_unit does: it returns an outcome or raises. */
  datatype Run = Returned(outcome: UnitOutcome) | Raised
}
