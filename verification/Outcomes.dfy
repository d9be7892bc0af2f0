/** Stage outcomes, run context and edge conditions: src/model/outcome.cpp,
    src/model/context.cpp, include/needle/model/condition.h. */
module Outcomes {
  import opened Text
  import opened Graphs

  datatype StageStatus = SUCCESS | PARTIAL_SUCCESS | FAILURE | RETRY | SKIP

  function StatusName(s: StageStatus): string
  {
    match s
    case SUCCESS => "SUCCESS"
    case PARTIAL_SUCCESS => "PARTIAL_SUCCESS"
    case FAILURE => "FAILURE"
    case RETRY => "RETRY"
    case SKIP => "SKIP"
  }

  type Context = map<string, string>

  datatype Outcome = Outcome(
    status: StageStatus,
    preferredLabel: string,
    suggestedNext: seq<string>,
    contextUpdates: map<string, string>,
    output: string)

  datatype Clause = Clause(variable: string, op: string, value: string)

  /** How a condition string is read; the grammar is not part of this model. */
  type ConditionReader = string -> Option<seq<Clause>>

  function Lower(s: string): string
  {
    seq(|s|, i requires 0 <= i < |s| => if 'A' <= s[i] <= 'Z' then (s[i] as int + 32) as char else s[i])
  }

  function Actual(variable: string, o: Outcome, ctx: Context): string
  {
    if variable == "outcome" then StatusName(o.status)
    else if variable == "preferred_label" then o.preferredLabel
    else if |variable| >= 8 && variable[..8] == "context." then Get(ctx, variable[8..])
    else ""
  }

  predicate ClauseHolds(c: Clause, o: Outcome, ctx: Context)
  {
    (Lower(Actual(c.variable, o, ctx)) == Lower(c.value)) != (c.op == "!=")
  }

  /** The clauses are joined by `&&`. */
  predicate Evaluate(clauses: seq<Clause>, o: Outcome, ctx: Context)
  {
    forall i :: 0 <= i < |clauses| ==> ClauseHolds(clauses[i], o, ctx)
  }
}
