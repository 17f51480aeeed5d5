// The workflows table: the wire shape of a workflow, its stored row, and the
// tenant-aware queries and updates on it.
module Workflows {
  import opened Base

  datatype Count = Fixed(n: int) | Range(min: nat, max: nat)

  datatype Trigger =
    | Cron(expression: string)
    | TimeWindow(window: string, count: Count, minGap: string)
    | MessageMatch
    | Startup

  datatype ActionStep = ActionStep(action: string, continueOnError: bool)

  datatype Plan = Plan(steps: seq<ActionStep>, variants: seq<seq<ActionStep>>, roundRobin: bool)

  datatype Source = Yaml | Api

  datatype Workflow = Workflow(name: string, account: nat, enabled: bool, trigger: Trigger, plan: Plan)

  datatype Row = Row(owner: nat, name: string, account: nat, enabled: bool, source: Source,
                     trigger: Trigger, plan: Plan, rrCounter: nat)

  type Table = map<nat, Row>

  function NewRow(owner: nat, source: Source, wf: Workflow): Row {
    Row(owner, wf.name, wf.account, wf.enabled, source, wf.trigger, wf.plan, 0)
  }

  /** What an update keeps: owner, name, source and the round-robin counter. */
  function Updated(row: Row, wf: Workflow): Row {
    row.(account := wf.account, enabled := wf.enabled, trigger := wf.trigger, plan := wf.plan)
  }

  /** The unique constraint on (owner_id, name). */
  predicate UniqueNames(rows: Table) {
    forall i, j | i in rows && j in rows :: rows[i].owner == rows[j].owner && rows[i].name == rows[j].name ==> i == j
  }

  predicate Named(rows: Table, id: nat, owner: nat, name: string) {
    id in rows && rows[id].owner == owner && rows[id].name == name
  }

  ghost predicate HasName(rows: Table, owner: nat, name: string) {
    exists id :: Named(rows, id, owner, name)
  }

  predicate Managed(row: Row, owner: nat) {
    row.owner == owner && row.source == Yaml
  }

  /** The ids below `bound` that `keep` selects, in ascending order: ORDER BY id. */
  function Listing(rows: Table, bound: nat, keep: Row -> bool): (ids: seq<nat>)
    ensures Increasing(ids)
    ensures forall i :: 0 <= i < |ids| ==> ids[i] < bound
    ensures forall id :: id in ids <==> id in rows && id < bound && keep(rows[id])
  {
    if bound == 0 then []
    else Listing(rows, bound - 1, keep) + (if bound - 1 in rows && keep(rows[bound - 1]) then [bound - 1] else [])
  }
}
