/** The task rows that the scheduler and the dependency commands both read. */
module Tasks {
  import opened Prelude

  type Id = string

  datatype Execution = Proposed | Pending | InProgress | Completed | Cancelled

  /** `estimate` is what a running task is thought to need still. */
  datatype TaskRow = TaskRow(id: Id, goalId: Id, execution: Execution, estimate: Option<int>)
}
