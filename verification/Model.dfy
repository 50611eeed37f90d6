/** Statuses and messages shared by agent and server. */
module Model {
  import opened Masking

  datatype RunStatus = Queued | Running | Succeeded | Failed | Cancelled

  predicate Terminal(s: RunStatus) {
    s == Succeeded || s == Failed || s == Cancelled
  }

  datatype StepStatus = Pending | InProgress | Passed | Broken | Skipped

  /** A line the agent writes itself. */
  datatype Note =
    | Prepared
    | CacheStates(restored: seq<bool>)
    | NoSecrets(error: Bytes)
    | Exit(code: int, success: bool)
    | ExecutorFailed(error: Bytes)
    | RunError(error: Bytes)

  /** What the agent posts: all to the server, but for the commit status, which goes to the code host. */
  datatype Message =
    | Output(step: string, lines: seq<Bytes>)
    | Remark(step: string, note: Note)
    | Upload(step: string, path: string)
    | StepIs(step: string, status: StepStatus)
    | RunIs(run: RunStatus)
    | CommitIs(success: bool)
}
