/** The pure import task and its three reference transitions. */
module WorkTask {
  import opened Wrappers

  type TaskId = nat
  type ModelId = nat
  type VersionId = nat

  /** Microseconds after Go's zero time. */
  type Instant = int

  /** A span in microseconds. */
  type Span = int

  const ZERO_TIME: Instant := 0

  datatype Status = Pending | Importing | Completed | Failed | Cancelled

  datatype TransitionError = InvalidTransition | LeaseFenced

  datatype Task = Task(
    id: TaskId,
    model: Option<ModelId>,
    version: Option<VersionId>,
    status: Status,
    owner: string,
    epoch: int,
    leaseUntil: Instant,
    attempts: int)

  function Claim(t: Task, owner: string, now: Instant, lease: Span): Result<Task, TransitionError> {
    if owner == "" || lease <= 0 || (t.status != Pending && t.status != Importing)
       || (t.leaseUntil != ZERO_TIME && t.leaseUntil > now)
    then Err(InvalidTransition)
    else Ok(t.(status := Importing, owner := owner, epoch := Wrap64(t.epoch + 1),
               leaseUntil := now + lease, attempts := Wrap64(t.attempts + 1)))
  }

  predicate Holds(t: Task, owner: string, epoch: int, now: Instant) {
    t.status == Importing && t.owner == owner && t.epoch == epoch && t.leaseUntil > now
  }

  function Complete(t: Task, owner: string, epoch: int, now: Instant): Result<Task, TransitionError> {
    if !Holds(t, owner, epoch, now) then Err(LeaseFenced)
    else Ok(t.(status := Completed, owner := "", leaseUntil := ZERO_TIME))
  }

  function Fail(t: Task, owner: string, epoch: int, now: Instant): Result<Task, TransitionError> {
    if !Holds(t, owner, epoch, now) then Err(LeaseFenced)
    else Ok(t.(status := Failed, owner := "", leaseUntil := ZERO_TIME))
  }
}
