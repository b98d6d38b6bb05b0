/** The rows of model_import_tasks and the guarded statements that change them. */
module TaskRows {
  import opened Wrappers
  import opened WorkTask

  /** Go's time.Duration: nanoseconds. */
  type Duration = int

  /** Duration.Microseconds(): truncates toward zero. */
  function Micros(d: Duration): (m: Span)
    ensures d >= 0 ==> 1000 * m <= d < 1000 * m + 1000
    ensures d < 0 ==> 1000 * m - 1000 < d <= 1000 * m
  {
    if d >= 0 then d / 1000 else -(-d / 1000)
  }

  datatype Row = Row(
    id: TaskId,
    model: Option<ModelId>,
    version: Option<VersionId>,
    status: Status,
    owner: string,
    epoch: nat,
    lease: Option<Instant>,
    nextAttempt: Instant,
    attempts: nat,
    progress: nat,
    error: string,
    completedAt: Option<Instant>)

  /** What a caller asks of one row. */
  datatype Event =
    | Claim(owner: string, lease: Duration)
    | Renew(owner: string, epoch: int, lease: Duration)
    | Bind(owner: string, epoch: int, model: ModelId, version: VersionId)
    | Complete(owner: string, epoch: int)
    | Fail(owner: string, epoch: int, message: string)
    | Retry(owner: string, epoch: int, after: Duration, message: string)
    | RetryFailed
  {
    /** The statements that name the lease they run under. */
    predicate Fenced?() { !Claim? && !RetryFailed? }

    /** The fenced statements that give the lease up. */
    predicate Releases?() { Complete? || Fail? || Retry? }
  }

  /** One execution of a statement. clock_timestamp() moves while the statement
      runs, so the guard reads `at` and the assignments read `stamp`. */
  datatype Step = Step(ev: Event, at: nat, stamp: nat)

  predicate ClaimGuard(row: Row, at: nat) {
    && (row.status == Pending || row.status == Importing)
    && row.nextAttempt <= at
    && (row.lease.Some? ==> row.lease.value <= at)
  }

  /** lease_epoch is a BIGINT and attempt_count an INTEGER; adding past either is
      a database error that changes nothing. */
  predicate CountersFit(row: Row) {
    row.epoch < MAX_INT64 && row.attempts < MAX_INT32
  }

  predicate Live(row: Row, owner: string, epoch: int, at: nat) {
    row.status == Importing && row.owner == owner && row.epoch == epoch
    && row.lease.Some? && row.lease.value > at
  }

  /** The statement finds its row and updates it. */
  predicate Succeeds(row: Row, s: Step) {
    match s.ev
    case Claim(_, _) => ClaimGuard(row, s.at) && CountersFit(row)
    case RetryFailed => row.status == Failed
    case Bind(owner, epoch, _, _) => Live(row, owner, epoch, s.at) && row.version.None?
    case Renew(owner, epoch, _) => Live(row, owner, epoch, s.at)
    case Complete(owner, epoch) => Live(row, owner, epoch, s.at)
    case Fail(owner, epoch, _) => Live(row, owner, epoch, s.at)
    case Retry(owner, epoch, _, _) => Live(row, owner, epoch, s.at)
  }

  function Effect(row: Row, s: Step): Row {
    match s.ev
    case Claim(owner, lease) =>
      row.(status := Importing, owner := owner, epoch := row.epoch + 1,
           lease := Some(s.stamp + Micros(lease)), attempts := row.attempts + 1)
    case Renew(_, _, lease) => row.(lease := Some(s.stamp + Micros(lease)))
    case Bind(_, _, m, v) => row.(model := Some(m), version := Some(v))
    case Complete(_, _) =>
      row.(status := Completed, progress := 100, owner := "", lease := None,
           completedAt := Some(s.stamp), error := "")
    case Fail(_, _, message) => row.(status := Failed, owner := "", lease := None, error := message)
    case Retry(_, _, after, message) =>
      row.(status := Pending, owner := "", lease := None,
           nextAttempt := s.stamp + Micros(after), error := message)
    case RetryFailed =>
      row.(status := Pending, attempts := 0, progress := 0, owner := "", lease := None,
           nextAttempt := s.stamp, error := "", completedAt := None)
  }

  function Apply(row: Row, s: Step): Row {
    if Succeeds(row, s) then Effect(row, s) else row
  }

  /** The table after one statement aimed at row `id`. */
  function Updated(rows: map<TaskId, Row>, id: TaskId, s: Step): map<TaskId, Row> {
    if id in rows then rows[id := Apply(rows[id], s)] else rows
  }

  datatype StoreError = LeaseLost | OutOfRange | NoRows | NotFailed

  /** WorkStore over the table. Each method is one statement; `at` and `stamp` are
      the clock readings the statement makes. */
  class TaskTable {
    var rows: map<TaskId, Row>

    constructor (initial: map<TaskId, Row>)
      ensures rows == initial
    {
      rows := initial;
    }

    method Claim(id: TaskId, owner: string, lease: Duration, at: nat, stamp: nat)
      returns (r: Result<Row, StoreError>)
      modifies this
      ensures rows == Updated(old(rows), id, Step(Event.Claim(owner, lease), at, stamp))
      ensures r.Ok? || r == Err(OutOfRange) <==> id in old(rows) && var row := old(rows)[id];
              && (row.status == Pending || row.status == Importing) && row.nextAttempt <= at
              && (row.lease.None? || row.lease.value <= at)
      ensures r.Ok? ==> old(rows)[id].epoch < 0x7fff_ffff_ffff_ffff && old(rows)[id].attempts < 0x7fff_ffff
      ensures r == Err(OutOfRange) ==>
              old(rows)[id].epoch >= 0x7fff_ffff_ffff_ffff || old(rows)[id].attempts >= 0x7fff_ffff
      ensures r.Ok? ==> rows == old(rows)[id := r.value]
      ensures r.Ok? ==> r.value == old(rows)[id].(
                   status := Importing, owner := owner, epoch := old(rows)[id].epoch + 1,
                   lease := Some(stamp + Micros(lease)), attempts := old(rows)[id].attempts + 1)
      ensures r.Err? ==> rows == old(rows)
    {
      if id !in rows || !ClaimGuard(rows[id], at) {
        return Err(LeaseLost);
      }
      var row := rows[id];
      if row.epoch >= MAX_INT64 || row.attempts >= MAX_INT32 {
        return Err(OutOfRange);
      }
      row := row.(status := Importing, owner := owner, epoch := row.epoch + 1);
      row := row.(lease := Some(stamp + Micros(lease)), attempts := row.attempts + 1);
      rows := rows[id := row];
      r := Ok(row);
    }

    method Renew(id: TaskId, owner: string, epoch: int, lease: Duration, at: nat, stamp: nat)
      returns (r: Result<(), StoreError>)
      modifies this
      ensures rows == Updated(old(rows), id, Step(Event.Renew(owner, epoch, lease), at, stamp))
      ensures r.Ok? <==> id in old(rows) && var row := old(rows)[id];
              && row.status == Importing && row.owner == owner && row.epoch == epoch
              && row.lease.Some? && row.lease.value > at
      ensures rows == if r.Ok? then old(rows)[id := old(rows)[id].(lease := Some(stamp + Micros(lease)))] else old(rows)
    {
      if id !in rows || !Live(rows[id], owner, epoch, at) {
        return Err(LeaseLost);
      }
      rows := rows[id := rows[id].(lease := Some(stamp + Micros(lease)))];
      r := Ok(());
    }

    method Bind(id: TaskId, owner: string, epoch: int, model: ModelId, version: VersionId, at: nat, stamp: nat)
      returns (r: Result<(), StoreError>)
      modifies this
      ensures rows == Updated(old(rows), id, Step(Event.Bind(owner, epoch, model, version), at, stamp))
      ensures r.Ok? <==> id in old(rows) && var row := old(rows)[id];
              && row.status == Importing && row.owner == owner && row.epoch == epoch
              && row.lease.Some? && row.lease.value > at && row.version.None?
      ensures rows ==
              if r.Ok? then old(rows)[id := old(rows)[id].(model := Some(model), version := Some(version))]
              else old(rows)
    {
      if id !in rows || !Live(rows[id], owner, epoch, at) || rows[id].version.Some? {
        return Err(LeaseLost);
      }
      rows := rows[id := rows[id].(model := Some(model), version := Some(version))];
      r := Ok(());
    }

    method Complete(id: TaskId, owner: string, epoch: int, at: nat, stamp: nat)
      returns (r: Result<(), StoreError>)
      modifies this
      ensures rows == Updated(old(rows), id, Step(Event.Complete(owner, epoch), at, stamp))
      ensures r.Ok? <==> id in old(rows) && var row := old(rows)[id];
              && row.status == Importing && row.owner == owner && row.epoch == epoch
              && row.lease.Some? && row.lease.value > at
      ensures rows ==
              if r.Ok? then
                old(rows)[id := old(rows)[id].(
                     status := Completed, progress := 100, owner := "", lease := None,
                     completedAt := Some(stamp), error := "")]
              else old(rows)
    {
      if id !in rows || !Live(rows[id], owner, epoch, at) {
        return Err(LeaseLost);
      }
      var row := rows[id].(status := Completed, progress := 100, completedAt := Some(stamp), error := "");
      rows := rows[id := row.(owner := "", lease := None)];
      r := Ok(());
    }

    method Fail(id: TaskId, owner: string, epoch: int, message: string, at: nat, stamp: nat)
      returns (r: Result<(), StoreError>)
      modifies this
      ensures rows == Updated(old(rows), id, Step(Event.Fail(owner, epoch, message), at, stamp))
      ensures r.Ok? <==> id in old(rows) && var row := old(rows)[id];
              && row.status == Importing && row.owner == owner && row.epoch == epoch
              && row.lease.Some? && row.lease.value > at
      ensures rows ==
              if r.Ok? then
                old(rows)[id := old(rows)[id].(
                     status := Failed, owner := "", lease := None, error := message)]
              else old(rows)
    {
      if id !in rows || !Live(rows[id], owner, epoch, at) {
        return Err(LeaseLost);
      }
      rows := rows[id := rows[id].(status := Failed, owner := "", lease := None, error := message)];
      r := Ok(());
    }

    method Retry(id: TaskId, owner: string, epoch: int, after: Duration, message: string, at: nat, stamp: nat)
      returns (r: Result<(), StoreError>)
      modifies this
      ensures rows == Updated(old(rows), id, Step(Event.Retry(owner, epoch, after, message), at, stamp))
      ensures r.Ok? <==> id in old(rows) && var row := old(rows)[id];
              && row.status == Importing && row.owner == owner && row.epoch == epoch
              && row.lease.Some? && row.lease.value > at
      ensures rows ==
              if r.Ok? then
                old(rows)[id := old(rows)[id].(
                     status := Pending, owner := "", lease := None,
                     nextAttempt := stamp + Micros(after), error := message)]
              else old(rows)
    {
      if id !in rows || !Live(rows[id], owner, epoch, at) {
        return Err(LeaseLost);
      }
      var row := rows[id].(status := Pending, owner := "", lease := None);
      rows := rows[id := row.(nextAttempt := stamp + Micros(after), error := message)];
      r := Ok(());
    }

    method RetryFailed(id: TaskId, at: nat, stamp: nat) returns (r: Result<Row, StoreError>)
      modifies this
      ensures rows == Updated(old(rows), id, Step(Event.RetryFailed, at, stamp))
      ensures r.Ok? <==> id in old(rows) && old(rows)[id].status == Failed
      ensures r.Ok? ==> rows == old(rows)[id := r.value]
      ensures r.Ok? ==> r.value == old(rows)[id].(
                   status := Pending, attempts := 0, progress := 0, owner := "", lease := None,
                   nextAttempt := stamp, error := "", completedAt := None)
      ensures r.Err? ==> rows == old(rows)
      ensures r == Err(NotFailed) <==> id in old(rows) && old(rows)[id].status != Failed
    {
      if id !in rows {
        return Err(NoRows);
      }
      var row := rows[id];
      if row.status != Failed {
        return Err(NotFailed);
      }
      row := row.(status := Pending, attempts := 0, progress := 0, owner := "", lease := None);
      row := row.(nextAttempt := stamp, error := "", completedAt := None);
      rows := rows[id := row];
      r := Ok(row);
    }
  }
}
