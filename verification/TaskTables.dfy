/** The `task_queue` and `task_dlq` tables, and every SQL statement that changes them,
    as functions from tables to tables (src/agents/queue/store.py).

    Time is an integer clock that all statements share. `createdAt` is the insertion rank,
    which is what "created_at strictly increasing" leaves of that column. */
module TaskTables {
  import opened Options

  type TaskId = string
  type Time = int

  /** The envelope fields the queue reads. `maxAttempts` is `retry_policy.max_attempts`. */
  datatype Envelope = Envelope(
    content: string,
    ttlSeconds: Option<int>,
    maxAttempts: Option<int>,
    idempotencyKey: Option<string>)

  datatype Status = Pending | Claimed | AwaitingApproval | Done

  datatype Row = Row(
    envelope: Envelope,
    status: Status,
    attempts: nat,
    claimedBy: Option<string>,
    claimedAt: Option<Time>,
    visibilityAt: Option<Time>,
    ttlAt: Option<Time>,
    approvalAt: Option<Time>,
    approvalRequest: Option<string>,
    result: Option<string>,
    createdAt: nat)

  datatype Reason = TtlExpired | ApprovalTtlExpired | Failure(error: string)

  datatype DlqEntry = DlqEntry(envelope: Envelope, attempts: nat, lastError: Reason)

  datatype Tables = Tables(queue: map<TaskId, Row>, dlq: map<TaskId, DlqEntry>, stamp: nat)

  datatype TaskClaim = TaskClaim(id: TaskId, envelope: Envelope, attempts: nat)

  /** The statements of the form `UPDATE task_queue SET ... WHERE id = %s`. */
  datatype Change =
    | Ack
    | AckWithResult(output: Option<string>)
    | Nack
    | Park(deadline: Time, request: Option<string>)
    | Resolve(verdictOutput: Option<string>)

  datatype Op =
    | Insert(newId: TaskId, envelope: Envelope)
    | Dequeue(worker: string, timeout: int, locked: set<TaskId>)
    | Update(id: TaskId, change: Change)
    | ToDlq(deadId: TaskId, error: string)
    | ExpireOverdue
    | ExpireOverdueApprovals
    | DeleteDlq(ackedId: TaskId)

  // ---- enqueue ----

  /** A zero `ttl_seconds` is falsy and means "no deadline". */
  function TtlDeadline(env: Envelope, now: Time): Option<Time> {
    if env.ttlSeconds.Some? && env.ttlSeconds.value != 0
    then Some(now + env.ttlSeconds.value)
    else None
  }

  function FreshRow(env: Envelope, now: Time, stamp: nat): Row {
    Row(env, Pending, 0, None, None, None, TtlDeadline(env, now), None, None, None, stamp)
  }

  /** The unique index on `envelope ->> 'idempotency_key'`; a missing key never collides. */
  predicate KeyTaken(queue: map<TaskId, Row>, env: Envelope) {
    env.idempotencyKey.Some?
    && exists id :: id in queue && queue[id].envelope.idempotencyKey == env.idempotencyKey
  }

  predicate InsertAccepted(t: Tables, id: TaskId, env: Envelope) {
    id !in t.queue && !KeyTaken(t.queue, env)
  }

  // ---- dequeue ----

  predicate Expired(row: Row, now: Time) {
    row.ttlAt.Some? && row.ttlAt.value <= now
  }

  predicate Claimable(row: Row, now: Time) {
    && (row.status.Pending?
        || (row.status.Claimed? && row.visibilityAt.Some? && row.visibilityAt.value < now))
    && !Expired(row, now)
  }

  /** The row the inner SELECT returns: oldest claimable row no concurrent statement has locked. */
  predicate IsNext(queue: map<TaskId, Row>, now: Time, locked: set<TaskId>, id: TaskId) {
    && id in queue && id !in locked && Claimable(queue[id], now)
    && forall j :: j in queue && j !in locked && Claimable(queue[j], now)
         ==> queue[id].createdAt <= queue[j].createdAt
  }

  ghost function Next(queue: map<TaskId, Row>, now: Time, locked: set<TaskId>): Option<TaskId> {
    if exists id :: IsNext(queue, now, locked, id)
    then var id :| IsNext(queue, now, locked, id); Some(id)
    else None
  }

  function ClaimedRow(row: Row, worker: string, now: Time, timeout: int): Row {
    row.(status := Claimed, claimedBy := Some(worker), claimedAt := Some(now),
         visibilityAt := Some(now + timeout), attempts := row.attempts + 1)
  }

  predicate DistinctStamps(queue: map<TaskId, Row>) {
    forall i, j :: i in queue && j in queue && queue[i].createdAt == queue[j].createdAt ==> i == j
  }

  /** `Next` finds a row whenever there is one to find, and it is the only candidate. */
  lemma NextIsTheOldest(queue: map<TaskId, Row>, now: Time, locked: set<TaskId>)
    requires DistinctStamps(queue)
    ensures Next(queue, now, locked).None?
      <==> forall j :: j in queue && j !in locked ==> !Claimable(queue[j], now)
    ensures forall id :: IsNext(queue, now, locked, id) <==> Next(queue, now, locked) == Some(id)
  {
    var candidates := set j | j in queue && j !in locked && Claimable(queue[j], now);
    if candidates != {} {
      var id := OldestOf(queue, candidates);
      assert IsNext(queue, now, locked, id);
    } else {
      assert forall j :: j in queue && j !in locked && Claimable(queue[j], now) ==> j in candidates;
    }
  }

  lemma OldestOf(queue: map<TaskId, Row>, ids: set<TaskId>) returns (oldest: TaskId)
    requires ids != {} && ids <= queue.Keys
    ensures oldest in ids
    ensures forall j :: j in ids ==> queue[oldest].createdAt <= queue[j].createdAt
  {
    var id :| id in ids;
    if ids == {id} {
      oldest := id;
    } else {
      var rest := OldestOf(queue, ids - {id});
      oldest := if queue[rest].createdAt <= queue[id].createdAt then rest else id;
      assert forall j :: j in ids ==> j == id || j in ids - {id};
    }
  }

  // ---- updates by id ----

  function Changed(row: Row, change: Change): Row {
    match change
    case Ack => row.(status := Done)
    case AckWithResult(output) => row.(status := Done, result := output)
    case Nack =>
      row.(status := Pending, claimedAt := None, claimedBy := None, visibilityAt := None)
    case Park(deadline, request) =>
      row.(status := AwaitingApproval, approvalAt := Some(deadline),
           approvalRequest := if request.Some? then request else row.approvalRequest)
    case Resolve(output) =>
      // `AND status = 'awaiting_approval'`: a row that left that state is not touched.
      if row.status.AwaitingApproval?
      then row.(status := Done, result := output, approvalAt := None)
      else row
  }

  // ---- moves to the dead-letter table ----

  function OverdueTtl(queue: map<TaskId, Row>, now: Time): set<TaskId> {
    set id | id in queue
      && (queue[id].status.Pending? || queue[id].status.Claimed?)
      && queue[id].ttlAt.Some? && queue[id].ttlAt.value < now
  }

  function OverdueApproval(queue: map<TaskId, Row>, now: Time): set<TaskId> {
    set id | id in queue
      && queue[id].status.AwaitingApproval?
      && queue[id].approvalAt.Some? && queue[id].approvalAt.value < now
  }

  /** The `WITH moved AS (DELETE ...) INSERT INTO task_dlq` statements. */
  function Move(t: Tables, ids: set<TaskId>, reason: Reason): Tables {
    t.(queue := map id | id in t.queue && id !in ids :: t.queue[id],
       dlq := t.dlq + map id | id in ids && id in t.queue ::
                        DlqEntry(t.queue[id].envelope, t.queue[id].attempts, reason))
  }

  ghost function Exec(t: Tables, now: Time, op: Op): Tables {
    match op
    case Insert(id, env) =>
      if InsertAccepted(t, id, env)
      then t.(queue := t.queue[id := FreshRow(env, now, t.stamp)], stamp := t.stamp + 1)
      else t
    case Dequeue(worker, timeout, locked) =>
      (match Next(t.queue, now, locked)
       case Some(id) => t.(queue := t.queue[id := ClaimedRow(t.queue[id], worker, now, timeout)])
       case None => t)
    case Update(id, change) =>
      if id in t.queue then t.(queue := t.queue[id := Changed(t.queue[id], change)]) else t
    case ToDlq(id, error) => Move(t, {id}, Failure(error))
    case ExpireOverdue => Move(t, OverdueTtl(t.queue, now), TtlExpired)
    case ExpireOverdueApprovals => Move(t, OverdueApproval(t.queue, now), ApprovalTtlExpired)
    case DeleteDlq(id) => t.(dlq := t.dlq - {id})
  }

  // ---- retry policy ----

  function MaxAttempts(env: Envelope, default: int): int {
    if env.maxAttempts.Some? then env.maxAttempts.value else default
  }

  /** The attempts made and those remaining make up the envelope's `max_attempts`, or the default if
      it has none, until that is reached. */
  lemma RemainingMakesUpTheRest(env: Envelope, attempts: nat, default: int, n: int)
    requires match env.maxAttempts case Some(own) => n == own case None => n == default
    ensures attempts <= n ==> attempts + AttemptsRemaining(env, attempts, default) == n
    ensures attempts > n ==> AttemptsRemaining(env, attempts, default) == 0
  {
  }

  function AttemptsRemaining(env: Envelope, attempts: nat, default: int): nat {
    if MaxAttempts(env, default) - attempts > 0 then MaxAttempts(env, default) - attempts else 0
  }
}
