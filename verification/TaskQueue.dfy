/** The `TaskQueue` class: one method per public coroutine of src/agents/queue/store.py,
    each proved to perform exactly the statement `TaskTables.Exec` describes. */
module TaskQueueClass {
  import opened Options
  import opened TaskTables

  class TaskQueue {
    var queue: map<TaskId, Row>
    var dlq: map<TaskId, DlqEntry>
    var stamp: nat
    const defaultVisibilityTimeout: int
    const defaultMaxAttempts: int

    constructor (visibility: int := 300, maxAttempts: int := 3)
      ensures Valid() && fresh(this)
      ensures Contents() == Tables(map[], map[], 0)
      ensures defaultVisibilityTimeout == visibility && defaultMaxAttempts == maxAttempts
    {
      queue, dlq, stamp := map[], map[], 0;
      defaultVisibilityTimeout, defaultMaxAttempts := visibility, maxAttempts;
    }

    function Contents(): Tables
      reads this
    {
      Tables(queue, dlq, stamp)
    }

    ghost predicate Valid()
      reads this
    {
      && DistinctStamps(queue)
      && (forall id :: id in queue ==> queue[id].createdAt < stamp)
      && queue.Keys !! dlq.Keys
    }

    /** `id` is the freshly minted ULID. Err is Postgres's UniqueViolation. */
    method Enqueue(id: TaskId, envelope: Envelope, now: Time) returns (r: Result<TaskId, ()>)
      requires Valid() && id !in dlq
      modifies this
      ensures Valid()
      ensures Contents() == Exec(old(Contents()), now, Insert(id, envelope))
      ensures r == if old(InsertAccepted(Contents(), id, envelope)) then Ok(id) else Err(())
      ensures r.Ok? <==>
        && id !in old(queue)
        && forall j :: j in old(queue) && envelope.idempotencyKey.Some? ==>
             old(queue)[j].envelope.idempotencyKey != envelope.idempotencyKey
    {
      if id in queue || KeyTaken(queue, envelope) {
        return Err(());
      }
      queue := queue[id := FreshRow(envelope, now, stamp)];
      stamp := stamp + 1;
      r := Ok(id);
    }

    /** An absent or zero `visibility_timeout_seconds` selects the default. */
    function Timeout(requested: Option<int>): (t: int)
      ensures requested in {None, Some(0)} ==> t == defaultVisibilityTimeout
      ensures requested !in {None, Some(0)} ==> Some(t) == requested
    {
      if requested.Some? && requested.value != 0 then requested.value else defaultVisibilityTimeout
    }

    method Dequeue(worker: string, requested: Option<int>, locked: set<TaskId>, now: Time)
      returns (claim: Option<TaskClaim>)
      requires Valid()
      modifies this`queue
      ensures Valid()
      ensures Contents()
           == Exec(old(Contents()), now, Op.Dequeue(worker, Timeout(requested), locked))
      ensures claim.None? <==> old(forall j :: j in queue && j !in locked ==> !Claimable(queue[j], now))
      ensures claim.Some? ==>
        var c := claim.value;
        && old(IsNext(queue, now, locked, c.id))
        && c == TaskClaim(c.id, old(queue)[c.id].envelope, old(queue)[c.id].attempts + 1)
      ensures claim.Some? ==>
        && claim.value.id in queue
        && queue[claim.value.id].visibilityAt == Some(now + Timeout(requested))
    {
      NextIsTheOldest(queue, now, locked);
      var candidates := set j | j in queue && j !in locked && Claimable(queue[j], now);
      if candidates == {} {
        assert forall j :: j in queue && j !in locked && Claimable(queue[j], now) ==> j in candidates;
        return None;
      }
      ghost var oldest := OldestOf(queue, candidates);
      assert IsNext(queue, now, locked, oldest);
      var id :| id in candidates && forall j :: j in candidates ==> queue[id].createdAt <= queue[j].createdAt;
      assert forall j :: j in queue && j !in locked && Claimable(queue[j], now) ==> j in candidates;
      assert IsNext(queue, now, locked, id);
      queue := queue[id := ClaimedRow(queue[id], worker, now, Timeout(requested))];
      claim := Some(TaskClaim(id, queue[id].envelope, queue[id].attempts));
    }

    method Apply(id: TaskId, change: Change, ghost now: Time)
      requires Valid()
      modifies this`queue
      ensures Valid()
      ensures Contents() == Exec(old(Contents()), now, Update(id, change))
    {
      if id in queue {
        queue := queue[id := Changed(queue[id], change)];
      }
    }

    method ToDlq(id: TaskId, error: string, ghost now: Time)
      requires Valid()
      modifies this`queue, this`dlq
      ensures Valid()
      ensures Contents() == Exec(old(Contents()), now, Op.ToDlq(id, error))
    {
      if id in queue {
        dlq := dlq[id := DlqEntry(queue[id].envelope, queue[id].attempts, Failure(error))];
        queue := queue - {id};
      }
      assert Contents().queue == Exec(old(Contents()), now, Op.ToDlq(id, error)).queue;
      assert Contents().dlq == Exec(old(Contents()), now, Op.ToDlq(id, error)).dlq;
    }

    /** The claims an expiry sweep returns, one per moved row. */
    method ClaimsOf(ids: set<TaskId>) returns (expired: seq<TaskClaim>)
      requires ids <= queue.Keys
      ensures |expired| == |ids|
      ensures forall c :: c in expired <==> c.id in ids && c == TaskClaim(c.id, queue[c.id].envelope, queue[c.id].attempts)
    {
      expired := [];
      var left := ids;
      while left != {}
        invariant left <= ids
        invariant |expired| == |ids| - |left|
        invariant forall c :: c in expired <==> c.id in ids - left && c == TaskClaim(c.id, queue[c.id].envelope, queue[c.id].attempts)
        decreases left
      {
        var id :| id in left;
        left := left - {id};
        expired := expired + [TaskClaim(id, queue[id].envelope, queue[id].attempts)];
      }
    }

    method Expire(ids: set<TaskId>, reason: Reason) returns (expired: seq<TaskClaim>)
      requires Valid() && ids <= queue.Keys
      modifies this`queue, this`dlq
      ensures Valid()
      ensures Contents() == Move(old(Contents()), ids, reason)
      ensures |expired| == |ids|
      ensures forall c :: c in expired <==> c.id in ids && c == TaskClaim(c.id, old(queue)[c.id].envelope, old(queue)[c.id].attempts)
    {
      expired := ClaimsOf(ids);
      ghost var moved := Move(Contents(), ids, reason);
      dlq := dlq + map id | id in ids :: DlqEntry(queue[id].envelope, queue[id].attempts, reason);
      assert dlq == moved.dlq;
      queue := map id | id in queue && id !in ids :: queue[id];
    }

    method ExpireOverdue(now: Time) returns (expired: seq<TaskClaim>)
      requires Valid()
      modifies this`queue, this`dlq
      ensures Valid()
      ensures Contents() == Exec(old(Contents()), now, Op.ExpireOverdue)
      ensures |expired| == |old(OverdueTtl(queue, now))|
      ensures forall c :: c in expired <==>
        c.id in old(OverdueTtl(queue, now)) && c == TaskClaim(c.id, old(queue)[c.id].envelope, old(queue)[c.id].attempts)
    {
      expired := Expire(OverdueTtl(queue, now), TtlExpired);
    }

    method ExpireOverdueApprovals(now: Time) returns (expired: seq<TaskClaim>)
      requires Valid()
      modifies this`queue, this`dlq
      ensures Valid()
      ensures Contents() == Exec(old(Contents()), now, Op.ExpireOverdueApprovals)
      ensures |expired| == |old(OverdueApproval(queue, now))|
      ensures forall c :: c in expired <==>
        c.id in old(OverdueApproval(queue, now)) && c == TaskClaim(c.id, old(queue)[c.id].envelope, old(queue)[c.id].attempts)
    {
      expired := Expire(OverdueApproval(queue, now), ApprovalTtlExpired);
    }

    /** `DELETE /admin/dlq/{task_id}`; false is the 404. */
    method DeleteDlqEntry(id: TaskId, ghost now: Time) returns (found: bool)
      requires Valid()
      modifies this`dlq
      ensures Valid()
      ensures Contents() == Exec(old(Contents()), now, DeleteDlq(id))
      ensures found == (id in old(dlq))
    {
      found := id in dlq;
      dlq := dlq - {id};
    }
  }
}
