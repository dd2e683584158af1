/** The two tables under any interleaving of statements, by any number of workers and callers,
    with the history needed to state what no interleaving can break. */
module QueueHistory {
  import opened Options
  import opened TaskTables

  /** What `dequeue` handed out, to whom, when, and until when it is leased. */
  datatype Claim = Claim(id: TaskId, attempts: nat, worker: string, issuedAt: Time, deadline: Time)

  datatype Birth = Birth(envelope: Envelope, enqueuedAt: Time)

  /** `order` lists the accepted ids by insertion, so a row's `createdAt` is its index there. */
  datatype Sys = Sys(
    now: Time,
    tables: Tables,
    born: map<TaskId, Birth>,
    order: seq<TaskId>,
    deleted: set<TaskId>,
    claims: seq<Claim>)

  datatype Event = Tick(delta: nat) | Do(op: Op)

  const EMPTY := Sys(0, Tables(map[], map[], 0), map[], [], {}, [])

  ghost function Step(s: Sys, e: Event): Sys {
    match e
    case Tick(delta) => s.(now := s.now + delta)
    case Do(op) =>
      var t := Exec(s.tables, s.now, op);
      match op
      case Insert(id, env) =>
        if InsertAccepted(s.tables, id, env)
        then s.(tables := t, order := s.order + [id],
                born := s.born[id := Birth(env, s.now)])
        else s
      case Dequeue(worker, timeout, locked) =>
        (match Next(s.tables.queue, s.now, locked)
         case Some(id) =>
           s.(tables := t,
              claims := s.claims
                + [Claim(id, s.tables.queue[id].attempts + 1, worker, s.now, s.now + timeout)])
         case None => s)
      case DeleteDlq(id) =>
        s.(tables := t, deleted := if id in s.tables.dlq then s.deleted + {id} else s.deleted)
      case _ => s.(tables := t)
  }

  /** ULIDs are never reused; nothing else about an event is restricted. */
  ghost predicate FreshId(s: Sys, e: Event) {
    e.Do? && e.op.Insert? ==> e.op.newId !in s.born
  }

  ghost predicate Legal(s: Sys, es: seq<Event>)
    decreases |es|
  {
    es == [] || (FreshId(s, es[0]) && Legal(Step(s, es[0]), es[1..]))
  }

  ghost function Run(s: Sys, es: seq<Event>): Sys
    decreases |es|
  {
    if es == [] then s else Run(Step(s, es[0]), es[1..])
  }

  // ---- the invariant ----

  ghost predicate Conserved(s: Sys) {
    && s.tables.queue.Keys !! s.tables.dlq.Keys
    && s.deleted !! s.tables.queue.Keys
    && s.deleted !! s.tables.dlq.Keys
    && s.born.Keys == s.tables.queue.Keys + s.tables.dlq.Keys + s.deleted
  }

  /** The task's deadline, fixed when it was enqueued. */
  ghost function DueAt(b: Birth): Option<Time> {
    TtlDeadline(b.envelope, b.enqueuedAt)
  }

  ghost predicate Unaltered(s: Sys) {
    && (forall id :: id in s.tables.queue && id in s.born ==>
          s.born[id].envelope == s.tables.queue[id].envelope && s.tables.queue[id].ttlAt == DueAt(s.born[id]))
    && (forall id :: id in s.tables.dlq && id in s.born ==>
          s.born[id].envelope == s.tables.dlq[id].envelope)
  }

  /** The row of `id`, if it is still queued, carries the rank at which `id` was inserted. */
  ghost predicate RankedRow(s: Sys, id: TaskId) {
    id in s.tables.queue ==>
      s.tables.queue[id].createdAt < |s.order| && s.order[s.tables.queue[id].createdAt] == id
  }

  ghost predicate Ranked(s: Sys) {
    && s.tables.stamp == |s.order|
    && (set id | id in s.order) == s.born.Keys
    && forall id {:trigger RankedRow(s, id)} :: RankedRow(s, id)
  }

  /** How many of `claims` are claims of `id`. */
  ghost function Count(claims: seq<Claim>, id: TaskId): nat {
    if claims == [] then 0
    else Count(claims[..|claims| - 1], id) + (if claims[|claims| - 1].id == id then 1 else 0)
  }

  ghost predicate NumberedAt(claims: seq<Claim>, k: nat)
    requires k < |claims|
  {
    claims[k].attempts == Count(claims[..k], claims[k].id) + 1
  }

  /** A claim's attempts number is its position among the claims of its task, so the numbers of
      one task are 1, 2, 3, ... without gap or repetition, and the tables hold the last of them. */
  ghost predicate Numbered(s: Sys) {
    && (forall k :: 0 <= k < |s.claims| ==> NumberedAt(s.claims, k))
    && (forall id :: id in s.tables.queue ==> s.tables.queue[id].attempts == Count(s.claims, id))
    && (forall id :: id in s.tables.dlq ==> s.tables.dlq[id].attempts == Count(s.claims, id))
    && (forall k :: 0 <= k < |s.claims| ==> s.claims[k].id in s.born)
  }

  /** No claim was issued at or past its task's deadline. */
  ghost predicate InTime(s: Sys) {
    forall k :: 0 <= k < |s.claims| && s.claims[k].id in s.born
      && DueAt(s.born[s.claims[k].id]).Some?
      ==> s.claims[k].issuedAt < DueAt(s.born[s.claims[k].id]).value
  }

  ghost predicate KeysUnique(s: Sys) {
    forall i, j :: i in s.tables.queue && j in s.tables.queue
      && s.tables.queue[i].envelope.idempotencyKey.Some?
      && s.tables.queue[i].envelope.idempotencyKey == s.tables.queue[j].envelope.idempotencyKey
      ==> i == j
  }

  ghost predicate Inv(s: Sys) {
    Conserved(s) && Unaltered(s) && Ranked(s) && Numbered(s) && InTime(s) && KeysUnique(s)
  }

  lemma RanksAreDistinct(s: Sys)
    requires Ranked(s)
    ensures DistinctStamps(s.tables.queue)
  {
    forall i, j | i in s.tables.queue && j in s.tables.queue
      && s.tables.queue[i].createdAt == s.tables.queue[j].createdAt
      ensures i == j
    {
      assert RankedRow(s, i) && RankedRow(s, j);
    }
  }

  // ---- every event keeps it ----

  lemma CountAppend(claims: seq<Claim>, c: Claim, id: TaskId)
    ensures Count(claims + [c], id) == Count(claims, id) + (if c.id == id then 1 else 0)
  {
    assert (claims + [c])[..|claims|] == claims;
  }

  lemma CountZero(claims: seq<Claim>, id: TaskId)
    requires forall k :: 0 <= k < |claims| ==> claims[k].id != id
    ensures Count(claims, id) == 0
  {
  }

  lemma InsertKeeps(s: Sys, id: TaskId, env: Envelope)
    requires Inv(s) && id !in s.born && InsertAccepted(s.tables, id, env)
    ensures Inv(Step(s, Do(Insert(id, env))))
  {
    CountZero(s.claims, id);
    var s' := Step(s, Do(Insert(id, env)));
    assert forall k :: 0 <= k < |s.claims| ==> NumberedAt(s.claims, k);
    assert s'.tables.queue.Keys == s.tables.queue.Keys + {id};
    assert s'.born.Keys == s.born.Keys + {id};
    forall j
      ensures RankedRow(s', j)
    {
      assert RankedRow(s, j);
    }
  }

  /** A row's identity: the columns no statement rewrites. */
  function Identity(row: Row): (Envelope, Option<Time>, nat) {
    (row.envelope, row.ttlAt, row.createdAt)
  }

  lemma RewritingRowsKeeps(s: Sys, s': Sys)
    requires Conserved(s) && Unaltered(s) && Ranked(s) && KeysUnique(s)
    requires s'.tables.queue.Keys == s.tables.queue.Keys
    requires s'.tables.dlq == s.tables.dlq && s'.tables.stamp == s.tables.stamp
    requires s'.born == s.born && s'.order == s.order && s'.deleted == s.deleted
    requires forall j :: j in s.tables.queue ==> Identity(s'.tables.queue[j]) == Identity(s.tables.queue[j])
    ensures Conserved(s') && Unaltered(s') && Ranked(s') && KeysUnique(s')
  {
    forall i, j | i in s'.tables.queue && j in s'.tables.queue
      && s'.tables.queue[i].envelope.idempotencyKey.Some?
      && s'.tables.queue[i].envelope.idempotencyKey == s'.tables.queue[j].envelope.idempotencyKey
      ensures i == j
    {
      assert Identity(s'.tables.queue[i]) == Identity(s.tables.queue[i]);
      assert Identity(s'.tables.queue[j]) == Identity(s.tables.queue[j]);
    }
    forall j
      ensures RankedRow(s', j)
    {
      assert RankedRow(s, j);
      if j in s.tables.queue {
        assert Identity(s'.tables.queue[j]) == Identity(s.tables.queue[j]);
      }
    }
    forall j | j in s'.tables.queue
      ensures j in s'.born ==>
        s'.born[j].envelope == s'.tables.queue[j].envelope && s'.tables.queue[j].ttlAt == DueAt(s'.born[j])
    {
      assert Identity(s'.tables.queue[j]) == Identity(s.tables.queue[j]);
    }
  }

  lemma ClaimKeeps(s: Sys, s': Sys, id: TaskId, row: Row, c: Claim)
    requires Inv(s) && id in s.tables.queue && !Expired(s.tables.queue[id], s.now)
    requires Identity(row) == Identity(s.tables.queue[id])
    requires row.attempts == s.tables.queue[id].attempts + 1
    requires c.id == id && c.attempts == row.attempts && c.issuedAt == s.now
    requires s' == s.(tables := s.tables.(queue := s.tables.queue[id := row]), claims := s.claims + [c])
    ensures Inv(s')
  {
    assert s'.tables.queue.Keys == s.tables.queue.Keys;
    RewritingRowsKeeps(s, s');
    ClaimKeepsNumbers(s, s', id, c);
  }

  lemma ClaimKeepsNumbers(s: Sys, s': Sys, id: TaskId, c: Claim)
    requires Numbered(s) && Conserved(s) && c.id == id && id in s.tables.queue
    requires s'.claims == s.claims + [c] && s'.born == s.born
    requires s'.tables.queue.Keys == s.tables.queue.Keys && s'.tables.dlq == s.tables.dlq
    requires forall j :: j in s.tables.queue && j != id ==> s'.tables.queue[j] == s.tables.queue[j]
    requires s'.tables.queue[id].attempts == s.tables.queue[id].attempts + 1 == c.attempts
    ensures Numbered(s')
  {
    forall j
      ensures Count(s'.claims, j) == Count(s.claims, j) + (if j == id then 1 else 0)
    {
      CountAppend(s.claims, c, j);
    }
    forall k | 0 <= k < |s'.claims|
      ensures NumberedAt(s'.claims, k)
    {
      assert k < |s.claims| ==> NumberedAt(s.claims, k);
      assert s'.claims[..k] == s.claims[..k];
      if k == |s.claims| {
        assert s.claims[..k] == s.claims;
      }
    }
  }

  lemma MoveKeeps(s: Sys, ids: set<TaskId>, reason: Reason)
    requires Inv(s)
    ensures Inv(s.(tables := Move(s.tables, ids, reason)))
  {
    var t := Move(s.tables, ids, reason);
    forall j
      ensures RankedRow(s.(tables := t), j)
    {
      assert RankedRow(s, j);
    }
    assert t.queue.Keys + t.dlq.Keys == s.tables.queue.Keys + s.tables.dlq.Keys;
  }

  lemma UpdateKeeps(s: Sys, id: TaskId, row: Row)
    requires Inv(s) && id in s.tables.queue
    requires Identity(row) == Identity(s.tables.queue[id])
    requires row.attempts == s.tables.queue[id].attempts
    ensures Inv(s.(tables := s.tables.(queue := s.tables.queue[id := row])))
  {
    var s' := s.(tables := s.tables.(queue := s.tables.queue[id := row]));
    assert s'.tables.queue.Keys == s.tables.queue.Keys;
    RewritingRowsKeeps(s, s');
  }

  lemma ChangeKeepsIdentity(row: Row, change: Change)
    ensures Identity(Changed(row, change)) == Identity(row)
    ensures Changed(row, change).attempts == row.attempts
  {
  }

  lemma TickKeeps(s: Sys, delta: nat)
    requires Inv(s)
    ensures Inv(s.(now := s.now + delta))
  {
    var s' := s.(now := s.now + delta);
    forall j
      ensures RankedRow(s', j)
    {
      assert RankedRow(s, j);
    }
  }

  lemma DequeueKeeps(s: Sys, worker: string, timeout: int, locked: set<TaskId>)
    requires Inv(s)
    ensures Inv(Step(s, Do(Op.Dequeue(worker, timeout, locked))))
  {
    if Next(s.tables.queue, s.now, locked).Some? {
      var id := Next(s.tables.queue, s.now, locked).value;
      assert IsNext(s.tables.queue, s.now, locked, id);
      var row := ClaimedRow(s.tables.queue[id], worker, s.now, timeout);
      var s' := Step(s, Do(Op.Dequeue(worker, timeout, locked)));
      ClaimKeeps(s, s', id, row, Claim(id, row.attempts, worker, s.now, s.now + timeout));
    }
  }

  lemma DeleteKeeps(s: Sys, id: TaskId)
    requires Inv(s) && id in s.tables.dlq
    ensures Inv(s.(tables := s.tables.(dlq := s.tables.dlq - {id}), deleted := s.deleted + {id}))
  {
    var s' := s.(tables := s.tables.(dlq := s.tables.dlq - {id}), deleted := s.deleted + {id});
    assert s'.tables.dlq.Keys == s.tables.dlq.Keys - {id};
    forall j
      ensures RankedRow(s', j)
    {
      assert RankedRow(s, j);
    }
  }

  lemma StepKeeps(s: Sys, e: Event)
    requires Inv(s) && FreshId(s, e)
    ensures Inv(Step(s, e))
  {
    match e
    case Tick(delta) => TickKeeps(s, delta);
    case Do(Insert(id, env)) =>
      if InsertAccepted(s.tables, id, env) { InsertKeeps(s, id, env); }
    case Do(Dequeue(worker, timeout, locked)) => DequeueKeeps(s, worker, timeout, locked);
    case Do(Update(id, change)) =>
      if id in s.tables.queue {
        ChangeKeepsIdentity(s.tables.queue[id], change);
        UpdateKeeps(s, id, Changed(s.tables.queue[id], change));
      } else {
        assert Step(s, e) == s;
      }
    case Do(ToDlq(id, error)) => MoveKeeps(s, {id}, Failure(error));
    case Do(ExpireOverdue) => MoveKeeps(s, OverdueTtl(s.tables.queue, s.now), TtlExpired);
    case Do(ExpireOverdueApprovals) =>
      MoveKeeps(s, OverdueApproval(s.tables.queue, s.now), ApprovalTtlExpired);
    case Do(DeleteDlq(id)) =>
      if id in s.tables.dlq {
        DeleteKeeps(s, id);
      } else {
        assert s.tables.dlq - {id} == s.tables.dlq;
        assert Step(s, e) == s;
      }
  }

  lemma {:induction false} RunKeeps(s: Sys, es: seq<Event>)
    requires Inv(s) && Legal(s, es)
    ensures Inv(Run(s, es))
    decreases |es|
  {
    if es != [] {
      StepKeeps(s, es[0]);
      RunKeeps(Step(s, es[0]), es[1..]);
    }
  }

  // ---- what it means, over whole runs from an empty database ----

  /** Every id ever accepted is in exactly one of queue, DLQ and operator-deleted, and wherever
      a row is left its envelope is the one that was enqueued. */
  lemma Conservation(es: seq<Event>, id: TaskId)
    requires Legal(EMPTY, es)
    ensures var s := Run(EMPTY, es);
      && (id in s.born <==> id in s.tables.queue || id in s.tables.dlq || id in s.deleted)
      && !(id in s.tables.queue && id in s.tables.dlq)
      && !(id in s.deleted && (id in s.tables.queue || id in s.tables.dlq))
      && (id in s.tables.queue ==> s.tables.queue[id].envelope == s.born[id].envelope)
      && (id in s.tables.dlq ==> s.tables.dlq[id].envelope == s.born[id].envelope)
  {
    RunKeeps(EMPTY, es);
    var s := Run(EMPTY, es);
    assert id in s.born.Keys <==> id in s.tables.queue.Keys + s.tables.dlq.Keys + s.deleted;
  }

  lemma CountGrows(claims: seq<Claim>, j: nat, k: nat, id: TaskId)
    requires j <= k <= |claims|
    ensures Count(claims[..j], id) <= Count(claims[..k], id)
    decreases k - j
  {
    if j < k {
      CountGrows(claims, j, k - 1, id);
      assert claims[..k] == claims[..k - 1] + [claims[k - 1]];
      CountAppend(claims[..k - 1], claims[k - 1], id);
    }
  }

  /** No two claims ever issued share a (task, attempts) pair: later claims have larger numbers. */
  lemma ClaimsAreDistinct(s: Sys, j: nat, k: nat)
    requires Numbered(s) && j < k < |s.claims| && s.claims[j].id == s.claims[k].id
    ensures s.claims[j].attempts < s.claims[k].attempts
  {
    var id := s.claims[j].id;
    assert NumberedAt(s.claims, j) && NumberedAt(s.claims, k);
    assert s.claims[..j + 1] == s.claims[..j] + [s.claims[j]];
    CountAppend(s.claims[..j], s.claims[j], id);
    CountGrows(s.claims, j + 1, k, id);
  }

  lemma ClaimExclusivity(es: seq<Event>, j: nat, k: nat)
    requires Legal(EMPTY, es) && j < k < |Run(EMPTY, es).claims|
    ensures var claims := Run(EMPTY, es).claims;
      (claims[j].id, claims[j].attempts) != (claims[k].id, claims[k].attempts)
  {
    RunKeeps(EMPTY, es);
    var s := Run(EMPTY, es);
    if s.claims[j].id == s.claims[k].id {
      ClaimsAreDistinct(s, j, k);
    }
  }

  /** The attempts column is an exact claim counter, in the queue and in the DLQ, and every claim was
      issued strictly before the envelope's `ttl_seconds`, unless it is zero, had passed since the
      task was enqueued. */
  lemma ClaimsAreCountedAndInTime(es: seq<Event>)
    requires Legal(EMPTY, es)
    ensures var s := Run(EMPTY, es);
      && (forall id :: id in s.tables.queue ==> s.tables.queue[id].attempts == Count(s.claims, id))
      && (forall id :: id in s.tables.dlq ==> s.tables.dlq[id].attempts == Count(s.claims, id))
      && (forall k :: 0 <= k < |s.claims| ==> s.claims[k].id in s.born)
      && (forall k :: 0 <= k < |s.claims| ==>
            var b := s.born[s.claims[k].id];
            match b.envelope.ttlSeconds
            case Some(ttl) => ttl != 0 ==> s.claims[k].issuedAt < b.enqueuedAt + ttl
            case None => true)
  {
    RunKeeps(EMPTY, es);
  }

  lemma LeavingStep(s: Sys, e: Event, id: TaskId)
    requires Inv(s) && FreshId(s, e) && id in s.born && id !in s.tables.queue
    ensures id in Step(s, e).born && id !in Step(s, e).tables.queue
    ensures id in s.deleted ==> id in Step(s, e).deleted
    ensures id in Step(s, e).tables.dlq ==>
              id in s.tables.dlq && Step(s, e).tables.dlq[id] == s.tables.dlq[id]
  {
    match e
    case Tick(_) =>
    case Do(Insert(_, _)) =>
    case Do(Dequeue(_, _, locked)) =>
      if Next(s.tables.queue, s.now, locked).Some? {
        assert IsNext(s.tables.queue, s.now, locked, Next(s.tables.queue, s.now, locked).value);
      }
    case Do(Update(_, _)) =>
    case Do(_) =>
  }

  /** Once out of the queue, nothing brings a task back, and an operator's delete is final. */
  lemma {:induction false} LeavingIsFinal(s: Sys, es: seq<Event>, id: TaskId)
    requires Inv(s) && Legal(s, es) && id in s.born && id !in s.tables.queue
    ensures id in Run(s, es).born && id !in Run(s, es).tables.queue
    ensures id in s.deleted ==> id in Run(s, es).deleted
    ensures id in Run(s, es).tables.dlq ==>
              id in s.tables.dlq && Run(s, es).tables.dlq[id] == s.tables.dlq[id]
    decreases |es|
  {
    if es != [] {
      StepKeeps(s, es[0]);
      LeavingStep(s, es[0], id);
      LeavingIsFinal(Step(s, es[0]), es[1..], id);
    }
  }

  /** What either sweep does to one queued row: moved with its attempts and the reason if it is
      among the overdue, untouched otherwise. */
  ghost predicate SweptOrKept(t: Tables, t': Tables, id: TaskId, overdue: bool, reason: Reason)
    requires id in t.queue
  {
    && (id in t'.queue <==> !overdue)
    && (id in t'.queue ==> t'.queue[id] == t.queue[id] && id !in t'.dlq)
    && (id !in t'.queue ==>
          id in t'.dlq && t'.dlq[id] == DlqEntry(t.queue[id].envelope, t.queue[id].attempts, reason))
  }

  lemma MoveIsExact(t: Tables, ids: set<TaskId>, reason: Reason, id: TaskId)
    requires id in t.queue && id !in t.dlq
    ensures SweptOrKept(t, Move(t, ids, reason), id, id in ids, reason)
  {
  }

  lemma InOneTable(es: seq<Event>, id: TaskId)
    requires Legal(EMPTY, es) && id in Run(EMPTY, es).tables.queue
    ensures var s := Run(EMPTY, es);
      && id !in s.tables.dlq && id in s.born && s.born[id].envelope == s.tables.queue[id].envelope
      && s.tables.queue[id].ttlAt == DueAt(s.born[id])
  {
    RunKeeps(EMPTY, es);
    assert id in Run(EMPTY, es).born.Keys;
  }

  /** The TTL sweep removes exactly the pending and claimed rows whose envelope has a `ttl_seconds`
      other than zero that has passed since they were enqueued; what it leaves it leaves untouched,
      and it never removes a claimable row. */
  lemma TtlSweepIsExact(es: seq<Event>, id: TaskId)
    requires Legal(EMPTY, es) && id in Run(EMPTY, es).tables.queue
    ensures var s := Run(EMPTY, es);
      var row := s.tables.queue[id];
      && id in s.born && s.born[id].envelope == row.envelope
      && var overdue := && (row.status.Pending? || row.status.Claimed?)
                        && match row.envelope.ttlSeconds
                           case Some(ttl) => ttl != 0 && s.now > s.born[id].enqueuedAt + ttl
                           case None => false;
      && SweptOrKept(s.tables, Step(s, Do(ExpireOverdue)).tables, id, overdue, TtlExpired)
      && (overdue ==> !Claimable(row, s.now))
  {
    var s := Run(EMPTY, es);
    InOneTable(es, id);
    MoveIsExact(s.tables, OverdueTtl(s.tables.queue, s.now), TtlExpired, id);
  }

  /** The approval sweep removes exactly the lapsed approvals. */
  lemma ApprovalSweepIsExact(es: seq<Event>, id: TaskId)
    requires Legal(EMPTY, es) && id in Run(EMPTY, es).tables.queue
    ensures var s := Run(EMPTY, es);
      var row := s.tables.queue[id];
      var lapsed := row.status.AwaitingApproval? && row.approvalAt.Some? && row.approvalAt.value < s.now;
      SweptOrKept(s.tables, Step(s, Do(ExpireOverdueApprovals)).tables, id, lapsed, ApprovalTtlExpired)
  {
    var s := Run(EMPTY, es);
    InOneTable(es, id);
    MoveIsExact(s.tables, OverdueApproval(s.tables.queue, s.now), ApprovalTtlExpired, id);
  }

  ghost predicate DoneIn(t: Tables, id: TaskId) {
    id in t.queue && t.queue[id].status.Done?
  }

  /** The events that can take a finished row out of `done`: a nack, a park or a dead-lettering
      of that very id, the three statements whose WHERE clause names only the id. */
  ghost predicate Revives(e: Event, id: TaskId) {
    && e.Do?
    && (|| (e.op.Update? && e.op.id == id && (e.op.change.Nack? || e.op.change.Park?))
        || (e.op.ToDlq? && e.op.deadId == id))
  }

  /** `done` is not terminal under arbitrary interleavings: a finished row stays finished
      exactly under the events that are not one of those three. */
  lemma DoneIsFinalExactlyUnless(s: Sys, e: Event, id: TaskId)
    requires DoneIn(s.tables, id)
    ensures DoneIn(Step(s, e).tables, id) <==> !Revives(e, id)
  {
    match e
    case Tick(_) =>
    case Do(Insert(_, _)) =>
    case Do(Dequeue(_, _, locked)) =>
      if Next(s.tables.queue, s.now, locked).Some? {
        assert IsNext(s.tables.queue, s.now, locked, Next(s.tables.queue, s.now, locked).value);
      }
    case Do(Update(_, _)) =>
    case Do(ToDlq(_, _)) =>
    case Do(_) =>
  }
}
