/** No task is ever stranded: whatever statements ran before, in whatever order, every unfinished
    row can still be claimed, or becomes claimable or sweepable by the passing of time alone. A
    worker that crashed with a claim in hand is the case that matters. */
module QueueProgress {
  import opened Options
  import opened TaskTables
  import opened QueueHistory

  /** The columns that go with a status: a pending row carries nothing of an earlier claim, a
      claimed one has a holder and a visibility deadline, a parked one an approval deadline. */
  predicate Shaped(row: Row) {
    match row.status
    case Pending => row.claimedBy.None? && row.claimedAt.None? && row.visibilityAt.None?
    case Claimed => row.claimedBy.Some? && row.claimedAt.Some? && row.visibilityAt.Some?
    case AwaitingApproval => row.approvalAt.Some?
    case Done => true
  }

  predicate AllShaped(s: Sys) {
    forall id :: id in s.tables.queue ==> Shaped(s.tables.queue[id])
  }

  lemma StepKeepsShape(s: Sys, e: Event)
    requires AllShaped(s)
    ensures AllShaped(Step(s, e))
  {
    match e
    case Tick(_) =>
    case Do(Insert(_, _)) =>
    case Do(Dequeue(_, _, locked)) =>
      if Next(s.tables.queue, s.now, locked).Some? {
        assert IsNext(s.tables.queue, s.now, locked, Next(s.tables.queue, s.now, locked).value);
      }
    case Do(Update(id, change)) =>
      if id in s.tables.queue {
        ChangeKeepsShape(s.tables.queue[id], change);
      }
    case Do(_) =>
  }

  lemma ChangeKeepsShape(row: Row, change: Change)
    requires Shaped(row)
    ensures Shaped(Changed(row, change))
  {
  }

  lemma {:induction false} RunKeepsShape(s: Sys, es: seq<Event>)
    requires AllShaped(s)
    ensures AllShaped(Run(s, es))
    decreases |es|
  {
    if es != [] {
      StepKeepsShape(s, es[0]);
      RunKeepsShape(Step(s, es[0]), es[1..]);
    }
  }

  /** After any run, at every time past all the deadlines an unfinished row carries some statement
      would take it on: a dequeue or one of the two sweeps. A pending one is taken on at every time
      but the instant of its deadline, where the dequeue no longer and the sweep not yet looks at it.
      Finished rows are taken on by nothing, ever. */
  lemma NothingIsStranded(es: seq<Event>, id: TaskId, now: Time)
    requires id in Run(EMPTY, es).tables.queue
    ensures var queue := Run(EMPTY, es).tables.queue; var row := queue[id];
      var moving := Claimable(row, now) || id in OverdueTtl(queue, now) || id in OverdueApproval(queue, now);
      && ((&& !row.status.Done?
           && (row.ttlAt.Some? ==> now > row.ttlAt.value)
           && (row.visibilityAt.Some? ==> now > row.visibilityAt.value)
           && (row.approvalAt.Some? ==> now > row.approvalAt.value)) ==> moving)
      && (row.status.Pending? ==> (moving <==> row.ttlAt != Some(now)))
      && (row.status.Done? ==> !moving)
  {
    RunKeepsShape(EMPTY, es);
  }
}
