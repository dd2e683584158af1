/** How long a parked task waits for a verdict, from the event that parks it to the sweep that
    notices. */
module QueueTimers {
  import opened Options
  import opened TaskTables
  import opened QueueHistory
  import opened QueueWorld

  /** A zero `ttl_seconds` is no TTL. */
  predicate HasTtl(env: Envelope) {
    env.ttlSeconds.Some? && env.ttlSeconds.value != 0
  }

  /** `delta` later the approval sweep dead-letters this task. */
  ghost predicate LapsesAfter(cfg: Config, w: World, id: TaskId, delta: nat)
    requires w.hand.None?
  {
    id in After(cfg, After(cfg, w, Pass(delta)), SweepApprovals).sys.tables.dlq
  }

  lemma ParkedRowLapses(cfg: Config, w: World, id: TaskId, delta: nat)
    requires w.hand.None? && id in w.sys.tables.queue && id !in w.sys.tables.dlq
    requires w.sys.tables.queue[id].status.AwaitingApproval? && w.sys.tables.queue[id].approvalAt.Some?
    ensures LapsesAfter(cfg, w, id, delta)
      <==> w.sys.now + delta > w.sys.tables.queue[id].approvalAt.value
  {
  }

  lemma HeldRow(cfg: Config, w: World)
    requires WorldInv(cfg, w) && w.hand.Some?
    ensures w.hand.value.id in w.sys.tables.queue && w.hand.value.id !in w.sys.tables.dlq
  {
    assert GoodAt(cfg, w, w.hand.value.id);
  }

  lemma PausedRow(cfg: Config, w: World, id: TaskId)
    requires WorldInv(cfg, w) && ThreadOf(w, id).Paused? && id in w.sys.tables.queue
    ensures w.sys.tables.queue[id].status.AwaitingApproval? && id !in w.sys.tables.dlq
  {
    assert GoodAt(cfg, w, id);
  }

  /** From the run that stopped at the interrupt, the approval sweep waits for the envelope's own
      `ttl_seconds` if it has one and for the cluster's approval TTL otherwise. */
  lemma ParkLapsesExactly(cfg: Config, es: seq<WorldEvent>, request: string, delta: nat)
    requires Feasible(cfg, START, es) && Final(cfg, START, es).hand.Some?
    ensures var w := Final(cfg, START, es); var claim := w.hand.value;
      LapsesAfter(cfg, After(cfg, w, Settle(Suspended(request))), claim.id, delta)
      <==> delta > if HasTtl(claim.envelope) then claim.envelope.ttlSeconds.value else cfg.approvalTtlSeconds
  {
    var w := Final(cfg, START, es);
    assert WorldInv(cfg, w) by {
      StartIsGood(cfg);
      FinalKeeps(cfg, START, es);
    }
    HeldRow(cfg, w);
    ParkedRowLapses(cfg, After(cfg, w, Settle(Suspended(request))), w.hand.value.id, delta);
  }

  /** From a defer, or the first of two confirmations, it waits for the cluster's approval TTL,
      whatever the envelope says. */
  lemma ReparkLapsesExactly(cfg: Config, es: seq<WorldEvent>, id: TaskId, delta: nat)
    requires Feasible(cfg, START, es) && Final(cfg, START, es).hand.None?
    requires var w := Final(cfg, START, es); ThreadOf(w, id).Paused? && id in w.sys.tables.queue
    ensures LapsesAfter(cfg, After(cfg, Final(cfg, START, es), Verdict(id, StillPaused)), id, delta)
      <==> delta > cfg.approvalTtlSeconds
  {
    var w := Final(cfg, START, es);
    assert WorldInv(cfg, w) by {
      StartIsGood(cfg);
      FinalKeeps(cfg, START, es);
    }
    PausedRow(cfg, w, id);
    ParkedRowLapses(cfg, After(cfg, w, Verdict(id, StillPaused)), id, delta);
  }
}
