/** Verdicts after the row moved on: a resume looks at the checkpointer alone, so an approval that
    expired can still be executed; and a resume that raised leaves its row to the sweep. */
module LateVerdicts {
  import opened Options
  import opened TaskTables
  import opened QueueHistory
  import opened QueueWorld
  import opened QueueStarvation
  import opened QueueTimers

  ghost predicate ApprovalExpired(w: World, id: TaskId) {
    id in w.sys.tables.dlq && w.sys.tables.dlq[id].lastError == ApprovalTtlExpired
  }

  lemma ReachableIsGood(cfg: Config, w: World)
    requires Reachable(cfg, START, w)
    ensures WorldInv(cfg, w)
  {
    var es :| EndsIn(cfg, START, es, w);
    StartIsGood(cfg);
    FinalKeeps(cfg, START, es);
  }

  lemma Now(cfg: Config, w: World, e: WorldEvent) returns (w': World)
    requires Reachable(cfg, START, w) && Enabled(w, e)
    ensures w' == After(cfg, w, e) && Reachable(cfg, START, w')
  {
    OneMore(cfg, START, w, e);
    w' := After(cfg, w, e);
  }

  // ---- executing what has expired ----

  lemma AfterRepark(cfg: Config, w: World, id: TaskId)
    requires ThreadOf(w, id).Paused? && id in w.sys.tables.queue
    ensures var w' := After(cfg, w, Verdict(id, StillPaused)); var q := w'.sys.tables.queue;
      && ThreadOf(w', id).Paused? && w'.hand == w.hand && w'.sys.now == w.sys.now && id in q
      && q[id].status.AwaitingApproval? && q[id].approvalAt == Some(w.sys.now + cfg.approvalTtlSeconds)
      && w'.sys.tables.dlq == w.sys.tables.dlq
  {
  }

  lemma AfterLapse(cfg: Config, w: World, id: TaskId, delta: nat)
    requires w.hand.None? && id in w.sys.tables.queue && id !in w.sys.tables.dlq && ThreadOf(w, id).Paused?
    requires w.sys.tables.queue[id].status.AwaitingApproval? && w.sys.tables.queue[id].approvalAt.Some?
    requires w.sys.now + delta > w.sys.tables.queue[id].approvalAt.value
    ensures var w' := After(cfg, After(cfg, w, Pass(delta)), SweepApprovals);
      ApprovalExpired(w', id) && ThreadOf(w', id).Paused? && id !in w'.sys.tables.queue
  {
  }

  lemma AfterLateVerdicts(cfg: Config, w: World, id: TaskId)
    requires ApprovalExpired(w, id) && id !in w.sys.tables.queue && ThreadOf(w, id).Paused?
    ensures forall resumed :: var w' := After(cfg, w, Verdict(id, resumed));
      ApprovalExpired(w', id) && id !in w'.sys.tables.queue && ThreadOf(w', id) == ResumedThread(resumed)
  {
  }

  /** From any reachable world in which a task is parked, another world is reachable in which its
      approval has expired and its thread has run to the end all the same. */
  lemma ExpiredApprovalsExecute(cfg: Config, w: World, id: TaskId, output: Option<string>)
    returns (w': World)
    requires Reachable(cfg, START, w) && w.hand.None?
    requires ThreadOf(w, id).Paused? && id in w.sys.tables.queue
    ensures Reachable(cfg, START, w')
    ensures ApprovalExpired(w', id) && ThreadOf(w', id) == Finished(output)
  {
    ReachableIsGood(cfg, w);
    PausedRow(cfg, w, id);
    AfterRepark(cfg, w, id);
    var delta := if cfg.approvalTtlSeconds >= 0 then cfg.approvalTtlSeconds + 1 else 0;
    var w1 := Now(cfg, w, Verdict(id, StillPaused));
    AfterLapse(cfg, w1, id, delta);
    var w2 := Now(cfg, w1, Pass(delta));
    var w3 := Now(cfg, w2, SweepApprovals);
    AfterLateVerdicts(cfg, w3, id);
    w' := Now(cfg, w3, Verdict(id, RanOut(output)));
  }

  /** Such worlds exist: one submission, one claim, one interrupt. */
  lemma SomeTaskGetsParked(cfg: Config, id: TaskId, env: Envelope, request: string) returns (w: World)
    requires !HasTtl(env)
    ensures Reachable(cfg, START, w) && w.hand.None?
    ensures ThreadOf(w, id).Paused? && id in w.sys.tables.queue
  {
    assert EndsIn(cfg, START, [], START);
    var w1 := Now(cfg, START, Submit(id, env));
    OnlyRow(cfg, id, env);
    var w2 := Now(cfg, w1, Take("worker", 300));
    assert w2.hand.Some? && w2.hand.value.id == id && id in w2.sys.tables.queue;
    AfterInterrupt(cfg, w2, request);
    w := Now(cfg, w2, Settle(Suspended(request)));
  }

  lemma OnlyRow(cfg: Config, id: TaskId, env: Envelope)
    requires !HasTtl(env)
    ensures var w := After(cfg, START, Submit(id, env));
      && w.hand.None? && w.sys.tables.queue.Keys == {id} && w.sys.tables.dlq == map[]
      && Next(w.sys.tables.queue, w.sys.now, {}) == Some(id)
  {
    var w := After(cfg, START, Submit(id, env));
    assert InsertAccepted(START.sys.tables, id, env);
    assert w.sys.tables.queue == map[id := FreshRow(env, 0, 0)];
    NextIsTheOldest(w.sys.tables.queue, w.sys.now, {});
    assert IsNext(w.sys.tables.queue, w.sys.now, {}, id);
  }

  lemma AfterInterrupt(cfg: Config, w: World, request: string)
    requires w.hand.Some? && w.hand.value.id in w.sys.tables.queue
    ensures var w' := After(cfg, w, Settle(Suspended(request))); var id := w.hand.value.id;
      && w'.hand.None? && ThreadOf(w', id).Paused? && id in w'.sys.tables.queue
      && w'.sys.tables.queue[id].status.AwaitingApproval? && w'.sys.tables.queue[id].approvalAt.Some?
      && w'.sys.tables.dlq == w.sys.tables.dlq
  {
  }

  /** When it happens: for a task whose approval has expired, a verdict runs the thread to the output
      it yields exactly while the thread is paused. The tables have no say, and are not changed. */
  lemma ExpiredRunsExactlyWhilePaused(cfg: Config, w: World, id: TaskId, resumed: Resumed)
    requires Reachable(cfg, START, w) && ApprovalExpired(w, id)
    ensures After(cfg, w, Verdict(id, resumed)).sys == w.sys
    ensures ThreadOf(w, id).Paused? ==> ThreadOf(After(cfg, w, Verdict(id, resumed)), id) == ResumedThread(resumed)
    ensures !ThreadOf(w, id).Paused? ==> After(cfg, w, Verdict(id, resumed)) == w
  {
    ReachableIsGood(cfg, w);
    assert id !in w.sys.tables.queue;
    assert w.sys.tables == w.sys.tables.(queue := w.sys.tables.queue);
  }

  // ---- resumes that raised ----

  /** No verdict along the way raised in a way that hides the interrupt. */
  predicate NoneBreaks(es: seq<WorldEvent>) {
    forall i :: 0 <= i < |es| && es[i].Verdict? ==> es[i].resumed != Crashed(false)
  }

  ghost predicate NoneBroken(w: World) {
    forall id :: !ThreadOf(w, id).Broken?
  }

  lemma {:induction false} UnbrokenRuns(cfg: Config, w: World, es: seq<WorldEvent>)
    requires Feasible(cfg, w, es) && NoneBreaks(es) && NoneBroken(w)
    ensures NoneBroken(Final(cfg, w, es))
    decreases |es|
  {
    if es != [] {
      var w' := After(cfg, w, es[0]);
      forall id
        ensures !ThreadOf(w', id).Broken?
      {
        assert !ThreadOf(w, id).Broken?;
      }
      UnbrokenRuns(cfg, w', es[1..]);
    }
  }

  /** Without such a verdict the coupling is strict: a parked row always has a paused thread. */
  lemma ParkedMeansPaused(cfg: Config, es: seq<WorldEvent>, id: TaskId)
    requires Feasible(cfg, START, es) && NoneBreaks(es)
    ensures var w := Final(cfg, START, es); var q := w.sys.tables.queue;
      id in q && q[id].status.AwaitingApproval? ==> ThreadOf(w, id).Paused?
  {
    QueueGraphCoupling(cfg, es, id);
    UnbrokenRuns(cfg, START, es);
  }

  lemma ThreadUntouched(cfg: Config, w: World, e: WorldEvent, id: TaskId)
    requires Enabled(w, e) && !Concerns(w, e, id)
    ensures ThreadOf(After(cfg, w, e), id) == ThreadOf(w, id)
    ensures OutcomesOf(After(cfg, w, e), id) == OutcomesOf(w, id)
  {
  }

  lemma NextIsClaimable(queue: map<TaskId, Row>, now: Time)
    ensures var next := Next(queue, now, {});
      next.Some? ==> next.value in queue && Claimable(queue[next.value], now)
  {
    if Next(queue, now, {}).Some? {
      assert IsNext(queue, now, {}, Next(queue, now, {}).value);
    }
  }

  /** The only event that names a broken task and can happen is a verdict, which is refused. */
  lemma BrokenIsNamedByVerdictsOnly(cfg: Config, w: World, e: WorldEvent, id: TaskId)
    requires WorldInv(cfg, w) && Enabled(w, e) && ThreadOf(w, id).Broken?
    ensures Concerns(w, e, id) ==> After(cfg, w, e) == w
    ensures id in w.sys.tables.queue ==> w.sys.tables.queue[id].status.AwaitingApproval?
  {
    assert GoodAt(cfg, w, id);
    NextIsClaimable(w.sys.tables.queue, w.sys.now);
  }

  lemma BrokenStep(cfg: Config, w: World, e: WorldEvent, id: TaskId)
    requires WorldInv(cfg, w) && Enabled(w, e) && ThreadOf(w, id).Broken?
    ensures var w' := After(cfg, w, e); var q, q' := w.sys.tables.queue, w'.sys.tables.queue;
      && ThreadOf(w', id).Broken? && OutcomesOf(w', id) == OutcomesOf(w, id)
      && (id in q' ==> id in q && q'[id] == q[id])
  {
    BrokenIsNamedByVerdictsOnly(cfg, w, e, id);
    if !Concerns(w, e, id) {
      RowUntouched(cfg, w, e, id);
      ThreadUntouched(cfg, w, e, id);
    }
  }

  /** A task whose resume broke it runs no more and is not resolved: its row stays as it was parked
      until the approval sweep takes it, and nothing else does. */
  lemma {:induction false} BrokenIsLeftToTheSweep(cfg: Config, w: World, es: seq<WorldEvent>, id: TaskId)
    requires WorldInv(cfg, w) && Feasible(cfg, w, es)
    requires ThreadOf(w, id).Broken? && id in w.sys.tables.queue
    ensures var w' := Final(cfg, w, es);
      && ThreadOf(w', id).Broken? && OutcomesOf(w', id) == OutcomesOf(w, id)
      && (id in w'.sys.tables.queue ==> w'.sys.tables.queue[id] == w.sys.tables.queue[id])
      && (id !in w'.sys.tables.queue ==> ApprovalExpired(w', id) || id in w'.sys.deleted)
    decreases |es|
  {
    if es != [] {
      var w' := After(cfg, w, es[0]);
      EventKeeps(cfg, w, es[0]);
      BrokenStep(cfg, w, es[0], id);
      if id in w'.sys.tables.queue {
        BrokenIsLeftToTheSweep(cfg, w', es[1..], id);
      } else {
        GoneIsExpired(cfg, w', es[1..], id);
      }
    }
  }

  lemma {:induction false} GoneIsExpired(cfg: Config, w: World, es: seq<WorldEvent>, id: TaskId)
    requires WorldInv(cfg, w) && Feasible(cfg, w, es)
    requires ThreadOf(w, id).Broken? && id !in w.sys.tables.queue
    ensures var w' := Final(cfg, w, es);
      && ThreadOf(w', id).Broken? && OutcomesOf(w', id) == OutcomesOf(w, id)
      && id !in w'.sys.tables.queue && (ApprovalExpired(w', id) || id in w'.sys.deleted)
    decreases |es|
  {
    assert GoodAt(cfg, w, id);
    if es != [] {
      EventKeeps(cfg, w, es[0]);
      BrokenStep(cfg, w, es[0], id);
      GoneIsExpired(cfg, After(cfg, w, es[0]), es[1..], id);
    }
  }
}
