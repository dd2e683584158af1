/** How long a pending task can be passed over. A failed task is nacked back to its old place in
    the order, so older tasks may overtake again and again; a bound exists all the same. */
module QueueStarvation {
  import opened Options
  import opened TaskTables
  import opened QueueHistory
  import opened QueueWorld

  /** How many more times this row can be claimed. */
  function Weight(cfg: Config, w: World, id: TaskId): nat {
    if id !in w.sys.tables.queue then 0
    else
      var row := w.sys.tables.queue[id];
      if (row.status.Pending? || row.status.Claimed?) && !Expired(row, w.sys.now)
         && row.attempts < Tries(cfg, row.envelope)
      then Tries(cfg, row.envelope) - row.attempts
      else 0
  }

  /** The claims that the first `n` tasks ever inserted can still cause. */
  function Debt(cfg: Config, w: World, n: nat): nat
    requires n <= |w.sys.order|
  {
    if n == 0 then 0 else Debt(cfg, w, n - 1) + Weight(cfg, w, w.sys.order[n - 1])
  }

  ghost predicate Waiting(w: World, id: TaskId) {
    && id in w.sys.tables.queue
    && w.sys.tables.queue[id].status.Pending?
    && !Expired(w.sys.tables.queue[id], w.sys.now)
  }

  /** The task this event claims, if it is a dequeue that finds one. */
  ghost function Claimed(w: World, e: WorldEvent): Option<TaskId> {
    if e.Take? then Next(w.sys.tables.queue, w.sys.now, {}) else None
  }

  ghost function Claims(cfg: Config, w: World, es: seq<WorldEvent>): nat
    requires Feasible(cfg, w, es)
    decreases |es|
  {
    if es == [] then 0
    else (if Claimed(w, es[0]).Some? then 1 else 0) + Claims(cfg, After(cfg, w, es[0]), es[1..])
  }

  /** Somewhere along the run the task is claimed, or its deadline passes. */
  ghost predicate ClaimedOrExpired(cfg: Config, w: World, es: seq<WorldEvent>, id: TaskId)
    requires Feasible(cfg, w, es)
    decreases |es|
  {
    es != [] &&
    var w' := After(cfg, w, es[0]);
    || Claimed(w, es[0]) == Some(id)
    || (id in w'.sys.tables.queue && Expired(w'.sys.tables.queue[id], w'.sys.now))
    || ClaimedOrExpired(cfg, w', es[1..], id)
  }

  // ---- one event ----

  /** The event names this task. */
  ghost predicate Concerns(w: World, e: WorldEvent, id: TaskId) {
    || Claimed(w, e) == Some(id)
    || (e.Submit? && e.id == id)
    || (e.Settle? && w.hand.Some? && w.hand.value.id == id)
    || (e.Verdict? && e.id == id)
  }

  /** A row no event names is left as it is, or swept away once overdue. */
  lemma RowUntouched(cfg: Config, w: World, e: WorldEvent, id: TaskId)
    requires Enabled(w, e) && !Concerns(w, e, id)
    ensures var q, q' := w.sys.tables.queue, After(cfg, w, e).sys.tables.queue;
      && (id in q' ==> id in q && q'[id] == q[id])
      && (id in q && id !in q' ==>
            || (e.SweepTtl? && id in OverdueTtl(q, w.sys.now))
            || (e.SweepApprovals? && id in OverdueApproval(q, w.sys.now)))
    ensures After(cfg, w, e).sys.now >= w.sys.now
  {
    match e
    case Take(worker, timeout) =>
      if Claimed(w, e).Some? && Claimed(w, e).value in w.sys.tables.queue {
        TakeViews(cfg, w, worker, timeout, Claimed(w, e).value);
      }
    case _ =>
  }

  /** Only a claim of the task itself, or its deadline, ends the wait. */
  lemma WaitGoesOn(cfg: Config, w: World, e: WorldEvent, id: TaskId)
    requires WorldInv(cfg, w) && Enabled(w, e) && Waiting(w, id) && Claimed(w, e) != Some(id)
    ensures var w' := After(cfg, w, e);
      && id in w'.sys.tables.queue
      && w'.sys.tables.queue[id] == w.sys.tables.queue[id]
      && (Waiting(w', id) || Expired(w'.sys.tables.queue[id], w'.sys.now))
  {
    assert GoodAt(cfg, w, id);
    assert id in w.sys.born;
    if e.Verdict? && e.id == id {
      assert After(cfg, w, e) == w;
    } else {
      RowUntouched(cfg, w, e, id);
    }
  }

  /** A claim costs the claimed task one of its attempts. */
  lemma ClaimCosts(cfg: Config, w: World, e: WorldEvent, id: TaskId)
    requires WorldInv(cfg, w) && Enabled(w, e) && Claimed(w, e) == Some(id)
    ensures Weight(cfg, After(cfg, w, e), id) + 1 == Weight(cfg, w, id)
    ensures forall j :: j != id ==> Weight(cfg, After(cfg, w, e), j) == Weight(cfg, w, j)
  {
    assert IsNext(w.sys.tables.queue, w.sys.now, {}, id);
    assert GoodAt(cfg, w, id);
    TakeViews(cfg, w, e.worker, e.timeout, id);
    forall j | j != id
      ensures Weight(cfg, After(cfg, w, e), j) == Weight(cfg, w, j)
    {
      assert Alike(w, After(cfg, w, e), j);
    }
  }

  /** Time and sweeps only take weight away. */
  lemma WeightOfSameRow(cfg: Config, w: World, w': World, id: TaskId)
    requires w'.sys.now >= w.sys.now
    requires id in w'.sys.tables.queue ==>
      id in w.sys.tables.queue && w'.sys.tables.queue[id] == w.sys.tables.queue[id]
    ensures Weight(cfg, w', id) <= Weight(cfg, w, id)
  {
  }

  lemma WeightOfSettled(cfg: Config, w: World, outcome: Outcome, id: TaskId)
    requires w.hand.Some? && w.hand.value.id == id
    requires id in w.sys.tables.queue && id !in w.sys.tables.dlq && w.sys.tables.queue[id].status.Claimed?
    ensures Weight(cfg, After(cfg, w, Settle(outcome)), id) <= Weight(cfg, w, id)
  {
    SettleViews(cfg, w, outcome, id);
    var w' := After(cfg, w, Settle(outcome));
    assert ViewOf(w', id).row == Settled(cfg, w.sys.tables.queue[id], w.hand.value, outcome, w.sys.now).0;
  }

  lemma WeightOfDecided(cfg: Config, w: World, id: TaskId, resumed: Resumed)
    requires ThreadOf(w, id).Paused?
    requires id in w.sys.tables.queue ==> w.sys.tables.queue[id].status.AwaitingApproval?
    ensures Weight(cfg, After(cfg, w, Verdict(id, resumed)), id) == 0
  {
    VerdictViews(cfg, w, id, resumed);
    var w' := After(cfg, w, Verdict(id, resumed));
    assert ViewOf(w', id).row == Decided(cfg, ViewOf(w, id).row, resumed, w.sys.now);
  }

  /** No other event makes an already inserted task claimable more often than before. */
  lemma NothingElseAdds(cfg: Config, w: World, e: WorldEvent, id: TaskId)
    requires WorldInv(cfg, w) && Enabled(w, e) && Claimed(w, e).None? && id in w.sys.born
    ensures Weight(cfg, After(cfg, w, e), id) <= Weight(cfg, w, id)
  {
    assert GoodAt(cfg, w, id);
    if !Concerns(w, e, id) {
      RowUntouched(cfg, w, e, id);
      WeightOfSameRow(cfg, w, After(cfg, w, e), id);
    } else if e.Settle? {
      assert id in w.sys.tables.queue && id !in w.sys.tables.dlq;
      WeightOfSettled(cfg, w, e.outcome, id);
    } else if ThreadOf(w, id).Paused? {
      WeightOfDecided(cfg, w, id, e.resumed);
    } else {
      assert After(cfg, w, e) == w;
    }
  }

  lemma OrderGrows(cfg: Config, w: World, e: WorldEvent)
    requires Enabled(w, e)
    ensures w.sys.order <= After(cfg, w, e).sys.order
  {
  }

  /** Sums compare pointwise; one strictly smaller summand makes the sum strictly smaller. */
  lemma {:induction false} DebtDrops(cfg: Config, w: World, w': World, n: nat, cheaper: int)
    requires n <= |w.sys.order| && w.sys.order <= w'.sys.order
    requires forall i :: 0 <= i < n ==>
      Weight(cfg, w', w.sys.order[i]) + (if i == cheaper then 1 else 0) <= Weight(cfg, w, w.sys.order[i])
    ensures Debt(cfg, w', n) + (if 0 <= cheaper < n then 1 else 0) <= Debt(cfg, w, n)
  {
    if n > 0 {
      assert w'.sys.order[n - 1] == w.sys.order[n - 1];
      DebtDrops(cfg, w, w', n - 1, cheaper);
    }
  }

  /** While a task waits, every event leaves the older tasks' debt no larger, and every claim of
      another task, which is then an older one, strictly lowers it. */
  lemma DebtIsPaid(cfg: Config, w: World, e: WorldEvent, id: TaskId)
    requires WorldInv(cfg, w) && Enabled(w, e) && Waiting(w, id) && Claimed(w, e) != Some(id)
    requires RankedRow(w.sys, id)
    ensures var n := w.sys.tables.queue[id].createdAt; var w' := After(cfg, w, e);
      && n <= |w'.sys.order|
      && Debt(cfg, w', n) + (if Claimed(w, e).Some? then 1 else 0) <= Debt(cfg, w, n)
  {
    var n := w.sys.tables.queue[id].createdAt;
    var w' := After(cfg, w, e);
    OrderGrows(cfg, w, e);
    if Claimed(w, e).Some? {
      var other := Claimed(w, e).value;
      assert IsNext(w.sys.tables.queue, w.sys.now, {}, other);
      assert RankedRow(w.sys, other);
      var at := w.sys.tables.queue[other].createdAt;
      assert at <= n && w.sys.order[at] == other;
      RanksAreDistinct(w.sys);
      ClaimCosts(cfg, w, e, other);
      DebtDrops(cfg, w, w', n, at);
    } else {
      forall i | 0 <= i < n
        ensures Weight(cfg, w', w.sys.order[i]) <= Weight(cfg, w, w.sys.order[i])
      {
        assert w.sys.order[i] in w.sys.born.Keys;
        NothingElseAdds(cfg, w, e, w.sys.order[i]);
      }
      DebtDrops(cfg, w, w', n, -1);
    }
  }

  // ---- whole runs ----

  /** A waiting task is claimed, or its deadline passes, within `Debt` + 1 successful dequeues,
      whatever is submitted, approved, failed and retried meanwhile. The debt counts only tasks
      inserted before it, each with the attempts it has left. */
  lemma {:induction false} NoStarvation(cfg: Config, w: World, es: seq<WorldEvent>, id: TaskId)
    requires WorldInv(cfg, w) && Feasible(cfg, w, es) && Waiting(w, id)
    ensures var older := w.sys.tables.queue[id].createdAt;
      && older < |w.sys.order|
      && (Claims(cfg, w, es) > Debt(cfg, w, older) ==> ClaimedOrExpired(cfg, w, es, id))
    decreases |es|
  {
    assert RankedRow(w.sys, id);
    if es != [] && !ClaimedOrExpired(cfg, w, es, id) {
      var w' := After(cfg, w, es[0]);
      EventKeeps(cfg, w, es[0]);
      WaitGoesOn(cfg, w, es[0], id);
      assert RankedRow(w.sys, id) && RankedRow(w'.sys, id);
      DebtIsPaid(cfg, w, es[0], id);
      NoStarvation(cfg, w', es[1..], id);
    }
  }

  /** What the wait ends with: the run splits at an event that claims the task, or after which its
      deadline has passed. */
  ghost predicate EndsWait(cfg: Config, w: World, before: seq<WorldEvent>, e: WorldEvent, id: TaskId) {
    && Feasible(cfg, w, before) && Enabled(Final(cfg, w, before), e)
    && var at := Final(cfg, w, before);
    || (e.Take? && Next(at.sys.tables.queue, at.sys.now, {}) == Some(id))
    || (var q := After(cfg, at, e).sys.tables.queue;
        id in q && q[id].ttlAt.Some? && q[id].ttlAt.value <= After(cfg, at, e).sys.now)
  }

  lemma {:induction false} ClaimedOrExpiredAtSomeEvent(cfg: Config, w: World, es: seq<WorldEvent>, id: TaskId)
    requires Feasible(cfg, w, es) && ClaimedOrExpired(cfg, w, es, id)
    ensures exists before, e, after :: es == before + [e] + after && EndsWait(cfg, w, before, e, id)
    decreases |es|
  {
    var w' := After(cfg, w, es[0]);
    if !ClaimedOrExpired(cfg, w', es[1..], id) {
      assert es == [] + [es[0]] + es[1..] && EndsWait(cfg, w, [], es[0], id);
    } else {
      ClaimedOrExpiredAtSomeEvent(cfg, w', es[1..], id);
      var before, e, after :| es[1..] == before + [e] + after && EndsWait(cfg, w', before, e, id);
      var longer := [es[0]] + before;
      assert longer[1..] == before && es == longer + [e] + after;
      assert EndsWait(cfg, w, longer, e, id);
    }
  }

  /** An older task's share of the debt, in the policy's own terms: the attempts its `max_attempts`,
      or the default, leaves it, one if that is below one; and none once it is parked, done, expired
      or gone. */
  lemma WeightIsAttemptsLeft(cfg: Config, w: World, id: TaskId, n: int)
    requires id in w.sys.tables.queue ==>
      match w.sys.tables.queue[id].envelope.maxAttempts
      case Some(own) => n == own
      case None => n == cfg.defaultMaxAttempts
    ensures Weight(cfg, w, id) > 0 ==>
      && id in w.sys.tables.queue
      && var row := w.sys.tables.queue[id];
      && (row.status.Pending? || row.status.Claimed?)
      && (row.ttlAt.Some? ==> w.sys.now < row.ttlAt.value)
      && row.attempts + Weight(cfg, w, id) == if n >= 1 then n else 1
  {
  }

  /** The bound in the task's own terms: older tasks number `createdAt`, each claimed at most
      `Tries` times. */
  lemma {:induction false} DebtIsBounded(cfg: Config, w: World, n: nat, most: nat)
    requires n <= |w.sys.order|
    requires forall id :: id in w.sys.tables.queue ==> Tries(cfg, w.sys.tables.queue[id].envelope) <= most
    ensures Debt(cfg, w, n) <= n * most
  {
    if n > 0 {
      DebtIsBounded(cfg, w, n - 1, most);
      assert n * most == (n - 1) * most + most;
    }
  }

  /** A free worker never idles past a waiting task: its next dequeue claims a task at least as
      old as the waiting one. */
  lemma DequeueSucceeds(cfg: Config, w: World, worker: string, timeout: int, id: TaskId)
    requires WorldInv(cfg, w) && w.hand.None? && Waiting(w, id)
    ensures Claimed(w, Take(worker, timeout)).Some?
    ensures var other := Claimed(w, Take(worker, timeout)).value; var q := w.sys.tables.queue;
      other in q && q[other].createdAt <= q[id].createdAt
  {
    RanksAreDistinct(w.sys);
    NextIsTheOldest(w.sys.tables.queue, w.sys.now, {});
    assert Claimable(w.sys.tables.queue[id], w.sys.now);
  }
}
