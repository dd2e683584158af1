/** Between the end of a graph run and the statement that records it on the row
    (src/agents/queue/worker.py:348-368) others may act. They do no harm, except a verdict on that
    very task. */
module QueueRace {
  import opened Options
  import opened TaskTables
  import opened QueueHistory
  import opened QueueWorld

  /** What may happen beside the worker: submissions, verdicts, operator deletes, and time. */
  predicate Outside(e: WorldEvent) {
    e.Pass? || e.Submit? || e.Discard? || e.Verdict?
  }

  ghost predicate CanHappen(cfg: Config, w: World, es: seq<WorldEvent>) {
    Feasible(cfg, w, es) && forall i :: 0 <= i < |es| ==> Outside(es[i])
  }

  ghost function Happened(cfg: Config, w: World, es: seq<WorldEvent>): (w': World)
    requires CanHappen(cfg, w, es)
    ensures w'.hand == w.hand
    decreases |es|
  {
    if es == [] then w
    else
      assert Outside(es[0]);
      Happened(cfg, After(cfg, w, es[0]), es[1..])
  }

  /** The graph run has ended; the row does not know yet. */
  ghost function Ran(w: World, outcome: Outcome): World
    requires w.hand.Some?
  {
    var id := w.hand.value.id;
    w.(threads := w.threads[id := ThreadAfter(outcome)],
       outcomes := w.outcomes[id := OutcomesOf(w, id) + [outcome]])
  }

  /** The row learns how the run ended. */
  ghost function Recorded(cfg: Config, w: World, outcome: Outcome): World
    requires w.hand.Some?
  {
    w.(sys := Step(w.sys, Do(SettleOp(cfg, w.hand.value, outcome, w.sys.now))), hand := None)
  }

  lemma SettledIsRanAndRecorded(cfg: Config, w: World, outcome: Outcome)
    requires w.hand.Some?
    ensures After(cfg, w, Settle(outcome)) == Recorded(cfg, Ran(w, outcome), outcome)
  {
  }

  predicate SparesTask(es: seq<WorldEvent>, id: TaskId) {
    forall i :: 0 <= i < |es| && es[i].Verdict? ==> es[i].id != id
  }

  lemma OneCommutes(cfg: Config, w: World, outcome: Outcome, e: WorldEvent)
    requires w.hand.Some? && Outside(e) && Enabled(w, e)
    requires e.Verdict? ==> e.id != w.hand.value.id
    ensures Enabled(Ran(w, outcome), e)
    ensures After(cfg, Ran(w, outcome), e) == Ran(After(cfg, w, e), outcome)
  {
    if e.Verdict? {
      var id := w.hand.value.id;
      assert ThreadOf(Ran(w, outcome), e.id) == ThreadOf(w, e.id);
      var t := ResumedThread(e.resumed);
      assert w.threads[id := ThreadAfter(outcome)][e.id := t] == w.threads[e.id := t][id := ThreadAfter(outcome)];
    }
  }

  lemma {:induction false} AllCommute(cfg: Config, w: World, outcome: Outcome, es: seq<WorldEvent>)
    requires w.hand.Some? && CanHappen(cfg, w, es) && SparesTask(es, w.hand.value.id)
    ensures CanHappen(cfg, Ran(w, outcome), es)
    ensures Happened(cfg, Ran(w, outcome), es) == Ran(Happened(cfg, w, es), outcome)
    decreases |es|
  {
    if es != [] {
      assert Outside(es[0]);
      OneCommutes(cfg, w, outcome, es[0]);
      AllCommute(cfg, After(cfg, w, es[0]), outcome, es[1..]);
    }
  }

  /** Whatever else happens in the gap, the end is the same as had it happened before the run ended,
      with run and record in one. */
  lemma GapIsHarmless(cfg: Config, w: World, outcome: Outcome, es: seq<WorldEvent>)
    requires w.hand.Some? && CanHappen(cfg, w, es) && SparesTask(es, w.hand.value.id)
    ensures CanHappen(cfg, Ran(w, outcome), es)
    ensures Recorded(cfg, Happened(cfg, Ran(w, outcome), es), outcome)
         == After(cfg, Happened(cfg, w, es), Settle(outcome))
  {
    AllCommute(cfg, w, outcome, es);
    SettledIsRanAndRecorded(cfg, Happened(cfg, w, es), outcome);
  }

  /** What a verdict that arrives in the gap leaves of the task, once the row is recorded. */
  ghost function EarlyVerdict(cfg: Config, w: World, request: string, resumed: Resumed): World
    requires w.hand.Some?
  {
    Recorded(cfg, After(cfg, Ran(w, Suspended(request)), Verdict(w.hand.value.id, resumed)), Suspended(request))
  }

  lemma EarlyVerdictView(cfg: Config, w: World, request: string, resumed: Resumed)
    requires w.hand.Some? && w.hand.value.id in w.sys.tables.queue && w.hand.value.id !in w.sys.tables.dlq
    requires w.sys.tables.queue[w.hand.value.id].status.Claimed?
    ensures var id := w.hand.value.id; var w' := EarlyVerdict(cfg, w, request, resumed);
      && id in w'.sys.tables.queue && id !in w'.sys.tables.dlq && w'.hand.None?
      && w'.sys.tables.queue[id].status.AwaitingApproval?
      && w'.sys.tables.queue[id].approvalRequest == Some(request)
      && w'.sys.tables.queue[id].approvalAt.Some?
      && w'.sys.tables.queue[id].result == w.sys.tables.queue[id].result
      && w'.sys.tables.queue[id].attempts == w.sys.tables.queue[id].attempts
      && w'.sys.tables.queue[id].envelope == w.sys.tables.queue[id].envelope
      && ThreadOf(w', id) == ResumedThread(resumed)
      && OutcomesOf(w', id) == OutcomesOf(w, id) + [Suspended(request)]
      && w'.sys.born == w.sys.born
  {
  }

  /** A verdict on a task whose row is not parked yet: row and thread agree afterwards exactly if the
      resumed thread did not finish. If it did, the row waits for a verdict nobody can give. */
  lemma EarlyVerdictUncouplesExactlyIfItEnds(cfg: Config, w: World, request: string, resumed: Resumed)
    requires WorldInv(cfg, w) && w.hand.Some?
    ensures var id := w.hand.value.id; var w' := EarlyVerdict(cfg, w, request, resumed);
      && GoodAt(cfg, w', id) == !resumed.RanOut?
      && id in w'.sys.tables.queue && w'.sys.tables.queue[id].status.AwaitingApproval?
      && (resumed.RanOut? ==> ThreadOf(w', id) == Finished(resumed.output))
  {
    var id := w.hand.value.id;
    assert GoodAt(cfg, w, id);
    EarlyVerdictView(cfg, w, request, resumed);
    var outs := OutcomesOf(w, id) + [Suspended(request)];
    assert outs[..|outs| - 1] == OutcomesOf(w, id);
    assert id in w.sys.born;
    assert w.sys.born[id].envelope == w.sys.tables.queue[id].envelope;
    GoodExactlyIf(cfg, EarlyVerdict(cfg, w, request, resumed), id, resumed, request);
  }

  lemma GoodExactlyIf(cfg: Config, w': World, id: TaskId, resumed: Resumed, request: string)
    requires id in w'.sys.tables.queue && w'.hand.None?
    requires w'.sys.tables.queue[id].status.AwaitingApproval?
    requires w'.sys.tables.queue[id].approvalRequest == Some(request)
    requires w'.sys.tables.queue[id].approvalAt.Some? && w'.sys.tables.queue[id].result.None?
    requires ThreadOf(w', id) == ResumedThread(resumed)
    requires var outs := OutcomesOf(w', id);
      EndedWell(outs) && outs[|outs| - 1] == Suspended(request) && |outs| == w'.sys.tables.queue[id].attempts
    requires w'.sys.tables.queue[id].attempts <= Tries(cfg, w'.sys.tables.queue[id].envelope)
    requires id in w'.sys.born && w'.sys.born[id].envelope == w'.sys.tables.queue[id].envelope
    ensures GoodAt(cfg, w', id) == !resumed.RanOut?
  {
  }
}
