/** One worker that settles each claim before its next dequeue, together with the graph threads,
    the callers of /inbox, /approval and /admin, and the clock.

    The worker's claim and its settlement are separate events, so submissions, verdicts, operator
    deletes and the clock come in between. Running the graph and writing its result to the row is
    one event, and a verdict's resume with its row update is one event. */
module QueueWorld {
  import opened Options
  import opened TaskTables
  import opened QueueHistory

  datatype Config = Config(defaultMaxAttempts: int, approvalTtlSeconds: int)

  /** `Paused`: stopped at an approval interrupt. `Idle`: not started, or its last run raised.
      `Finished` carries the output of the run that ended it. `Broken`: a resume raised and the
      checkpointer no longer shows the interrupt. */
  datatype Thread = Idle | Paused | Finished(output: Option<string>) | Broken

  /** How one graph invocation ends. */
  datatype Outcome = Raised(error: string) | Suspended(request: string) | Returned(output: Option<string>)

  /** How a resume ends: at another interrupt, finished, or raising, after which the checkpointer may
      or may not still show the interrupt. */
  datatype Resumed = StillPaused | RanOut(output: Option<string>) | Crashed(shown: bool)

  datatype World = World(
    sys: Sys,
    threads: map<TaskId, Thread>,
    hand: Option<TaskClaim>,
    outcomes: map<TaskId, seq<Outcome>>)

  datatype WorldEvent =
    | Pass(delta: nat)
    | Submit(id: TaskId, envelope: Envelope)
    | Take(worker: string, timeout: int)
    | Settle(outcome: Outcome)
    | SweepTtl
    | SweepApprovals
    | Verdict(id: TaskId, resumed: Resumed)
    | Discard(id: TaskId)

  const START := World(EMPTY, map[], None, map[])

  function ThreadOf(w: World, id: TaskId): Thread {
    if id in w.threads then w.threads[id] else Idle
  }

  function OutcomesOf(w: World, id: TaskId): seq<Outcome> {
    if id in w.outcomes then w.outcomes[id] else []
  }

  /** `_approval_deadline`: the envelope's own TTL if it has one, else the cluster default. */
  function ApprovalDeadline(cfg: Config, env: Envelope, now: Time): Time {
    if env.ttlSeconds.Some? && env.ttlSeconds.value != 0
    then now + env.ttlSeconds.value
    else now + cfg.approvalTtlSeconds
  }

  /** The one statement `_handle_one` issues for a claim, given how the graph run ended. */
  function SettleOp(cfg: Config, claim: TaskClaim, outcome: Outcome, now: Time): Op {
    match outcome
    case Raised(error) =>
      if AttemptsRemaining(claim.envelope, claim.attempts, cfg.defaultMaxAttempts) > 0
      then Update(claim.id, Nack)
      else ToDlq(claim.id, error)
    case Suspended(request) =>
      Update(claim.id, Park(ApprovalDeadline(cfg, claim.envelope, now), Some(request)))
    case Returned(output) => Update(claim.id, AckWithResult(output))
  }

  /** How a verdict changes the row after resuming a paused thread; not at all if the resume raised. */
  function VerdictChange(cfg: Config, resumed: Resumed, now: Time): Option<Change> {
    match resumed
    case StillPaused => Some(Park(now + cfg.approvalTtlSeconds, None))
    case RanOut(output) => Some(Resolve(output))
    case Crashed(_) => None
  }

  function ResumedThread(resumed: Resumed): Thread {
    match resumed
    case RanOut(output) => Finished(output)
    case Crashed(false) => Broken
    case _ => Paused
  }

  function ThreadAfter(outcome: Outcome): Thread {
    match outcome
    case Raised(_) => Idle
    case Suspended(_) => Paused
    case Returned(output) => Finished(output)
  }

  ghost predicate Enabled(w: World, e: WorldEvent) {
    match e
    case Submit(id, _) => id !in w.sys.born
    case Take(_, _) => w.hand.None?
    case SweepTtl => w.hand.None?
    case SweepApprovals => w.hand.None?
    case Settle(_) => w.hand.Some?
    case _ => true
  }

  /** What the event does to the database; None is a verdict refused with 409, or one whose resume
      raised. */
  ghost function Lower(cfg: Config, w: World, e: WorldEvent): Option<Event>
    requires Enabled(w, e)
  {
    match e
    case Pass(delta) => Some(Tick(delta))
    case Submit(id, env) => Some(Do(Insert(id, env)))
    case Take(worker, timeout) => Some(Do(Op.Dequeue(worker, timeout, {})))
    case Settle(outcome) => Some(Do(SettleOp(cfg, w.hand.value, outcome, w.sys.now)))
    case SweepTtl => Some(Do(ExpireOverdue))
    case SweepApprovals => Some(Do(ExpireOverdueApprovals))
    case Verdict(id, resumed) =>
      var change := VerdictChange(cfg, resumed, w.sys.now);
      if ThreadOf(w, id).Paused? && change.Some? then Some(Do(Update(id, change.value))) else None
    case Discard(id) => Some(Do(DeleteDlq(id)))
  }

  ghost function After(cfg: Config, w: World, e: WorldEvent): World
    requires Enabled(w, e)
  {
    var low := Lower(cfg, w, e);
    var s' := if low.Some? then Step(w.sys, low.value) else w.sys;
    match e
    case Take(_, _) =>
      (match Next(w.sys.tables.queue, w.sys.now, {})
       case Some(id) =>
         var row := w.sys.tables.queue[id];
         w.(sys := s', hand := Some(TaskClaim(id, row.envelope, row.attempts + 1)))
       case None => w)
    case Settle(outcome) =>
      var id := w.hand.value.id;
      World(s', w.threads[id := ThreadAfter(outcome)], None,
            w.outcomes[id := OutcomesOf(w, id) + [outcome]])
    case Verdict(id, resumed) =>
      if ThreadOf(w, id).Paused?
      then w.(sys := s', threads := w.threads[id := ResumedThread(resumed)])
      else w
    case _ => w.(sys := s')
  }

  ghost predicate Feasible(cfg: Config, w: World, es: seq<WorldEvent>)
    decreases |es|
  {
    es == [] || (Enabled(w, es[0]) && Feasible(cfg, After(cfg, w, es[0]), es[1..]))
  }

  ghost function Final(cfg: Config, w: World, es: seq<WorldEvent>): World
    requires Feasible(cfg, w, es)
    decreases |es|
  {
    if es == [] then w else Final(cfg, After(cfg, w, es[0]), es[1..])
  }

  // ---- reachable worlds ----

  /** The world is where some run from `start` ends. */
  ghost predicate Reachable(cfg: Config, start: World, w: World) {
    exists es :: EndsIn(cfg, start, es, w)
  }

  ghost predicate EndsIn(cfg: Config, start: World, es: seq<WorldEvent>, w: World) {
    Feasible(cfg, start, es) && Final(cfg, start, es) == w
  }

  lemma OneMore(cfg: Config, start: World, w: World, e: WorldEvent)
    requires Reachable(cfg, start, w) && Enabled(w, e)
    ensures Reachable(cfg, start, After(cfg, w, e))
  {
    var es :| EndsIn(cfg, start, es, w);
    Extend(cfg, start, es, e);
    assert EndsIn(cfg, start, es + [e], After(cfg, w, e));
  }

  lemma {:induction false} Extend(cfg: Config, w: World, es: seq<WorldEvent>, e: WorldEvent)
    requires Feasible(cfg, w, es) && Enabled(Final(cfg, w, es), e)
    ensures Feasible(cfg, w, es + [e])
    ensures Final(cfg, w, es + [e]) == After(cfg, Final(cfg, w, es), e)
    decreases |es|
  {
    if es == [] {
      assert [e][1..] == [];
    } else {
      Extend(cfg, After(cfg, w, es[0]), es[1..], e);
      assert (es + [e])[1..] == es[1..] + [e];
    }
  }

  // ---- the invariant, one task at a time ----

  /** Everything in the world that concerns one task. */
  datatype View = View(
    row: Option<Row>,
    dead: Option<DlqEntry>,
    discarded: bool,
    thread: Thread,
    outcomes: seq<Outcome>,
    held: Option<TaskClaim>)

  function ViewOf(w: World, id: TaskId): View {
    View(
      if id in w.sys.tables.queue then Some(w.sys.tables.queue[id]) else None,
      if id in w.sys.tables.dlq then Some(w.sys.tables.dlq[id]) else None,
      id in w.sys.deleted,
      ThreadOf(w, id),
      OutcomesOf(w, id),
      if w.hand.Some? && w.hand.value.id == id then w.hand else None)
  }

  predicate AllRaised(outs: seq<Outcome>) {
    forall i :: 0 <= i < |outs| ==> outs[i].Raised?
  }

  /** Every attempt but the last raised, and the last one did not. */
  predicate EndedWell(outs: seq<Outcome>) {
    outs != [] && AllRaised(outs[..|outs| - 1]) && !outs[|outs| - 1].Raised?
  }

  /** `max_attempts`, or one when the policy allows none: the first claim always runs. */
  function Tries(cfg: Config, env: Envelope): nat {
    if MaxAttempts(env, cfg.defaultMaxAttempts) > 1
    then MaxAttempts(env, cfg.defaultMaxAttempts)
    else 1
  }

  /** Nothing of an approval or a result is on the row. */
  predicate Untouched(row: Row) {
    row.approvalAt.None? && row.approvalRequest.None? && row.result.None?
  }

  ghost predicate GoodRow(cfg: Config, v: View, row: Row) {
    && row.attempts <= Tries(cfg, row.envelope)
    && (v.held.Some? <==> row.status.Claimed?)
    && match row.status
       case Pending =>
         && v.thread.Idle? && AllRaised(v.outcomes) && Untouched(row)
         && |v.outcomes| == row.attempts < Tries(cfg, row.envelope)
       case Claimed =>
         && v.thread.Idle? && AllRaised(v.outcomes) && Untouched(row)
         && |v.outcomes| + 1 == row.attempts
         && v.held.value.envelope == row.envelope && v.held.value.attempts == row.attempts
       case AwaitingApproval =>
         && (v.thread.Paused? || v.thread.Broken?) && EndedWell(v.outcomes) && |v.outcomes| == row.attempts
         && v.outcomes[|v.outcomes| - 1].Suspended?
         && row.approvalRequest == Some(v.outcomes[|v.outcomes| - 1].request)
         && row.approvalAt.Some? && row.result.None?
       case Done =>
         && v.thread == Finished(row.result) && EndedWell(v.outcomes) && |v.outcomes| == row.attempts
         && row.approvalAt.None?
  }

  ghost predicate GoodEntry(cfg: Config, v: View, dead: DlqEntry) {
    && v.held.None?
    && |v.outcomes| == dead.attempts <= Tries(cfg, dead.envelope)
    && match dead.lastError
       case Failure(_) =>
         && AllRaised(v.outcomes) && dead.attempts == Tries(cfg, dead.envelope) && v.thread.Idle?
         && v.outcomes[|v.outcomes| - 1] == Raised(dead.lastError.error)
       case TtlExpired =>
         AllRaised(v.outcomes) && dead.attempts < Tries(cfg, dead.envelope) && v.thread.Idle?
       case ApprovalTtlExpired =>
         EndedWell(v.outcomes) && v.outcomes[|v.outcomes| - 1].Suspended? && !v.thread.Idle?
  }

  ghost predicate Good(cfg: Config, v: View) {
    && (v.row.Some? ==> GoodRow(cfg, v, v.row.value))
    && (v.row.None? && v.dead.Some? ==> GoodEntry(cfg, v, v.dead.value))
    && (v.row.None? ==> v.held.None?)
    && (v.row.None? && v.dead.None? && !v.discarded ==> v.thread.Idle? && v.outcomes == [])
  }

  ghost predicate GoodAt(cfg: Config, w: World, id: TaskId) {
    && Good(cfg, ViewOf(w, id))
    && (id in w.sys.born ==> |OutcomesOf(w, id)| <= Tries(cfg, w.sys.born[id].envelope))
  }

  ghost predicate WorldInv(cfg: Config, w: World) {
    && Inv(w.sys)
    && forall id {:trigger GoodAt(cfg, w, id)} :: GoodAt(cfg, w, id)
  }

  // ---- every event keeps it ----

  /** The event did not concern this task. */
  ghost predicate Alike(w: World, w': World, id: TaskId) {
    && ViewOf(w', id) == ViewOf(w, id)
    && (id in w'.sys.born ==> id in w.sys.born && w'.sys.born[id] == w.sys.born[id])
  }

  /** An event that changes at most the view of `id` keeps the invariant if it does so for `id`. */
  lemma OneTaskAtATime(cfg: Config, w: World, w': World, id: TaskId)
    requires WorldInv(cfg, w) && Inv(w'.sys)
    requires forall j :: j != id ==> Alike(w, w', j)
    requires Alike(w, w', id) || GoodAt(cfg, w', id)
    ensures WorldInv(cfg, w')
  {
    forall j
      ensures GoodAt(cfg, w', j)
    {
      assert GoodAt(cfg, w, j);
      assert j != id ==> Alike(w, w', j);
    }
  }

  lemma SubmitViews(cfg: Config, w: World, id: TaskId, env: Envelope)
    requires id !in w.sys.born && InsertAccepted(w.sys.tables, id, env)
    ensures var w' := After(cfg, w, Submit(id, env));
      && ViewOf(w', id) == ViewOf(w, id).(row := Some(FreshRow(env, w.sys.now, w.sys.tables.stamp)))
      && id in w'.sys.born && w'.sys.born[id].envelope == env
      && forall j :: j != id ==> Alike(w, w', j)
  {
  }

  lemma SubmitKeeps(cfg: Config, w: World, id: TaskId, env: Envelope)
    requires WorldInv(cfg, w) && id !in w.sys.born
    ensures WorldInv(cfg, After(cfg, w, Submit(id, env)))
  {
    var w' := After(cfg, w, Submit(id, env));
    if InsertAccepted(w.sys.tables, id, env) {
      assert GoodAt(cfg, w, id);
      assert id !in w.sys.tables.queue.Keys + w.sys.tables.dlq.Keys + w.sys.deleted;
      SubmitViews(cfg, w, id, env);
      assert GoodAt(cfg, w', id);
      StepKeeps(w.sys, Do(Insert(id, env)));
      OneTaskAtATime(cfg, w, w', id);
    } else {
      assert w' == w;
    }
  }

  lemma TakenView(cfg: Config, v: View, row: Row, claimed: Row, claim: TaskClaim)
    requires Good(cfg, v) && v.row == Some(row) && row.status.Pending?
    requires claimed.status.Claimed? && claimed.attempts == row.attempts + 1 == claim.attempts
    requires claimed.envelope == row.envelope == claim.envelope && (Untouched(row) ==> Untouched(claimed))
    ensures Good(cfg, v.(row := Some(claimed), held := Some(claim)))
  {
  }

  lemma TakeViews(cfg: Config, w: World, worker: string, timeout: int, id: TaskId)
    requires w.hand.None? && Next(w.sys.tables.queue, w.sys.now, {}) == Some(id)
    requires id in w.sys.tables.queue
    ensures var w' := After(cfg, w, Take(worker, timeout)); var row := w.sys.tables.queue[id];
      && w'.sys.born == w.sys.born
      && ViewOf(w', id) == ViewOf(w, id).(
           row := Some(ClaimedRow(row, worker, w.sys.now, timeout)),
           held := Some(TaskClaim(id, row.envelope, row.attempts + 1)))
      && forall j :: j != id ==> Alike(w, w', j)
  {
  }

  lemma TakeKeeps(cfg: Config, w: World, worker: string, timeout: int)
    requires WorldInv(cfg, w) && w.hand.None?
    ensures WorldInv(cfg, After(cfg, w, Take(worker, timeout)))
  {
    var w' := After(cfg, w, Take(worker, timeout));
    StepKeeps(w.sys, Do(Op.Dequeue(worker, timeout, {})));
    if Next(w.sys.tables.queue, w.sys.now, {}).Some? {
      var id := Next(w.sys.tables.queue, w.sys.now, {}).value;
      assert IsNext(w.sys.tables.queue, w.sys.now, {}, id);
      assert GoodAt(cfg, w, id);
      var row := w.sys.tables.queue[id];
      TakeViews(cfg, w, worker, timeout, id);
      TakenView(cfg, ViewOf(w, id), row, ClaimedRow(row, worker, w.sys.now, timeout),
                TaskClaim(id, row.envelope, row.attempts + 1));
      OneTaskAtATime(cfg, w, w', id);
    }
  }

  /** The row, if any, and the dead letter, if any, that settling leaves of a claimed row. */
  function Settled(cfg: Config, row: Row, claim: TaskClaim, outcome: Outcome, now: Time)
    : (Option<Row>, Option<DlqEntry>)
  {
    match SettleOp(cfg, claim, outcome, now)
    case Update(_, change) => (Some(Changed(row, change)), None)
    case ToDlq(_, error) => (None, Some(DlqEntry(row.envelope, row.attempts, Failure(error))))
    case _ => (Some(row), None)
  }

  lemma SettledView(cfg: Config, v: View, row: Row, outcome: Outcome, now: Time)
    requires Good(cfg, v) && v.row == Some(row) && v.held.Some? && v.dead.None?
    ensures var (row', dead') := Settled(cfg, row, v.held.value, outcome, now);
      Good(cfg, v.(row := row', dead := dead', thread := ThreadAfter(outcome),
                   outcomes := v.outcomes + [outcome], held := None))
  {
    var outs := v.outcomes + [outcome];
    assert outs[..|outs| - 1] == v.outcomes;
  }

  lemma SettleViews(cfg: Config, w: World, outcome: Outcome, id: TaskId)
    requires w.hand.Some? && w.hand.value.id == id
    requires id in w.sys.tables.queue && id !in w.sys.tables.dlq
    ensures var w' := After(cfg, w, Settle(outcome));
      var (row', dead') := Settled(cfg, w.sys.tables.queue[id], w.hand.value, outcome, w.sys.now);
      && w'.sys.born == w.sys.born
      && OutcomesOf(w', id) == OutcomesOf(w, id) + [outcome]
      && ViewOf(w', id) == ViewOf(w, id).(
           row := row', dead := dead', thread := ThreadAfter(outcome),
           outcomes := OutcomesOf(w, id) + [outcome], held := None)
      && forall j :: j != id ==> Alike(w, w', j)
  {
  }

  lemma SettleKeeps(cfg: Config, w: World, outcome: Outcome)
    requires WorldInv(cfg, w) && w.hand.Some?
    ensures WorldInv(cfg, After(cfg, w, Settle(outcome)))
  {
    var w' := After(cfg, w, Settle(outcome));
    var id := w.hand.value.id;
    assert GoodAt(cfg, w, id);
    assert id in w.sys.tables.queue && id in w.sys.born && id !in w.sys.tables.dlq;
    assert w.sys.born[id].envelope == w.sys.tables.queue[id].envelope;
    SettleViews(cfg, w, outcome, id);
    SettledView(cfg, ViewOf(w, id), w.sys.tables.queue[id], outcome, w.sys.now);
    assert GoodAt(cfg, w', id);
    StepKeeps(w.sys, Lower(cfg, w, Settle(outcome)).value);
    OneTaskAtATime(cfg, w, w', id);
  }

  lemma MovedView(cfg: Config, v: View, row: Row, reason: Reason)
    requires Good(cfg, v) && v.row == Some(row) && v.held.None? && v.dead.None?
    requires reason.TtlExpired? ==> row.status.Pending?
    requires reason.ApprovalTtlExpired? ==> row.status.AwaitingApproval?
    requires !reason.Failure?
    ensures Good(cfg, v.(row := None, dead := Some(DlqEntry(row.envelope, row.attempts, reason))))
  {
  }

  lemma SweepViews(w: World, w': World, ids: set<TaskId>, reason: Reason)
    requires w' == w.(sys := w.sys.(tables := Move(w.sys.tables, ids, reason)))
    requires ids <= w.sys.tables.queue.Keys
    ensures forall j :: j !in ids ==> Alike(w, w', j)
    ensures forall j :: j in ids ==>
      var row := w.sys.tables.queue[j];
      ViewOf(w', j) == ViewOf(w, j).(
        row := None, dead := Some(DlqEntry(row.envelope, row.attempts, reason)))
  {
  }

  lemma SweepKeeps(cfg: Config, w: World, e: WorldEvent)
    requires WorldInv(cfg, w) && w.hand.None? && (e.SweepTtl? || e.SweepApprovals?)
    ensures WorldInv(cfg, After(cfg, w, e))
  {
    var w' := After(cfg, w, e);
    var ids := if e.SweepTtl? then OverdueTtl(w.sys.tables.queue, w.sys.now)
               else OverdueApproval(w.sys.tables.queue, w.sys.now);
    var reason := if e.SweepTtl? then TtlExpired else ApprovalTtlExpired;
    SweepViews(w, w', ids, reason);
    forall j
      ensures GoodAt(cfg, w', j)
    {
      assert GoodAt(cfg, w, j);
      if j in ids {
        var row := w.sys.tables.queue[j];
        assert j !in w.sys.tables.dlq;
        MovedView(cfg, ViewOf(w, j), row, reason);
      } else {
        assert Alike(w, w', j);
      }
    }
    StepKeeps(w.sys, Lower(cfg, w, e).value);
  }

  /** The row a verdict leaves of the one it finds. */
  function Decided(cfg: Config, row: Option<Row>, resumed: Resumed, now: Time): Option<Row> {
    var change := VerdictChange(cfg, resumed, now);
    if row.Some? && change.Some? then Some(Changed(row.value, change.value)) else row
  }

  lemma VerdictViews(cfg: Config, w: World, id: TaskId, resumed: Resumed)
    requires ThreadOf(w, id).Paused?
    ensures var w' := After(cfg, w, Verdict(id, resumed)); var v := ViewOf(w, id);
      && w'.sys.born == w.sys.born
      && ViewOf(w', id) == v.(thread := ResumedThread(resumed), row := Decided(cfg, v.row, resumed, w.sys.now))
      && forall j :: j != id ==> Alike(w, w', j)
  {
  }

  lemma DecidedView(cfg: Config, v: View, resumed: Resumed, now: Time)
    requires Good(cfg, v) && v.thread.Paused?
    ensures Good(cfg, v.(thread := ResumedThread(resumed), row := Decided(cfg, v.row, resumed, now)))
  {
  }

  lemma VerdictKeeps(cfg: Config, w: World, id: TaskId, resumed: Resumed)
    requires WorldInv(cfg, w) && ThreadOf(w, id).Paused?
    ensures WorldInv(cfg, After(cfg, w, Verdict(id, resumed)))
  {
    var w' := After(cfg, w, Verdict(id, resumed));
    assert GoodAt(cfg, w, id);
    VerdictViews(cfg, w, id, resumed);
    DecidedView(cfg, ViewOf(w, id), resumed, w.sys.now);
    assert GoodAt(cfg, w', id);
    if Lower(cfg, w, Verdict(id, resumed)).Some? {
      StepKeeps(w.sys, Lower(cfg, w, Verdict(id, resumed)).value);
    }
    OneTaskAtATime(cfg, w, w', id);
  }

  lemma DiscardViews(cfg: Config, w: World, id: TaskId)
    ensures var w' := After(cfg, w, Discard(id)); var v, v' := ViewOf(w, id), ViewOf(w', id);
      && w'.sys.born == w.sys.born
      && v' == v.(dead := None, discarded := v.discarded || v.dead.Some?)
      && forall j :: j != id ==> Alike(w, w', j)
  {
  }

  lemma DiscardKeeps(cfg: Config, w: World, id: TaskId)
    requires WorldInv(cfg, w)
    ensures WorldInv(cfg, After(cfg, w, Discard(id)))
  {
    var w' := After(cfg, w, Discard(id));
    assert GoodAt(cfg, w, id);
    DiscardViews(cfg, w, id);
    assert GoodAt(cfg, w', id);
    StepKeeps(w.sys, Do(DeleteDlq(id)));
    OneTaskAtATime(cfg, w, w', id);
  }

  lemma PassKeeps(cfg: Config, w: World, delta: nat)
    requires WorldInv(cfg, w)
    ensures WorldInv(cfg, After(cfg, w, Pass(delta)))
  {
    var w' := After(cfg, w, Pass(delta));
    StepKeeps(w.sys, Tick(delta));
    forall j
      ensures Alike(w, w', j)
    {
    }
    OneTaskAtATime(cfg, w, w', "");
  }

  lemma EventKeeps(cfg: Config, w: World, e: WorldEvent)
    requires WorldInv(cfg, w) && Enabled(w, e)
    ensures WorldInv(cfg, After(cfg, w, e))
  {
    match e
    case Pass(delta) => PassKeeps(cfg, w, delta);
    case Submit(id, env) => SubmitKeeps(cfg, w, id, env);
    case Take(worker, timeout) => TakeKeeps(cfg, w, worker, timeout);
    case Settle(outcome) => SettleKeeps(cfg, w, outcome);
    case SweepTtl => SweepKeeps(cfg, w, e);
    case SweepApprovals => SweepKeeps(cfg, w, e);
    case Verdict(id, resumed) =>
      if ThreadOf(w, id).Paused? {
        VerdictKeeps(cfg, w, id, resumed);
      } else {
        assert After(cfg, w, e) == w;
      }
    case Discard(id) => DiscardKeeps(cfg, w, id);
  }

  lemma {:induction false} FinalKeeps(cfg: Config, w: World, es: seq<WorldEvent>)
    requires WorldInv(cfg, w) && Feasible(cfg, w, es)
    ensures WorldInv(cfg, Final(cfg, w, es))
    decreases |es|
  {
    if es != [] {
      EventKeeps(cfg, w, es[0]);
      FinalKeeps(cfg, After(cfg, w, es[0]), es[1..]);
    }
  }

  lemma StartIsGood(cfg: Config)
    ensures WorldInv(cfg, START)
  {
    forall id
      ensures GoodAt(cfg, START, id)
    {
    }
  }

  // ---- what it means, over whole runs ----

  /** The row never lies about the thread. A parked row has a paused thread, or one a raising resume
      broke, and shows the request it first stopped at; such a thread has a parked row, unless the
      approval sweep dead-lettered it (or an operator since deleted that entry); a done row has a
      finished thread and holds its output. Defers, second confirmations and verdicts that arrive after expiry are
      all among the runs. */
  lemma QueueGraphCoupling(cfg: Config, es: seq<WorldEvent>, id: TaskId)
    requires Feasible(cfg, START, es)
    ensures var w := Final(cfg, START, es); var q := w.sys.tables.queue; var d := w.sys.tables.dlq;
      && (id in q && q[id].status.AwaitingApproval? ==>
            && (ThreadOf(w, id).Paused? || ThreadOf(w, id).Broken?) && OutcomesOf(w, id) != []
            && OutcomesOf(w, id)[|OutcomesOf(w, id)| - 1].Suspended?
            && q[id].approvalRequest == Some(OutcomesOf(w, id)[|OutcomesOf(w, id)| - 1].request)
            && q[id].approvalAt.Some? && q[id].result.None?)
      && (id in q && q[id].status.Done? ==>
            ThreadOf(w, id) == Finished(q[id].result) && q[id].approvalAt.None?)
      && (id in q && (q[id].status.Pending? || q[id].status.Claimed?) ==> ThreadOf(w, id).Idle?)
      && (ThreadOf(w, id).Paused? || ThreadOf(w, id).Broken? ==>
            || (id in q && q[id].status.AwaitingApproval?)
            || (id in d && d[id].lastError == ApprovalTtlExpired)
            || id in w.sys.deleted)
  {
    StartIsGood(cfg);
    FinalKeeps(cfg, START, es);
    assert GoodAt(cfg, Final(cfg, START, es), id);
  }

  /** A row is `claimed` exactly while the worker holds it. */
  lemma ClaimedExactlyInHand(cfg: Config, es: seq<WorldEvent>, id: TaskId)
    requires Feasible(cfg, START, es)
    ensures var w := Final(cfg, START, es); var q := w.sys.tables.queue;
      (id in q && q[id].status.Claimed?)
      <==> (w.hand.Some? && w.hand.value.id == id)
  {
    StartIsGood(cfg);
    FinalKeeps(cfg, START, es);
    assert GoodAt(cfg, Final(cfg, START, es), id);
  }

  /** A task causes at most `max_attempts` graph invocations, and a pending row always has
      attempts to spare. */
  lemma RetryBound(cfg: Config, es: seq<WorldEvent>, id: TaskId)
    requires Feasible(cfg, START, es)
    ensures var w := Final(cfg, START, es); var q := w.sys.tables.queue;
      && (id in w.sys.born ==> |OutcomesOf(w, id)| <= Tries(cfg, w.sys.born[id].envelope))
      && (id !in w.sys.born ==> OutcomesOf(w, id) == [])
      && (id in q && q[id].status.Pending? ==>
            |OutcomesOf(w, id)| == q[id].attempts < Tries(cfg, q[id].envelope))
  {
    StartIsGood(cfg);
    FinalKeeps(cfg, START, es);
    var w := Final(cfg, START, es);
    assert GoodAt(cfg, w, id);
    assert id in w.sys.born.Keys <==> id in w.sys.tables.queue.Keys + w.sys.tables.dlq.Keys + w.sys.deleted;
  }

  /** The same three bounds in the policy's own terms: `n` is the envelope's `max_attempts`, or the
      default if it has none. At most `n` invocations, and one where `n` is below one; and an
      undeleted task is dead-lettered for failing exactly after that many, all of which raised, with
      the last error. */
  lemma AttemptsFollowThePolicy(cfg: Config, es: seq<WorldEvent>, id: TaskId, n: int)
    requires Feasible(cfg, START, es) && id in Final(cfg, START, es).sys.born
    requires match Final(cfg, START, es).sys.born[id].envelope.maxAttempts
             case Some(own) => n == own
             case None => n == cfg.defaultMaxAttempts
    ensures var w := Final(cfg, START, es); var outs := OutcomesOf(w, id); var d := w.sys.tables.dlq;
      && (n >= 1 ==> |outs| <= n)
      && (n < 1 ==> |outs| <= 1)
      && (id in w.sys.tables.queue && w.sys.tables.queue[id].status.Pending? ==>
            |outs| == 0 || |outs| < n)
      && (id !in w.sys.deleted ==>
            ((id in d && d[id].lastError.Failure?)
             <==> (forall i :: 0 <= i < |outs| ==> outs[i].Raised?) && outs != [] && |outs| >= n))
      && (id in d && d[id].lastError.Failure? ==>
            outs != [] && outs[|outs| - 1] == Raised(d[id].lastError.error))
  {
    RetryBound(cfg, es, id);
    var w := Final(cfg, START, es);
    assert WorldInv(cfg, w) by {
      StartIsGood(cfg);
      FinalKeeps(cfg, START, es);
    }
    assert GoodAt(cfg, w, id);
    if id !in w.sys.deleted {
      DeadLetteredExactlyWhenExhausted(cfg, es, id);
    }
  }

  /** A task is dead-lettered for failing exactly when it was invoked `max_attempts` times and
      every invocation raised. */
  lemma DeadLetteredExactlyWhenExhausted(cfg: Config, es: seq<WorldEvent>, id: TaskId)
    requires Feasible(cfg, START, es)
    requires var w := Final(cfg, START, es); id in w.sys.born && id !in w.sys.deleted
    ensures var w := Final(cfg, START, es);
      (id in w.sys.tables.dlq && w.sys.tables.dlq[id].lastError.Failure?)
      <==> (AllRaised(OutcomesOf(w, id))
            && |OutcomesOf(w, id)| == Tries(cfg, w.sys.born[id].envelope))
  {
    StartIsGood(cfg);
    FinalKeeps(cfg, START, es);
    var w := Final(cfg, START, es);
    assert GoodAt(cfg, w, id);
    assert id in w.sys.tables.queue.Keys + w.sys.tables.dlq.Keys + w.sys.deleted;
    if EndedWell(OutcomesOf(w, id)) {
      assert !AllRaised(OutcomesOf(w, id));
    }
  }
}
