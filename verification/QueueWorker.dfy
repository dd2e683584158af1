/** The worker's loop (src/agents/queue/worker.py): two independently throttled sweeps, a dequeue,
    the graph run, and the settlement of the claim, with everybody else at work in between. The loop
    over queue and checkpointer is proved to do what the one-worker world does, so the theorems
    about that world's runs are theorems about this loop. */
module QueueWorkerClass {
  import opened Options
  import opened TaskTables
  import opened QueueHistory
  import opened QueueWorld
  import opened TaskQueueClass
  import opened CheckpointerClass
  import opened ApprovalApi
  import opened QueueRace
  import opened LateVerdicts

  datatype Throttle = Throttle(lastSweep: int, lastApprovalSweep: int)

  /** What one turn meets: what others do, and how time passes, before each of its statements, during
      the graph run, and between its end and the statement that records it; which of the statements
      the loop shields fail; the two monotonic clock readings; how the graph run ends, if there is
      one; and whether stop() is called meanwhile. */
  datatype Turn = Turn(
    beforeSweep: seq<WorldEvent>,
    sweepClock: int,
    sweepFails: bool,
    beforeApprovalSweep: seq<WorldEvent>,
    approvalClock: int,
    approvalSweepFails: bool,
    beforeDequeue: seq<WorldEvent>,
    dequeueFails: bool,
    duringGraph: seq<WorldEvent>,
    afterGraph: seq<WorldEvent>,
    outcome: Outcome,
    stop: bool)

  /** The worker's constants. */
  datatype Setup = Setup(cfg: Config, worker: string, interval: int, timeout: int)

  // ---- the loop, in the world ----

  predicate TtlSweepDue(setup: Setup, th: Throttle, turn: Turn) {
    turn.sweepClock - th.lastSweep >= setup.interval
  }

  predicate ApprovalSweepDue(setup: Setup, th: Throttle, turn: Turn) {
    turn.approvalClock - th.lastApprovalSweep >= setup.interval
  }

  function NextThrottle(setup: Setup, th: Throttle, turn: Turn): Throttle {
    Throttle(
      if TtlSweepDue(setup, th, turn) then turn.sweepClock else th.lastSweep,
      if ApprovalSweepDue(setup, th, turn) then turn.approvalClock else th.lastApprovalSweep)
  }

  ghost function Swept(cfg: Config, w: World, due: bool, e: WorldEvent): (w': World)
    requires w.hand.None? && (e.SweepTtl? || e.SweepApprovals?)
    ensures w'.hand.None?
  {
    if due then After(cfg, w, e) else w
  }

  ghost function Taken(setup: Setup, w: World, turn: Turn): World
    requires w.hand.None?
  {
    if turn.dequeueFails then w else After(setup.cfg, w, Take(setup.worker, setup.timeout))
  }

  /** What happens during the graph run, and then until the row is recorded; in between, no verdict
      on the very task. */
  ghost predicate CanFollow(cfg: Config, taken: World, turn: Turn)
    requires taken.hand.Some?
  {
    && CanHappen(cfg, taken, turn.duringGraph)
    && CanHappen(cfg, Happened(cfg, taken, turn.duringGraph), turn.afterGraph)
    && SparesTask(turn.afterGraph, taken.hand.value.id)
  }

  /** The worlds a turn goes through. */
  datatype Stages = Stages(ttlSwept: World, approvalsSwept: World, taken: World)

  ghost predicate InStages(setup: Setup, w: World, th: Throttle, turn: Turn, st: Stages)
    requires w.hand.None?
  {
    && CanHappen(setup.cfg, w, turn.beforeSweep)
    && st.ttlSwept == Swept(setup.cfg, Happened(setup.cfg, w, turn.beforeSweep),
                            TtlSweepDue(setup, th, turn) && !turn.sweepFails, SweepTtl)
    && CanHappen(setup.cfg, st.ttlSwept, turn.beforeApprovalSweep)
    && st.approvalsSwept == Swept(setup.cfg, Happened(setup.cfg, st.ttlSwept, turn.beforeApprovalSweep),
                                  ApprovalSweepDue(setup, th, turn) && !turn.approvalSweepFails,
                                  SweepApprovals)
    && CanHappen(setup.cfg, st.approvalsSwept, turn.beforeDequeue)
    && st.taken == Taken(setup, Happened(setup.cfg, st.approvalsSwept, turn.beforeDequeue), turn)
    && (st.taken.hand.Some? ==> CanFollow(setup.cfg, st.taken, turn))
  }

  /** The settlement happens exactly if the dequeue found a task. */
  ghost function TurnEnd(cfg: Config, taken: World, turn: Turn): (w': World)
    requires taken.hand.Some? ==> CanFollow(cfg, taken, turn)
    ensures w'.hand.None?
  {
    if taken.hand.Some?
    then After(cfg, Happened(cfg, Happened(cfg, taken, turn.duringGraph), turn.afterGraph), Settle(turn.outcome))
    else taken
  }

  /** The loop goes through these worlds, up to the turn during which stop() was called. */
  ghost predicate Loops(setup: Setup, w: World, th: Throttle, turns: seq<Turn>, sts: seq<Stages>, w': World)
    requires w.hand.None?
    decreases |turns|
  {
    if turns == [] then w' == w
    else
      && sts != [] && InStages(setup, w, th, turns[0], sts[0])
      && var next := TurnEnd(setup.cfg, sts[0].taken, turns[0]);
      if turns[0].stop then w' == next
      else Loops(setup, next, NextThrottle(setup, th, turns[0]), turns[1..], sts[1..], w')
  }

  // ---- ... is a run of the world ----

  lemma {:induction false} HappenedIsReachable(cfg: Config, w: World, es: seq<WorldEvent>)
    requires Reachable(cfg, START, w) && CanHappen(cfg, w, es)
    ensures Reachable(cfg, START, Happened(cfg, w, es))
    decreases |es|
  {
    if es != [] {
      OneMore(cfg, START, w, es[0]);
      HappenedIsReachable(cfg, After(cfg, w, es[0]), es[1..]);
    }
  }

  lemma SweptIsReachable(cfg: Config, w: World, due: bool, e: WorldEvent)
    requires Reachable(cfg, START, w) && w.hand.None? && (e.SweepTtl? || e.SweepApprovals?)
    ensures Reachable(cfg, START, Swept(cfg, w, due, e))
  {
    if due {
      OneMore(cfg, START, w, e);
    }
  }

  lemma StagesAreReachable(setup: Setup, w: World, th: Throttle, turn: Turn, st: Stages)
    requires Reachable(setup.cfg, START, w) && w.hand.None? && InStages(setup, w, th, turn, st)
    ensures Reachable(setup.cfg, START, st.ttlSwept) && Reachable(setup.cfg, START, st.approvalsSwept)
    ensures Reachable(setup.cfg, START, st.taken)
  {
    HappenedIsReachable(setup.cfg, w, turn.beforeSweep);
    SweptIsReachable(setup.cfg, Happened(setup.cfg, w, turn.beforeSweep),
                     TtlSweepDue(setup, th, turn) && !turn.sweepFails, SweepTtl);
    HappenedIsReachable(setup.cfg, st.ttlSwept, turn.beforeApprovalSweep);
    SweptIsReachable(setup.cfg, Happened(setup.cfg, st.ttlSwept, turn.beforeApprovalSweep),
                     ApprovalSweepDue(setup, th, turn) && !turn.approvalSweepFails, SweepApprovals);
    HappenedIsReachable(setup.cfg, st.approvalsSwept, turn.beforeDequeue);
    if !turn.dequeueFails {
      OneMore(setup.cfg, START, Happened(setup.cfg, st.approvalsSwept, turn.beforeDequeue),
              Take(setup.worker, setup.timeout));
    }
  }

  lemma TurnEndIsReachable(cfg: Config, taken: World, turn: Turn)
    requires Reachable(cfg, START, taken)
    requires taken.hand.Some? ==> CanFollow(cfg, taken, turn)
    ensures Reachable(cfg, START, TurnEnd(cfg, taken, turn))
  {
    if taken.hand.Some? {
      var ran := Happened(cfg, taken, turn.duringGraph);
      HappenedIsReachable(cfg, taken, turn.duringGraph);
      HappenedIsReachable(cfg, ran, turn.afterGraph);
      OneMore(cfg, START, Happened(cfg, ran, turn.afterGraph), Settle(turn.outcome));
    }
  }

  /** Wherever in the one-worker world the loop starts, and whatever happens beside it, where it ends
      is the end of a run of that world. */
  lemma {:induction false} LoopIsARun(setup: Setup, w: World, th: Throttle, turns: seq<Turn>,
                                      sts: seq<Stages>, w': World)
    requires Reachable(setup.cfg, START, w) && w.hand.None? && Loops(setup, w, th, turns, sts, w')
    ensures Reachable(setup.cfg, START, w')
    decreases |turns|
  {
    if turns != [] {
      StagesAreReachable(setup, w, th, turns[0], sts[0]);
      TurnEndIsReachable(setup.cfg, sts[0].taken, turns[0]);
      if !turns[0].stop {
        LoopIsARun(setup, TurnEnd(setup.cfg, sts[0].taken, turns[0]), NextThrottle(setup, th, turns[0]),
                   turns[1..], sts[1..], w');
      }
    }
  }

  // ---- the others ----

  /** The verdicts are on production tasks. */
  predicate NoSmoke(es: seq<WorldEvent>) {
    forall i :: 0 <= i < |es| && es[i].Verdict? ==> !(SMOKE <= es[i].id)
  }

  lemma SysStaysSound(cfg: Config, w: World, e: WorldEvent)
    requires Inv(w.sys) && Enabled(w, e)
    ensures Inv(After(cfg, w, e).sys)
  {
    if Lower(cfg, w, e).Some? {
      StepKeeps(w.sys, Lower(cfg, w, e).value);
    }
  }

  class Others {
    const api: Endpoints

    constructor (api: Endpoints)
      ensures this.api == api
    {
      this.api := api;
    }

    method ActOnce(e: WorldEvent, now: Time, ghost w: World) returns (now': Time)
      requires Shows(api.queue, api.graph, now, w) && Outside(e) && Enabled(w, e) && Inv(w.sys)
      requires api.fleetReady && api.queueEnabled && (e.Verdict? ==> !(SMOKE <= e.id))
      modifies api.queue, api.graph
      ensures Shows(api.queue, api.graph, now', After(api.cfg, w, e))
    {
      now' := now;
      match e {
        case Pass(delta) =>
          now' := now + delta;
        case Submit(id, envelope) =>
          assert id !in w.sys.born.Keys;
          var r := api.queue.Enqueue(id, envelope, now);
        case Verdict(id, resumed) =>
          var status := api.PostApproval(id, resumed, now, w);
        case Discard(id) =>
          var found := api.queue.DeleteDlqEntry(id, now);
      }
    }

    method Act(es: seq<WorldEvent>, now: Time, ghost w: World) returns (now': Time)
      requires Shows(api.queue, api.graph, now, w) && CanHappen(api.cfg, w, es) && NoSmoke(es)
      requires Inv(w.sys) && api.fleetReady && api.queueEnabled
      modifies api.queue, api.graph
      ensures Shows(api.queue, api.graph, now', Happened(api.cfg, w, es))
      decreases |es|
    {
      now' := now;
      if es != [] {
        now' := ActOnce(es[0], now, w);
        SysStaysSound(api.cfg, w, es[0]);
        now' := Act(es[1..], now', After(api.cfg, w, es[0]));
      }
    }
  }

  // ---- the worker ----

  class QueueWorker {
    const queue: TaskQueue
    const graph: Checkpointer
    const setup: Setup
    var lastSweep: int
    var lastApprovalSweep: int
    var stopping: bool

    constructor (queue: TaskQueue, graph: Checkpointer, setup: Setup)
      ensures this.queue == queue && this.graph == graph && this.setup == setup
      ensures lastSweep == 0 && lastApprovalSweep == 0 && !stopping
    {
      this.queue, this.graph, this.setup := queue, graph, setup;
      lastSweep, lastApprovalSweep, stopping := 0, 0, false;
    }

    function Throttled(): Throttle
      reads this
    {
      Throttle(lastSweep, lastApprovalSweep)
    }

    method MaybeSweepExpired(clock: int, fails: bool, now: Time, ghost w: World)
      requires Shows(queue, graph, now, w) && w.hand.None?
      modifies this`lastSweep, queue
      ensures Shows(queue, graph, now,
                    Swept(setup.cfg, w, old(clock - lastSweep >= setup.interval) && !fails, SweepTtl))
      ensures lastSweep == old(if clock - lastSweep >= setup.interval then clock else lastSweep)
    {
      if clock - lastSweep < setup.interval {
        return;
      }
      lastSweep := clock;
      if fails {
        return;
      }
      var expired := queue.ExpireOverdue(now);
    }

    method MaybeSweepExpiredApprovals(clock: int, fails: bool, now: Time, ghost w: World)
      requires Shows(queue, graph, now, w) && w.hand.None?
      modifies this`lastApprovalSweep, queue
      ensures Shows(queue, graph, now,
                    Swept(setup.cfg, w, old(clock - lastApprovalSweep >= setup.interval) && !fails, SweepApprovals))
      ensures lastApprovalSweep
           == old(if clock - lastApprovalSweep >= setup.interval then clock else lastApprovalSweep)
    {
      if clock - lastApprovalSweep < setup.interval {
        return;
      }
      lastApprovalSweep := clock;
      if fails {
        return;
      }
      var expired := queue.ExpireOverdueApprovals(now);
    }

    method TakeOne(now: Time, ghost w: World) returns (claim: Option<TaskClaim>)
      requires Shows(queue, graph, now, w) && w.hand.None?
      requires setup.timeout == queue.defaultVisibilityTimeout
      modifies queue
      ensures var w' := After(setup.cfg, w, Take(setup.worker, setup.timeout));
        Shows(queue, graph, now, w') && claim == w'.hand
    {
      NextIsTheOldest(queue.queue, now, {});
      claim := queue.Dequeue(setup.worker, None, {}, now);
    }

    /** The graph run, what others do meanwhile, and the statement that settles the claim. */
    method HandleOne(claim: TaskClaim, outcome: Outcome, others: Others, gap: seq<WorldEvent>, start: Time,
                     ghost w: World)
      returns (now: Time)
      requires Shows(queue, graph, start, w) && w.hand == Some(claim) && Inv(w.sys) && WorksWith(others)
      requires CanHappen(setup.cfg, w, gap) && SparesTask(gap, claim.id) && NoSmoke(gap)
      modifies queue, graph
      ensures Shows(queue, graph, now, After(setup.cfg, Happened(setup.cfg, w, gap), Settle(outcome)))
    {
      graph.Invoke(claim.id, outcome);
      GapIsHarmless(setup.cfg, w, outcome, gap);
      now := others.Act(gap, start, Ran(w, outcome));
      Record(claim, outcome, now, Happened(setup.cfg, Ran(w, outcome), gap));
    }

    method Record(claim: TaskClaim, outcome: Outcome, now: Time, ghost w: World)
      requires Shows(queue, graph, now, w) && w.hand == Some(claim)
      modifies queue
      ensures Shows(queue, graph, now, Recorded(setup.cfg, w, outcome))
    {
      match outcome {
        case Raised(error) =>
          var remaining := AttemptsRemaining(claim.envelope, claim.attempts, setup.cfg.defaultMaxAttempts);
          if remaining > 0 {
            queue.Apply(claim.id, Nack, now);
          } else {
            queue.ToDlq(claim.id, error, now);
          }
        case Suspended(request) =>
          var deadline := ApprovalDeadline(setup.cfg, claim.envelope, now);
          queue.Apply(claim.id, Park(deadline, Some(request)), now);
        case Returned(output) =>
          queue.Apply(claim.id, AckWithResult(output), now);
      }
    }

    ghost predicate WorksWith(others: Others) {
      && others.api.queue == queue && others.api.graph == graph && others.api.cfg == setup.cfg
      && others.api.fleetReady && others.api.queueEnabled
    }

    predicate Production(turn: Turn) {
      && NoSmoke(turn.beforeSweep) && NoSmoke(turn.beforeApprovalSweep) && NoSmoke(turn.beforeDequeue)
      && NoSmoke(turn.duringGraph) && NoSmoke(turn.afterGraph)
    }

    lemma ReachableIsSound(w: World)
      requires Reachable(setup.cfg, START, w)
      ensures Inv(w.sys)
    {
      ReachableIsGood(setup.cfg, w);
    }

    /** The sweeps of a turn, and what others do before and between them. */
    method Sweep(turn: Turn, others: Others, start: Time, ghost w: World, ghost st: Stages) returns (now: Time)
      requires Shows(queue, graph, start, w) && w.hand.None? && Inv(w.sys) && Inv(st.ttlSwept.sys)
      requires WorksWith(others) && Production(turn) && InStages(setup, w, Throttled(), turn, st)
      modifies this`lastSweep, this`lastApprovalSweep, queue, graph
      ensures Shows(queue, graph, now, st.approvalsSwept)
      ensures Throttled() == NextThrottle(setup, old(Throttled()), turn)
    {
      now := others.Act(turn.beforeSweep, start, w);
      MaybeSweepExpired(turn.sweepClock, turn.sweepFails, now, Happened(setup.cfg, w, turn.beforeSweep));
      now := others.Act(turn.beforeApprovalSweep, now, st.ttlSwept);
      MaybeSweepExpiredApprovals(turn.approvalClock, turn.approvalSweepFails, now,
                                 Happened(setup.cfg, st.ttlSwept, turn.beforeApprovalSweep));
    }

    /** The part of a turn before the worker has a claim or has none. */
    method SweepAndTake(turn: Turn, others: Others, start: Time, ghost w: World, ghost st: Stages)
      returns (claim: Option<TaskClaim>, now: Time)
      requires Shows(queue, graph, start, w) && w.hand.None? && Reachable(setup.cfg, START, w)
      requires WorksWith(others) && Production(turn) && InStages(setup, w, Throttled(), turn, st)
      requires setup.timeout == queue.defaultVisibilityTimeout
      modifies this`lastSweep, this`lastApprovalSweep, queue, graph
      ensures Shows(queue, graph, now, st.taken) && claim == st.taken.hand
      ensures Throttled() == NextThrottle(setup, old(Throttled()), turn)
    {
      StagesAreReachable(setup, w, Throttled(), turn, st);
      ReachableIsSound(w);
      ReachableIsSound(st.ttlSwept);
      ReachableIsSound(st.approvalsSwept);
      now := Sweep(turn, others, start, w, st);
      claim, now := ActAndTake(turn, others, now, st);
    }

    method ActAndTake(turn: Turn, others: Others, start: Time, ghost st: Stages)
      returns (claim: Option<TaskClaim>, now: Time)
      requires Shows(queue, graph, start, st.approvalsSwept) && st.approvalsSwept.hand.None?
      requires Inv(st.approvalsSwept.sys) && WorksWith(others) && NoSmoke(turn.beforeDequeue)
      requires CanHappen(setup.cfg, st.approvalsSwept, turn.beforeDequeue)
      requires st.taken == Taken(setup, Happened(setup.cfg, st.approvalsSwept, turn.beforeDequeue), turn)
      requires setup.timeout == queue.defaultVisibilityTimeout
      modifies queue, graph
      ensures Shows(queue, graph, now, st.taken) && claim == st.taken.hand
    {
      now := others.Act(turn.beforeDequeue, start, st.approvalsSwept);
      if turn.dequeueFails {
        return None, now;
      }
      claim := TakeOne(now, Happened(setup.cfg, st.approvalsSwept, turn.beforeDequeue));
    }

    method TakeTurn(turn: Turn, others: Others, start: Time, ghost w: World, ghost st: Stages)
      returns (now: Time)
      requires Shows(queue, graph, start, w) && w.hand.None? && Reachable(setup.cfg, START, w)
      requires WorksWith(others) && Production(turn) && InStages(setup, w, Throttled(), turn, st)
      requires setup.timeout == queue.defaultVisibilityTimeout
      modifies this`lastSweep, this`lastApprovalSweep, queue, graph
      ensures Shows(queue, graph, now, TurnEnd(setup.cfg, st.taken, turn))
      ensures Throttled() == NextThrottle(setup, old(Throttled()), turn)
    {
      StagesAreReachable(setup, w, Throttled(), turn, st);
      var claim;
      claim, now := SweepAndTake(turn, others, start, w, st);
      if claim.Some? {
        ghost var ran := Happened(setup.cfg, st.taken, turn.duringGraph);
        HappenedIsReachable(setup.cfg, st.taken, turn.duringGraph);
        ReachableIsSound(st.taken);
        ReachableIsSound(ran);
        now := others.Act(turn.duringGraph, now, st.taken);
        now := HandleOne(claim.value, turn.outcome, others, turn.afterGraph, now, ran);
      }
    }

    /** The loop takes queue, checkpointer and clock through the given worlds to the last of them. */
    method Run(turns: seq<Turn>, others: Others, start: Time, ghost w: World, ghost sts: seq<Stages>,
               ghost w': World)
      returns (now: Time)
      requires Shows(queue, graph, start, w) && w.hand.None? && Reachable(setup.cfg, START, w)
      requires forall i :: 0 <= i < |turns| ==> Production(turns[i])
      requires WorksWith(others) && !stopping && Loops(setup, w, Throttled(), turns, sts, w')
      requires setup.timeout == queue.defaultVisibilityTimeout
      modifies this, queue, graph
      ensures Shows(queue, graph, now, w')
    {
      now := start;
      var i := 0;
      ghost var at := w;
      ghost var rest := sts;
      while i < |turns| && !stopping
        invariant 0 <= i <= |turns|
        invariant Shows(queue, graph, now, at) && at.hand.None? && Reachable(setup.cfg, START, at)
        invariant if stopping then w' == at else Loops(setup, at, Throttled(), turns[i..], rest, w')
      {
        assert turns[i..][1..] == turns[i + 1..];
        StagesAreReachable(setup, at, Throttled(), turns[i], rest[0]);
        TurnEndIsReachable(setup.cfg, rest[0].taken, turns[i]);
        now := TakeTurn(turns[i], others, now, at, rest[0]);
        at, rest := TurnEnd(setup.cfg, rest[0].taken, turns[i]), rest[1..];
        stopping := turns[i].stop;
        i := i + 1;
      }
    }
  }
}
