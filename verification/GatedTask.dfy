/** The queue and the approval gate together: where the resumed graph of a task stops is decided by
    the errand-runner's gate, so the task's row tells what its gate has done. Verdicts are handled
    one at a time. */
module GatedTask {
  import opened Options
  import opened TaskTables
  import opened QueueHistory
  import opened QueueWorld
  import opened QueueStarvation
  import opened QueueTimers
  import opened LateVerdicts
  import Runner = ErrandRunner

  /** An event of the world; for a verdict on the task, what was posted, and whether LangGraph keeps
      it when the resume raises. */
  datatype Posted = Posted(event: WorldEvent, verdict: Runner.Verdict, kept: bool)

  /** The task, the request its gate guards, and the runner's environment. */
  datatype Case = Case(cfg: Config, id: TaskId, env: Runner.Env, input: Runner.Input)

  /** The world, and for the task's thread: the verdicts stored, whether the end of its gate is on
      record, whether a result was ever lost after the gate had ended, and what was fed to each run
      that issued the call. */
  datatype Gated = Gated(
    world: World,
    stored: seq<Runner.Verdict>,
    ended: bool,
    lost: bool,
    calls: seq<seq<Runner.Verdict>>)

  const BEGIN := Gated(START, [], false, false, [])

  function Gate(c: Case, vs: seq<Runner.Verdict>): Runner.Gate {
    Runner.Machine(c.env, c.input, vs)
  }

  predicate Raising(g: Runner.Gate) {
    g.Over? && g.outcome.DigestRaised?
  }

  predicate Through(g: Runner.Gate) {
    g.Over? && !g.outcome.DigestRaised?
  }

  predicate Answers(c: Case, g: Gated, p: Posted) {
    p.event.Verdict? && p.event.id == c.id && ThreadOf(g.world, c.id).Paused?
  }

  predicate Settles(c: Case, g: Gated, p: Posted) {
    p.event.Settle? && g.world.hand.Some? && g.world.hand.value.id == c.id
  }

  /** The graph does with the task what its gate does: it stops at an interrupt only while the gate
      waits and runs out only when it is through. It may raise at any time: in the gate, behind it,
      or for want of a checkpoint, with or without the interrupt still shown. */
  ghost predicate Obeys(c: Case, g: Gated, p: Posted) {
    && Enabled(g.world, p.event)
    && (Answers(c, g, p) ==>
          match p.event.resumed
          case StillPaused => !Gate(c, g.stored + [p.verdict]).Over?
          case RanOut(_) => Through(Gate(c, g.stored + [p.verdict]))
          case Crashed(_) => true)
    && (Settles(c, g, p) && p.event.outcome.Suspended? ==> !Gate(c, []).Over?)
  }

  ghost function Next(c: Case, g: Gated, p: Posted): Gated
    requires Obeys(c, g, p)
  {
    var w := After(c.cfg, g.world, p.event);
    if Answers(c, g, p) then
      var vs := g.stored + [p.verdict];
      Gated(w,
            if p.event.resumed.Crashed? && !p.kept then g.stored else vs,
            p.event.resumed.RanOut?,
            g.lost || (p.event.resumed == Crashed(true) && Through(Gate(c, vs))),
            if Runner.Calls(c.env, c.input, vs) then g.calls + [vs] else g.calls)
    else if Settles(c, g, p) then Gated(w, [], false, false, [])
    else g.(world := w)
  }

  ghost predicate AllObey(c: Case, g: Gated, ps: seq<Posted>)
    decreases |ps|
  {
    ps == [] || (Obeys(c, g, ps[0]) && AllObey(c, Next(c, g, ps[0]), ps[1..]))
  }

  ghost function End(c: Case, g: Gated, ps: seq<Posted>): Gated
    requires AllObey(c, g, ps)
    decreases |ps|
  {
    if ps == [] then g else End(c, Next(c, g, ps[0]), ps[1..])
  }

  predicate LastSuspended(outs: seq<Outcome>) {
    outs != [] && outs[|outs| - 1].Suspended?
  }

  // ---- the invariant ----

  /** Every run that called had been fed verdicts that make the machine call. */
  ghost predicate CallsWereDue(c: Case, g: Gated) {
    forall k :: 0 <= k < |g.calls| ==> Runner.Calls(c.env, c.input, g.calls[k])
  }

  /** The end is on record exactly for a thread that finished after a stop at the gate; while the
      thread is paused and nothing was lost, the gate waits or would raise again, and nothing has been
      called; and two calls take a lost result. */
  ghost predicate InStep(c: Case, g: Gated) {
    && CallsWereDue(c, g)
    && (|g.calls| > 1 ==> g.lost)
    && (g.ended ==> Through(Gate(c, g.stored)))
    && match ThreadOf(g.world, c.id)
       case Paused => !g.ended && (!g.lost ==> g.calls == [] && !Through(Gate(c, g.stored)))
       case Finished(_) =>
         LastSuspended(OutcomesOf(g.world, c.id)) ==>
           g.ended && (!g.lost ==> g.calls == if Runner.Calls(c.env, c.input, g.stored) then [g.stored] else [])
       case _ => true
  }

  lemma NotConcernedStaysInStep(c: Case, g: Gated, p: Posted)
    requires InStep(c, g) && Obeys(c, g, p) && !Concerns(g.world, p.event, c.id)
    ensures InStep(c, Next(c, g, p))
  {
    ThreadUntouched(c.cfg, g.world, p.event, c.id);
  }

  lemma AnswerStaysInStep(c: Case, g: Gated, p: Posted)
    requires InStep(c, g) && Obeys(c, g, p) && Answers(c, g, p)
    ensures InStep(c, Next(c, g, p))
  {
    var vs := g.stored + [p.verdict];
    Runner.FoldAppend(c.env, c.input, Runner.Begin(c.env, c.input), g.stored, p.verdict);
    VerdictViews(c.cfg, g.world, c.id, p.event.resumed);
    var g' := Next(c, g, p);
    assert ThreadOf(g'.world, c.id) == ResumedThread(p.event.resumed);
    forall k | 0 <= k < |g'.calls|
      ensures Runner.Calls(c.env, c.input, g'.calls[k])
    {
    }
  }

  lemma SettleStaysInStep(c: Case, g: Gated, p: Posted)
    requires InStep(c, g) && Obeys(c, g, p) && Settles(c, g, p)
    ensures InStep(c, Next(c, g, p))
  {
    var outs := OutcomesOf(g.world, c.id) + [p.event.outcome];
    assert OutcomesOf(Next(c, g, p).world, c.id) == outs;
    assert outs[|outs| - 1] == p.event.outcome;
  }

  lemma StaysInStep(c: Case, g: Gated, p: Posted)
    requires InStep(c, g) && Obeys(c, g, p)
    ensures InStep(c, Next(c, g, p))
  {
    if Answers(c, g, p) {
      AnswerStaysInStep(c, g, p);
    } else if Settles(c, g, p) {
      SettleStaysInStep(c, g, p);
    } else if !Concerns(g.world, p.event, c.id) {
      NotConcernedStaysInStep(c, g, p);
    } else {
      assert ThreadOf(After(c.cfg, g.world, p.event), c.id) == ThreadOf(g.world, c.id);
      assert OutcomesOf(After(c.cfg, g.world, p.event), c.id) == OutcomesOf(g.world, c.id);
    }
  }

  lemma {:induction false} EndsInStep(c: Case, g: Gated, ps: seq<Posted>)
    requires InStep(c, g) && AllObey(c, g, ps) && WorldInv(c.cfg, g.world)
    ensures InStep(c, End(c, g, ps)) && WorldInv(c.cfg, End(c, g, ps).world)
    decreases |ps|
  {
    if ps != [] {
      StaysInStep(c, g, ps[0]);
      EventKeeps(c.cfg, g.world, ps[0].event);
      EndsInStep(c, Next(c, g, ps[0]), ps[1..]);
    }
  }

  // ---- what the row says ----

  /** After any run, the row of a task that stopped at its gate, and whose thread no raising resume
      broke, tells what is on record of the gate: it is done exactly once the end of the gate is, and
      parked until then. Unless a result was lost it tells what the gate has done: while it is parked
      the gate waits for a verdict or would raise again and nothing has been called; once it is done
      the gate is through, and its call was issued once, exactly if the stored verdicts say so. */
  lemma RowTellsTheGate(c: Case, ps: seq<Posted>)
    requires AllObey(c, BEGIN, ps)
    requires var w := End(c, BEGIN, ps).world;
      c.id in w.sys.tables.queue && LastSuspended(OutcomesOf(w, c.id)) && !ThreadOf(w, c.id).Broken?
    ensures var g := End(c, BEGIN, ps); var row := g.world.sys.tables.queue[c.id]; var gate := Gate(c, g.stored);
      && (row.status.Done? <==> g.ended) && (row.status.AwaitingApproval? <==> !g.ended)
      && (g.ended ==> Through(gate))
      && (!g.lost ==>
            && (g.ended <==> Through(gate))
            && g.calls == if Through(gate) && gate.outcome.Called? then [g.stored] else [])
  {
    StartIsGood(c.cfg);
    EndsInStep(c, BEGIN, ps);
    StoppedRow(c.cfg, End(c, BEGIN, ps).world, c.id);
  }

  /** A task whose last run stopped at an interrupt is parked or done, and its thread says which. */
  lemma StoppedRow(cfg: Config, w: World, id: TaskId)
    requires WorldInv(cfg, w) && id in w.sys.tables.queue && LastSuspended(OutcomesOf(w, id))
    ensures var status := w.sys.tables.queue[id].status; var thread := ThreadOf(w, id);
      && (status.AwaitingApproval? <==> thread.Paused? || thread.Broken?)
      && (status.Done? <==> thread.Finished?) && (status.Done? || status.AwaitingApproval?)
  {
    assert GoodAt(cfg, w, id);
    assert !OutcomesOf(w, id)[|OutcomesOf(w, id)| - 1].Raised?;
  }

  /** Every call ever issued for the task had every approval it needed, two for a request that is
      flagged or reads as deleting a namespace, on a token signed for it; and unless a result was lost there was at most one, and its thread is no longer paused. */
  lemma CalledMeansApproved(c: Case, ps: seq<Posted>, k: nat)
    requires AllObey(c, BEGIN, ps) && Runner.ApprovalToken.HexMac(c.env.mac, c.env.secret)
    requires k < |End(c, BEGIN, ps).calls|
    ensures var g := End(c, BEGIN, ps);
      && c.input.request.Some? && c.input.preset != Some(false)
      && var req := c.input.request.value; var ds := Runner.Decisions(g.calls[k]);
      && Runner.Granted(ds, Runner.Needed(c.input))
      && (c.input.preset.None? || Runner.Dangerous(req) ==> ds != [] && ds[0].granted)
      && (c.input.preset.None? && Runner.Dangerous(req) ==> |ds| >= 2 && ds[1].granted)
      && '.' in req.target
      && var (server, m) := Runner.Text.CutFirst(req.target, '.');
      && c.env.allowed(server, m)
      && Runner.SignedFor(c.env, c.input, req, Runner.Presented(c.input, ds), server, m)
      && (!g.lost ==> |g.calls| == 1 && !ThreadOf(g.world, c.id).Paused?)
  {
    StartIsGood(c.cfg);
    EndsInStep(c, BEGIN, ps);
    var g := End(c, BEGIN, ps);
    var called := Gate(c, g.calls[k]).outcome;
    Runner.ExecutesExactlyWhenApproved(c.env, c.input, g.calls[k], called.server, called.method_);
    Runner.DangerousCallsTakeTwo(c.env, c.input, g.calls[k]);
    Runner.Text.CutFirstIsUnique(called.server, '.', called.method_);
  }

  // ---- executing what has expired ----

  ghost predicate Occurs(c: Case, g: Gated) {
    exists ps :: Leads(c, BEGIN, ps, g)
  }

  ghost predicate Leads(c: Case, start: Gated, ps: seq<Posted>, g: Gated) {
    AllObey(c, start, ps) && End(c, start, ps) == g
  }

  lemma {:induction false} OnePosted(c: Case, start: Gated, ps: seq<Posted>, p: Posted)
    requires AllObey(c, start, ps) && Obeys(c, End(c, start, ps), p)
    ensures AllObey(c, start, ps + [p]) && End(c, start, ps + [p]) == Next(c, End(c, start, ps), p)
    decreases |ps|
  {
    if ps == [] {
      assert [p][1..] == [];
    } else {
      OnePosted(c, Next(c, start, ps[0]), ps[1..], p);
      assert (ps + [p])[1..] == ps[1..] + [p];
    }
  }

  lemma Post(c: Case, g: Gated, p: Posted) returns (g': Gated)
    requires Occurs(c, g) && Obeys(c, g, p)
    ensures g' == Next(c, g, p) && Occurs(c, g')
  {
    var ps :| Leads(c, BEGIN, ps, g);
    OnePosted(c, BEGIN, ps, p);
    g' := Next(c, g, p);
    assert Leads(c, BEGIN, ps + [p], g');
  }

  lemma Event(c: Case, g: Gated, e: WorldEvent) returns (g': Gated)
    requires Occurs(c, g) && Enabled(g.world, e) && !e.Verdict? && !(e.Settle? && e.outcome.Suspended?)
    ensures Occurs(c, g') && g'.world == After(c.cfg, g.world, e)
    ensures !e.Settle? ==> g' == g.(world := g'.world)
  {
    g' := Post(c, g, Posted(e, Runner.Verdict(true, false, None), false));
  }

  /** Parked, its approval lapsed, its thread still paused, no verdict yet. */
  ghost predicate LapsedUnanswered(c: Case, g: Gated) {
    && ApprovalExpired(g.world, c.id) && c.id !in g.world.sys.tables.queue
    && ThreadOf(g.world, c.id).Paused?
    && !g.ended && !g.lost && g.calls == []
  }

  lemma SomeApprovalLapses(c: Case, envelope: Envelope) returns (g: Gated)
    requires !HasTtl(envelope) && !Gate(c, []).Over?
    ensures Occurs(c, g) && LapsedUnanswered(c, g) && g.stored == []
  {
    assert Leads(c, BEGIN, [], BEGIN);
    var g1 := Event(c, BEGIN, Submit(c.id, envelope));
    OnlyRow(c.cfg, c.id, envelope);
    var g2 := Event(c, g1, Take("worker", 300));
    assert g2.world.hand.Some? && g2.world.hand.value.id == c.id && c.id in g2.world.sys.tables.queue;
    AfterInterrupt(c.cfg, g2.world, "");
    var g3 := Post(c, g2, Posted(Settle(Suspended("")), Runner.Verdict(true, false, None), false));
    g := Lapse(c, g3);
  }

  lemma Lapse(c: Case, g: Gated) returns (g': Gated)
    requires Occurs(c, g) && g.world.hand.None? && ThreadOf(g.world, c.id).Paused?
    requires c.id in g.world.sys.tables.queue && c.id !in g.world.sys.tables.dlq
    requires g.world.sys.tables.queue[c.id].status.AwaitingApproval?
    requires g.world.sys.tables.queue[c.id].approvalAt.Some?
    requires g.stored == [] && !g.ended && !g.lost && g.calls == []
    ensures Occurs(c, g') && LapsedUnanswered(c, g') && g'.stored == []
  {
    var w := g.world;
    var late := w.sys.tables.queue[c.id].approvalAt.value - w.sys.now + 1;
    var delta := if late > 0 then late else 0;
    AfterLapse(c.cfg, w, c.id, delta);
    var g1 := Event(c, g, Pass(delta));
    g' := Event(c, g1, SweepApprovals);
  }

  /** Verdicts posted after that: as many as the gate needs, and it is through. */
  lemma {:induction false} AnswerLate(c: Case, g: Gated, vs: seq<Runner.Verdict>) returns (g': Gated)
    requires Occurs(c, g) && LapsedUnanswered(c, g)
    requires !Gate(c, g.stored).Over? && Runner.Calls(c.env, c.input, g.stored + vs)
    ensures Occurs(c, g') && ApprovalExpired(g'.world, c.id) && ThreadOf(g'.world, c.id).Finished?
    ensures Gate(c, g'.stored) == Gate(c, g.stored + vs) && g'.calls == [g'.stored]
    decreases |vs|
  {
    assert g.stored + [] == g.stored;
    assert vs != [];
    var now := g.stored + [vs[0]];
    assert g.stored + vs == now + vs[1..];
    AfterLateVerdicts(c.cfg, g.world, c.id);
    if Gate(c, now).Over? {
      FoldConcat(c, now, vs[1..]);
      Runner.OverIsFinal(c.env, c.input, Gate(c, now).outcome, vs[1..]);
      g' := Post(c, g, Posted(Verdict(c.id, RanOut(None)), vs[0], true));
    } else {
      var g1 := Post(c, g, Posted(Verdict(c.id, StillPaused), vs[0], true));
      g' := AnswerLate(c, g1, vs[1..]);
    }
  }

  lemma {:induction false} FoldConcat(c: Case, a: seq<Runner.Verdict>, b: seq<Runner.Verdict>)
    ensures Gate(c, a + b) == Runner.Fold(c.env, c.input, Gate(c, a), b)
    decreases |b|
  {
    if b == [] {
      assert a + b == a;
    } else {
      assert a + b == (a + [b[0]]) + b[1..];
      FoldConcat(c, a + [b[0]], b[1..]);
      Runner.FoldAppend(c.env, c.input, Runner.Begin(c.env, c.input), a, b[0]);
    }
  }

  /** For any request that waits for a verdict and any verdicts on which its gate calls: a run exists
      that ends with the task dead-lettered as approval-expired and its call issued after that. */
  lemma ExpiredApprovalsCall(c: Case, envelope: Envelope, vs: seq<Runner.Verdict>) returns (g: Gated)
    requires !HasTtl(envelope) && !Gate(c, []).Over? && Runner.Calls(c.env, c.input, vs)
    ensures Occurs(c, g) && ApprovalExpired(g.world, c.id)
    ensures Gate(c, g.stored) == Gate(c, vs) && g.calls == [g.stored]
  {
    var g0 := SomeApprovalLapses(c, envelope);
    assert [] + vs == vs;
    g := AnswerLate(c, g0, vs);
  }
}
