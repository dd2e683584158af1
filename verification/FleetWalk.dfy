/** The fleet graph (src/agents/graphs/fleet.py): its route maps, its routing functions, and the
    walks they allow when every node's output is arbitrary. */
module FleetWalk {
  import opened Options

  datatype Agent =
    | Triager | Historian | NoteMaker | Researcher | Coder | ErrandRunner | Supervisor | Reviewer
    | HomelabEngineer | NetworkOperator | StorageOperator | SmartHomeOperator | MlOperator
    | ObservabilityOperator | HealthTracker | PropertyCoordinator | DocWriter | Reporter | Artist
    | Security | Auditor

  const ALL_AGENTS := [
    Triager, Historian, NoteMaker, Researcher, Coder, ErrandRunner, Supervisor, Reviewer,
    HomelabEngineer, NetworkOperator, StorageOperator, SmartHomeOperator, MlOperator,
    ObservabilityOperator, HealthTracker, PropertyCoordinator, DocWriter, Reporter, Artist,
    Security, Auditor]

  lemma AllAgents(a: Agent)
    ensures a in ALL_AGENTS
  {
  }

  predicate Specialist(a: Agent) {
    a !in {Triager, Supervisor, ErrandRunner, Reporter}
  }

  /** The routing-relevant part of FleetState. */
  datatype State = State(
    target: Option<Agent>,
    cascade: nat,
    rejected: bool,
    approvalRequested: bool)

  const CASCADE_LIMIT := 2

  // ---- routing functions; None is END ----

  function RouteAfterTriage(s: State): Option<Agent> {
    if s.target.None? || s.target == Some(Triager) then None else s.target
  }

  function RouteAfterSpecialist(s: State): Option<Agent> {
    if s.rejected then Some(Supervisor)
    else if s.approvalRequested && s.target == Some(ErrandRunner) then Some(ErrandRunner)
    else None
  }

  function RouteAfterSupervisor(s: State): Option<Agent> {
    if s.target.None? || s.target == Some(Supervisor) then None else s.target
  }

  // ---- the route maps ----

  type RouteMap = map<Option<Agent>, Agent>

  /** Every agent outside `excluded` under its own name, and END re-targeted at the reporter. */
  function Routes(excluded: set<Agent>): RouteMap {
    Named(ALL_AGENTS, excluded)[None := Reporter]
  }

  /** Each node's conditional-edge map; errand-runner and reporter have a plain edge instead. */
  function RouteMapOf(at: Agent): RouteMap {
    if at == Triager then Routes({Triager})
    else if at == Supervisor then Routes({Triager, Supervisor})
    else map[Some(Supervisor) := Supervisor, Some(ErrandRunner) := ErrandRunner, None := Reporter]
  }

  function Named(agents: seq<Agent>, excluded: set<Agent>): RouteMap {
    map a | a in agents && a !in excluded :: Some(a) := a
  }

  method Fill(agents: seq<Agent>, excluded: set<Agent>) returns (m: RouteMap)
    ensures m == Named(agents, excluded)
  {
    m := map[];
    for i := 0 to |agents|
      invariant m == Named(agents[..i], excluded)
    {
      assert agents[..i + 1] == agents[..i] + [agents[i]];
      if agents[i] !in excluded {
        m := m[Some(agents[i]) := agents[i]];
      }
    }
    assert agents[..|agents|] == agents;
  }

  /** The conditional-edge maps, filled as `build_fleet_graph` fills them. */
  method BuildRouteMaps() returns (triage: RouteMap, specialist: RouteMap, supervisor: RouteMap)
    ensures triage == RouteMapOf(Triager)
    ensures supervisor == RouteMapOf(Supervisor)
    ensures forall a :: Specialist(a) ==> specialist == RouteMapOf(a)
  {
    triage := Fill(ALL_AGENTS, {Triager});
    triage := triage[None := Reporter];
    specialist := map[Some(Supervisor) := Supervisor, Some(ErrandRunner) := ErrandRunner, None := Reporter];
    supervisor := Fill(ALL_AGENTS, {Triager, Supervisor});
    supervisor := supervisor[None := Reporter];
  }

  // ---- one hop ----

  /** Broken when the router names a key the node's map lacks. */
  datatype Hop = To(next: Agent) | End | Broken

  function Via(route: Option<Agent>, mapped: bool): Hop {
    if route.None? then To(Reporter) else if mapped then To(route.value) else Broken
  }

  function Route(at: Agent, s: State): Option<Agent> {
    if at == Triager then RouteAfterTriage(s)
    else if at == Supervisor then RouteAfterSupervisor(s)
    else RouteAfterSpecialist(s)
  }

  /** The edge taken out of a node, from the state after it ran. */
  function Edge(at: Agent, s: State): Hop {
    match at
    case Triager => Via(Route(at, s), Route(at, s) != Some(Triager))
    case Supervisor => Via(Route(at, s), Route(at, s) !in {Some(Triager), Some(Supervisor)})
    case ErrandRunner => To(Reporter)
    case Reporter => End
    case _ => Via(Route(at, s), Route(at, s) in {Some(Supervisor), Some(ErrandRunner)})
  }

  /** ... which is what looking the route up in the node's map gives. */
  lemma EdgeIsALookup(at: Agent, s: State)
    requires at != ErrandRunner && at != Reporter
    ensures var r := Route(at, s);
      Edge(at, s) == if r in RouteMapOf(at) then To(RouteMapOf(at)[r]) else Broken
  {
    if Route(at, s).Some? {
      AllAgents(Route(at, s).value);
    }
  }

  /** Out of a specialist, from the state's fields alone: to the supervisor exactly on a rejection, to
      errand-runner exactly on a proposed action without one, and else to the reporter. */
  lemma SpecialistEdges(at: Agent, s: State)
    requires at !in {Triager, Supervisor, ErrandRunner, Reporter}
    ensures Edge(at, s) == To(Supervisor) <==> s.rejected
    ensures Edge(at, s) == To(ErrandRunner)
       <==> (!s.rejected && s.approvalRequested && s.target == Some(ErrandRunner))
    ensures Edge(at, s) in {To(Supervisor), To(ErrandRunner), To(Reporter)}
  {
  }

  /** Out of the other nodes: the triager sends the task to its target, the supervisor too, and what
      has none, or names the node itself, goes to the reporter. */
  lemma OtherEdges(s: State, a: Agent)
    ensures s.target == Some(a) && a != Triager ==> Edge(Triager, s) == To(a)
    ensures s.target in {None, Some(Triager)} ==> Edge(Triager, s) == To(Reporter)
    ensures s.target == Some(a) && a !in {Triager, Supervisor} ==> Edge(Supervisor, s) == To(a)
    ensures s.target in {None, Some(Supervisor)} ==> Edge(Supervisor, s) == To(Reporter)
    ensures s.target == Some(Triager) ==> Edge(Supervisor, s) == Broken
    ensures Edge(ErrandRunner, s) == To(Reporter) && Edge(Reporter, s) == End
  {
  }

  // ---- what a node may do to the state ----

  datatype Disposition = Reroute(newTarget: Option<Agent>) | EscalateToUser | AutoCancel | Wait

  /** `supervisor_node`, given the model's decision. */
  function Supervise(s: State, d: Disposition): State {
    if s.cascade >= CASCADE_LIMIT then s.(target := Some(Supervisor))
    else if d.Reroute? && d.newTarget.Some?
    then s.(target := d.newTarget, cascade := s.cascade + 1, rejected := false)
    else s
  }

  /** One visited node with the state before and after it. `decision` is the model's, and read by
      the supervisor only. */
  datatype Visit = Visit(at: Agent, before: State, after: State, decision: Disposition)

  /** The triager confirms a pinned target or sets one; specialists, errand-runner and reporter
      never touch the cascade count; the supervisor does what its code does. */
  predicate Output(v: Visit) {
    match v.at
    case Triager =>
      && v.after == v.before.(target := v.after.target)
      && (v.before.target.Some? ==> v.after.target == v.before.target)
    case Supervisor => v.after == Supervise(v.before, v.decision)
    case _ => v.after.cascade == v.before.cascade
  }

  predicate Linked(v: Visit, next: Visit) {
    Edge(v.at, v.after) == To(next.at) && next.before == v.after
  }

  /** Visit `i` is a possible one, and the next visit, if any, follows from it. */
  predicate Follows(vs: seq<Visit>, i: nat)
    requires i < |vs|
  {
    && Output(vs[i])
    && (i + 1 < |vs| ==> Linked(vs[i], vs[i + 1]))
  }

  /** A walk of the graph: any prefix of an execution. */
  predicate Walk(vs: seq<Visit>) {
    forall i {:trigger Follows(vs, i)} :: 0 <= i < |vs| ==> Follows(vs, i)
  }

  /** A thread that is retried starts from what its raised run left, a cascade count included. */
  predicate FromStart(vs: seq<Visit>) {
    vs != [] ==> vs[0].at == Triager && vs[0].before.cascade <= CASCADE_LIMIT
  }

  /** A supervisor visit below the limit that did not reroute: it leaves target and rejection as
      they were, so the task goes straight back where it came from. */
  predicate Stall(v: Visit) {
    v.at == Supervisor && v.before.cascade < CASCADE_LIMIT && v.after.cascade == v.before.cascade
  }

  function Stalls(vs: seq<Visit>): nat {
    if vs == [] then 0 else (if Stall(vs[0]) then 1 else 0) + Stalls(vs[1..])
  }

  // ---- bounds ----

  /** `cascade_count` never passes the limit, whatever the models decide. */
  lemma {:induction false} CascadeNeverExceedsLimit(vs: seq<Visit>, i: nat)
    requires Walk(vs) && FromStart(vs) && i < |vs|
    ensures vs[i].before.cascade <= CASCADE_LIMIT && vs[i].after.cascade <= CASCADE_LIMIT
    decreases i
  {
    if i > 0 {
      CascadeNeverExceedsLimit(vs, i - 1);
      assert Follows(vs, i - 1);
    }
    assert Follows(vs, i);
  }

  /** The most nodes a walk can still visit, counting this one, if no supervisor stalls. */
  function Remaining(at: Agent, cascade: nat): nat
    requires cascade <= CASCADE_LIMIT
  {
    match at
    case Reporter => 1
    case ErrandRunner => 2
    case Supervisor => 2 + 2 * (CASCADE_LIMIT - cascade)
    case Triager => 4 + 2 * (CASCADE_LIMIT - cascade)
    case _ => 3 + 2 * (CASCADE_LIMIT - cascade)
  }

  /** Every hop lowers the measure by at least one, except out of a stall, where it may rise by one. */
  lemma HopPays(v: Visit, next: Visit)
    requires Output(v) && Linked(v, next)
    requires v.before.cascade <= CASCADE_LIMIT
    ensures next.before.cascade <= CASCADE_LIMIT && next.at != Triager
    ensures Remaining(next.at, next.before.cascade) + 1
      <= Remaining(v.at, v.before.cascade) + (if Stall(v) then 2 else 0)
  {
  }

  lemma {:induction false} WalkIsBounded(vs: seq<Visit>)
    requires Walk(vs) && vs != [] && vs[0].before.cascade <= CASCADE_LIMIT
    ensures |vs| <= Remaining(vs[0].at, vs[0].before.cascade) + 2 * Stalls(vs)
    decreases |vs|
  {
    if |vs| > 1 {
      assert Follows(vs, 0);
      HopPays(vs[0], vs[1]);
      TailIsAWalk(vs);
      WalkIsBounded(vs[1..]);
    }
  }

  lemma TailIsAWalk(vs: seq<Visit>)
    requires Walk(vs) && vs != []
    ensures Walk(vs[1..])
  {
    forall i | 0 <= i < |vs| - 1
      ensures Follows(vs[1..], i)
    {
      assert Follows(vs, i + 1);
    }
  }

  /** Termination, with its exact price: a walk visits at most 8 nodes plus 2 for each stall, and 2
      fewer for each cascade step an earlier run left behind. If every supervisor decision below the
      limit is a reroute with a target, that is 8. */
  lemma FleetWalkTerminates(vs: seq<Visit>)
    requires Walk(vs) && FromStart(vs)
    ensures vs != [] ==> |vs| <= 8 - 2 * vs[0].before.cascade + 2 * Stalls(vs)
    ensures (forall i :: 0 <= i < |vs| ==> !Stall(vs[i])) ==> |vs| <= 8
  {
    if vs != [] {
      WalkIsBounded(vs);
      if forall i :: 0 <= i < |vs| ==> !Stall(vs[i]) {
        NoStalls(vs);
      }
    }
  }

  lemma {:induction false} NoStalls(vs: seq<Visit>)
    requires forall i :: 0 <= i < |vs| ==> !Stall(vs[i])
    ensures Stalls(vs) == 0
  {
    if vs != [] {
      NoStalls(vs[1..]);
    }
  }

  /** Reporter is the only node with an edge to END, nothing follows it, and no walk returns to the
      triager. */
  lemma ReporterIsLast(vs: seq<Visit>, i: nat)
    requires Walk(vs) && i < |vs|
    ensures Edge(vs[i].at, vs[i].after) == End <==> vs[i].at == Reporter
    ensures vs[i].at == Reporter ==> i == |vs| - 1
    ensures i > 0 ==> vs[i].at != Triager
  {
    assert Follows(vs, i);
    if i > 0 {
      assert Follows(vs, i - 1);
    }
  }

  // ---- where a walk breaks ----

  /** Below the limit, a supervisor asked for the triager: by a reroute, or by a decision that is no
      reroute while the triager is the target already. Its prompt offers the triager; its route map
      lacks it. */
  predicate AsksForTriager(v: Visit) {
    && v.at == Supervisor && v.before.cascade < CASCADE_LIMIT
    && Some(Triager) == (if v.decision.Reroute? && v.decision.newTarget.Some?
                         then v.decision.newTarget else v.before.target)
  }

  lemma BreaksExactlyOnTriager(v: Visit)
    requires Output(v)
    ensures Edge(v.at, v.after) == Broken <==> AsksForTriager(v)
  {
  }

  /** No further hop. */
  predicate Complete(vs: seq<Visit>) {
    Walk(vs) && FromStart(vs) && vs != [] && !Edge(vs[|vs| - 1].at, vs[|vs| - 1].after).To?
  }

  /** A walk that cannot go on has reached the reporter exactly if no supervisor on it asked for the
      triager. */
  lemma EndsAtReporterExactlyUnless(vs: seq<Visit>)
    requires Complete(vs)
    ensures vs[|vs| - 1].at == Reporter <==> forall i :: 0 <= i < |vs| ==> !AsksForTriager(vs[i])
  {
    var last := |vs| - 1;
    assert Follows(vs, last);
    BreaksExactlyOnTriager(vs[last]);
    forall i | 0 <= i < |vs| && AsksForTriager(vs[i])
      ensures i == last
    {
      assert Follows(vs, i);
      BreaksExactlyOnTriager(vs[i]);
    }
  }

  /** What the specialists, errand-runner and reporter do to the target: leave it, or name
      errand-runner. */
  predicate KeepsTarget(v: Visit) {
    v.at in {Triager, Supervisor} || v.after.target in {v.before.target, Some(ErrandRunner)}
  }

  lemma {:induction false} TargetIsNotTriager(vs: seq<Visit>, i: nat)
    requires Walk(vs) && FromStart(vs) && i < |vs| && forall k :: 0 <= k < |vs| ==> KeepsTarget(vs[k])
    ensures vs[i].at !in {Triager, Reporter} ==> vs[i].before.target !in {None, Some(Triager)}
    decreases i
  {
    if i > 0 {
      TargetIsNotTriager(vs, i - 1);
      assert Follows(vs, i - 1) && KeepsTarget(vs[i - 1]);
    }
  }

  /** With such nodes only the decision counts: a walk breaks exactly on a reroute to the triager. */
  lemma OnlyTheDecisionBreaks(vs: seq<Visit>)
    requires Complete(vs) && forall k :: 0 <= k < |vs| ==> KeepsTarget(vs[k])
    ensures vs[|vs| - 1].at == Reporter <==>
      forall i :: 0 <= i < |vs| && vs[i].at == Supervisor && vs[i].before.cascade < CASCADE_LIMIT
        ==> vs[i].decision != Reroute(Some(Triager))
  {
    EndsAtReporterExactlyUnless(vs);
    forall i | 0 <= i < |vs| && vs[i].at == Supervisor && vs[i].before.cascade < CASCADE_LIMIT
      ensures AsksForTriager(vs[i]) <==> vs[i].decision == Reroute(Some(Triager))
    {
      TargetIsNotTriager(vs, i);
    }
  }

  /** A walk that breaks: the coder rejects and the supervisor reroutes to the triager. */
  lemma BreakingWalk() returns (vs: seq<Visit>)
    ensures Complete(vs) && vs[|vs| - 1].at == Supervisor
    ensures forall k :: 0 <= k < |vs| ==> KeepsTarget(vs[k])
  {
    vs := [
      Visit(Triager, At(0, false), At(0, false), Wait),
      Visit(Coder, At(0, false), At(0, true), Wait),
      Visit(Supervisor, At(0, true), At(1, false).(target := Some(Triager)), Reroute(Some(Triager)))];
    forall i | 0 <= i < |vs|
      ensures Follows(vs, i)
    {
    }
  }

  /** A pinned target is where the triager sends the task. */
  lemma PinnedTasksGoThere(vs: seq<Visit>, a: Agent)
    requires Walk(vs) && FromStart(vs) && |vs| > 1 && vs[0].before.target == Some(a)
    ensures vs[1].at == if a == Triager then Reporter else a
  {
    assert Follows(vs, 0);
  }

  // ---- proposals ----

  /** A specialist's visit that proposes an action for errand-runner. */
  predicate Proposes(v: Visit) {
    && v.at !in {Triager, Supervisor, ErrandRunner, Reporter}
    && !v.after.rejected && v.after.approvalRequested && v.after.target == Some(ErrandRunner)
  }

  /** In a walk that cannot go on, a proposal is followed by errand-runner, then the reporter, and
      nothing else. */
  lemma ProposalsReachErrandRunner(vs: seq<Visit>, i: nat)
    requires Complete(vs) && i < |vs| && Proposes(vs[i])
    ensures |vs| == i + 3 && vs[i + 1].at == ErrandRunner && vs[i + 2].at == Reporter
  {
    assert Follows(vs, i);
    SpecialistEdges(vs[i].at, vs[i].after);
    if i + 1 < |vs| {
      assert Follows(vs, i + 1);
      if i + 2 < |vs| {
        assert Follows(vs, i + 2);
      }
    }
  }

  /** For every specialist there is such a walk. */
  lemma EverySpecialistCanPropose(a: Agent) returns (vs: seq<Visit>)
    requires a !in {Triager, Supervisor, ErrandRunner, Reporter}
    ensures Complete(vs) && |vs| == 4 && vs[1].at == a && Proposes(vs[1])
    ensures forall k :: 0 <= k < |vs| ==> KeepsTarget(vs[k])
  {
    var pinned := State(Some(a), 0, false, false);
    var proposed := State(Some(ErrandRunner), 0, false, true);
    vs := [
      Visit(Triager, pinned, pinned, Wait),
      Visit(a, pinned, proposed, Wait),
      Visit(ErrandRunner, proposed, proposed, Wait),
      Visit(Reporter, proposed, proposed, Wait)];
    forall i | 0 <= i < |vs|
      ensures Follows(vs, i)
    {
    }
  }

  // ---- the nodes as they stand ----

  /** No node of the repository sets a rejection. */
  predicate NeverRejects(v: Visit) {
    v.after.rejected ==> v.before.rejected
  }

  /** The most nodes still to come when nobody rejects. */
  function Height(at: Agent): nat {
    match at
    case Triager => 5
    case Supervisor => 4
    case ErrandRunner => 2
    case Reporter => 1
    case _ => 3
  }

  lemma {:induction false} NobodyRejected(vs: seq<Visit>, i: nat)
    requires Walk(vs) && i < |vs| && !vs[0].before.rejected && forall k :: 0 <= k < |vs| ==> NeverRejects(vs[k])
    ensures !vs[i].before.rejected && !vs[i].after.rejected
    decreases i
  {
    assert NeverRejects(vs[i]);
    if i > 0 {
      NobodyRejected(vs, i - 1);
      assert Follows(vs, i - 1);
    }
  }

  lemma {:induction false} HeightDrops(vs: seq<Visit>, i: nat, j: nat)
    requires Walk(vs) && i <= j < |vs| && !vs[0].before.rejected
    requires forall k :: 0 <= k < |vs| ==> NeverRejects(vs[k])
    ensures Height(vs[j].at) + (j - i) <= Height(vs[i].at)
    decreases j - i
  {
    if i < j {
      HeightDrops(vs, i, j - 1);
      NobodyRejected(vs, j - 1);
      assert Follows(vs, j - 1);
    }
  }

  /** So a walk visits at most five nodes, none of them twice, whatever the models decide: only the
      triager leads to the supervisor, which is then its own target, and a stall there goes to the
      reporter. */
  lemma NodesAsTheyStand(vs: seq<Visit>)
    requires Walk(vs) && FromStart(vs) && (vs != [] ==> !vs[0].before.rejected)
    requires forall k :: 0 <= k < |vs| ==> NeverRejects(vs[k])
    ensures |vs| <= 5
    ensures forall i, j :: 0 <= i < j < |vs| ==> vs[i].at != vs[j].at
  {
    if vs != [] {
      HeightDrops(vs, 0, |vs| - 1);
    }
    forall i, j | 0 <= i < j < |vs|
      ensures vs[i].at != vs[j].at
    {
      HeightDrops(vs, i, j);
    }
  }

  // ---- the bound is attained: without it, no bound ----

  function At(cascade: nat, rejected: bool): State {
    State(Some(Coder), cascade, rejected, false)
  }

  const BOUNCE := Visit(Coder, At(0, true), At(0, true), Wait)
  const WAIT := Visit(Supervisor, At(0, true), At(0, true), Wait)

  /** The longest stall-free ending of a walk, once the coder has rejected for the first time. */
  function LongestEnding(): seq<Visit> {
    [Visit(Supervisor, At(0, true), At(1, false), Reroute(Some(Coder))),
     Visit(Coder, At(1, false), At(1, true), Wait),
     Visit(Supervisor, At(1, true), At(2, false), Reroute(Some(Coder))),
     Visit(Coder, At(2, false), At(2, true), Wait),
     Visit(Supervisor, At(2, true), At(2, true).(target := Some(Supervisor)), Wait),
     Visit(Reporter, At(2, true).(target := Some(Supervisor)), At(2, true), Wait)]
  }

  /** The supervisor waits, the coder runs again and rejects again: `k` times before the ending. */
  function Lasso(k: nat, ending: seq<Visit>): seq<Visit> {
    if k == 0 then ending else [WAIT, BOUNCE] + Lasso(k - 1, ending)
  }

  lemma LongestEndingWalks()
    ensures Walk(LongestEnding()) && Stalls(LongestEnding()) == 0
  {
    forall i | 0 <= i < |LongestEnding()|
      ensures Follows(LongestEnding(), i)
    {
    }
    NoStalls(LongestEnding());
  }

  lemma {:induction false} LassoWalks(k: nat, ending: seq<Visit>)
    requires Walk(ending) && ending != []
    requires ending[0].at == Supervisor && ending[0].before == At(0, true)
    ensures var vs := Lasso(k, ending);
      && Walk(vs) && |vs| == |ending| + 2 * k && Stalls(vs) == k + Stalls(ending)
      && vs[0].at == Supervisor && vs[0].before == At(0, true)
      && vs[|vs| - 1] == ending[|ending| - 1]
  {
    if k > 0 {
      var rest := Lasso(k - 1, ending);
      LassoWalks(k - 1, ending);
      Prepend(BOUNCE, rest);
      Prepend(WAIT, [BOUNCE] + rest);
      assert Lasso(k, ending) == [WAIT] + ([BOUNCE] + rest);
    }
  }

  lemma Prepend(v: Visit, vs: seq<Visit>)
    requires Walk(vs) && vs != [] && Output(v) && Linked(v, vs[0])
    ensures Walk([v] + vs) && Stalls([v] + vs) == (if Stall(v) then 1 else 0) + Stalls(vs)
  {
    var all := [v] + vs;
    forall i | 0 <= i < |all|
      ensures Follows(all, i)
    {
      if i > 0 {
        assert Follows(vs, i - 1);
      }
    }
    assert all[1..] == vs;
  }

  /** The coder's first, rejected, run in front of a walk that starts at the supervisor. */
  lemma FromTheTriager(body: seq<Visit>) returns (vs: seq<Visit>)
    requires Walk(body) && body != [] && body[0].at == Supervisor && body[0].before == At(0, true)
    ensures Walk(vs) && FromStart(vs) && Stalls(vs) == Stalls(body)
    ensures |vs| == |body| + 2 && vs[|vs| - 1] == body[|body| - 1]
  {
    var coder := Visit(Coder, At(0, false), At(0, true), Wait);
    var triager := Visit(Triager, At(0, false), At(0, false), Wait);
    Prepend(coder, body);
    Prepend(triager, [coder] + body);
    vs := [triager] + ([coder] + body);
  }

  /** For every `k` there is a complete walk with `k` stalls that visits exactly 8 + 2k nodes: the
      bound is tight, so no bound holds that does not count stalls. */
  lemma StallsAreThePrice(k: nat) returns (vs: seq<Visit>)
    ensures Walk(vs) && FromStart(vs) && Stalls(vs) == k
    ensures |vs| == 8 + 2 * k && vs[|vs| - 1].at == Reporter
  {
    var ending := LongestEnding();
    LongestEndingWalks();
    LassoWalks(k, ending);
    vs := FromTheTriager(Lasso(k, ending));
  }
}
