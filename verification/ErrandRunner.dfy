/** The errand-runner node (src/agents/nodes/errand_runner.py) under replay. Each resume re-runs
    the node from the top and feeds it the stored verdicts in order; `interrupt()` returns the next
    one, or pauses the thread when there is none left. */
module ErrandRunner {
  import opened Options
  import opened Text
  import opened ApprovalToken

  datatype Request = Request(
    actionClass: string,
    target: string,
    summary: string,
    undoPath: Option<string>,
    requiresTwoPerson: bool)

  /** The state fields the node reads. `preset` is `approval_granted` at node entry. */
  datatype Input = Input(
    taskId: string,
    request: Option<Request>,
    preset: Option<bool>,
    presetToken: Option<string>)

  /** The allowlist, the MAC and the signing secret. */
  datatype Env = Env(allowed: (string, string) -> bool, mac: Mac, secret: string)

  datatype Verdict = Verdict(deferred: bool, granted: bool, token: Option<string>)

  datatype Outcome =
    | NoRequest
    | Rejected
    | SecondDenied
    | MalformedTarget
    | NotAllowed
    | BadToken
    | DigestRaised                              // the node raises, it does not return
    | SmokeRun
    | MissingUndo
    | Called(server: string, method_: string)   // the MCP call is issued

  datatype Stage = FirstGate | SecondGate

  datatype Observation = Paused(stage: Stage) | Ended(outcome: Outcome) | Raised

  // ---- the fixed parts ----

  const DELETE_SIGNALS := ["delete", "remove", "destroy", "drop"]
  const NAMESPACE_SIGNALS := ["namespace", "namespaces"]

  predicate Signals(haystack: string, signals: seq<string>) {
    exists i :: 0 <= i < |signals| && Contains(haystack, signals[i])
  }

  predicate LooksLikeNsDelete(target: string, summary: string) {
    var haystack := ToLower(target + " " + summary);
    Signals(haystack, DELETE_SIGNALS) && Signals(haystack, NAMESPACE_SIGNALS)
  }

  predicate TwoPerson(req: Request) {
    req.requiresTwoPerson || LooksLikeNsDelete(req.target, req.summary)
  }

  /** `x or y` on optional strings: None and the empty string are both falsy. */
  function Or(x: Option<string>, y: Option<string>): Option<string> {
    if x.Some? && x.value != "" then x else y
  }

  function OrEmpty(x: Option<string>): string {
    if x.Some? then x.value else ""
  }

  function Authorized(input: Input, req: Request): Fields
    requires '.' in req.target
  {
    var (server, m) := CutFirst(req.target, '.');
    Fields(input.taskId, req.actionClass, server, m)
  }

  /** Everything after the gates, in the order of the code. */
  function AfterGates(env: Env, input: Input, req: Request, token: Option<string>): Outcome {
    if '.' !in req.target then MalformedTarget
    else
      var (server, m) := CutFirst(req.target, '.');
      if !env.allowed(server, m) then NotAllowed
      else
        var check := CheckToken(env.mac, env.secret, OrEmpty(token), Authorized(input, req));
        if check.Refused? then BadToken
        else if check.Raises? then DigestRaised
        else if server == "smoke" then SmokeRun
        else if req.undoPath.None? && req.actionClass == "C" then MissingUndo
        else Called(server, m)
  }

  // ---- the incremental machine ----

  datatype Gate = First | Second(token: Option<string>) | Over(outcome: Outcome)

  function FirstGranted(env: Env, input: Input, req: Request, token: Option<string>): Gate {
    if TwoPerson(req) then Second(token) else Over(AfterGates(env, input, req, token))
  }

  function Begin(env: Env, input: Input): Gate {
    if input.request.None? then Over(NoRequest)
    else if input.preset.None? then First
    else if !input.preset.value then Over(Rejected)
    else FirstGranted(env, input, input.request.value, input.presetToken)
  }

  function Receive(env: Env, input: Input, g: Gate, v: Verdict): Gate {
    if g.Over? || v.deferred || input.request.None? then g
    else if g.First? then
      if v.granted then FirstGranted(env, input, input.request.value, v.token) else Over(Rejected)
    else
      if v.granted then Over(AfterGates(env, input, input.request.value, Or(v.token, g.token)))
      else Over(SecondDenied)
  }

  function Fold(env: Env, input: Input, g: Gate, vs: seq<Verdict>): Gate
    decreases |vs|
  {
    if vs == [] then g else Fold(env, input, Receive(env, input, g, vs[0]), vs[1..])
  }

  function Observe(g: Gate): Observation {
    match g
    case First => Paused(FirstGate)
    case Second(_) => Paused(SecondGate)
    case Over(outcome) => if outcome.DigestRaised? then Raised else Ended(outcome)
  }

  function Machine(env: Env, input: Input, vs: seq<Verdict>): Gate {
    Fold(env, input, Begin(env, input), vs)
  }

  lemma {:induction false} OverIsFinal(env: Env, input: Input, outcome: Outcome, vs: seq<Verdict>)
    ensures Fold(env, input, Over(outcome), vs) == Over(outcome)
    decreases |vs|
  {
    if vs != [] {
      OverIsFinal(env, input, outcome, vs[1..]);
    }
  }

  // ---- the node, run from the top ----

  /** Where `interrupt()` first returns a verdict that is not a defer; None if the verdicts run out. */
  function Answered(vs: seq<Verdict>): (i: Option<nat>)
    ensures i.Some? ==> i.value < |vs| && !vs[i.value].deferred
  {
    if vs == [] then None
    else if !vs[0].deferred then Some(0)
    else
      var i := Answered(vs[1..]);
      if i.None? then None else Some(i.value + 1)
  }

  /** What the node does with all stored verdicts at hand: it reads them up to the first answer, and
      for a two-person request from there to the next. */
  function Replay(env: Env, input: Input, vs: seq<Verdict>): Observation {
    if input.request.None? then Ended(NoRequest)
    else if input.preset.Some? then SecondHalf(env, input, input.preset.value, input.presetToken, vs)
    else
      var i := Answered(vs);
      if i.None? then Paused(FirstGate)
      else SecondHalf(env, input, vs[i.value].granted, vs[i.value].token, vs[i.value + 1..])
  }

  function SecondHalf(env: Env, input: Input, granted: bool, token: Option<string>, vs: seq<Verdict>): Observation
    requires input.request.Some?
  {
    var req := input.request.value;
    if !granted then Ended(Rejected)
    else if !TwoPerson(req) then Observe(Over(AfterGates(env, input, req, token)))
    else
      var j := Answered(vs);
      if j.None? then Paused(SecondGate)
      else if !vs[j.value].granted then Ended(SecondDenied)
      else Observe(Over(AfterGates(env, input, req, Or(vs[j.value].token, token))))
  }

  /** One of the node's two loops: from `next` on, the answer and what is left after it. */
  method Await(verdicts: seq<Verdict>, next: nat) returns (answer: Option<Verdict>, after: nat)
    requires next <= |verdicts|
    ensures next <= after <= |verdicts|
    ensures var i := Answered(verdicts[next..]);
      if i.None? then answer.None?
      else answer == Some(verdicts[next + i.value]) && after == next + i.value + 1
  {
    after := next;
    var verdict := Verdict(true, false, None);
    while verdict.deferred
      invariant next <= after <= |verdicts|
      invariant verdict.deferred ==>
        var i, k := Answered(verdicts[next..]), Answered(verdicts[after..]);
        if k.None? then i.None? else i == Some(after - next + k.value)
      invariant !verdict.deferred ==>
        after > next && verdict == verdicts[after - 1] && Answered(verdicts[next..]) == Some(after - 1 - next)
      decreases |verdicts| - after, verdict.deferred
    {
      if after == |verdicts| {
        return None, after;
      }
      assert verdicts[after..][1..] == verdicts[after + 1..];
      verdict := verdicts[after];
      after := after + 1;
    }
    answer := Some(verdict);
  }

  /** The node as the code has it, run from the top on all verdicts received so far. */
  method Node(env: Env, input: Input, verdicts: seq<Verdict>) returns (r: Observation)
    ensures r == Replay(env, input, verdicts)
    ensures r == Observe(Machine(env, input, verdicts))
  {
    r := Rerun(env, input, verdicts);
    ReplayIsTheMachine(env, input, verdicts);
  }

  method Rerun(env: Env, input: Input, verdicts: seq<Verdict>) returns (r: Observation)
    ensures r == Replay(env, input, verdicts)
  {
    if input.request.None? {
      return Ended(NoRequest);
    }
    var req := input.request.value;
    var granted, token, next := false, None, 0;
    if input.preset.None? {
      var verdict;
      verdict, next := Await(verdicts, 0);
      assert verdicts[0..] == verdicts;
      if verdict.None? {
        return Paused(FirstGate);
      }
      granted, token := verdict.value.granted, verdict.value.token;
    } else {
      granted, token := input.preset.value, input.presetToken;
      assert verdicts[0..] == verdicts;
    }
    assert Replay(env, input, verdicts) == SecondHalf(env, input, granted, token, verdicts[next..]);
    if !granted {
      return Ended(Rejected);
    }
    if TwoPerson(req) {
      var confirm, after := Await(verdicts, next);
      if confirm.None? {
        return Paused(SecondGate);
      }
      if !confirm.value.granted {
        return Ended(SecondDenied);
      }
      token := Or(confirm.value.token, token);
    }
    r := Observe(Over(AfterGates(env, input, req, token)));
  }

  // ---- replay refinement ----

  /** Reading up to the first answer is folding over the defers before it. */
  lemma {:induction false} FoldToAnswer(env: Env, input: Input, g: Gate, vs: seq<Verdict>)
    ensures var i := Answered(vs);
      Fold(env, input, g, vs)
      == if i.None? then g else Fold(env, input, Receive(env, input, g, vs[i.value]), vs[i.value + 1..])
    decreases |vs|
  {
    if vs != [] && vs[0].deferred {
      FoldToAnswer(env, input, g, vs[1..]);
      if Answered(vs).Some? {
        assert vs[1..][Answered(vs).value..] == vs[Answered(vs).value + 1..];
      }
    }
  }

  lemma SecondHalfIsTheMachine(env: Env, input: Input, token: Option<string>, vs: seq<Verdict>)
    requires input.request.Some?
    ensures SecondHalf(env, input, true, token, vs)
         == Observe(Fold(env, input, FirstGranted(env, input, input.request.value, token), vs))
  {
    var g := FirstGranted(env, input, input.request.value, token);
    if g.Over? {
      OverIsFinal(env, input, g.outcome, vs);
    } else {
      FoldToAnswer(env, input, g, vs);
      var j := Answered(vs);
      if j.Some? {
        OverIsFinal(env, input, Receive(env, input, g, vs[j.value]).outcome, vs[j.value + 1..]);
      }
    }
  }

  /** Run from the top on any list of verdicts, the node does what the machine does that took them
      one at a time. */
  lemma ReplayIsTheMachine(env: Env, input: Input, vs: seq<Verdict>)
    ensures Replay(env, input, vs) == Observe(Machine(env, input, vs))
  {
    if input.request.None? {
      OverIsFinal(env, input, NoRequest, vs);
    } else if input.preset == Some(false) {
      OverIsFinal(env, input, Rejected, vs);
    } else if input.preset.Some? {
      SecondHalfIsTheMachine(env, input, input.presetToken, vs);
    } else {
      FoldToAnswer(env, input, First, vs);
      var i := Answered(vs);
      if i.Some? {
        var rest := vs[i.value + 1..];
        if vs[i.value].granted {
          SecondHalfIsTheMachine(env, input, vs[i.value].token, rest);
        } else {
          OverIsFinal(env, input, Rejected, rest);
        }
      }
    }
  }

  /** One more stored verdict, and a replay of everything from the top, is one step of the machine
      from the state the shorter list reached. */
  lemma ReplayIsAStep(env: Env, input: Input, vs: seq<Verdict>, v: Verdict)
    ensures Replay(env, input, vs + [v]) == Observe(Receive(env, input, Machine(env, input, vs), v))
  {
    ReplayIsTheMachine(env, input, vs + [v]);
    FoldAppend(env, input, Begin(env, input), vs, v);
  }

  lemma {:induction false} FoldAppend(env: Env, input: Input, g: Gate, vs: seq<Verdict>, v: Verdict)
    ensures Fold(env, input, g, vs + [v]) == Receive(env, input, Fold(env, input, g, vs), v)
    decreases |vs|
  {
    if vs == [] {
      assert ([] + [v])[1..] == [];
    } else {
      FoldAppend(env, input, Receive(env, input, g, vs[0]), vs[1..], v);
      assert (vs + [v])[1..] == vs[1..] + [v];
    }
  }

  /** The verdicts that decide: all but the defers. */
  function Decisions(vs: seq<Verdict>): seq<Verdict> {
    if vs == [] then []
    else (if vs[0].deferred then [] else [vs[0]]) + Decisions(vs[1..])
  }

  /** Inserting or deleting defers anywhere changes nothing: only the decisions count. */
  lemma {:induction false} DefersDoNotMatter(env: Env, input: Input, g: Gate, vs: seq<Verdict>)
    ensures Fold(env, input, g, vs) == Fold(env, input, g, Decisions(vs))
    decreases |vs|
  {
    if vs != [] {
      DefersDoNotMatter(env, input, Receive(env, input, g, vs[0]), vs[1..]);
      if !vs[0].deferred {
        assert Decisions(vs)[0] == vs[0] && Decisions(vs)[1..] == Decisions(vs[1..]);
      } else {
        assert Decisions(vs) == Decisions(vs[1..]);
      }
    }
  }

  lemma {:induction false} DecisionsDecide(vs: seq<Verdict>)
    ensures forall i :: 0 <= i < |Decisions(vs)| ==> !Decisions(vs)[i].deferred
  {
    if vs != [] {
      DecisionsDecide(vs[1..]);
    }
  }

  /** The first `k` decisions exist and were all grants. */
  predicate Granted(ds: seq<Verdict>, k: nat) {
    |ds| >= k && forall i :: 0 <= i < k ==> ds[i].granted
  }

  /** How many verdicts must grant before anything runs: one unless granted beforehand, and one
      more for a two-person request. */
  function Needed(input: Input): nat
    requires input.request.Some?
  {
    (if input.preset.None? then 1 else 0) + (if TwoPerson(input.request.value) then 1 else 0)
  }

  /** The token presented to the check: the latest non-empty one among the needed grants. */
  function Presented(input: Input, ds: seq<Verdict>): Option<string>
    requires input.request.Some? && |ds| >= Needed(input)
  {
    var first := if input.preset.None? then ds[0].token else input.presetToken;
    if TwoPerson(input.request.value) then Or(ds[Needed(input) - 1].token, first) else first
  }

  /** What the machine makes of the decisions, in closed form. */
  lemma ClosedForm(env: Env, input: Input, vs: seq<Verdict>)
    requires input.request.Some? && input.preset != Some(false)
    ensures var ds := Decisions(vs); var n := Needed(input);
      && (Granted(ds, n) ==>
            Machine(env, input, vs) == Over(AfterGates(env, input, input.request.value, Presented(input, ds))))
      && (!Granted(ds, n) && |ds| < n && Granted(ds, |ds|) ==> !Machine(env, input, vs).Over?)
      && (!Granted(ds, n) && !(|ds| < n && Granted(ds, |ds|)) ==>
            Machine(env, input, vs) == Over(Rejected) || Machine(env, input, vs) == Over(SecondDenied))
  {
    var ds := Decisions(vs);
    var g := Begin(env, input);
    DefersDoNotMatter(env, input, g, vs);
    DecisionsDecide(vs);
    if ds != [] {
      var g1 := Receive(env, input, g, ds[0]);
      if g.Over? {
        OverIsFinal(env, input, g.outcome, ds);
      } else if g1.Over? {
        OverIsFinal(env, input, g1.outcome, ds[1..]);
      } else if |ds| > 1 {
        var g2 := Receive(env, input, g1, ds[1]);
        assert ds[1..][0] == ds[1];
        OverIsFinal(env, input, g2.outcome, ds[1..][1..]);
      }
    }
  }

  /** The token was signed for this task and the request's class, and for this server and method. */
  ghost predicate SignedFor(env: Env, input: Input, req: Request, token: Option<string>, server: string, m: string) {
    var f := Fields(input.taskId, req.actionClass, server, m);
    PipeFree(f) && exists nonce :: OrEmpty(token) == Sign(env.mac, env.secret, f, nonce)
  }

  /** Gate safety. The MCP call for `server.m` is issued exactly when the request asks for it, the
      needed decisions are all grants, the target is allowlisted, the presented token was signed
      for this very task, class, server and method, and a class C action has an undo path. */
  lemma ExecutesExactlyWhenApproved(env: Env, input: Input, vs: seq<Verdict>, server: string, m: string)
    requires HexMac(env.mac, env.secret)
    ensures Observe(Machine(env, input, vs)) == Ended(Called(server, m))
      <==>
      && input.request.Some? && input.preset != Some(false)
      && var req := input.request.value; var ds := Decisions(vs);
      && Granted(ds, Needed(input))
      && req.target == server + "." + m && '.' !in server
      && env.allowed(server, m) && server != "smoke"
      && (req.actionClass == "C" ==> req.undoPath.Some?)
      && SignedFor(env, input, req, Presented(input, ds), server, m)
  {
    if input.request.None? {
      OverIsFinal(env, input, NoRequest, vs);
    } else if input.preset == Some(false) {
      OverIsFinal(env, input, Rejected, vs);
    } else {
      ClosedForm(env, input, vs);
      var req := input.request.value;
      var ds := Decisions(vs);
      if Granted(ds, Needed(input)) {
        CallsExactly(env, input, req, Presented(input, ds), server, m);
      }
    }
  }

  /** Behind the gates: nothing gets past the token check unless the target is allowlisted and the
      token signed for this very task, class, server and method; then it is the smoke run, a
      refusal for want of an undo path, or the call. */
  lemma CallsExactly(env: Env, input: Input, req: Request, token: Option<string>, server: string, m: string)
    requires HexMac(env.mac, env.secret)
    ensures var o := AfterGates(env, input, req, token);
      var cleared := && req.target == server + "." + m && '.' !in server
                     && env.allowed(server, m) && SignedFor(env, input, req, token, server, m);
      && (o == Called(server, m)) == (cleared && server != "smoke" && (req.actionClass == "C" ==> req.undoPath.Some?))
      && (cleared ==> o in {SmokeRun, MissingUndo, Called(server, m)})
      && (cleared && o.SmokeRun? ==> server == "smoke")
      && (cleared && o.MissingUndo? ==> req.actionClass == "C" && req.undoPath.None?)
  {
    var f := Fields(input.taskId, req.actionClass, server, m);
    AcceptsExactlySigned(env.mac, env.secret, OrEmpty(token), f);
    if '.' !in server {
      CutFirstIsUnique(server, '.', m);
    }
  }

  /** Which refusal comes first: no method in the target, then the allowlist, then the token. */
  lemma RefusalsInOrder(env: Env, input: Input, req: Request, token: Option<string>)
    requires HexMac(env.mac, env.secret)
    ensures var o := AfterGates(env, input, req, token);
      && (o.MalformedTarget? <==> '.' !in req.target)
      && forall server, m :: req.target == server + "." + m && '.' !in server ==>
           && (o.NotAllowed? <==> !env.allowed(server, m))
           && (o.BadToken? || o.DigestRaised?)
              == (env.allowed(server, m) && !SignedFor(env, input, req, token, server, m))
           && (o.DigestRaised? ==> !Ascii(OrEmpty(token)))
           && o.SmokeRun?
              == (env.allowed(server, m) && SignedFor(env, input, req, token, server, m) && server == "smoke")
  {
    var o := AfterGates(env, input, req, token);
    forall server, m | req.target == server + "." + m && '.' !in server
      ensures o.NotAllowed? <==> !env.allowed(server, m)
      ensures (o.BadToken? || o.DigestRaised?)
         <==> (env.allowed(server, m) && !SignedFor(env, input, req, token, server, m))
      ensures o.DigestRaised? ==> !Ascii(OrEmpty(token))
      ensures o.SmokeRun?
         <==> (env.allowed(server, m) && SignedFor(env, input, req, token, server, m) && server == "smoke")
    {
      CutFirstIsUnique(server, '.', m);
      AcceptsExactlySigned(env.mac, env.secret, OrEmpty(token), Authorized(input, req));
      ForeignTokens(env.mac, env.secret, OrEmpty(token), Authorized(input, req));
    }
  }

  lemma ForeignTokens(mac: Mac, secret: string, token: string, f: Fields)
    ensures CheckToken(mac, secret, token, f).Raises? ==> !Ascii(token)
  {
    if CheckToken(mac, secret, token, f).Raises? {
      var (payload, signature) := CutLast(token, ':');
      assert forall i :: 0 <= i < |signature| ==> signature[i] == token[|payload| + 1 + i];
    }
  }

  lemma NothingPassesUnsigned(env: Env, input: Input, req: Request, token: Option<string>)
    requires HexMac(env.mac, env.secret)
    ensures var o := AfterGates(env, input, req, token);
      o.SmokeRun? || o.MissingUndo? || o.Called? ==>
        && '.' in req.target
        && var (server, m) := CutFirst(req.target, '.');
           env.allowed(server, m) && SignedFor(env, input, req, token, server, m)
  {
    if '.' in req.target {
      AcceptsExactlySigned(env.mac, env.secret, OrEmpty(token), Authorized(input, req));
    }
  }

  // ---- the gates in plain terms ----

  predicate Mentions(req: Request, word: string) {
    Contains(ToLower(req.target), word) || Contains(ToLower(req.summary), word)
  }

  /** Flagged, or, in target or summary and whatever the case, a word for deleting and "namespace". */
  predicate Dangerous(req: Request) {
    || req.requiresTwoPerson
    || (Mentions(req, "namespace")
        && (Mentions(req, "delete") || Mentions(req, "remove") || Mentions(req, "destroy") || Mentions(req, "drop")))
  }

  lemma DangerousIsTwoPerson(req: Request)
    ensures TwoPerson(req) <==> Dangerous(req)
  {
    ClassifierReadsBothTexts(req.target, req.summary);
    assert DELETE_SIGNALS[0] == "delete" && DELETE_SIGNALS[1] == "remove"
        && DELETE_SIGNALS[2] == "destroy" && DELETE_SIGNALS[3] == "drop";
  }

  /** What the node does about the decisions it was sent, decision by decision. Without a grant on
      entry the first decision opens the first gate; a dangerous request then waits for a second one,
      whose token counts if it brought one. A grant on entry stands for the first decision. */
  lemma DecisionByDecision(env: Env, input: Input, vs: seq<Verdict>)
    ensures var r := Replay(env, input, vs); var ds := Decisions(vs);
      match input.request
      case None => r == Ended(NoRequest)
      case Some(req) =>
        var second := (token: Option<string>, rest: seq<Verdict>) =>
          if !Dangerous(req) then Observe(Over(AfterGates(env, input, req, token)))
          else if rest == [] then Paused(SecondGate)
          else if !rest[0].granted then Ended(SecondDenied)
          else Observe(Over(AfterGates(env, input, req,
                 if rest[0].token.Some? && rest[0].token.value != "" then rest[0].token else token)));
        match input.preset
        case Some(false) => r == Ended(Rejected)
        case Some(true) => r == second(input.presetToken, ds)
        case None =>
          if ds == [] then r == Paused(FirstGate)
          else if !ds[0].granted then r == Ended(Rejected)
          else r == second(ds[0].token, ds[1..])
  {
    ReplayIsTheMachine(env, input, vs);
    DefersDoNotMatter(env, input, Begin(env, input), vs);
    DecisionsDecide(vs);
    ReplayIsTheMachine(env, input, Decisions(vs));
    if input.request.Some? {
      DangerousIsTwoPerson(input.request.value);
    }
  }

  /** A dangerous request is never called on fewer than two grants, one of which may have been given
      on entry; any other is called on one. */
  lemma DangerousCallsTakeTwo(env: Env, input: Input, vs: seq<Verdict>)
    requires Calls(env, input, vs)
    ensures input.request.Some? && input.preset != Some(false)
    ensures var ds := Decisions(vs); var req := input.request.value;
      && (input.preset.None? ==> |ds| >= 1 && ds[0].granted)
      && (input.preset.None? && Dangerous(req) ==> |ds| >= 2 && ds[1].granted)
      && (input.preset.Some? && Dangerous(req) ==> |ds| >= 1 && ds[0].granted)
  {
    ReplayIsTheMachine(env, input, vs);
    DecisionByDecision(env, input, vs);
  }

  // ---- a thread's life: posts to /approval and /admin ----

  /** How far the handler of a post has come: refused, past the look at whether the thread is paused,
      running the node on what the checkpointer held when the graph loaded it, or done. */
  datatype Phase = TurnedAway | Waiting | Running(seen: seq<Verdict>) | Done

  datatype Post = Post(verdict: Verdict, phase: Phase)

  /** What a run leaves in the checkpointer. Recorded: its result. Otherwise it raised, its result
      could not be written, or the process died after the node had done its work; then the interrupt
      is still shown, with or without the verdict stored, or it is hidden. */
  datatype Leftover = Recorded | Kept | Dropped | Hidden

  /** Handlers run concurrently: other handlers may come between any two steps of one. A handler that
      dies before the node acts leaves nothing. */
  datatype HandlerStep =
    | Look(verdict: Verdict)
    | Load(post: nat)
    | Finish(post: nat, leftover: Leftover)
    | Die(post: nat)

  /** `calls` counts the MCP calls issued by all runs of the node together; `lost` says that the
      thread still showed its interrupt after one. */
  datatype Life = Life(stored: seq<Verdict>, paused: bool, posts: seq<Post>, calls: nat, lost: bool)

  predicate Calls(env: Env, input: Input, vs: seq<Verdict>) {
    Machine(env, input, vs).Over? && Machine(env, input, vs).outcome.Called?
  }

  /** The first run has no verdict. */
  function Birth(env: Env, input: Input): Life {
    Life([], !Machine(env, input, []).Over?, [], if Calls(env, input, []) then 1 else 0, false)
  }

  /** A graph loaded when the thread is no longer paused has nothing to resume. */
  function Live(env: Env, input: Input, life: Life, step: HandlerStep): Life {
    match step
    case Look(v) =>
      life.(posts := life.posts + [Post(v, if life.paused then Waiting else TurnedAway)])
    case Load(i) =>
      if i < |life.posts| && life.posts[i].phase.Waiting?
      then life.(posts := life.posts[i := Post(life.posts[i].verdict, if life.paused then Running(life.stored) else Done)])
      else life
    case Finish(i, leftover) =>
      if i < |life.posts| && life.posts[i].phase.Running?
      then Finished(env, input, life, i, leftover)
      else life
    case Die(i) =>
      if i < |life.posts| && life.posts[i].phase.Running?
      then life.(posts := life.posts[i := life.posts[i].(phase := Done)])
      else life
  }

  /** A recorded run ends its thread unless it stopped at an interrupt; one that raised records no
      more than its verdict. */
  function Finished(env: Env, input: Input, life: Life, i: nat, leftover: Leftover): Life
    requires i < |life.posts| && life.posts[i].phase.Running?
  {
    var vs := life.posts[i].phase.seen + [life.posts[i].verdict];
    var called := Calls(env, input, vs);
    var done := life.(posts := life.posts[i := life.posts[i].(phase := Done)],
                      calls := life.calls + if called then 1 else 0);
    match leftover
    case Recorded =>
      if Replay(env, input, vs).Ended? then done.(stored := vs, paused := false)
      else if life.paused then done.(stored := vs)
      else done
    case Hidden => done.(paused := false)
    case Kept => if life.paused then done.(stored := vs, lost := life.lost || called) else done
    case Dropped => if life.paused then done.(lost := life.lost || called) else done
  }

  function Lives(env: Env, input: Input, life: Life, steps: seq<HandlerStep>): Life
    decreases |steps|
  {
    if steps == [] then life else Lives(env, input, Live(env, input, life, steps[0]), steps[1..])
  }

  /** The handler is running the node, and the run will issue the call. */
  predicate Calling(env: Env, input: Input, p: Post) {
    p.phase.Running? && Calls(env, input, p.phase.seen + [p.verdict])
  }

  /** The step loads the graph for a run that will issue the call. */
  predicate LoadsCall(env: Env, input: Input, life: Life, step: HandlerStep) {
    && step.Load? && life.paused && step.post < |life.posts| && life.posts[step.post].phase.Waiting?
    && Calls(env, input, life.stored + [life.posts[step.post].verdict])
  }

  /** ... while another such run is under way, or after one whose result was lost. */
  predicate Doubles(env: Env, input: Input, life: Life, step: HandlerStep) {
    && LoadsCall(env, input, life, step)
    && (life.lost || exists i :: 0 <= i < |life.posts| && Calling(env, input, life.posts[i]))
  }

  predicate NeverDoubles(env: Env, input: Input, life: Life, steps: seq<HandlerStep>)
    decreases |steps|
  {
    steps == []
    || (!Doubles(env, input, life, steps[0])
        && NeverDoubles(env, input, Live(env, input, life, steps[0]), steps[1..]))
  }

  /** How many posts satisfy `p`. */
  function Tally(posts: seq<Post>, p: Post -> bool): nat {
    if posts == [] then 0
    else Tally(posts[..|posts| - 1], p) + if p(posts[|posts| - 1]) then 1 else 0
  }

  /** The calls issued, and those under way. */
  function Committed(env: Env, input: Input, life: Life): nat {
    life.calls + Tally(life.posts, (p: Post) => Calling(env, input, p))
  }

  ghost predicate Sane(env: Env, input: Input, life: Life) {
    && (life.calls > 0 && life.paused ==> life.lost)
    && (life.lost ==> life.calls > 0)
  }

  lemma {:induction false} TallyUpdate(posts: seq<Post>, i: nat, post: Post, p: Post -> bool)
    requires i < |posts|
    ensures Tally(posts[i := post], p) + (if p(posts[i]) then 1 else 0)
         == Tally(posts, p) + (if p(post) then 1 else 0)
  {
    var n := |posts| - 1;
    if i < n {
      TallyUpdate(posts[..n], i, post, p);
      assert posts[i := post][..n] == posts[..n][i := post];
    } else {
      assert posts[i := post][..n] == posts[..n];
    }
  }

  lemma {:induction false} TallyIsZero(posts: seq<Post>, p: Post -> bool)
    ensures Tally(posts, p) == 0 <==> forall i :: 0 <= i < |posts| ==> !p(posts[i])
  {
    if posts != [] {
      TallyIsZero(posts[..|posts| - 1], p);
    }
  }

  lemma CallingRunsEnd(env: Env, input: Input, vs: seq<Verdict>)
    ensures Calls(env, input, vs) ==> Replay(env, input, vs).Ended?
  {
    ReplayIsTheMachine(env, input, vs);
  }

  lemma FinishCommits(env: Env, input: Input, life: Life, i: nat, leftover: Leftover)
    requires Sane(env, input, life) && i < |life.posts| && life.posts[i].phase.Running?
    ensures var life' := Finished(env, input, life, i, leftover);
      Sane(env, input, life') && Committed(env, input, life') == Committed(env, input, life)
  {
    CallingRunsEnd(env, input, life.posts[i].phase.seen + [life.posts[i].verdict]);
    TallyUpdate(life.posts, i, life.posts[i].(phase := Done), (p: Post) => Calling(env, input, p));
  }

  /** Loading commits to one more call exactly if the run will issue it, and only a handler's death
      takes a commitment back. */
  lemma StepCommits(env: Env, input: Input, life: Life, step: HandlerStep)
    requires Sane(env, input, life)
    ensures var life' := Live(env, input, life, step);
      var now := Committed(env, input, life) + (if LoadsCall(env, input, life, step) then 1 else 0);
      && Sane(env, input, life')
      && Committed(env, input, life') <= now
      && (!step.Die? ==> Committed(env, input, life') == now)
  {
    var p := (p: Post) => Calling(env, input, p);
    match step
    case Look(v) =>
      var post := Post(v, if life.paused then Waiting else TurnedAway);
      assert (life.posts + [post])[..|life.posts|] == life.posts;
    case Load(i) =>
      if i < |life.posts| {
        TallyUpdate(life.posts, i, Live(env, input, life, step).posts[i], p);
      }
    case Finish(i, leftover) =>
      if i < |life.posts| && life.posts[i].phase.Running? {
        FinishCommits(env, input, life, i, leftover);
      }
    case Die(i) =>
      if i < |life.posts| {
        TallyUpdate(life.posts, i, life.posts[i].(phase := Done), p);
      }
  }

  /** A load doubles exactly if the thread is then committed to more than one call. */
  lemma DoublingIsASecondCommitment(env: Env, input: Input, life: Life, step: HandlerStep)
    requires Sane(env, input, life) && Committed(env, input, life) <= 1
    ensures Doubles(env, input, life, step)
      <==> Committed(env, input, Live(env, input, life, step)) > 1
  {
    StepCommits(env, input, life, step);
    TallyIsZero(life.posts, (p: Post) => Calling(env, input, p));
  }

  predicate NobodyDies(steps: seq<HandlerStep>) {
    forall i :: 0 <= i < |steps| ==> !steps[i].Die?
  }

  lemma {:induction false} CommitmentsGrow(env: Env, input: Input, life: Life, steps: seq<HandlerStep>)
    requires Sane(env, input, life) && NobodyDies(steps)
    ensures Committed(env, input, Lives(env, input, life, steps)) >= Committed(env, input, life)
    decreases |steps|
  {
    if steps != [] {
      assert !steps[0].Die?;
      StepCommits(env, input, life, steps[0]);
      CommitmentsGrow(env, input, Live(env, input, life, steps[0]), steps[1..]);
    }
  }

  lemma {:induction false} CommittedAtMostOnce(env: Env, input: Input, life: Life, steps: seq<HandlerStep>)
    requires Sane(env, input, life) && Committed(env, input, life) <= 1
    ensures NeverDoubles(env, input, life, steps) ==> Committed(env, input, Lives(env, input, life, steps)) <= 1
    ensures NobodyDies(steps) && Committed(env, input, Lives(env, input, life, steps)) <= 1
      ==> NeverDoubles(env, input, life, steps)
    decreases |steps|
  {
    if steps != [] {
      var next := Live(env, input, life, steps[0]);
      DoublingIsASecondCommitment(env, input, life, steps[0]);
      StepCommits(env, input, life, steps[0]);
      if !Doubles(env, input, life, steps[0]) {
        CommittedAtMostOnce(env, input, next, steps[1..]);
      } else if NobodyDies(steps) {
        CommitmentsGrow(env, input, next, steps[1..]);
      }
    }
  }

  /** At any moment, whatever handlers die and whatever results are lost: if no run that calls was
      loaded during or after another that calls, at most one call has been issued. */
  lemma CalledAtMostOnce(env: Env, input: Input, steps: seq<HandlerStep>)
    requires NeverDoubles(env, input, Birth(env, input), steps)
    ensures Lives(env, input, Birth(env, input), steps).calls <= 1
  {
    CommittedAtMostOnce(env, input, Birth(env, input), steps);
  }

  /** ... and exactly then, once no run is under way and none has died before it acted. The look at
      whether the thread is paused does not see to that. */
  lemma CalledAtMostOnceExactlyUnlessDoubled(env: Env, input: Input, steps: seq<HandlerStep>)
    requires NobodyDies(steps)
    requires var life := Lives(env, input, Birth(env, input), steps);
      forall i :: 0 <= i < |life.posts| ==> !life.posts[i].phase.Running?
    ensures Lives(env, input, Birth(env, input), steps).calls <= 1
      <==> NeverDoubles(env, input, Birth(env, input), steps)
  {
    CommittedAtMostOnce(env, input, Birth(env, input), steps);
    var life := Lives(env, input, Birth(env, input), steps);
    TallyIsZero(life.posts, (p: Post) => Calling(env, input, p));
  }

  /** Two handlers that both load before either finishes: where one grant calls, both do. */
  lemma TwoHandlersCallTwice(env: Env, input: Input, v: Verdict)
    requires !Machine(env, input, []).Over? && Calls(env, input, [v])
    ensures Lives(env, input, Birth(env, input),
                  [Look(v), Look(v)] + [Load(0), Load(1)] + [Finish(0, Recorded), Finish(1, Recorded)]).calls == 2
  {
    var l0 := Birth(env, input);
    var l2 := Live(env, input, Live(env, input, l0, Look(v)), Look(v));
    var l4 := Live(env, input, Live(env, input, l2, Load(0)), Load(1));
    LivesAppend(env, input, l0, [Look(v), Look(v)] + [Load(0), Load(1)], [Finish(0, Recorded), Finish(1, Recorded)]);
    LivesAppend(env, input, l0, [Look(v), Look(v)], [Load(0), Load(1)]);
    TwoSteps(env, input, l0, Look(v), Look(v));
    TwoSteps(env, input, l2, Load(0), Load(1));
    TwoSteps(env, input, l4, Finish(0, Recorded), Finish(1, Recorded));
    assert l2.posts == [Post(v, Waiting), Post(v, Waiting)];
    assert l4.posts == [Post(v, Running([])), Post(v, Running([]))];
    assert [] + [v] == [v];
  }

  // ---- one handler at a time ----

  datatype Handled = Handled(verdict: Verdict, leftover: Leftover)

  /** Every handler is done before the next one looks. */
  function OneByOne(posts: seq<Handled>): seq<HandlerStep> {
    if posts == [] then []
    else
      var n := |posts| - 1;
      OneByOne(posts[..n]) + ([Look(posts[n].verdict), Load(n)] + [Finish(n, posts[n].leftover)])
  }

  predicate SomeHidden(posts: seq<Handled>) {
    exists i :: 0 <= i < |posts| && posts[i].leftover.Hidden?
  }

  /** The verdicts left for a replay: none from a hidden interrupt on, none that was dropped. */
  function Survivors(posts: seq<Handled>): seq<Verdict> {
    if posts == [] then []
    else
      var earlier, last := posts[..|posts| - 1], posts[|posts| - 1];
      if SomeHidden(earlier) || last.leftover.Hidden? || last.leftover.Dropped? then Survivors(earlier)
      else Survivors(earlier) + [last.verdict]
  }

  /** What the `k`-th handler's run is fed. */
  function Fed(posts: seq<Handled>, k: nat): seq<Verdict>
    requires k < |posts|
  {
    Survivors(posts[..k]) + [posts[k].verdict]
  }

  /** The `k`-th handler's run ended and its result was recorded. */
  predicate EndedAt(env: Env, input: Input, posts: seq<Handled>, k: nat)
    requires k < |posts|
  {
    posts[k].leftover.Recorded? && Replay(env, input, Fed(posts, k)).Ended?
  }

  predicate StillShown(env: Env, input: Input, posts: seq<Handled>) {
    && !Machine(env, input, []).Over? && !SomeHidden(posts)
    && forall k :: 0 <= k < |posts| ==> !EndedAt(env, input, posts, k)
  }

  /** The `k`-th handler found the thread paused, its run called, and what it left is no record. */
  predicate LostAt(env: Env, input: Input, posts: seq<Handled>, k: nat)
    requires k < |posts|
  {
    StillShown(env, input, posts[..k]) && Calls(env, input, Fed(posts, k)) && !posts[k].leftover.Recorded?
  }

  predicate NoCallLost(env: Env, input: Input, posts: seq<Handled>) {
    forall k :: 0 <= k < |posts| ==> !LostAt(env, input, posts, k)
  }

  lemma FedPrefix(env: Env, input: Input, posts: seq<Handled>, k: nat)
    requires k < |posts| - 1
    ensures var earlier := posts[..|posts| - 1];
      && EndedAt(env, input, posts, k) == EndedAt(env, input, earlier, k)
      && LostAt(env, input, posts, k) == LostAt(env, input, earlier, k)
  {
    assert posts[..k] == posts[..|posts| - 1][..k];
  }

  lemma HiddenPrefix(posts: seq<Handled>)
    requires posts != []
    ensures SomeHidden(posts) <==> SomeHidden(posts[..|posts| - 1]) || posts[|posts| - 1].leftover.Hidden?
  {
    var earlier := posts[..|posts| - 1];
    forall i | 0 <= i < |earlier|
      ensures posts[i] == earlier[i]
    {
    }
  }

  lemma ShownPrefix(env: Env, input: Input, posts: seq<Handled>)
    requires posts != []
    ensures StillShown(env, input, posts)
      <==> StillShown(env, input, posts[..|posts| - 1]) && !posts[|posts| - 1].leftover.Hidden?
           && !EndedAt(env, input, posts, |posts| - 1)
  {
    HiddenPrefix(posts);
    var earlier := posts[..|posts| - 1];
    if StillShown(env, input, posts) {
      forall k | 0 <= k < |earlier|
        ensures !EndedAt(env, input, earlier, k)
      {
        FedPrefix(env, input, posts, k);
        assert !EndedAt(env, input, posts, k);
      }
    } else if StillShown(env, input, earlier) {
      forall k | 0 <= k < |earlier|
        ensures !EndedAt(env, input, posts, k)
      {
        FedPrefix(env, input, posts, k);
        assert !EndedAt(env, input, earlier, k);
      }
    }
  }

  lemma LostPrefix(env: Env, input: Input, posts: seq<Handled>)
    requires posts != []
    ensures NoCallLost(env, input, posts)
      <==> NoCallLost(env, input, posts[..|posts| - 1]) && !LostAt(env, input, posts, |posts| - 1)
  {
    var earlier := posts[..|posts| - 1];
    if NoCallLost(env, input, posts) {
      forall k | 0 <= k < |earlier|
        ensures !LostAt(env, input, earlier, k)
      {
        FedPrefix(env, input, posts, k);
        assert !LostAt(env, input, posts, k);
      }
    } else if NoCallLost(env, input, earlier) {
      forall k | 0 <= k < |earlier|
        ensures !LostAt(env, input, posts, k)
      {
        FedPrefix(env, input, posts, k);
        assert !LostAt(env, input, earlier, k);
      }
    }
  }

  /** Whatever each run leaves: the thread is where the machine is that was fed the verdicts that
      survived, so posts that come too late leave no trace; and it shows its interrupt exactly until
      a recorded run ends or a run hides it. */
  lemma {:induction false} LifeIsTheMachine(env: Env, input: Input, posts: seq<Handled>)
    ensures var life := Lives(env, input, Birth(env, input), OneByOne(posts));
      var g := Machine(env, input, Survivors(posts));
      && Machine(env, input, life.stored) == g
      && (life.paused <==> StillShown(env, input, posts))
      && (!life.paused && !SomeHidden(posts) ==> g.Over?)
      && |life.posts| == |posts|
    decreases |posts|
  {
    if posts != [] {
      var earlier, last := posts[..|posts| - 1], posts[|posts| - 1];
      LifeIsTheMachine(env, input, earlier);
      HiddenPrefix(posts);
      ShownPrefix(env, input, posts);
      assert posts == earlier + [last];
      OneHandler(env, input, earlier, last);
      LifeStep(env, input, Lives(env, input, Birth(env, input), OneByOne(earlier)),
               Lives(env, input, Birth(env, input), OneByOne(posts)), Survivors(earlier), last, SomeHidden(earlier));
    }
  }

  lemma LifeStep(env: Env, input: Input, life: Life, life': Life, vs: seq<Verdict>, last: Handled, hidden: bool)
    requires Machine(env, input, life.stored) == Machine(env, input, vs) && Handles(env, input, life, life', last)
    requires hidden ==> !life.paused
    requires !life.paused && !hidden ==> Machine(env, input, vs).Over?
    ensures var hidden' := hidden || last.leftover.Hidden?;
      var vs' := if hidden' || last.leftover.Dropped? then vs else vs + [last.verdict];
      && Machine(env, input, life'.stored) == Machine(env, input, vs')
      && life'.paused == (life.paused && !last.leftover.Hidden?
                          && !(last.leftover.Recorded? && Replay(env, input, vs + [last.verdict]).Ended?))
      && (!life'.paused && !hidden' ==> Machine(env, input, vs').Over?)
  {
    SameEnd(env, input, life.stored, vs, last.verdict);
    FoldAppend(env, input, Begin(env, input), vs, last.verdict);
  }

  /** Lists of verdicts that took the machine to the same state still do after one more. */
  lemma SameEnd(env: Env, input: Input, a: seq<Verdict>, b: seq<Verdict>, v: Verdict)
    requires Machine(env, input, a) == Machine(env, input, b)
    ensures Machine(env, input, a + [v]) == Machine(env, input, b + [v])
    ensures Replay(env, input, a + [v]) == Replay(env, input, b + [v])
    ensures Replay(env, input, a + [v]).Ended? ==> Machine(env, input, a + [v]).Over?
  {
    FoldAppend(env, input, Begin(env, input), a, v);
    FoldAppend(env, input, Begin(env, input), b, v);
    ReplayIsTheMachine(env, input, a + [v]);
    ReplayIsTheMachine(env, input, b + [v]);
  }

  /** Unless the result of a calling run is lost, the call is issued once if the machine fed with the
      survivors ends by calling, and never otherwise. */
  lemma {:induction false} CallsAreTheMachines(env: Env, input: Input, posts: seq<Handled>)
    requires NoCallLost(env, input, posts)
    ensures var life := Lives(env, input, Birth(env, input), OneByOne(posts));
      && life.calls == (if Calls(env, input, Survivors(posts)) then 1 else 0)
      && (life.paused ==> life.calls == 0)
    decreases |posts|
  {
    if posts != [] {
      var n := |posts| - 1;
      var earlier, last := posts[..n], posts[n];
      LostPrefix(env, input, posts);
      CallsAreTheMachines(env, input, earlier);
      LifeIsTheMachine(env, input, earlier);
      var life := Lives(env, input, Birth(env, input), OneByOne(earlier));
      OneHandler(env, input, earlier, last);
      SameEnd(env, input, life.stored, Survivors(earlier), last.verdict);
      FoldAppend(env, input, Begin(env, input), Survivors(earlier), last.verdict);
      CallingRunsEnd(env, input, Fed(posts, n));
    }
  }

  /** What one more handler, alone, makes of the thread. */
  predicate Handles(env: Env, input: Input, life: Life, life': Life, last: Handled) {
    var vs := life.stored + [last.verdict];
    && |life'.posts| == |life.posts| + 1
    && (!life.paused ==> life'.stored == life.stored && !life'.paused && life'.calls == life.calls)
    && (life.paused ==>
          && life'.calls == life.calls + (if Calls(env, input, vs) then 1 else 0)
          && life'.stored == (if last.leftover.Recorded? || last.leftover.Kept? then vs else life.stored)
          && life'.paused == !(last.leftover.Hidden? || (last.leftover.Recorded? && Replay(env, input, vs).Ended?)))
  }

  lemma OneHandler(env: Env, input: Input, earlier: seq<Handled>, last: Handled)
    requires |Lives(env, input, Birth(env, input), OneByOne(earlier)).posts| == |earlier|
    ensures Handles(env, input, Lives(env, input, Birth(env, input), OneByOne(earlier)),
                    Lives(env, input, Birth(env, input), OneByOne(earlier + [last])), last)
  {
    var n := |earlier|;
    var life := Lives(env, input, Birth(env, input), OneByOne(earlier));
    var v := last.verdict;
    assert (earlier + [last])[..n] == earlier;
    LivesAppend(env, input, Birth(env, input), OneByOne(earlier), [Look(v), Load(n)] + [Finish(n, last.leftover)]);
    LivesAppend(env, input, life, [Look(v), Load(n)], [Finish(n, last.leftover)]);
    TwoSteps(env, input, life, Look(v), Load(n));
    OneStep(env, input, Live(env, input, Live(env, input, life, Look(v)), Load(n)), Finish(n, last.leftover));
  }

  /** One handler at a time is no protection against a lost result: two posts, the first one's result
      lost, and both call. */
  lemma LostResultCallsTwice(env: Env, input: Input, v: Verdict)
    requires !Machine(env, input, []).Over? && Calls(env, input, [v])
    ensures Lives(env, input, Birth(env, input), OneByOne([Handled(v, Dropped), Handled(v, Recorded)])).calls == 2
  {
    var a, b := Handled(v, Dropped), Handled(v, Recorded);
    assert OneByOne([]) == [];
    OneHandler(env, input, [], a);
    assert [] + [a] == [a];
    OneHandler(env, input, [a], b);
    assert [a] + [b] == [a, b];
    assert [] + [v] == [v];
  }

  lemma {:induction false} LivesAppend(env: Env, input: Input, life: Life, a: seq<HandlerStep>, b: seq<HandlerStep>)
    ensures Lives(env, input, life, a + b) == Lives(env, input, Lives(env, input, life, a), b)
    decreases |a|
  {
    if a == [] {
      assert a + b == b;
    } else {
      assert (a + b)[0] == a[0] && (a + b)[1..] == a[1..] + b;
      LivesAppend(env, input, Live(env, input, life, a[0]), a[1..], b);
    }
  }

  lemma OneStep(env: Env, input: Input, life: Life, a: HandlerStep)
    ensures Lives(env, input, life, [a]) == Live(env, input, life, a)
  {
    assert [a][1..] == [];
  }

  lemma TwoSteps(env: Env, input: Input, life: Life, a: HandlerStep, b: HandlerStep)
    ensures Lives(env, input, life, [a, b]) == Live(env, input, Live(env, input, life, a), b)
  {
    var life1 := Live(env, input, life, a);
    assert [a, b][1..] == [b];
    OneStep(env, input, life1, b);
  }

  // ---- the admin approve endpoint ----

  /** The verdict `_resume_with_verdict` sends on approve; it answers 422 or 503 when the target
      has no '.' or no key is configured. */
  function AdminApprove(env: Env, input: Input, nonce: string): Verdict
    requires input.request.Some? && '.' in input.request.value.target
  {
    Verdict(false, true,
            Some(Sign(env.mac, env.secret, Authorized(input, input.request.value), nonce)))
  }

  /** Admin approvals get through: for an allowlisted request with an undo path where one is
      needed, the needed number of approvals, with any defers among them, issues the call. */
  lemma AdminApprovalsExecute(env: Env, input: Input, vs: seq<Verdict>, nonces: seq<string>)
    requires HexMac(env.mac, env.secret) && input.request.Some? && input.preset.None?
    requires '.' in input.request.value.target
    requires PipeFree(Authorized(input, input.request.value))
    requires var (server, m) := CutFirst(input.request.value.target, '.');
      env.allowed(server, m) && server != "smoke"
    requires input.request.value.actionClass == "C" ==> input.request.value.undoPath.Some?
    requires |nonces| == |Decisions(vs)| >= Needed(input)
    requires forall i :: 0 <= i < |nonces| ==> Decisions(vs)[i] == AdminApprove(env, input, nonces[i])
    ensures var (server, m) := CutFirst(input.request.value.target, '.');
      Observe(Machine(env, input, vs)) == Ended(Called(server, m))
  {
    var req := input.request.value;
    var (server, m) := CutFirst(req.target, '.');
    var n := Needed(input);
    var ds := Decisions(vs);
    var f := Authorized(input, req);
    assert ds[n - 1] == AdminApprove(env, input, nonces[n - 1]);
    assert ':' in Sign(env.mac, env.secret, f, nonces[n - 1]) by {
      assert Sign(env.mac, env.secret, f, nonces[n - 1])[|Payload(f, nonces[n - 1])|] == ':';
    }
    assert OrEmpty(Presented(input, ds)) == Sign(env.mac, env.secret, f, nonces[n - 1]);
    ExecutesExactlyWhenApproved(env, input, vs, server, m);
  }

  // ---- the namespace-delete classifier ----

  /** The classifier reads target and summary separately: no signal is found across the blank that
      joins them, and the plural signal adds nothing. */
  lemma ClassifierReadsBothTexts(target: string, summary: string)
    ensures LooksLikeNsDelete(target, summary) <==>
      && (exists i :: 0 <= i < |DELETE_SIGNALS|
            && (Contains(ToLower(target), DELETE_SIGNALS[i]) || Contains(ToLower(summary), DELETE_SIGNALS[i])))
      && (Contains(ToLower(target), "namespace") || Contains(ToLower(summary), "namespace"))
  {
    var a, b := ToLower(target), ToLower(summary);
    assert ToLower(target + " " + summary) == a + [' '] + b;
    forall i | 0 <= i < |DELETE_SIGNALS|
      ensures Contains(a + [' '] + b, DELETE_SIGNALS[i])
        <==> Contains(a, DELETE_SIGNALS[i]) || Contains(b, DELETE_SIGNALS[i])
    {
      ContainsAcross(a, ' ', b, DELETE_SIGNALS[i]);
    }
    ContainsAcross(a, ' ', b, "namespace");
    ContainsPrefix(a + [' '] + b, "namespaces", "namespace");
    assert NAMESPACE_SIGNALS[0] == "namespace" && NAMESPACE_SIGNALS[1] == "namespaces";
  }

  lemma ContainsPrefix(s: string, sub: string, shorter: string)
    requires shorter <= sub
    ensures Contains(s, sub) ==> Contains(s, shorter)
  {
    if Contains(s, sub) {
      var i: nat :| i <= |s| && OccursAt(sub, s, i);
      assert s[i..i + |shorter|] == s[i..i + |sub|][..|shorter|];
      assert OccursAt(shorter, s, i);
    }
  }

  // ---- the approval subgraph's own gate (src/agents/graphs/approval.py) ----

  /** `_wait_for_user`: None while paused, else the verdict it returns. */
  method WaitForUser(verdicts: seq<Verdict>) returns (r: Option<Verdict>)
    ensures r == if Decisions(verdicts) == [] then None else Some(Decisions(verdicts)[0])
  {
    var next := 0;
    assert verdicts[0..] == verdicts;
    while next < |verdicts| && verdicts[next].deferred
      invariant 0 <= next <= |verdicts|
      invariant Decisions(verdicts) == Decisions(verdicts[next..])
    {
      assert verdicts[next..][1..] == verdicts[next + 1..];
      next := next + 1;
    }
    r := if next == |verdicts| then None else Some(verdicts[next]);
  }
}
