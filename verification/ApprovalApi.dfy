/** The two ways a verdict reaches a paused thread: `/approval` (src/agents/api/approval.py) and the
    admin approve and deny endpoints (src/agents/api/admin.py). Both resume the graph, look where it
    stopped, and reconcile the queue row. Where the resumed graph stops is an input. */
module ApprovalApi {
  import opened Options
  import opened TaskTables
  import opened QueueWorld
  import opened TaskQueueClass
  import opened CheckpointerClass
  import opened ApprovalToken
  import Text
  import Runner = ErrandRunner

  /** `NotPaused` is 409, `CannotMint` 422, `NoGraph` and `NoKey` 503, `Failed` 500. */
  datatype Status = Reparked | Complete | NotPaused | CannotMint | NoGraph | NoKey | Failed

  /** The interrupt's fields a token is minted from; a missing one is empty. */
  datatype Interrupt = Interrupt(actionClass: string, target: string)

  const SMOKE := "smoke-"

  /** A token can be minted from the interrupt. */
  predicate Mintable(i: Interrupt) {
    i.actionClass != "" && '.' in i.target
  }

  function FieldsOf(id: TaskId, i: Interrupt): Fields
    requires Mintable(i)
  {
    var (server, m) := Text.CutFirst(i.target, '.');
    Fields(id, i.actionClass, server, m)
  }

  /** The token sent with a grant. */
  function Minted(mac: Mac, key: string, id: TaskId, i: Interrupt, nonce: string): string
    requires Mintable(i)
  {
    Sign(mac, key, FieldsOf(id, i), nonce)
  }

  /** It passes the runner's check for the task, the class, and the server and method the target
      names, exactly when none of them holds the separator. */
  lemma MintedForTheTarget(mac: Mac, key: string, id: TaskId, i: Interrupt, nonce: string, server: string, m: string)
    requires HexMac(mac, key) && i.actionClass != ""
    requires i.target == server + "." + m && '.' !in server
    ensures Mintable(i)
    ensures var f := Fields(id, i.actionClass, server, m);
      Verify(mac, key, Minted(mac, key, id, i, nonce), f) <==> PipeFree(f)
  {
    Text.CutFirstIsUnique(server, '.', m);
    MintedVerifies(mac, key, Fields(id, i.actionClass, server, m), nonce);
  }

  /** What the runner's interrupt shows of its request. */
  function InterruptOf(req: Runner.Request): Interrupt {
    Interrupt(req.actionClass, req.target)
  }

  /** The verdict the approve endpoint sends for the runner's interrupt. */
  function Approval(env: Runner.Env, input: Runner.Input, nonce: string): Runner.Verdict
    requires input.request.Some? && Mintable(InterruptOf(input.request.value))
  {
    Runner.Verdict(false, true,
                   Some(Minted(env.mac, env.secret, input.taskId, InterruptOf(input.request.value), nonce)))
  }

  /** As many approvals through this endpoint as the request needs, with any defers among them, and
      the call is issued: for an allowlisted target whose parts hold no separator, and with an undo
      path where one is needed. */
  lemma ApprovalsExecute(env: Runner.Env, input: Runner.Input, vs: seq<Runner.Verdict>, nonces: seq<string>,
                         server: string, m: string)
    requires HexMac(env.mac, env.secret) && input.request.Some? && input.preset.None?
    requires var req := input.request.value;
      && req.target == server + "." + m && '.' !in server && req.actionClass != ""
      && PipeFree(Fields(input.taskId, req.actionClass, server, m))
      && env.allowed(server, m) && server != "smoke"
      && (req.actionClass == "C" ==> req.undoPath.Some?)
    requires var ds := Runner.Decisions(vs);
      |nonces| == |ds| >= if Runner.Dangerous(input.request.value) then 2 else 1
    requires Mintable(InterruptOf(input.request.value))
    requires forall i :: 0 <= i < |nonces| ==> Runner.Decisions(vs)[i] == Approval(env, input, nonces[i])
    ensures Runner.Replay(env, input, vs) == Runner.Ended(Runner.Called(server, m))
  {
    var req := input.request.value;
    Text.CutFirstIsUnique(server, '.', m);
    Runner.DangerousIsTwoPerson(req);
    forall i | 0 <= i < |nonces|
      ensures Runner.Decisions(vs)[i] == Runner.AdminApprove(env, input, nonces[i])
    {
    }
    Runner.AdminApprovalsExecute(env, input, vs, nonces);
    Runner.ReplayIsTheMachine(env, input, vs);
  }

  class Endpoints {
    const queue: TaskQueue
    const graph: Checkpointer
    const cfg: Config
    const mac: Mac
    const key: string
    const fleetReady: bool
    const smokeReady: bool
    const queueEnabled: bool

    constructor (queue: TaskQueue, graph: Checkpointer, cfg: Config, mac: Mac, key: string,
                 fleetReady: bool, smokeReady: bool, queueEnabled: bool)
      ensures this.queue == queue && this.graph == graph && this.cfg == cfg
      ensures this.mac == mac && this.key == key
      ensures this.fleetReady == fleetReady && this.smokeReady == smokeReady
      ensures this.queueEnabled == queueEnabled
    {
      this.queue, this.graph, this.cfg, this.mac, this.key := queue, graph, cfg, mac, key;
      this.fleetReady, this.smokeReady, this.queueEnabled := fleetReady, smokeReady, queueEnabled;
    }

    /** The graph that runs this task has been built. */
    predicate Ready(id: TaskId) {
      if SMOKE <= id then smokeReady else fleetReady
    }

    /** Verdicts on this task are reconciled with its row: not without a queue, and not for smoke
        tasks, which never entered it. */
    predicate Reconciles(id: TaskId) {
      queueEnabled && !(SMOKE <= id)
    }

    ghost predicate SmokeStaysOut(id: TaskId)
      reads queue
    {
      SMOKE <= id ==> id !in queue.queue
    }

    /** Nothing changed for lack of a graph or of a paused thread. */
    twostate predicate Refused(id: TaskId, status: Status)
      reads graph
    {
      && (status == NoGraph <==> (SMOKE <= id && !smokeReady) || (!(SMOKE <= id) && !fleetReady))
      && (status == NotPaused <==> status != NoGraph && !old(graph.IsPaused(id)))
    }

    /** The answer to a verdict that reached a paused thread: 500 if the resume raised, "resumed" if
        there is a row and the thread has paused again, else "complete". */
    predicate Answers(id: TaskId, resumed: Resumed, status: Status) {
      && (status == Failed <==> resumed.Crashed?)
      && (status == Reparked <==> resumed.StillPaused? && queueEnabled && !(SMOKE <= id))
      && status in {Failed, Reparked, Complete}
    }

    /** An accepted verdict is the world's verdict event; without a queue, its part on the thread. */
    twostate predicate Accepted(id: TaskId, resumed: Resumed, now: Time, w: World)
      reads queue, graph
    {
      if queueEnabled then Shows(queue, graph, now, After(cfg, w, Verdict(id, resumed)))
      else queue.Contents() == old(queue.Contents()) && graph.threads == old(graph.threads)[id := ResumedThread(resumed)]
    }

    /** Resume, look again, reconcile. */
    method Resume(id: TaskId, resumed: Resumed, now: Time, ghost w: World) returns (status: Status)
      requires Shows(queue, graph, now, w) && graph.IsPaused(id) && SmokeStaysOut(id)
      modifies graph, queue
      ensures Accepted(id, resumed, now, w) && Answers(id, resumed, status)
    {
      var ok := graph.Resume(id, resumed);
      if !ok {
        return Failed;
      }
      if Reconciles(id) {
        if graph.IsPaused(id) {
          queue.Apply(id, Park(now + cfg.approvalTtlSeconds, None), now);
          return Reparked;
        }
        queue.Apply(id, Resolve(resumed.output), now);
      }
      status := Complete;
    }

    /** Refused exactly without a graph or a paused thread, and then nothing changes; otherwise
        accepted. */
    method PostApproval(id: TaskId, resumed: Resumed, now: Time, ghost w: World) returns (status: Status)
      requires Shows(queue, graph, now, w) && SmokeStaysOut(id)
      modifies graph, queue
      ensures Refused(id, status)
      ensures status in {NoGraph, NotPaused} ==> Shows(queue, graph, now, w)
      ensures status !in {NoGraph, NotPaused} ==> Accepted(id, resumed, now, w) && Answers(id, resumed, status)
    {
      if !Ready(id) {
        return NoGraph;
      }
      if !graph.IsPaused(id) {
        return NotPaused;
      }
      status := Resume(id, resumed, now, w);
    }

    /** The shared body of approve and deny. A refused verdict changes nothing; an accepted one is
        the world's verdict event, and the token sent with a grant passes the runner's check for
        this very task and interrupt exactly when none of its fields holds the separator. */
    method ResumeWithVerdict(id: TaskId, granted: bool, interrupt: Interrupt, nonce: string,
                             resumed: Resumed, now: Time, ghost w: World)
      returns (status: Status, token: string)
      requires Shows(queue, graph, now, w) && SmokeStaysOut(id) && HexMac(mac, key)
      modifies graph, queue
      ensures Refused(id, status)
      ensures status == CannotMint <==>
        status !in {NoGraph, NotPaused} && granted && (interrupt.actionClass == "" || '.' !in interrupt.target)
      ensures status == NoKey <==> status !in {NoGraph, NotPaused, CannotMint} && granted && key == ""
      ensures status in {NoGraph, NotPaused, CannotMint, NoKey} ==> Shows(queue, graph, now, w)
      ensures status !in {NoGraph, NotPaused, CannotMint, NoKey} ==>
        && Accepted(id, resumed, now, w) && Answers(id, resumed, status)
        && (!granted ==> token == "")
        && (granted ==>
              && Mintable(interrupt) && token == Minted(mac, key, id, interrupt, nonce)
              && forall server, m :: interrupt.target == server + "." + m && '.' !in server ==>
                   (Verify(mac, key, token, Fields(id, interrupt.actionClass, server, m))
                    <==> PipeFree(Fields(id, interrupt.actionClass, server, m))))
    {
      token := "";
      if !Ready(id) {
        return NoGraph, token;
      }
      if !graph.IsPaused(id) {
        return NotPaused, token;
      }
      if granted {
        if !Mintable(interrupt) {
          return CannotMint, token;
        }
        if key == "" {
          return NoKey, token;
        }
        token := Minted(mac, key, id, interrupt, nonce);
        forall server, m | interrupt.target == server + "." + m && '.' !in server
          ensures Verify(mac, key, token, Fields(id, interrupt.actionClass, server, m))
             <==> PipeFree(Fields(id, interrupt.actionClass, server, m))
        {
          MintedForTheTarget(mac, key, id, interrupt, nonce, server, m);
        }
      }
      status := Resume(id, resumed, now, w);
    }
  }
}
