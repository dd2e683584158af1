/** The graph with its checkpointer, as far as queue and endpoints can see it: one thread per task. */
module CheckpointerClass {
  import opened Options
  import opened TaskTables
  import opened QueueWorld
  import opened TaskQueueClass

  class Checkpointer {
    var threads: map<TaskId, Thread>

    constructor ()
      ensures threads == map[]
    {
      threads := map[];
    }

    predicate IsPaused(id: TaskId)
      reads this
    {
      id in threads && threads[id].Paused?
    }

    /** A first run of the graph, which ends as given. */
    method Invoke(id: TaskId, outcome: Outcome)
      modifies this
      ensures threads == old(threads)[id := ThreadAfter(outcome)]
    {
      threads := threads[id := match outcome
                               case Raised(_) => Idle
                               case Suspended(_) => Thread.Paused
                               case Returned(output) => Finished(output)];
    }

    /** A resume of a paused thread; false if it raises. */
    method Resume(id: TaskId, resumed: Resumed) returns (ok: bool)
      requires IsPaused(id)
      modifies this
      ensures threads == old(threads)[id := ResumedThread(resumed)]
      ensures ok <==> !resumed.Crashed?
    {
      ok := true;
      match resumed {
        case StillPaused =>
        case RanOut(output) =>
          threads := threads[id := Finished(output)];
        case Crashed(shown) =>
          ok := false;
          if !shown {
            threads := threads[id := Broken];
          }
      }
    }
  }

  /** Database, clock and checkpointer are as the world says. */
  ghost predicate Shows(queue: TaskQueue, graph: Checkpointer, now: Time, w: World)
    reads queue, graph
  {
    queue.Valid() && w.sys.tables == queue.Contents() && w.sys.now == now && w.threads == graph.threads
  }
}
