/** Many workers, each with claims it may settle in time, late, or never. Visibility timeouts give
    mutual exclusion exactly as long as no statement tramples on a claim somebody else still holds. */
module QueueLeases {
  import opened Options
  import opened TaskTables
  import opened QueueHistory

  /** `open` holds the indices of the claims whose holder has not settled them (it may have
      crashed: an abandoned claim simply stays open). */
  datatype Leased = Leased(sys: Sys, open: set<nat>)

  /** How a holder settles its claim. */
  datatype Settlement = Change(change: Change) | Dead(error: string)

  datatype Move =
    | External(event: Event)
    | Settle(claim: nat, how: Settlement)

  ghost function SettleEvent(l: Leased, k: nat, how: Settlement): Event
    requires k < |l.sys.claims|
  {
    match how
    case Change(change) => Do(Update(l.sys.claims[k].id, change))
    case Dead(error) => Do(ToDlq(l.sys.claims[k].id, error))
  }

  ghost predicate Unexpired(l: Leased, k: nat) {
    k in l.open && k < |l.sys.claims| && l.sys.now <= l.sys.claims[k].deadline
  }

  /** Somebody holds an unexpired claim of this task, other than the claim `except`. */
  ghost predicate HeldByOther(l: Leased, id: TaskId, except: int) {
    exists j: nat :: Unexpired(l, j) && j != except && l.sys.claims[j].id == id
  }

  /** An ack, nack or park of a queued task that somebody else holds. Resolves look at the status
      first, and a dead-lettering takes the row out of everybody's reach. */
  ghost predicate Tramples(l: Leased, m: Move) {
    match m
    case Settle(k, Change(change)) =>
      && k < |l.sys.claims| && !change.Resolve?
      && l.sys.claims[k].id in l.sys.tables.queue && HeldByOther(l, l.sys.claims[k].id, k)
    case External(Do(Update(id, change))) =>
      !change.Resolve? && id in l.sys.tables.queue && HeldByOther(l, id, -1)
    case _ => false
  }

  /** Any holder may settle its open claim at any time; from outside any event may come. */
  ghost predicate Sound(l: Leased, m: Move) {
    match m
    case Settle(k, _) => k in l.open && k < |l.sys.claims|
    case External(e) => FreshId(l.sys, e)
  }

  ghost function Advance(l: Leased, m: Move): Leased
    requires m.Settle? ==> m.claim < |l.sys.claims|
  {
    match m
    case Settle(k, how) => Leased(Step(l.sys, SettleEvent(l, k, how)), l.open - {k})
    case External(e) =>
      var s' := Step(l.sys, e);
      Leased(s', if |s'.claims| > |l.sys.claims| then l.open + {|l.sys.claims|} else l.open)
  }

  ghost predicate AllSound(l: Leased, ms: seq<Move>)
    decreases |ms|
  {
    ms == [] || (Sound(l, ms[0]) && AllSound(Advance(l, ms[0]), ms[1..]))
  }

  ghost predicate NeverTramples(l: Leased, ms: seq<Move>)
    requires AllSound(l, ms)
    decreases |ms|
  {
    ms == [] || (!Tramples(l, ms[0]) && NeverTramples(Advance(l, ms[0]), ms[1..]))
  }

  ghost function Play(l: Leased, ms: seq<Move>): Leased
    requires AllSound(l, ms)
    decreases |ms|
  {
    if ms == [] then l else Play(Advance(l, ms[0]), ms[1..])
  }

  // ---- the invariant ----

  /** The row of an unexpired claim, if still queued, is claimed with exactly that claim, by its
      worker. */
  ghost predicate Holds(l: Leased, k: nat)
    requires k < |l.sys.claims|
  {
    var c := l.sys.claims[k];
    c.id in l.sys.tables.queue ==>
      var row := l.sys.tables.queue[c.id];
      && row.status.Claimed? && row.attempts == c.attempts && row.visibilityAt == Some(c.deadline)
      && row.claimedBy == Some(c.worker) && row.claimedAt == Some(c.issuedAt)
  }

  ghost predicate Exclusive(l: Leased) {
    && (forall k :: k in l.open ==> k < |l.sys.claims|)
    && (forall k: nat :: Unexpired(l, k) ==> Holds(l, k))
    && (forall j: nat, k: nat ::
          Unexpired(l, j) && Unexpired(l, k) && l.sys.claims[j].id == l.sys.claims[k].id ==> j == k)
  }

  ghost predicate LeaseInv(l: Leased) {
    Inv(l.sys) && Exclusive(l)
  }

  /** A row with an unexpired claim out cannot be claimed again. */
  lemma HeldIsNotClaimable(l: Leased, k: nat)
    requires LeaseInv(l) && Unexpired(l, k) && l.sys.claims[k].id in l.sys.tables.queue
    ensures !Claimable(l.sys.tables.queue[l.sys.claims[k].id], l.sys.now)
  {
    assert Holds(l, k);
  }

  /** What an event must leave alone for the leases to survive it: no claim is issued and the row
      of every unexpired claim is either unchanged or gone. */
  lemma QuietKeeps(l: Leased, s': Sys)
    requires LeaseInv(l) && Inv(s')
    requires s'.claims == l.sys.claims && s'.now >= l.sys.now
    requires forall k: nat :: Unexpired(l, k) ==>
      var id := l.sys.claims[k].id;
      id in s'.tables.queue ==> id in l.sys.tables.queue && s'.tables.queue[id] == l.sys.tables.queue[id]
    ensures LeaseInv(Leased(s', l.open))
  {
    var l' := Leased(s', l.open);
    forall k: nat | Unexpired(l', k)
      ensures Unexpired(l, k) && Holds(l', k)
    {
      assert Unexpired(l, k) && Holds(l, k);
    }
  }

  lemma NewClaimKeeps(l: Leased, s': Sys, id: TaskId, row: Row, c: Claim)
    requires LeaseInv(l) && Inv(s') && s'.now == l.sys.now
    requires id in l.sys.tables.queue && Claimable(l.sys.tables.queue[id], l.sys.now)
    requires s'.tables.queue == l.sys.tables.queue[id := row] && s'.claims == l.sys.claims + [c]
    requires c.id == id && row.status.Claimed? && row.attempts == c.attempts
    requires row.visibilityAt == Some(c.deadline)
    requires row.claimedBy == Some(c.worker) && row.claimedAt == Some(c.issuedAt)
    ensures LeaseInv(Leased(s', l.open + {|l.sys.claims|}))
  {
    var l' := Leased(s', l.open + {|l.sys.claims|});
    forall k: nat | Unexpired(l', k) && k < |l.sys.claims|
      ensures Unexpired(l, k) && s'.claims[k].id != id && Holds(l', k)
    {
      assert s'.claims[k] == l.sys.claims[k];
      assert Unexpired(l, k) && Holds(l, k);
      if l.sys.claims[k].id == id {
        HeldIsNotClaimable(l, k);
      }
    }
  }

  /** A dequeue that finds a row, column by column. */
  lemma DequeueStep(s: Sys, worker: string, timeout: int, locked: set<TaskId>) returns (id: TaskId, row: Row, c: Claim)
    requires Next(s.tables.queue, s.now, locked).Some?
    ensures id in s.tables.queue && Claimable(s.tables.queue[id], s.now)
    ensures c == Claim(id, s.tables.queue[id].attempts + 1, worker, s.now, s.now + timeout)
    ensures row.status.Claimed? && row.attempts == c.attempts && row.visibilityAt == Some(c.deadline)
    ensures row.claimedBy == Some(c.worker) && row.claimedAt == Some(c.issuedAt)
    ensures var s' := Step(s, Do(Op.Dequeue(worker, timeout, locked)));
      s'.now == s.now && s'.tables.queue == s.tables.queue[id := row] && s'.claims == s.claims + [c]
  {
    id := Next(s.tables.queue, s.now, locked).value;
    assert IsNext(s.tables.queue, s.now, locked, id);
    row := ClaimedRow(s.tables.queue[id], worker, s.now, timeout);
    c := Claim(id, row.attempts, worker, s.now, s.now + timeout);
  }

  lemma DequeueKeepsLeases(l: Leased, worker: string, timeout: int, locked: set<TaskId>)
    requires LeaseInv(l)
    ensures LeaseInv(Advance(l, External(Do(Op.Dequeue(worker, timeout, locked)))))
  {
    var e := Do(Op.Dequeue(worker, timeout, locked));
    StepKeeps(l.sys, e);
    if Next(l.sys.tables.queue, l.sys.now, locked).Some? {
      var id, row, c := DequeueStep(l.sys, worker, timeout, locked);
      NewClaimKeeps(l, Step(l.sys, e), id, row, c);
    } else {
      assert Step(l.sys, e) == l.sys;
    }
  }

  lemma OthersKeepTheirs(l: Leased, k: nat, how: Settlement, j: nat)
    requires LeaseInv(l) && Sound(l, Settle(k, how)) && !Tramples(l, Settle(k, how))
    requires Unexpired(l, j) && j != k
    ensures var q, q' := l.sys.tables.queue, Advance(l, Settle(k, how)).sys.tables.queue;
      var id := l.sys.claims[j].id;
      id in q' ==> id in q && q'[id] == q[id]
  {
    assert Holds(l, j);
  }

  lemma SettleKeepsLeases(l: Leased, k: nat, how: Settlement)
    requires LeaseInv(l) && Sound(l, Settle(k, how)) && !Tramples(l, Settle(k, how))
    ensures LeaseInv(Advance(l, Settle(k, how)))
  {
    StepKeeps(l.sys, SettleEvent(l, k, how));
    var l' := Advance(l, Settle(k, how));
    forall j: nat | Unexpired(l', j)
      ensures Unexpired(l, j) && Holds(l', j)
    {
      assert Unexpired(l, j) && Holds(l, j);
      OthersKeepTheirs(l, k, how, j);
    }
  }

  lemma ExternalKeepsLeases(l: Leased, e: Event)
    requires LeaseInv(l) && FreshId(l.sys, e) && !Tramples(l, External(e))
    requires e.Do? ==> !e.op.Dequeue?
    ensures LeaseInv(Advance(l, External(e)))
  {
    StepKeeps(l.sys, e);
    var s' := Step(l.sys, e);
    forall k: nat | Unexpired(l, k)
      ensures var id := l.sys.claims[k].id;
        id in s'.tables.queue ==> id in l.sys.tables.queue && s'.tables.queue[id] == l.sys.tables.queue[id]
    {
      UntouchedByOutsiders(l, e, k);
    }
    QuietKeeps(l, s');
  }

  lemma UntouchedByOutsiders(l: Leased, e: Event, k: nat)
    requires LeaseInv(l) && FreshId(l.sys, e) && !Tramples(l, External(e)) && Unexpired(l, k)
    requires e.Do? ==> !e.op.Dequeue?
    ensures var id := l.sys.claims[k].id;
      var q, q' := l.sys.tables.queue, Step(l.sys, e).tables.queue;
      id in q' ==> id in q && q'[id] == q[id]
  {
    assert Holds(l, k);
    var id := l.sys.claims[k].id;
    assert id in l.sys.born;
    match e
    case Tick(_) =>
    case Do(Insert(_, _)) =>
    case Do(Update(other, change)) =>
    case Do(_) =>
  }

  lemma UntrampledKeeps(l: Leased, m: Move)
    requires LeaseInv(l) && Sound(l, m) && !Tramples(l, m)
    ensures LeaseInv(Advance(l, m))
  {
    match m
    case Settle(k, how) => SettleKeepsLeases(l, k, how);
    case External(Do(Dequeue(worker, timeout, locked))) =>
      DequeueKeepsLeases(l, worker, timeout, locked);
    case External(e) => ExternalKeepsLeases(l, e);
  }

  /** A trampled holder is left with a row that is no longer claimed. */
  lemma TramplingBreaks(l: Leased, m: Move)
    requires LeaseInv(l) && Sound(l, m) && Tramples(l, m)
    ensures !Exclusive(Advance(l, m))
  {
    var id := if m.Settle? then l.sys.claims[m.claim].id else m.event.op.id;
    var j: nat :| Unexpired(l, j) && l.sys.claims[j].id == id && (m.Settle? ==> j != m.claim);
    var l' := Advance(l, m);
    assert Unexpired(l', j) && !Holds(l', j);
  }

  /** Whatever the move, in or out of time, from inside or outside: leases stay exclusive exactly if
      it does not trample. */
  lemma ExclusiveExactlyUnlessTrampled(l: Leased, m: Move)
    requires LeaseInv(l) && Sound(l, m)
    ensures LeaseInv(Advance(l, m)) <==> !Tramples(l, m)
  {
    if Tramples(l, m) {
      TramplingBreaks(l, m);
    } else {
      UntrampledKeeps(l, m);
    }
  }

  /** Exclusive now and after every move. */
  ghost predicate AlwaysExclusive(l: Leased, ms: seq<Move>)
    requires AllSound(l, ms)
    decreases |ms|
  {
    LeaseInv(l) && (ms != [] ==> AlwaysExclusive(Advance(l, ms[0]), ms[1..]))
  }

  /** Over whole runs: leases are exclusive throughout exactly if no move ever tramples. */
  lemma {:induction false} AlwaysExclusiveExactlyUnlessTrampled(l: Leased, ms: seq<Move>)
    requires LeaseInv(l) && AllSound(l, ms)
    ensures AlwaysExclusive(l, ms) <==> NeverTramples(l, ms)
    ensures NeverTramples(l, ms) ==> LeaseInv(Play(l, ms))
    decreases |ms|
  {
    if ms != [] {
      ExclusiveExactlyUnlessTrampled(l, ms[0]);
      if !Tramples(l, ms[0]) {
        AlwaysExclusiveExactlyUnlessTrampled(Advance(l, ms[0]), ms[1..]);
      } else if ms[1..] == [] {
        assert !AlwaysExclusive(Advance(l, ms[0]), []);
      }
    }
  }

  /** At every state reached without trampling a task has at most one unexpired open claim, and its
      row, if still queued, is claimed with that claim's attempts number and deadline. */
  lemma LeaseExclusivity(ms: seq<Move>, j: nat, k: nat)
    requires AllSound(Leased(EMPTY, {}), ms) && NeverTramples(Leased(EMPTY, {}), ms)
    requires var l := Play(Leased(EMPTY, {}), ms); Unexpired(l, j) && Unexpired(l, k)
    ensures var l := Play(Leased(EMPTY, {}), ms);
      && (var c := l.sys.claims[k];
          c.id in l.sys.tables.queue ==>
            var row := l.sys.tables.queue[c.id];
            && row.status.Claimed? && row.attempts == c.attempts && row.visibilityAt == Some(c.deadline)
            && row.claimedBy == Some(c.worker) && row.claimedAt == Some(c.issuedAt))
      && (l.sys.claims[j].id == l.sys.claims[k].id ==> j == k)
  {
    AlwaysExclusiveExactlyUnlessTrampled(Leased(EMPTY, {}), ms);
  }

  /** The repository's own discipline: holders settle within their lease, and from outside a row is
      only re-parked while it awaits a verdict, and otherwise resolved. */
  ghost predicate Disciplined(l: Leased, m: Move) {
    match m
    case Settle(k, _) => Unexpired(l, k)
    case External(e) =>
      && FreshId(l.sys, e)
      && (e.Do? && e.op.Update? ==>
            || e.op.change.Resolve?
            || (e.op.change.Park?
                && (e.op.id in l.sys.tables.queue ==>
                      l.sys.tables.queue[e.op.id].status.AwaitingApproval?)))
  }

  lemma DisciplineNeverTramples(l: Leased, m: Move)
    requires LeaseInv(l) && Disciplined(l, m)
    ensures Sound(l, m) && !Tramples(l, m)
  {
    if m.External? && m.event.Do? && m.event.op.Update? {
      forall j: nat | Unexpired(l, j) && l.sys.claims[j].id == m.event.op.id
        ensures Holds(l, j)
      {
      }
    }
  }

  // ---- a run that tramples ----

  const JOB := Envelope("job", None, None, None)

  /** Two workers, 300-second leases: the first stalls past its deadline, the second reclaims the
      task, and the first one's late nack hands it to a third while the second still holds it. */
  const STALE_NACK := [
    Do(Insert("t", JOB)),
    Do(Op.Dequeue("w1", 300, {})),
    Tick(301),
    Do(Op.Dequeue("w2", 300, {})),
    Do(Update("t", Nack)),
    Do(Op.Dequeue("w3", 300, {}))]

  /** The four events both runs begin with. */
  predicate BeginsStale(es: seq<Event>) {
    |es| > 4 && es[..4] == STALE_NACK[..4] && forall i :: 1 <= i < |es| && es[i].Do? ==> !es[i].op.Insert?
  }

  lemma Reclaimed(es: seq<Event>) returns (s: Sys)
    requires BeginsStale(es)
    ensures Legal(EMPTY, es) && Run(EMPTY, es) == Run(s, es[4..])
    ensures s.now == 301 && s.tables.queue.Keys == {"t"}
    ensures s.tables.queue["t"].status.Claimed? && s.tables.queue["t"].ttlAt.None?
    ensures s.tables.queue["t"].attempts == 2
    ensures |s.claims| == 2 && s.claims[1] == Claim("t", 2, "w2", 301, 601)
  {
    assert forall i :: 0 <= i < 4 ==> es[i] == es[..4][i] == STALE_NACK[i];
    var s1 := Step(EMPTY, es[0]);
    assert es[0..] == es;
    Unroll(EMPTY, es, 0);
    assert s1.tables.queue == map["t" := FreshRow(JOB, 0, 0)];
    var s2 := ClaimOnly(s1, "t", "w1", es, 1);
    Unroll(s2, es, 2);
    s := ClaimOnly(s2.(now := 301), "t", "w2", es, 3);
    NoInsertsAreLegal(s1, es[1..]);
  }

  lemma StaleNackBreaksExclusivity()
    ensures Legal(EMPTY, STALE_NACK)
    ensures var s := Run(EMPTY, STALE_NACK);
      && |s.claims| == 3
      && s.claims[1].id == s.claims[2].id == "t"
      && s.now <= s.claims[1].deadline && s.now <= s.claims[2].deadline
      && "t" in s.tables.queue && s.tables.queue["t"].attempts != s.claims[1].attempts
  {
    var es := STALE_NACK;
    var s4 := Reclaimed(es);
    Unroll(s4, es, 4);
    var s5 := Step(s4, es[4]);
    assert s5.tables.queue.Keys == {"t"};
    var s6 := ClaimOnly(s5, "t", "w3", es, 5);
    assert Run(s6, es[6..]) == s6;
  }

  /** The same two workers: the second acks, the first one's late nack undoes it, and a third claims
      the finished task. */
  const REVIVAL := [
    Do(Insert("t", JOB)),
    Do(Op.Dequeue("w1", 300, {})),
    Tick(301),
    Do(Op.Dequeue("w2", 300, {})),
    Do(Update("t", Ack)),
    Do(Update("t", Nack)),
    Do(Op.Dequeue("w3", 300, {}))]

  lemma FinishedTaskIsClaimedAgain() returns (done: Sys)
    ensures Legal(EMPTY, REVIVAL)
    ensures DoneIn(done.tables, "t") && Run(EMPTY, REVIVAL) == Run(done, REVIVAL[5..])
    ensures var s := Run(EMPTY, REVIVAL);
      && "t" in s.tables.queue && s.tables.queue["t"].status.Claimed?
      && |s.claims| == 3 && s.claims[2].id == "t" && s.now <= s.claims[2].deadline
  {
    var es := REVIVAL;
    var s4 := Reclaimed(es);
    Unroll(s4, es, 4);
    done := Step(s4, es[4]);
    Unroll(done, es, 5);
    var s6 := Step(done, es[5]);
    assert s6.tables.queue.Keys == {"t"};
    var s7 := ClaimOnly(s6, "t", "w3", es, 6);
    assert Run(s7, es[7..]) == s7;
  }

  lemma {:induction false} NoInsertsAreLegal(s: Sys, es: seq<Event>)
    requires forall i :: 0 <= i < |es| && es[i].Do? ==> !es[i].op.Insert?
    ensures Legal(s, es)
    decreases |es|
  {
    if es != [] {
      NoInsertsAreLegal(Step(s, es[0]), es[1..]);
    }
  }

  lemma ClaimOnly(s: Sys, id: TaskId, worker: string, es: seq<Event>, i: nat) returns (s': Sys)
    requires s.tables.queue.Keys == {id} && Claimable(s.tables.queue[id], s.now)
    requires i < |es| && es[i] == Do(Op.Dequeue(worker, 300, {}))
    ensures Run(s, es[i..]) == Run(s', es[i + 1..])
    ensures s'.now == s.now && s'.tables.queue.Keys == {id}
    ensures s'.tables.queue[id] == ClaimedRow(s.tables.queue[id], worker, s.now, 300)
    ensures s'.claims == s.claims + [Claim(id, s'.tables.queue[id].attempts, worker, s.now, s.now + 300)]
  {
    NextIsTheOldest(s.tables.queue, s.now, {});
    assert IsNext(s.tables.queue, s.now, {}, id);
    Unroll(s, es, i);
    s' := Step(s, es[i]);
  }

  lemma Unroll(s: Sys, es: seq<Event>, i: nat)
    requires i < |es|
    ensures Run(s, es[i..]) == Run(Step(s, es[i]), es[i + 1..])
  {
    assert es[i..][1..] == es[i + 1..];
  }
}
