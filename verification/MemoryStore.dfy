/** `MCPMemoryStore` as an append-only observation log that must behave as a plain map
    (src/agents/memory_store.py). JSON encoding is taken to round-trip; observation timestamps are
    taken to grow with insertion. */
module MemoryStoreModel {
  import opened Options
  import opened MemoryKeys

  type Value = string

  /** An observation's content: a JSON object, or something `_parse_value` rejects. */
  datatype Content = Object(value: Value) | Unparsable

  datatype Observation = Observation(entity: nat, content: Content, deleted: bool)

  datatype Entity = Entity(id: nat, namespace: string)

  datatype Graph = Graph(entities: map<string, Entity>, log: seq<Observation>, nextId: nat)

  datatype Address = Address(ns: Namespace, key: string)

  datatype Command = Put(at: Address, value: Value) | Delete(at: Address)

  // ---- the statements ----

  /** `ORDER BY created_at DESC LIMIT 1` over the live observations of an entity. */
  function Latest(log: seq<Observation>, entity: nat): Option<Content> {
    if log == [] then None
    else
      var last := log[|log| - 1];
      if last.entity == entity && !last.deleted then Some(last.content)
      else Latest(log[..|log| - 1], entity)
  }

  function Parsed(content: Option<Content>): Option<Value> {
    if content.Some? && content.value.Object? then Some(content.value.value) else None
  }

  function Get(g: Graph, at: Address): Option<Value> {
    var name := EntityName(at.ns, at.key);
    if name in g.entities then Parsed(Latest(g.log, g.entities[name].id)) else None
  }

  /** The upsert keeps the entity, and its namespace, if the name is taken. */
  function Upsert(g: Graph, at: Address): Graph {
    var name := EntityName(at.ns, at.key);
    if name in g.entities then g
    else g.(entities := g.entities[name := Entity(g.nextId, EntityNamespace(at.ns))], nextId := g.nextId + 1)
  }

  function Retired(o: Observation, entity: nat): Observation {
    if o.entity == entity then o.(deleted := true) else o
  }

  function Execute(g: Graph, c: Command): Graph {
    var name := EntityName(c.at.ns, c.at.key);
    match c
    case Put(at, value) =>
      var g' := Upsert(g, at);
      g'.(log := g'.log + [Observation(g'.entities[name].id, Object(value), false)])
    case Delete(_) =>
      if name !in g.entities then g
      else g.(log := seq(|g.log|, i requires 0 <= i < |g.log| => Retired(g.log[i], g.entities[name].id)))
  }

  class MemoryStore {
    var entities: map<string, Entity>
    var log: seq<Observation>
    var nextId: nat

    constructor ()
      ensures Contents() == Graph(map[], [], 0)
    {
      entities, log, nextId := map[], [], 0;
    }

    function Contents(): Graph
      reads this
    {
      Graph(entities, log, nextId)
    }

    method Aget(at: Address) returns (item: Option<Value>)
      ensures item == Get(Contents(), at)
    {
      var name := EntityName(at.ns, at.key);
      if name !in entities {
        return None;
      }
      var i := |log|;
      assert log[..i] == log;
      while i > 0 && (log[i - 1].entity != entities[name].id || log[i - 1].deleted)
        invariant 0 <= i <= |log|
        invariant Latest(log, entities[name].id) == Latest(log[..i], entities[name].id)
      {
        assert log[..i][..i - 1] == log[..i - 1];
        i := i - 1;
      }
      item := if i == 0 then None else Parsed(Some(log[i - 1].content));
    }

    /** `value` None is the delete. */
    method Aput(at: Address, value: Option<Value>)
      modifies this
      ensures Contents()
           == Execute(old(Contents()), if value.Some? then Put(at, value.value) else Delete(at))
    {
      var name := EntityName(at.ns, at.key);
      if value.None? {
        if name in entities {
          var id := entities[name].id;
          log := seq(|log|, i requires 0 <= i < |log| reads this => Retired(log[i], id));
        }
        return;
      }
      if name !in entities {
        entities := entities[name := Entity(nextId, EntityNamespace(at.ns))];
        nextId := nextId + 1;
      }
      log := log + [Observation(entities[name].id, Object(value.value), false)];
    }
  }

  // ---- the plain map ----

  function Apply(m: map<Address, Value>, c: Command): map<Address, Value> {
    match c
    case Put(at, value) => m[at := value]
    case Delete(at) => m - {at}
  }

  function Find(m: map<Address, Value>, at: Address): Option<Value> {
    if at in m then Some(m[at]) else None
  }

  predicate Usable(at: Address) {
    Clean(at.ns) && '/' !in at.key
  }

  ghost const USABLE := iset at: Address | Usable(at)

  /** Every command is at an address of the set. */
  ghost predicate Over(cs: seq<Command>, S: iset<Address>) {
    forall i :: 0 <= i < |cs| ==> cs[i].at in S
  }

  /** No two addresses of the set share an entity. */
  ghost predicate Injective(S: iset<Address>) {
    forall a, b :: a in S && b in S && EntityName(a.ns, a.key) == EntityName(b.ns, b.key) ==> a == b
  }

  function RunLog(g: Graph, cs: seq<Command>): Graph
    decreases |cs|
  {
    if cs == [] then g else RunLog(Execute(g, cs[0]), cs[1..])
  }

  function RunMap(m: map<Address, Value>, cs: seq<Command>): map<Address, Value>
    decreases |cs|
  {
    if cs == [] then m else RunMap(Apply(m, cs[0]), cs[1..])
  }

  const EMPTY := Graph(map[], [], 0)

  // ---- the log refines the map ----

  ghost predicate WellKept(g: Graph) {
    && (forall n :: n in g.entities ==> g.entities[n].id < g.nextId)
    && (forall n, n' :: n in g.entities && n' in g.entities && g.entities[n].id == g.entities[n'].id ==> n == n')
    && (forall i :: 0 <= i < |g.log| ==> g.log[i].entity < g.nextId)
  }

  ghost predicate Agree(g: Graph, m: map<Address, Value>, S: iset<Address>) {
    forall at: Address {:trigger Get(g, at)} :: at in S ==> Get(g, at) == Find(m, at)
  }

  lemma {:induction false} LatestRetired(log: seq<Observation>, log': seq<Observation>, id: nat, entity: nat)
    requires |log'| == |log| && forall i :: 0 <= i < |log| ==> log'[i] == Retired(log[i], id)
    ensures Latest(log', entity) == if entity == id then None else Latest(log, entity)
  {
    if log != [] {
      LatestRetired(log[..|log| - 1], log'[..|log| - 1], id, entity);
    }
  }

  lemma LatestAppend(log: seq<Observation>, o: Observation, entity: nat)
    requires !o.deleted
    ensures Latest(log + [o], entity) == if o.entity == entity then Some(o.content) else Latest(log, entity)
  {
    assert (log + [o])[..|log|] == log;
  }

  lemma {:induction false} LatestUnknown(log: seq<Observation>, entity: nat)
    requires forall i :: 0 <= i < |log| ==> log[i].entity != entity
    ensures Latest(log, entity) == None
  {
    if log != [] {
      LatestUnknown(log[..|log| - 1], entity);
    }
  }

  lemma UpsertKeeps(g: Graph, at: Address)
    requires WellKept(g)
    ensures WellKept(Upsert(g, at))
    ensures forall at' :: Get(Upsert(g, at), at') == Get(g, at')
  {
    forall at'
      ensures Get(Upsert(g, at), at') == Get(g, at')
    {
      LatestUnknown(g.log, g.nextId);
    }
  }

  lemma PutKeeps(g: Graph, m: map<Address, Value>, S: iset<Address>, at: Address, value: Value)
    requires WellKept(g) && Agree(g, m, S) && Injective(S) && at in S
    ensures WellKept(Execute(g, Put(at, value)))
    ensures Agree(Execute(g, Put(at, value)), Apply(m, Put(at, value)), S)
  {
    UpsertKeeps(g, at);
    var g1 := Upsert(g, at);
    var g2 := Execute(g, Put(at, value));
    var id := g1.entities[EntityName(at.ns, at.key)].id;
    forall at': Address | at' in S
      ensures Get(g2, at') == Find(m[at := value], at')
    {
      assert Get(g1, at') == Get(g, at') == Find(m, at');
      if EntityName(at'.ns, at'.key) in g1.entities {
        LatestAppend(g1.log, Observation(id, Object(value), false),
                     g1.entities[EntityName(at'.ns, at'.key)].id);
      }
    }
  }

  lemma DeleteKeeps(g: Graph, m: map<Address, Value>, S: iset<Address>, at: Address)
    requires WellKept(g) && Agree(g, m, S) && Injective(S) && at in S
    ensures WellKept(Execute(g, Delete(at)))
    ensures Agree(Execute(g, Delete(at)), Apply(m, Delete(at)), S)
  {
    var name := EntityName(at.ns, at.key);
    var g' := Execute(g, Delete(at));
    forall at': Address | at' in S
      ensures Get(g', at') == Find(m - {at}, at')
    {
      assert Get(g, at') == Find(m, at');
      var name' := EntityName(at'.ns, at'.key);
      if name in g.entities && name' in g.entities {
        LatestRetired(g.log, g'.log, g.entities[name].id, g.entities[name'].id);
      }
    }
  }

  lemma {:induction false} RunsAgree(g: Graph, m: map<Address, Value>, S: iset<Address>, cs: seq<Command>)
    requires WellKept(g) && Agree(g, m, S) && Injective(S) && Over(cs, S)
    ensures Agree(RunLog(g, cs), RunMap(m, cs), S)
    decreases |cs|
  {
    if cs != [] {
      assert cs[0].at in S;
      match cs[0] {
        case Put(at, value) => PutKeeps(g, m, S, at, value);
        case Delete(at) => DeleteKeeps(g, m, S, at);
      }
      RunsAgree(Execute(g, cs[0]), Apply(m, cs[0]), S, cs[1..]);
    }
  }

  /** Used at these addresses only, the store is a plain map: after any puts and deletes a get
      returns exactly what the map would. */
  ghost predicate BehavesAsMap(S: iset<Address>) {
    forall cs, at :: Over(cs, S) && at in S ==> Get(RunLog(EMPTY, cs), at) == Find(RunMap(map[], cs), at)
  }

  lemma OnePutClashes(a: Address, b: Address)
    requires a != b && EntityName(a.ns, a.key) == EntityName(b.ns, b.key)
    ensures Get(RunLog(EMPTY, [Put(a, "")]), b) == Some("")
    ensures Find(RunMap(map[], [Put(a, "")]), b) == None
  {
    var c := Put(a, "");
    assert [c][1..] == [];
    assert RunLog(EMPTY, [c]) == Execute(EMPTY, c);
    assert RunMap(map[], [c]) == map[a := ""];
    LatestAppend([], Observation(0, Object(""), false), 0);
  }

  /** For any set of addresses whatever: the store behaves as a map on it exactly if no two of them
      share an entity name. */
  lemma BehavesAsMapExactlyIfInjective(S: iset<Address>)
    ensures BehavesAsMap(S) <==> Injective(S)
  {
    if Injective(S) {
      forall cs, at | Over(cs, S) && at in S
        ensures Get(RunLog(EMPTY, cs), at) == Find(RunMap(map[], cs), at)
      {
        assert Agree(EMPTY, map[], S);
        RunsAgree(EMPTY, map[], S, cs);
      }
    } else {
      var a, b :| a in S && b in S && a != b && EntityName(a.ns, a.key) == EntityName(b.ns, b.key);
      OnePutClashes(a, b);
      assert Over([Put(a, "")], S);
    }
  }

  /** Usable addresses are such a set. */
  lemma LogRefinesMap(cs: seq<Command>, at: Address)
    requires Over(cs, USABLE) && Usable(at)
    ensures Get(RunLog(EMPTY, cs), at) == Find(RunMap(map[], cs), at)
  {
    forall a, b | a in USABLE && b in USABLE && EntityName(a.ns, a.key) == EntityName(b.ns, b.key)
      ensures a == b
    {
      NamesAreInjective(a.ns, a.key, b.ns, b.key);
    }
    BehavesAsMapExactlyIfInjective(USABLE);
    assert at in USABLE;
  }

  /** A get returns a value exactly if the entity of that name has live observations and the newest of
      them is that value. */
  lemma GetReadsTheNewest(g: Graph, at: Address, value: Value)
    ensures Get(g, at) == Some(value)
      <==> (EntityName(at.ns, at.key) in g.entities
            && exists i: nat :: IsNewest(g.log, g.entities[EntityName(at.ns, at.key)].id, i)
                                && g.log[i].content == Object(value))
  {
    if EntityName(at.ns, at.key) in g.entities {
      var i := LatestIsNewest(g.log, g.entities[EntityName(at.ns, at.key)].id);
    }
  }

  predicate IsNewest(log: seq<Observation>, entity: nat, i: nat) {
    && i < |log| && log[i].entity == entity && !log[i].deleted
    && forall j :: i < j < |log| ==> log[j].entity != entity || log[j].deleted
  }

  lemma {:induction false} LatestIsNewest(log: seq<Observation>, entity: nat) returns (i: Option<nat>)
    ensures i.None? ==> Latest(log, entity).None? && forall j: nat :: !IsNewest(log, entity, j)
    ensures i.Some? ==> IsNewest(log, entity, i.value) && Latest(log, entity) == Some(log[i.value].content)
  {
    i := None;
    if log != [] {
      var n := |log| - 1;
      i := LatestIsNewest(log[..n], entity);
      if log[n].entity == entity && !log[n].deleted {
        i := Some(n);
      } else {
        forall j: nat | j < n
          ensures IsNewest(log, entity, j) <==> IsNewest(log[..n], entity, j)
        {
        }
      }
    }
  }

  // ---- history ----

  /** `later` extends `earlier`: same observations in the same order, none un-deleted. */
  predicate Extends(earlier: seq<Observation>, later: seq<Observation>) {
    && |earlier| <= |later|
    && forall i :: 0 <= i < |earlier| ==>
         && later[i].entity == earlier[i].entity
         && later[i].content == earlier[i].content
         && (earlier[i].deleted ==> later[i].deleted)
  }

  /** History is never lost, at any address: deletes only mark, puts only append. */
  lemma {:induction false} HistoryOnlyGrows(g: Graph, cs: seq<Command>)
    ensures Extends(g.log, RunLog(g, cs).log)
    decreases |cs|
  {
    if cs != [] {
      var g1 := Execute(g, cs[0]);
      assert Extends(g.log, g1.log);
      HistoryOnlyGrows(g1, cs[1..]);
    }
  }

  // ---- what a search row says about its address ----

  ghost predicate Labelled(g: Graph) {
    forall at: Address :: Usable(at) && EntityName(at.ns, at.key) in g.entities ==>
      g.entities[EntityName(at.ns, at.key)].namespace == EntityNamespace(at.ns)
  }

  lemma {:induction false} RunsLabel(g: Graph, cs: seq<Command>)
    requires Labelled(g) && Over(cs, USABLE)
    ensures Labelled(RunLog(g, cs))
    decreases |cs|
  {
    if cs != [] {
      var g1 := Execute(g, cs[0]);
      forall at: Address | Usable(at) && EntityName(at.ns, at.key) in g1.entities
        ensures g1.entities[EntityName(at.ns, at.key)].namespace == EntityNamespace(at.ns)
      {
        assert cs[0].at in USABLE;
        if EntityName(at.ns, at.key) == EntityName(cs[0].at.ns, cs[0].at.key) {
          NamesAreInjective(at.ns, at.key, cs[0].at.ns, cs[0].at.key);
        }
      }
      RunsLabel(g1, cs[1..]);
    }
  }

  /** The namespace and key a search decodes from a stored entity are those it was put under. */
  lemma SearchDecodesTheAddress(cs: seq<Command>, at: Address)
    requires Over(cs, USABLE) && Usable(at)
    requires EntityName(at.ns, at.key) in RunLog(EMPTY, cs).entities
    ensures var name := EntityName(at.ns, at.key);
      && NamespaceOf(RunLog(EMPTY, cs).entities[name].namespace) == at.ns
      && KeyOf(name) == at.key
  {
    RunsLabel(EMPTY, cs);
    NamespaceRoundTrip(at.ns);
    KeyRoundTrip(at.ns, at.key);
  }

  /** Two addresses that share one entity: the second put replaces the first item, and the entity
      stays under the first one's namespace. */
  lemma SlashesCollide()
    ensures var a, b := Address(["x"], "y/z"), Address(["x", "y"], "z");
      && a != b && EntityName(a.ns, a.key) == EntityName(b.ns, b.key)
      && var g := RunLog(EMPTY, [Put(a, "first"), Put(b, "second")]);
      && Get(g, a) == Some("second")
      && EntityName(b.ns, b.key) in g.entities
      && g.entities[EntityName(b.ns, b.key)].namespace == EntityNamespace(a.ns)
  {
    var a, b := Address(["x"], "y/z"), Address(["x", "y"], "z");
    assert ["x", "y"][1..] == ["y"];
    NameSplits(a.ns, a.key);
    NameSplits(b.ns, b.key);
    assert EntityName(a.ns, a.key) == "langgraph/x" + ['/'] + "y/z" == "langgraph/x/y/z";
    assert EntityName(b.ns, b.key) == "langgraph/x/y" + ['/'] + "z" == "langgraph/x/y/z";
    var g1 := Execute(EMPTY, Put(a, "first"));
    var g2 := Execute(g1, Put(b, "second"));
    var cs := [Put(a, "first"), Put(b, "second")];
    assert cs[1..] == [Put(b, "second")] && cs[1..][1..] == [];
    assert RunLog(g1, cs[1..]) == RunLog(g2, []);
    LatestAppend(g1.log, Observation(0, Object("second"), false), 0);
  }
}
