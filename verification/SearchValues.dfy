/** Whether a search item carries the value a get would return (src/agents/memory_store.py:268-363
    against 163-193). Puts never retire older observations; the semantic leg reads every live one, and
    the keyword leg the newest one that matches. Distances and matches are inputs. */
module SearchValues {
  import opened Options
  import opened MemoryKeys
  import opened MemoryStoreModel
  import opened MemorySearch

  predicate LiveAt(log: seq<Observation>, entity: nat, i: int) {
    0 <= i < |log| && log[i].entity == entity && !log[i].deleted
  }

  /** The newest live observation of the entity whose content matches. */
  function Newest(log: seq<Observation>, entity: nat, matches: Content -> bool): (i: Option<nat>)
    ensures i.Some? ==> LiveAt(log, entity, i.value) && matches(log[i.value].content)
    ensures i.Some? ==> forall j :: i.value < j < |log| && LiveAt(log, entity, j) ==> !matches(log[j].content)
    ensures i.None? ==> forall j :: 0 <= j < |log| && LiveAt(log, entity, j) ==> !matches(log[j].content)
  {
    if log == [] then None
    else
      var n := |log| - 1;
      if LiveAt(log, entity, n) && matches(log[n].content) then Some(n)
      else
        assert forall j :: 0 <= j < n ==> LiveAt(log, entity, j) == LiveAt(log[..n], entity, j);
        Newest(log[..n], entity, matches)
  }

  function Any(c: Content): bool {
    true
  }

  lemma {:induction false} NewestIsLatest(log: seq<Observation>, entity: nat)
    ensures var i := Newest(log, entity, Any);
      Latest(log, entity) == if i.None? then None else Some(log[i.value].content)
  {
    if log != [] {
      NewestIsLatest(log[..|log| - 1], entity);
    }
  }

  function RowOf(log: seq<Observation>, i: nat): Row
    requires i < |log|
  {
    Row(log[i].entity, log[i].content.Object?, i)
  }

  /** The namespace filter lets the entity through. */
  ghost predicate Under(g: Graph, prefix: Namespace, entity: nat) {
    exists name :: name in g.entities && g.entities[name].id == entity && Selected(g.entities[name].namespace, prefix)
  }

  /** What is asked, with the order of distances in which observations with an embedding come, and
      with what counts as a match for the keyword leg. */
  datatype Query = Query(
    prefix: Namespace,
    order: seq<nat>,
    matches: Content -> bool,
    offset: nat,
    limit: nat)

  /** The semantic leg reads live observations under the prefix. */
  ghost predicate Orderly(g: Graph, q: Query) {
    && (forall k :: 0 <= k < |q.order| ==>
          q.order[k] < |g.log| && !g.log[q.order[k]].deleted && Under(g, q.prefix, g.log[q.order[k]].entity))
    && (forall k, l :: 0 <= k < l < |q.order| ==> q.order[k] != q.order[l])
  }

  function Semantic(log: seq<Observation>, order: seq<nat>): seq<Row>
    requires forall k :: 0 <= k < |order| ==> order[k] < |log|
  {
    seq(|order|, k requires 0 <= k < |order| => RowOf(log, order[k]))
  }

  /** `DISTINCT ON (e.id) ... ORDER BY e.id, o.created_at DESC`, for the entities below `n`. */
  ghost function Keyword(g: Graph, prefix: Namespace, matches: Content -> bool, n: nat): (rows: seq<Row>)
    ensures forall row :: row in rows ==>
      row.entity < n && Newest(g.log, row.entity, matches) == Some(row.source)
      && row.source < |g.log| && row == RowOf(g.log, row.source)
  {
    if n == 0 then []
    else
      var i := Newest(g.log, n - 1, matches);
      var before := Keyword(g, prefix, matches, n - 1);
      if Under(g, prefix, n - 1) && i.Some? then before + [RowOf(g.log, i.value)] else before
  }

  /** The row the keyword leg has for an entity, if it has one. */
  ghost predicate HasRow(g: Graph, prefix: Namespace, matches: Content -> bool, entity: nat) {
    Under(g, prefix, entity) && Newest(g.log, entity, matches).Some?
  }

  /** One row, the newest match, for exactly the entities below `n` that have one, by entity id. */
  ghost predicate IsLeg(g: Graph, prefix: Namespace, matches: Content -> bool, n: nat, rows: seq<Row>) {
    && (forall entity: nat {:trigger HasRow(g, prefix, matches, entity)} ::
          entity < n && HasRow(g, prefix, matches, entity) ==>
            RowOf(g.log, Newest(g.log, entity, matches).value) in rows)
    && (forall k :: 0 <= k < |rows| ==> rows[k].entity < n && HasRow(g, prefix, matches, rows[k].entity))
    && (forall k, l :: 0 <= k < l < |rows| ==> rows[k].entity < rows[l].entity)
  }

  lemma LegGrows(g: Graph, prefix: Namespace, matches: Content -> bool, n: nat, before: seq<Row>, rows: seq<Row>)
    requires IsLeg(g, prefix, matches, n, before)
    requires rows == if HasRow(g, prefix, matches, n) then before + [RowOf(g.log, Newest(g.log, n, matches).value)]
                     else before
    ensures IsLeg(g, prefix, matches, n + 1, rows)
  {
    if HasRow(g, prefix, matches, n) {
      assert RowOf(g.log, Newest(g.log, n, matches).value).entity == n;
      assert rows[|before|] == RowOf(g.log, Newest(g.log, n, matches).value);
    }
    forall entity: nat | entity < n + 1 && HasRow(g, prefix, matches, entity)
      ensures RowOf(g.log, Newest(g.log, entity, matches).value) in rows
    {
      if entity < n {
        assert RowOf(g.log, Newest(g.log, entity, matches).value) in before;
      }
    }
  }

  /** The keyword leg is just that, over all entities. */
  lemma {:induction false} KeywordIsComplete(g: Graph, prefix: Namespace, matches: Content -> bool, n: nat)
    ensures IsLeg(g, prefix, matches, n, Keyword(g, prefix, matches, n))
  {
    if n > 0 {
      KeywordIsComplete(g, prefix, matches, n - 1);
      LegGrows(g, prefix, matches, n - 1, Keyword(g, prefix, matches, n - 1), Keyword(g, prefix, matches, n));
    }
  }

  /** `_asearch`, from the two legs to the results. */
  method Asearch(g: Graph, q: Query, keyword: seq<Row>) returns (results: seq<Row>)
    requires Orderly(g, q) && keyword == Keyword(g, q.prefix, q.matches, g.nextId)
    ensures results == Search(g, q)
  {
    results := Merge(Semantic(g.log, q.order), keyword, q.offset, q.limit);
  }

  ghost function Search(g: Graph, q: Query): seq<Row>
    requires Orderly(g, q)
  {
    Found(Semantic(g.log, q.order), Keyword(g, q.prefix, q.matches, g.nextId), q.offset, q.limit)
  }

  lemma FoundInALeg(semantic: seq<Row>, keyword: seq<Row>, offset: nat, limit: nat, row: Row)
    requires row in Found(semantic, keyword, offset, limit)
    ensures row.parses && (row in semantic || row in keyword)
  {
    var rows := Window(semantic, offset, limit) + Window(keyword, offset, limit);
    assert row in Firsts(rows, {});
    FirstsIsExact(rows, {}, row);
  }

  /** Every item comes from a live observation of its entity that parses. */
  lemma ItemsAreLive(g: Graph, q: Query, row: Row)
    requires Orderly(g, q) && row in Search(g, q)
    ensures LiveAt(g.log, row.entity, row.source) && g.log[row.source].content.Object?
    ensures row in Semantic(g.log, q.order) || Newest(g.log, row.entity, q.matches) == Some(row.source)
  {
    FoundInALeg(Semantic(g.log, q.order), Keyword(g, q.prefix, q.matches, g.nextId), q.offset, q.limit, row);
  }

  /** The item carries what the entity holds now. */
  predicate Fresh(log: seq<Observation>, row: Row)
    requires row.source < |log|
  {
    Latest(log, row.entity) == Some(log[row.source].content)
  }

  /** ... which is what a get at its address returns. */
  lemma FreshMeansGet(g: Graph, q: Query, row: Row, at: Address)
    requires Orderly(g, q) && row in Search(g, q)
    requires EntityName(at.ns, at.key) in g.entities && g.entities[EntityName(at.ns, at.key)].id == row.entity
    ensures row.source < |g.log| && g.log[row.source].content.Object?
    ensures Fresh(g.log, row) <==> Get(g, at) == Some(g.log[row.source].content.value)
  {
    ItemsAreLive(g, q, row);
  }

  /** An item of the keyword leg comes from the latest live observation exactly if that one matches. */
  lemma KeywordItemIsLatestExactlyIfItMatches(g: Graph, q: Query, row: Row)
    requires Orderly(g, q) && row in Search(g, q) && row !in Semantic(g.log, q.order)
    ensures var latest := Newest(g.log, row.entity, Any);
      && latest.Some?
      && (latest == Some(row.source) <==> q.matches(g.log[latest.value].content))
  {
    ItemsAreLive(g, q, row);
  }

  /** Without a query everything matches and there is no semantic leg: every item is fresh. */
  lemma BrowsingIsFresh(g: Graph, q: Query, row: Row)
    requires Orderly(g, q) && row in Search(g, q)
    requires q.order == [] && q.matches == Any
    ensures row.source < |g.log| && Fresh(g.log, row)
  {
    ItemsAreLive(g, q, row);
    NewestIsLatest(g.log, row.entity);
  }

  ghost predicate ShownBy(g: Graph, prefix: Namespace, entity: nat, q: Query, row: Row) {
    q.prefix == prefix && Orderly(g, q) && row in Search(g, q) && row.entity == entity
  }

  /** No search whatever, by any distances and any matches, shows this entity with a value that is
      not its present one. */
  ghost predicate NeverStale(g: Graph, prefix: Namespace, entity: nat) {
    forall q, row :: ShownBy(g, prefix, entity, q, row) ==> row.source < |g.log| && Fresh(g.log, row)
  }

  /** All its live observations that parse say the same as the latest one. */
  predicate OneValue(log: seq<Observation>, entity: nat) {
    forall i :: 0 <= i < |log| && LiveAt(log, entity, i) && log[i].content.Object? ==>
      Latest(log, entity) == Some(log[i].content)
  }

  lemma OlderValueIsShown(g: Graph, prefix: Namespace, i: nat) returns (q: Query)
    requires i < |g.log| && !g.log[i].deleted && g.log[i].content.Object? && Under(g, prefix, g.log[i].entity)
    ensures q.prefix == prefix && Orderly(g, q) && RowOf(g.log, i) in Search(g, q)
  {
    q := Query(prefix, [i], c => false, 0, 1);
    var semantic := Semantic(g.log, [i]);
    var keyword := Keyword(g, prefix, q.matches, g.nextId);
    assert semantic == [RowOf(g.log, i)];
    assert Window(semantic, 0, 1) == semantic;
    var rows := semantic + Window(keyword, 0, 1);
    assert Firsts(rows, {})[0] == RowOf(g.log, i);
    assert Search(g, q) == Take(Firsts(rows, {}), 1);
  }

  lemma OneValueIsFresh(g: Graph, q: Query, row: Row)
    requires Orderly(g, q) && row in Search(g, q) && OneValue(g.log, row.entity)
    ensures row.source < |g.log| && Fresh(g.log, row)
  {
    ItemsAreLive(g, q, row);
  }

  lemma TwoValuesGoStale(g: Graph, prefix: Namespace, entity: nat)
    requires Under(g, prefix, entity) && !OneValue(g.log, entity)
    ensures !NeverStale(g, prefix, entity)
  {
    var i :| 0 <= i < |g.log| && LiveAt(g.log, entity, i) && g.log[i].content.Object?
      && Latest(g.log, entity) != Some(g.log[i].content);
    var q := OlderValueIsShown(g, prefix, i);
    var row := RowOf(g.log, i);
    assert ShownBy(g, prefix, entity, q, row) && !Fresh(g.log, row);
  }

  /** Exactly the entities with one value are never shown stale. */
  lemma NeverStaleExactlyIfOneValue(g: Graph, prefix: Namespace, entity: nat)
    requires Under(g, prefix, entity)
    ensures NeverStale(g, prefix, entity) <==> OneValue(g.log, entity)
  {
    if !OneValue(g.log, entity) {
      TwoValuesGoStale(g, prefix, entity);
    } else {
      forall q, row | ShownBy(g, prefix, entity, q, row)
        ensures row.source < |g.log| && Fresh(g.log, row)
      {
        OneValueIsFresh(g, q, row);
      }
    }
  }

  /** Two puts at one address, and a search returns the first value while a get returns the second. */
  lemma SecondPutLeavesAStaleItem(at: Address) returns (q: Query)
    ensures var g := RunLog(EMPTY, [Put(at, "old"), Put(at, "new")]);
      && Get(g, at) == Some("new")
      && Orderly(g, q)
      && |g.log| == 2 && g.log[0].content == Object("old") && RowOf(g.log, 0) in Search(g, q)
  {
    var cs := [Put(at, "old"), Put(at, "new")];
    var g1 := Execute(EMPTY, cs[0]);
    var g := Execute(g1, cs[1]);
    assert cs[1..] == [cs[1]] && [cs[1]][1..] == [];
    assert RunLog(EMPTY, cs) == RunLog(g1, [cs[1]]) == RunLog(g, []) == g;
    LatestAppend(g1.log, Observation(0, Object("new"), false), 0);
    var name := EntityName(at.ns, at.key);
    assert g.entities[name] == Entity(0, EntityNamespace(at.ns));
    assert Under(g, at.ns, 0);
    q := OlderValueIsShown(g, at.ns, 0);
  }
}
