/** The two early-exit loops of `_asearch` (src/agents/memory_store.py:273-363). Rows arrive
    ordered from the database; a row whose content does not parse yields no item. */
module MemorySearch {

  /** `source` is the observation the row was read from. */
  datatype Row = Row(entity: nat, parses: bool, source: nat)

  /** `rows[offset:]` */
  function Drop(rows: seq<Row>, offset: nat): seq<Row> {
    if offset <= |rows| then rows[offset..] else []
  }

  /** `LIMIT n` */
  function Take(rows: seq<Row>, n: nat): seq<Row> {
    if n <= |rows| then rows[..n] else rows
  }

  /** What a loop reads of everything its query would find: the query carries `LIMIT limit + offset`
      and the loop skips `offset`. */
  function Window(all: seq<Row>, offset: nat, limit: nat): (rows: seq<Row>)
    ensures |rows| <= limit
    ensures forall row :: row in rows ==> row in all
  {
    Drop(Take(all, limit + offset), offset)
  }

  /** The first parseable row of every entity not already seen, in order. */
  function Firsts(rows: seq<Row>, seen: set<nat>): seq<Row> {
    if rows == [] then []
    else if rows[0].entity in seen || !rows[0].parses then Firsts(rows[1..], seen)
    else [rows[0]] + Firsts(rows[1..], seen + {rows[0].entity})
  }

  function Found(semantic: seq<Row>, keyword: seq<Row>, offset: nat, limit: nat): seq<Row> {
    Take(Firsts(Window(semantic, offset, limit) + Window(keyword, offset, limit), {}), limit)
  }

  function Entities(rows: seq<Row>): set<nat> {
    set i | 0 <= i < |rows| :: rows[i].entity
  }

  lemma EntitiesOfMore(row: Row, rows: seq<Row>)
    ensures Entities([row] + rows) == {row.entity} + Entities(rows)
  {
    assert forall i :: 0 <= i < |rows| ==> ([row] + rows)[i + 1] == rows[i];
    assert ([row] + rows)[0] == row;
  }

  /** One of the two loops: it adds the first parseable row of every new entity and stops at `limit`. */
  method Scan(rows: seq<Row>, limit: nat, results: seq<Row>, seen: set<nat>)
    returns (results': seq<Row>, seen': set<nat>, full: bool)
    requires |results| < limit || (rows == results == [])
    ensures results' == Take(results + Firsts(rows, seen), limit)
    ensures full ==> |results'| == limit
    ensures !full ==> seen' == seen + Entities(Firsts(rows, seen)) && (rows == [] || |results'| < limit)
  {
    results', seen', full := results, seen, false;
    ghost var all := results + Firsts(rows, seen);
    var i := 0;
    assert rows[0..] == rows;
    while i < |rows|
      invariant 0 <= i <= |rows| && (|results'| < limit || (rows == results' == []))
      invariant all == results' + Firsts(rows[i..], seen')
      invariant seen + Entities(Firsts(rows, seen)) == seen' + Entities(Firsts(rows[i..], seen'))
    {
      var row := rows[i];
      assert rows[i..][1..] == rows[i + 1..];
      i := i + 1;
      if row.entity in seen' || !row.parses {
        continue;
      }
      EntitiesOfMore(row, Firsts(rows[i..], seen' + {row.entity}));
      assert all == results' + [row] + Firsts(rows[i..], seen' + {row.entity});
      seen' := seen' + {row.entity};
      results' := results' + [row];
      if |results'| >= limit {
        full := true;
        return;
      }
    }
  }

  /** `semantic` is empty when there is no query or no embedding. */
  method Merge(semantic: seq<Row>, keyword: seq<Row>, offset: nat, limit: nat) returns (results: seq<Row>)
    ensures results == Found(semantic, keyword, offset, limit)
  {
    var rows1, rows2 := Window(semantic, offset, limit), Window(keyword, offset, limit);
    FirstsOfBoth(rows1, rows2, {});
    FirstsAreFewer(rows1 + rows2, {});
    var seen: set<nat>, full;
    results, seen, full := Scan(rows1, limit, [], {});
    assert [] + Firsts(rows1, {}) == Firsts(rows1, {});
    if full {
      return;
    }
    results, seen, full := Scan(rows2, limit, results, seen);
  }

  /** The row at `i` is the first parseable one of its entity. */
  predicate IsFirst(rows: seq<Row>, i: nat) {
    && i < |rows| && rows[i].parses
    && forall j :: 0 <= j < i && rows[j].parses ==> rows[j].entity != rows[i].entity
  }

  /** `Firsts` is exactly that: a row is in it iff it is the first parseable row of an unseen
      entity, and no entity comes twice. */
  lemma {:induction false} FirstsIsExact(rows: seq<Row>, seen: set<nat>, row: Row)
    ensures row in Firsts(rows, seen) <==>
      row.entity !in seen && exists i: nat :: IsFirst(rows, i) && rows[i] == row
  {
    if rows != [] {
      var head, tail := rows[0], rows[1..];
      var kept := head.parses && head.entity !in seen;
      FirstsIsExact(tail, if kept then seen + {head.entity} else seen, row);
      if i: nat :| IsFirst(tail, i) && tail[i] == row && !(head.parses && head.entity == row.entity) {
        assert IsFirst(rows, i + 1) by {
          forall j | 0 <= j < i + 1 && rows[j].parses
            ensures rows[j].entity != row.entity
          {
            if j > 0 { assert rows[j] == tail[j - 1]; }
          }
        }
      }
      if i: nat :| IsFirst(rows, i) && rows[i] == row && i > 0 {
        assert IsFirst(tail, i - 1) by {
          forall j | 0 <= j < i - 1 && tail[j].parses
            ensures tail[j].entity != row.entity
          {
            assert tail[j] == rows[j + 1];
          }
        }
        assert tail[i - 1] == row;
        assert rows[0].parses ==> rows[0].entity != row.entity;
      }
      if head == row && head.parses {
        assert IsFirst(rows, 0);
      }
    }
  }

  lemma {:induction false} FirstsAreDistinct(rows: seq<Row>, seen: set<nat>)
    ensures forall i, j :: 0 <= i < j < |Firsts(rows, seen)| ==>
      Firsts(rows, seen)[i].entity != Firsts(rows, seen)[j].entity
    ensures forall i :: 0 <= i < |Firsts(rows, seen)| ==> Firsts(rows, seen)[i].entity !in seen
  {
    if rows != [] {
      var head := rows[0];
      if head.entity in seen || !head.parses {
        FirstsAreDistinct(rows[1..], seen);
      } else {
        FirstsAreDistinct(rows[1..], seen + {head.entity});
      }
    }
  }

  /** A window holds exactly the rows from `offset` on, up to `limit` of them. */
  lemma WindowIsASlice(all: seq<Row>, offset: nat, limit: nat, k: nat)
    ensures k < |Window(all, offset, limit)| <==> k < limit && offset + k < |all|
    ensures k < |Window(all, offset, limit)| ==> Window(all, offset, limit)[k] == all[offset + k]
  {
  }

  lemma {:induction false} FirstsOfBoth(a: seq<Row>, b: seq<Row>, seen: set<nat>)
    ensures Firsts(a + b, seen) == Firsts(a, seen) + Firsts(b, seen + Entities(Firsts(a, seen)))
  {
    if a == [] {
      assert a + b == b && seen + Entities([]) == seen;
    } else {
      assert (a + b)[1..] == a[1..] + b;
      if a[0].entity in seen || !a[0].parses {
        FirstsOfBoth(a[1..], b, seen);
      } else {
        FirstsOfBoth(a[1..], b, seen + {a[0].entity});
        var rest := Firsts(a[1..], seen + {a[0].entity});
        EntitiesOfMore(a[0], rest);
        assert seen + {a[0].entity} + Entities(rest) == seen + Entities(Firsts(a, seen));
      }
    }
  }

  /** What the semantic leg finds comes first, in its order; the keyword leg then adds the entities it
      did not show, in its own order, until there are `limit`. */
  lemma SemanticComesFirst(semantic: seq<Row>, keyword: seq<Row>, offset: nat, limit: nat)
    ensures var a := Firsts(Window(semantic, offset, limit), {});
      var b := Firsts(Window(keyword, offset, limit), Entities(a));
      && |a| <= limit
      && Found(semantic, keyword, offset, limit) == a + Take(b, limit - |a|)
  {
    var w1, w2 := Window(semantic, offset, limit), Window(keyword, offset, limit);
    FirstsOfBoth(w1, w2, {});
    FirstsAreFewer(w1, {});
    var a := Firsts(w1, {});
    assert {} + Entities(a) == Entities(a);
  }

  lemma {:induction false} FirstsAreFewer(rows: seq<Row>, seen: set<nat>)
    ensures |Firsts(rows, seen)| <= |rows|
  {
    if rows != [] {
      FirstsAreFewer(rows[1..], seen);
      FirstsAreFewer(rows[1..], seen + {rows[0].entity});
    }
  }
}
