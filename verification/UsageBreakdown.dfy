/** The usage breakdown (src/agents/api/admin.py:526-587): completion counts by model group and by
    tier, accumulated in one pass. The final sort of the two dictionaries is not modelled. */
module UsageBreakdown {
  import opened MapSums

  /** (agent, served_groups, count); a null or empty provenance is an empty list. */
  datatype Row = Row(agent: string, served: seq<string>, count: nat)

  const CLAUDE := "claude"
  const UNKNOWN := "(unknown)"
  const ESCALATED := "escalated"
  const LOCAL := "local"
  const PRECEDENCE := ["claude", "local-spark-coder", "local-spark", "local-p40"]

  function Rank(group: string): nat {
    if group == PRECEDENCE[0] then 0
    else if group == PRECEDENCE[1] then 1
    else if group == PRECEDENCE[2] then 2
    else if group == PRECEDENCE[3] then 3
    else 4
  }

  /** `min(served, key=rank)`: the first group of the smallest rank. */
  method RepresentativeGroup(served: seq<string>) returns (group: string)
    requires served != []
    ensures group == Representative(served)
  {
    group := served[0];
    assert served[..1] == [served[0]];
    for i := 1 to |served|
      invariant group == Representative(served[..i])
    {
      assert served[..i + 1][..i] == served[..i];
      if Rank(served[i]) < Rank(group) {
        group := served[i];
      }
    }
    assert served[..|served|] == served;
  }

  function Representative(served: seq<string>): string
    requires served != []
  {
    if |served| == 1 then served[0]
    else
      var best := Representative(served[..|served| - 1]);
      var last := served[|served| - 1];
      if Rank(last) < Rank(best) then last else best
  }

  /** The representative served the task, nothing that served it is more escalated, and it is
      Claude exactly when Claude served at all. */
  lemma {:induction false} RepresentativeIsMostEscalated(served: seq<string>)
    requires served != []
    ensures Representative(served) in served
    ensures forall g :: g in served ==> Rank(Representative(served)) <= Rank(g)
    ensures Representative(served) == CLAUDE <==> CLAUDE in served
    decreases |served|
  {
    if |served| > 1 {
      RepresentativeIsMostEscalated(served[..|served| - 1]);
    }
  }

  /** Claude if it served, else the strongest local group that did, in this order; a task that only
      unlisted groups served goes to the first of them. */
  lemma RepresentativeByName(served: seq<string>)
    requires served != []
    ensures var r := Representative(served);
      if "claude" in served then r == "claude"
      else if "local-spark-coder" in served then r == "local-spark-coder"
      else if "local-spark" in served then r == "local-spark"
      else if "local-p40" in served then r == "local-p40"
      else r == served[0]
  {
    RepresentativeIsMostEscalated(served);
    FirstOfTheUnlisted(served);
  }

  lemma {:induction false} FirstOfTheUnlisted(served: seq<string>)
    requires served != []
    ensures (forall g :: g in served ==> Rank(g) == 4) ==> Representative(served) == served[0]
    decreases |served|
  {
    if |served| > 1 {
      FirstOfTheUnlisted(served[..|served| - 1]);
    }
  }

  /** `groups` is AGENT_GROUP, the fallback for rows without provenance. */
  function GroupOf(groups: map<string, string>, row: Row): string {
    if row.served != [] then Representative(row.served)
    else if row.agent in groups then groups[row.agent]
    else UNKNOWN
  }

  function TierOf(groups: map<string, string>, row: Row): string {
    if row.served != [] then (if CLAUDE in row.served then ESCALATED else LOCAL)
    else if row.agent !in groups then UNKNOWN
    else if groups[row.agent] == CLAUDE then ESCALATED else LOCAL
  }

  function Bump(m: map<string, nat>, key: string, count: nat): map<string, nat> {
    m[key := (if key in m then m[key] else 0) + count]
  }

  /** The counts of the rows `f` files under `key`. */
  function Filed(rows: seq<Row>, f: Row -> string, key: string): nat {
    if rows == [] then 0
    else
      var last := rows[|rows| - 1];
      Filed(rows[..|rows| - 1], f, key) + (if f(last) == key then last.count else 0)
  }

  function Counts(rows: seq<Row>): nat {
    if rows == [] then 0 else Counts(rows[..|rows| - 1]) + rows[|rows| - 1].count
  }

  predicate Occurs(rows: seq<Row>, f: Row -> string, key: string) {
    exists i :: 0 <= i < |rows| && f(rows[i]) == key
  }

  /** What a tally of `rows` by `f` must be: under every key the counts filed there, and no key
      without rows. */
  ghost predicate Tally(m: map<string, nat>, rows: seq<Row>, f: Row -> string) {
    && (forall key :: key in m ==> m[key] == Filed(rows, f, key))
    && (forall key :: key in m <==> Occurs(rows, f, key))
  }

  method GroupBreakdown(groups: map<string, string>, rows: seq<Row>)
    returns (byGroup: map<string, nat>, byTier: map<string, nat>)
    ensures Tally(byGroup, rows, (r: Row) => GroupOf(groups, r))
    ensures Tally(byTier, rows, (r: Row) => TierOf(groups, r))
  {
    byGroup, byTier := map[], map[];
    var g, t := (r: Row) => GroupOf(groups, r), (r: Row) => TierOf(groups, r);
    for i := 0 to |rows|
      invariant Tally(byGroup, rows[..i], g)
      invariant Tally(byTier, rows[..i], t)
    {
      var row := rows[i];
      var group, tier;
      if row.served != [] {
        group := RepresentativeGroup(row.served);
        tier := if CLAUDE in row.served then ESCALATED else LOCAL;
      } else if row.agent !in groups {
        group, tier := UNKNOWN, UNKNOWN;
      } else {
        group := groups[row.agent];
        tier := if group == CLAUDE then ESCALATED else LOCAL;
      }
      BumpTallies(byGroup, rows, i, g);
      BumpTallies(byTier, rows, i, t);
      byGroup := Bump(byGroup, group, row.count);
      byTier := Bump(byTier, tier, row.count);
    }
    assert rows[..|rows|] == rows;
  }

  lemma BumpTallies(m: map<string, nat>, rows: seq<Row>, i: nat, f: Row -> string)
    requires i < |rows| && Tally(m, rows[..i], f)
    ensures Tally(Bump(m, f(rows[i]), rows[i].count), rows[..i + 1], f)
  {
    var m' := Bump(m, f(rows[i]), rows[i].count);
    assert rows[..i + 1][..i] == rows[..i];
    if f(rows[i]) !in m {
      FiledNowhere(rows[..i], f, f(rows[i]));
    }
    forall key
      ensures key in m' <==> Occurs(rows[..i + 1], f, key)
    {
      OccursLast(rows, i, f, key);
    }
  }

  lemma OccursLast(rows: seq<Row>, i: nat, f: Row -> string, key: string)
    requires i < |rows|
    ensures Occurs(rows[..i + 1], f, key) <==> Occurs(rows[..i], f, key) || f(rows[i]) == key
  {
    var before, after := rows[..i], rows[..i + 1];
    assert after[i] == rows[i];
    if j :| 0 <= j < i && f(before[j]) == key {
      assert after[j] == before[j];
    }
    if j :| 0 <= j < i + 1 && f(after[j]) == key && j < i {
      assert before[j] == after[j];
    }
  }

  lemma {:induction false} FiledNowhere(rows: seq<Row>, f: Row -> string, key: string)
    requires forall i :: 0 <= i < |rows| ==> f(rows[i]) != key
    ensures Filed(rows, f, key) == 0
  {
    if rows != [] {
      FiledNowhere(rows[..|rows| - 1], f, key);
    }
  }

  // ---- conservation ----

  lemma BumpAdds(m: map<string, nat>, key: string, count: nat)
    ensures Total(Bump(m, key, count), Count) == Total(m, Count) + count as real
  {
    var m' := Bump(m, key, count);
    TotalRemove(m', Count, key);
    if key in m {
      TotalRemove(m, Count, key);
      assert m' - {key} == m - {key};
    } else {
      assert m' - {key} == m;
    }
  }

  /** A tally is determined by its rows and key function. */
  lemma TallyIsUnique(m: map<string, nat>, m': map<string, nat>, rows: seq<Row>, f: Row -> string)
    requires Tally(m, rows, f) && Tally(m', rows, f)
    ensures m == m'
  {
    forall key
      ensures key in m <==> key in m'
    {
    }
  }

  function Fold(rows: seq<Row>, f: Row -> string): map<string, nat> {
    if rows == [] then map[]
    else Bump(Fold(rows[..|rows| - 1], f), f(rows[|rows| - 1]), rows[|rows| - 1].count)
  }

  lemma {:induction false} FoldTallies(rows: seq<Row>, f: Row -> string)
    ensures Tally(Fold(rows, f), rows, f) && Total(Fold(rows, f), Count) == Counts(rows) as real
  {
    if rows != [] {
      var n := |rows| - 1;
      FoldTallies(rows[..n], f);
      BumpTallies(Fold(rows[..n], f), rows, n, f);
      BumpAdds(Fold(rows[..n], f), f(rows[n]), rows[n].count);
      assert rows[..n + 1] == rows;
    }
  }

  /** Every row is counted exactly once: whatever the key function, the tally sums to the total. */
  lemma TallyConserves(m: map<string, nat>, rows: seq<Row>, f: Row -> string)
    requires Tally(m, rows, f)
    ensures Total(m, Count) == Counts(rows) as real
  {
    FoldTallies(rows, f);
    TallyIsUnique(m, Fold(rows, f), rows, f);
  }

  /** A row's group is Claude exactly when its tier is escalated, with or without provenance; so
      the two figures agree, also for tasks that several groups served. */
  lemma {:induction false} ClaudeIsEscalated(groups: map<string, string>, rows: seq<Row>)
    ensures Filed(rows, (r: Row) => GroupOf(groups, r), CLAUDE)
         == Filed(rows, (r: Row) => TierOf(groups, r), ESCALATED)
  {
    if rows != [] {
      var last := rows[|rows| - 1];
      ClaudeIsEscalated(groups, rows[..|rows| - 1]);
      if last.served != [] {
        RepresentativeIsMostEscalated(last.served);
      }
    }
  }

  /** Where a row is filed. With provenance: under the tier of what served it. Without: under its
      agent's group and that group's tier, and under "(unknown)" in both if the agent has none. */
  lemma FiledWhere(groups: map<string, string>, row: Row)
    ensures row.served != [] ==>
      && GroupOf(groups, row) in row.served
      && TierOf(groups, row) == if "claude" in row.served then "escalated" else "local"
    ensures row.served == [] && row.agent in groups ==>
      && GroupOf(groups, row) == groups[row.agent]
      && TierOf(groups, row) == if groups[row.agent] == "claude" then "escalated" else "local"
    ensures row.served == [] && row.agent !in groups ==>
      GroupOf(groups, row) == TierOf(groups, row) == "(unknown)"
  {
    if row.served != [] {
      RepresentativeIsMostEscalated(row.served);
    }
  }

  /** The breakdown as a whole: both maps sum to the total, and the `claude` entry of the one is
      the `escalated` entry of the other, present or absent together. */
  lemma BreakdownConserves(groups: map<string, string>, rows: seq<Row>,
                           byGroup: map<string, nat>, byTier: map<string, nat>)
    requires Tally(byGroup, rows, (r: Row) => GroupOf(groups, r))
    requires Tally(byTier, rows, (r: Row) => TierOf(groups, r))
    ensures Total(byGroup, Count) == Total(byTier, Count) == Counts(rows) as real
    ensures CLAUDE in byGroup <==> ESCALATED in byTier
    ensures CLAUDE in byGroup ==> byGroup[CLAUDE] == byTier[ESCALATED]
  {
    var g, t := (r: Row) => GroupOf(groups, r), (r: Row) => TierOf(groups, r);
    TallyConserves(byGroup, rows, g);
    TallyConserves(byTier, rows, t);
    ClaudeIsEscalated(groups, rows);
    forall i | 0 <= i < |rows|
      ensures g(rows[i]) == CLAUDE <==> t(rows[i]) == ESCALATED
    {
      if rows[i].served != [] {
        RepresentativeIsMostEscalated(rows[i].served);
      }
    }
  }
}
