/** The spend accumulators (src/agents/observability.py:390-461) and the cap checks that read them
    before a Claude client is handed out (src/agents/llm.py:443-469). Money is real; a day is the
    ordinal of a UTC date. */
module Spend {
  import opened Options
  import opened MapSums

  /** One priced call, with the task id bound when it was recorded. */
  datatype Charge = Charge(
    task: Option<string>,
    agent: string,
    group: string,
    model: string,
    day: int,
    cost: real)

  type Series = (string, string, string)

  /** The cost counter by (agent, group, model), and the two dictionaries. */
  datatype Books = Books(
    counter: map<Series, real>,
    task: map<string, real>,
    daily: map<(string, int), real>)

  const NEW := Books(map[], map[], map[])
  const RETENTION_DAYS := 7
  const CLAUDE := "claude"

  // ---- readers ----

  function At<K>(m: map<K, real>, k: K): real {
    if k in m then m[k] else 0.0
  }

  /** `task_spend_usd`: zero when no task is bound. */
  function TaskSpend(b: Books, task: Option<string>): real {
    if task.None? then 0.0 else At(b.task, task.value)
  }

  function AgentDaySpend(b: Books, agent: string, day: int): real {
    At(b.daily, (agent, day))
  }

  function ClaudeOnly(counter: map<Series, real>): map<Series, real> {
    map k | k in counter && k.1 == CLAUDE :: counter[k]
  }

  /** `global_claude_spend_usd` */
  ghost function GlobalSpend(b: Books): real {
    Total(ClaudeOnly(b.counter), Itself)
  }

  // ---- the writer ----

  function Evicted(daily: map<(string, int), real>, today: int): map<(string, int), real> {
    map k | k in daily && k.1 >= today - RETENTION_DAYS :: daily[k]
  }

  /** `record_llm_call` on the cost of a call: a zero cost is falsy and changes nothing. */
  function Record(b: Books, c: Charge): Books {
    if c.cost <= 0.0 then b
    else
      var series := (c.agent, c.group, c.model);
      var daily := Evicted(b.daily, c.day);
      var key := (c.agent, c.day);
      Books(
        b.counter[series := At(b.counter, series) + c.cost],
        if c.task.None? then b.task else b.task[c.task.value := At(b.task, c.task.value) + c.cost],
        daily[key := At(daily, key) + c.cost])
  }

  function RecordAll(b: Books, log: seq<Charge>): Books
    decreases |log|
  {
    if log == [] then b else Record(RecordAll(b, log[..|log| - 1]), log[|log| - 1])
  }

  datatype CapKind = GlobalDaily | PerAgentDaily | PerTask

  datatype Caps = Caps(globalDaily: real, perAgentDaily: real, perTask: real)

  /** No cap is reached: what `_build_claude` demands before it hands out a client. */
  ghost predicate WithinCaps(b: Books, caps: Caps, agent: string, task: Option<string>, today: int) {
    && GlobalSpend(b) < caps.globalDaily
    && AgentDaySpend(b, agent, today) < caps.perAgentDaily
    && (task.Some? ==> TaskSpend(b, task) < caps.perTask)
  }

  class Accounts {
    var counter: map<Series, real>
    var task: map<string, real>
    var daily: map<(string, int), real>

    constructor ()
      ensures Contents() == NEW
    {
      counter, task, daily := map[], map[], map[];
    }

    function Contents(): Books
      reads this
    {
      Books(counter, task, daily)
    }

    method EvictOldAgentDaily(today: int)
      modifies this`daily
      ensures daily == Evicted(old(daily), today)
    {
      var cutoff := today - RETENTION_DAYS;
      ghost var before := daily;
      var left := set k | k in daily && k.1 < cutoff;
      while left != {}
        invariant left <= daily.Keys && forall k :: k in left ==> k.1 < cutoff
        invariant daily.Keys <= before.Keys
        invariant forall k :: k in before && k.1 >= cutoff ==> k in daily
        invariant forall k :: k in daily ==> daily[k] == before[k] && (k.1 < cutoff ==> k in left)
        decreases left
      {
        var stale :| stale in left;
        daily := daily - {stale};
        left := left - {stale};
      }
    }

    method RecordLlmCall(c: Charge)
      requires c.cost >= 0.0
      modifies this
      ensures Contents() == Record(old(Contents()), c)
    {
      if c.cost == 0.0 {
        return;
      }
      var series := (c.agent, c.group, c.model);
      counter := counter[series := At(counter, series) + c.cost];
      EvictOldAgentDaily(c.day);
      if c.task.Some? {
        task := task[c.task.value := At(task, c.task.value) + c.cost];
      }
      var key := (c.agent, c.day);
      daily := daily[key := At(daily, key) + c.cost];
    }

    method GlobalClaudeSpend() returns (total: real)
      ensures total == GlobalSpend(Contents())
    {
      total := 0.0;
      var left := ClaudeOnly(counter);
      while left != map[]
        invariant total + Total(left, Itself) == GlobalSpend(Contents())
        decreases |left|
      {
        var k :| k in left;
        TotalRemove(left, Itself, k);
        total := total + left[k];
        left := left - {k};
      }
    }

    /** Ok hands out a client; Err is CostCapHit with the first cap reached, broadest first. */
    method BuildClaude(caps: Caps, agent: string, bound: Option<string>, today: int)
      returns (r: Result<(), CapKind>)
      ensures r.Ok? <==> WithinCaps(Contents(), caps, agent, bound, today)
      ensures r == Err(GlobalDaily) <==> GlobalSpend(Contents()) >= caps.globalDaily
      ensures r == Err(PerAgentDaily) <==>
        && GlobalSpend(Contents()) < caps.globalDaily
        && AgentDaySpend(Contents(), agent, today) >= caps.perAgentDaily
      ensures r == Err(PerTask) <==>
        && GlobalSpend(Contents()) < caps.globalDaily
        && AgentDaySpend(Contents(), agent, today) < caps.perAgentDaily
        && bound.Some? && TaskSpend(Contents(), bound) >= caps.perTask
    {
      var global := GlobalClaudeSpend();
      if global >= caps.globalDaily {
        return Err(GlobalDaily);
      }
      if AgentDaySpend(Contents(), agent, today) >= caps.perAgentDaily {
        return Err(PerAgentDaily);
      }
      if bound.Some? && TaskSpend(Contents(), bound) >= caps.perTask {
        return Err(PerTask);
      }
      r := Ok(());
    }
  }

  // ---- sums over the counter ----

  lemma GlobalAfter(b: Books, c: Charge)
    requires c.cost >= 0.0
    ensures GlobalSpend(Record(b, c)) == GlobalSpend(b) + (if c.group == CLAUDE then c.cost else 0.0)
  {
    if c.cost > 0.0 {
      var series := (c.agent, c.group, c.model);
      var before, after := ClaudeOnly(b.counter), ClaudeOnly(Record(b, c).counter);
      if c.group == CLAUDE {
        TotalRemove(after, Itself, series);
        if series in before {
          TotalRemove(before, Itself, series);
          assert after - {series} == before - {series};
        } else {
          assert after - {series} == before;
        }
      } else {
        assert after == before;
      }
    }
  }

  // ---- the accumulators agree with the log ----

  /** The cost of the log's charges that satisfy `p`. */
  function Sum(log: seq<Charge>, p: Charge -> bool): real {
    if log == [] then 0.0
    else
      var last := log[|log| - 1];
      Sum(log[..|log| - 1], p) + (if p(last) then last.cost else 0.0)
  }

  predicate Priced(log: seq<Charge>) {
    forall i :: 0 <= i < |log| ==> log[i].cost >= 0.0
  }

  predicate Monotone(log: seq<Charge>) {
    forall i, j :: 0 <= i < j < |log| ==> log[i].day <= log[j].day
  }

  lemma {:induction false} TaskSpendIsTheSum(log: seq<Charge>, t: string)
    requires Priced(log)
    ensures TaskSpend(RecordAll(NEW, log), Some(t)) == Sum(log, (c: Charge) => c.task == Some(t))
  {
    if log != [] {
      TaskSpendIsTheSum(log[..|log| - 1], t);
    }
  }

  /** Under a monotone clock the agent's figure for a day is the sum of that day's charges, for
      every day inside the retention window of the latest charge. */
  lemma {:induction false} AgentDaySpendIsTheSum(log: seq<Charge>, agent: string, day: int)
    requires Priced(log) && Monotone(log)
    requires log != [] ==> day >= log[|log| - 1].day - RETENTION_DAYS
    ensures AgentDaySpend(RecordAll(NEW, log), agent, day)
         == Sum(log, (c: Charge) => c.agent == agent && c.day == day)
  {
    if log != [] {
      AgentDaySpendIsTheSum(log[..|log| - 1], agent, day);
    }
  }

  lemma {:induction false} GlobalSpendIsTheSum(log: seq<Charge>)
    requires Priced(log)
    ensures GlobalSpend(RecordAll(NEW, log)) == Sum(log, (c: Charge) => c.group == CLAUDE)
  {
    if log != [] {
      GlobalSpendIsTheSum(log[..|log| - 1]);
      GlobalAfter(RecordAll(NEW, log[..|log| - 1]), log[|log| - 1]);
    } else {
      assert ClaudeOnly(map[]) == map[];
    }
  }

  lemma {:induction false} SumIsMonotone(log: seq<Charge>, p: Charge -> bool, q: Charge -> bool)
    requires Priced(log)
    requires forall i :: 0 <= i < |log| && log[i].cost > 0.0 && p(log[i]) ==> q(log[i])
    ensures 0.0 <= Sum(log, p) <= Sum(log, q)
  {
    if log != [] {
      SumIsMonotone(log[..|log| - 1], p, q);
      assert p(log[|log| - 1]) && log[|log| - 1].cost > 0.0 ==> q(log[|log| - 1]);
    }
  }

  // ---- what is priced at all ----

  datatype Price = Price(prefix: string, input: real, output: real)

  /** US dollars per million tokens, by model name prefix. */
  const PRICING := [
    Price("claude-opus-4", 15.0, 75.0),
    Price("claude-opus-3", 15.0, 75.0),
    Price("claude-sonnet-4", 3.0, 15.0),
    Price("claude-sonnet-3-7", 3.0, 15.0),
    Price("claude-sonnet-3-5", 3.0, 15.0),
    Price("claude-haiku-3-5", 0.8, 4.0),
    Price("claude-haiku-3", 0.25, 1.25)]

  /** The models the local groups serve. */
  const LOCAL_MODELS := map[
    "local-p40" := "qwen2.5:7b",
    "local-spark" := "qwen3-next:80b-a3b-instruct-q4_K_M",
    "local-spark-coder" := "qwen2.5-coder:32b"]

  function CostAt(p: Price, tokensIn: nat, tokensOut: nat): real {
    (tokensIn as real * p.input + tokensOut as real * p.output) / 1000000.0
  }

  predicate LongestMatch(model: string, k: int) {
    && 0 <= k < |PRICING| && PRICING[k].prefix <= model
    && forall l :: 0 <= l < |PRICING| && PRICING[l].prefix <= model ==>
         |PRICING[l].prefix| <= |PRICING[k].prefix|
  }

  /** The first row, from the `i`-th on, whose prefix matches sets the price; without one it is free. */
  function CostFrom(i: nat, model: string, tokensIn: nat, tokensOut: nat): real
    requires i <= |PRICING|
    decreases |PRICING| - i
  {
    if i == |PRICING| then 0.0
    else if PRICING[i].prefix <= model then CostAt(PRICING[i], tokensIn, tokensOut)
    else CostFrom(i + 1, model, tokensIn, tokensOut)
  }

  /** `_compute_anthropic_cost` */
  method ComputeAnthropicCost(model: string, tokensIn: nat, tokensOut: nat) returns (cost: real)
    ensures cost == CostFrom(0, model, tokensIn, tokensOut)
  {
    for i := 0 to |PRICING|
      invariant CostFrom(i, model, tokensIn, tokensOut) == CostFrom(0, model, tokensIn, tokensOut)
    {
      if PRICING[i].prefix <= model {
        cost := CostAt(PRICING[i], tokensIn, tokensOut);
        return;
      }
    }
    cost := 0.0;
  }

  lemma {:induction false} CostIsThatOfTheFirst(i: nat, k: nat, model: string, tokensIn: nat, tokensOut: nat)
    requires i <= k < |PRICING| && PRICING[k].prefix <= model
    requires forall l :: i <= l < k ==> !(PRICING[l].prefix <= model)
    ensures CostFrom(i, model, tokensIn, tokensOut) == CostAt(PRICING[k], tokensIn, tokensOut)
    decreases k - i
  {
    if i < k {
      CostIsThatOfTheFirst(i + 1, k, model, tokensIn, tokensOut);
    }
  }

  lemma {:induction false} UnmatchedIsFree(i: nat, model: string, tokensIn: nat, tokensOut: nat)
    requires i <= |PRICING| && forall l :: i <= l < |PRICING| ==> !(PRICING[l].prefix <= model)
    ensures CostFrom(i, model, tokensIn, tokensOut) == 0.0
    decreases |PRICING| - i
  {
    if i < |PRICING| {
      UnmatchedIsFree(i + 1, model, tokensIn, tokensOut);
    }
  }

  lemma FirstMatchOf(model: string, k: nat) returns (i: nat)
    requires k < |PRICING| && PRICING[k].prefix <= model
    ensures i <= k && PRICING[i].prefix <= model && forall l :: 0 <= l < i ==> !(PRICING[l].prefix <= model)
  {
    i := 0;
    while !(PRICING[i].prefix <= model)
      invariant i <= k && forall l :: 0 <= l < i ==> !(PRICING[l].prefix <= model)
      decreases k - i
    {
      i := i + 1;
    }
  }

  /** A million input tokens cost the `input` price of the longest prefix that matches, a million
      output tokens its `output` price, and a model that matches none costs nothing. */
  lemma PricesPerMillion(model: string)
    ensures forall k :: LongestMatch(model, k) ==>
      && CostFrom(0, model, 1000000, 0) == PRICING[k].input
      && CostFrom(0, model, 0, 1000000) == PRICING[k].output
    ensures (forall k :: 0 <= k < |PRICING| ==> !(PRICING[k].prefix <= model)) ==>
      forall tokensIn: nat, tokensOut: nat :: CostFrom(0, model, tokensIn, tokensOut) == 0.0
  {
    forall k | LongestMatch(model, k)
      ensures CostFrom(0, model, 1000000, 0) == PRICING[k].input
      ensures CostFrom(0, model, 0, 1000000) == PRICING[k].output
    {
      var i := FirstMatchOf(model, k);
      LongestIsFirst(model, i);
      CostIsThatOfTheFirst(0, i, model, 1000000, 0);
      CostIsThatOfTheFirst(0, i, model, 0, 1000000);
    }
    if forall k :: 0 <= k < |PRICING| ==> !(PRICING[k].prefix <= model) {
      forall tokensIn: nat, tokensOut: nat
        ensures CostFrom(0, model, tokensIn, tokensOut) == 0.0
      {
        UnmatchedIsFree(0, model, tokensIn, tokensOut);
      }
    }
  }

  /** Costs add up as token counts do. */
  lemma {:induction false} CostsAddUp(i: nat, model: string, tokensIn: nat, tokensOut: nat, moreIn: nat, moreOut: nat)
    requires i <= |PRICING|
    ensures CostFrom(i, model, tokensIn + moreIn, tokensOut + moreOut)
         == CostFrom(i, model, tokensIn, tokensOut) + CostFrom(i, model, moreIn, moreOut)
    decreases |PRICING| - i
  {
    if i < |PRICING| && !(PRICING[i].prefix <= model) {
      CostsAddUp(i + 1, model, tokensIn, tokensOut, moreIn, moreOut);
    } else if i < |PRICING| {
      CostAtAddsUp(PRICING[i], tokensIn, tokensOut, moreIn, moreOut);
    }
  }

  lemma CostAtAddsUp(p: Price, tokensIn: nat, tokensOut: nat, moreIn: nat, moreOut: nat)
    ensures CostAt(p, tokensIn + moreIn, tokensOut + moreOut) == CostAt(p, tokensIn, tokensOut) + CostAt(p, moreIn, moreOut)
  {
    assert (tokensIn + moreIn) as real == tokensIn as real + moreIn as real;
    assert (tokensOut + moreOut) as real == tokensOut as real + moreOut as real;
  }

  lemma LongestIsFirst(model: string, i: nat)
    requires i < |PRICING| && PRICING[i].prefix <= model
    requires forall k :: 0 <= k < i ==> !(PRICING[k].prefix <= model)
    ensures forall k :: i < k < |PRICING| && PRICING[k].prefix <= model ==> |PRICING[k].prefix| < |PRICING[i].prefix|
  {
    assert PRICING[3].prefix[16] != PRICING[4].prefix[16];
    forall k | i < k < |PRICING| && PRICING[k].prefix <= model
      ensures |PRICING[k].prefix| < |PRICING[i].prefix|
    {
      var a, b := PRICING[i].prefix, PRICING[k].prefix;
      assert a[7] == model[7] == b[7] && a[12] == model[12] == b[12];
      assert |a| > 14 && |b| > 14 ==> a[14] == model[14] == b[14];
    }
  }

  lemma CostsAreNotNegative(p: Price, tokensIn: nat, tokensOut: nat)
    requires p.input >= 0.0 && p.output >= 0.0
    ensures CostAt(p, tokensIn, tokensOut) >= 0.0
  {
    assert tokensIn as real * p.input >= 0.0 && tokensOut as real * p.output >= 0.0;
  }

  /** Recorded by the callback of a client the factory built: priced by its model, and under the
      Claude group or a local group with that group's model. */
  ghost predicate FromClient(c: Charge) {
    && (exists tokensIn: nat, tokensOut: nat :: c.cost == CostFrom(0, c.model, tokensIn, tokensOut))
    && (c.group == CLAUDE || (c.group in LOCAL_MODELS && c.model == LOCAL_MODELS[c.group]))
  }

  /** Local calls are free. */
  lemma OnlyClaudeCosts(c: Charge)
    requires FromClient(c)
    ensures c.cost >= 0.0 && (c.cost > 0.0 ==> c.group == CLAUDE)
  {
    if c.cost != 0.0 {
      var tokensIn: nat, tokensOut: nat :| c.cost == CostFrom(0, c.model, tokensIn, tokensOut);
      if k :| 0 <= k < |PRICING| && PRICING[k].prefix <= c.model {
        var i := FirstMatchOf(c.model, k);
        CostIsThatOfTheFirst(0, i, c.model, tokensIn, tokensOut);
        CostsAreNotNegative(PRICING[i], tokensIn, tokensOut);
        assert c.model[0] == 'c';
      } else {
        UnmatchedIsFree(0, c.model, tokensIn, tokensOut);
      }
    }
  }

  lemma OnlyClaudeIsPriced(log: seq<Charge>)
    requires forall i :: 0 <= i < |log| ==> FromClient(log[i])
    ensures Priced(log) && OnlyClaude(log)
  {
    forall i | 0 <= i < |log|
      ensures log[i].cost >= 0.0 && (log[i].cost > 0.0 ==> log[i].group == CLAUDE)
    {
      OnlyClaudeCosts(log[i]);
    }
  }

  predicate OnlyClaude(log: seq<Charge>) {
    forall i :: 0 <= i < |log| && log[i].cost > 0.0 ==> log[i].group == CLAUDE
  }

  lemma SumsWithin(log: seq<Charge>, t: string, agent: string, day: int)
    requires Priced(log) && OnlyClaude(log)
    ensures 0.0 <= Sum(log, (c: Charge) => c.task == Some(t)) <= Sum(log, (c: Charge) => c.group == CLAUDE)
    ensures 0.0 <= Sum(log, (c: Charge) => c.agent == agent && c.day == day)
                <= Sum(log, (c: Charge) => c.group == CLAUDE)
  {
    SumIsMonotone(log, (c: Charge) => c.task == Some(t), (c: Charge) => c.group == CLAUDE);
    SumIsMonotone(log, (c: Charge) => c.agent == agent && c.day == day, (c: Charge) => c.group == CLAUDE);
  }

  /** No task's figure and no agent's figure for a day exceeds the global one. */
  lemma PartsWithinTheWhole(log: seq<Charge>, t: string, agent: string, day: int)
    requires Monotone(log) && forall i :: 0 <= i < |log| ==> FromClient(log[i])
    requires log != [] ==> day >= log[|log| - 1].day - RETENTION_DAYS
    ensures 0.0 <= TaskSpend(RecordAll(NEW, log), Some(t)) <= GlobalSpend(RecordAll(NEW, log))
    ensures 0.0 <= AgentDaySpend(RecordAll(NEW, log), agent, day) <= GlobalSpend(RecordAll(NEW, log))
  {
    OnlyClaudeIsPriced(log);
    TaskSpendIsTheSum(log, t);
    AgentDaySpendIsTheSum(log, agent, day);
    GlobalSpendIsTheSum(log);
    SumsWithin(log, t, agent, day);
  }

  // ---- how far the caps can be overshot ----

  /** A request for a client on `day`, and the calls made with it before the next request. */
  datatype Round = Round(agent: string, task: Option<string>, day: int, calls: seq<Charge>)

  function Spent(calls: seq<Charge>): real {
    Sum(calls, (c: Charge) => true)
  }

  /** The calls are the client's own: charged to its agent and task, not before it was handed out,
      and together at most `k`. */
  predicate Proper(r: Round, k: real) {
    && Priced(r.calls) && Monotone(r.calls) && Spent(r.calls) <= k
    && forall i :: 0 <= i < |r.calls| ==>
         && r.calls[i].agent == r.agent && r.calls[i].task == r.task
         && r.calls[i].group == CLAUDE && r.calls[i].day >= r.day
  }

  ghost function Play(b: Books, caps: Caps, rounds: seq<Round>): Books
    decreases |rounds|
  {
    if rounds == [] then b
    else
      var before := Play(b, caps, rounds[..|rounds| - 1]);
      var r := rounds[|rounds| - 1];
      if WithinCaps(before, caps, r.agent, r.task, r.day) then RecordAll(before, r.calls) else before
  }

  /** Requests and calls follow the clock. */
  predicate InOrder(rounds: seq<Round>) {
    forall i, j :: 0 <= i < j < |rounds| ==>
      && rounds[i].day <= rounds[j].day
      && forall n :: 0 <= n < |rounds[i].calls| ==> rounds[i].calls[n].day <= rounds[j].day
  }

  /** No figure is dated after `day`. */
  predicate NoneAfter(b: Books, day: int) {
    forall k :: k in b.daily ==> k.1 <= day
  }

  ghost predicate Bounded(b: Books, caps: Caps, k: real) {
    && GlobalSpend(b) <= caps.globalDaily + k
    && (forall key :: key in b.daily ==> 0.0 <= b.daily[key] <= caps.perAgentDaily + k)
    && (forall t :: t in b.task ==> 0.0 <= b.task[t] <= caps.perTask + k)
  }

  /** What one client's calls add, at most. */
  lemma {:induction false} CallsAdd(b: Books, r: Round, calls: seq<Charge>)
    requires calls <= r.calls && Proper(r, Spent(r.calls))
    requires NoneAfter(b, r.day)
    requires forall key :: key in b.daily ==> b.daily[key] >= 0.0
    ensures var b' := RecordAll(b, calls);
      && GlobalSpend(b') == GlobalSpend(b) + Spent(calls)
      && b'.task.Keys <= b.task.Keys + (if r.task.Some? then {r.task.value} else {})
      && (forall t :: At(b'.task, t) == At(b.task, t) + (if r.task == Some(t) then Spent(calls) else 0.0))
      && (forall key :: key in b'.daily ==>
            0.0 <= b'.daily[key]
                <= At(b.daily, key) + (if key.0 == r.agent && key.1 >= r.day then Spent(calls) else 0.0))
      && Spent(calls) >= 0.0
    decreases |calls|
  {
    if calls != [] {
      var init, last := calls[..|calls| - 1], calls[|calls| - 1];
      CallsAdd(b, r, init);
      assert last == r.calls[|init|];
      GlobalAfter(RecordAll(b, init), last);
    }
  }

  lemma RoundKeepsBound(b: Books, caps: Caps, r: Round, k: real)
    requires Bounded(b, caps, k) && NoneAfter(b, r.day) && Proper(r, k)
    requires WithinCaps(b, caps, r.agent, r.task, r.day)
    requires caps.perAgentDaily >= 0.0 && caps.perTask >= 0.0 && k >= 0.0
    ensures Bounded(RecordAll(b, r.calls), caps, k)
  {
    assert Proper(r, Spent(r.calls));
    CallsAdd(b, r, r.calls);
    var b' := RecordAll(b, r.calls);
    forall t | t in b'.task
      ensures 0.0 <= b'.task[t] <= caps.perTask + k
    {
      assert b'.task[t] == At(b'.task, t);
    }
  }

  lemma {:induction false} DaysAfter(b: Books, calls: seq<Charge>, day: int)
    requires NoneAfter(b, day) && forall i :: 0 <= i < |calls| ==> calls[i].day <= day
    ensures NoneAfter(RecordAll(b, calls), day)
    decreases |calls|
  {
    if calls != [] {
      DaysAfter(b, calls[..|calls| - 1], day);
    }
  }

  lemma {:induction false} PlayedDays(caps: Caps, rounds: seq<Round>, day: int)
    requires forall i, n :: 0 <= i < |rounds| && 0 <= n < |rounds[i].calls| ==> rounds[i].calls[n].day <= day
    ensures NoneAfter(Play(NEW, caps, rounds), day)
    decreases |rounds|
  {
    if rounds != [] {
      var init := rounds[..|rounds| - 1];
      PlayedDays(caps, init, day);
      var before := Play(NEW, caps, init);
      DaysAfter(before, rounds[|rounds| - 1].calls, day);
    }
  }

  /** If the calls made with each client before the next hand-out cost at most `k` together, then
      after any run no cap is overshot by more than `k`: not the global one, not any agent's for
      any day (calls may run past midnight), not any task's. */
  lemma {:induction false} CapsOvershootByAtMost(caps: Caps, rounds: seq<Round>, k: real)
    requires caps.globalDaily >= 0.0 && caps.perAgentDaily >= 0.0 && caps.perTask >= 0.0 && k >= 0.0
    requires InOrder(rounds) && forall i :: 0 <= i < |rounds| ==> Proper(rounds[i], k)
    ensures Bounded(Play(NEW, caps, rounds), caps, k)
    decreases |rounds|
  {
    if rounds == [] {
      assert ClaudeOnly(map[]) == map[];
    } else {
      var init, r := rounds[..|rounds| - 1], rounds[|rounds| - 1];
      CapsOvershootByAtMost(caps, init, k);
      PlayedDays(caps, init, r.day);
      var before := Play(NEW, caps, init);
      if WithinCaps(before, caps, r.agent, r.task, r.day) {
        RoundKeepsBound(before, caps, r, k);
      }
    }
  }
}
