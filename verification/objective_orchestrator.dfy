/** The orchestrator of the user-objective pipeline: it orders the requested
    agents by their dependencies, runs them level by level with retries,
    records one result per agent, publishes the data of every successful
    agent to the shared outputs, and answers with the synthesis agent's
    formatted breakdown. The agents' replies are an input (`Invoke`); the
    agents of one level run one after another, each seeing the outputs as
    they stood when the level began. */
module ObjectiveOrchestrator {
  import opened JsValues
  import opened Seqs
  import opened DependencyOrder
  import opened Levels
  import opened Registry
  import opened AgentReplies
  import opened Assessment

  /** What `agent.processPrompt(prompt, { agentOutputs, sharedData })`
      settles to on a given attempt, for the outputs the agent is shown. */
  type Invoke = (Agent, nat, Outputs) -> Outcome<Option<Json>>

  const DefaultMaxRetries: int := 3
  const SynthesisAgentId: AgentId := "synthesis-agent"
  const CircularMessage: string := "Circular dependency detected among agents."

  /** The path `data.properties.formattedBreakdown.properties.formattedBreakdown`. */
  const FormattedBreakdownPath: seq<string> := ["data", "properties", "formattedBreakdown", "properties", "formattedBreakdown"]

  /** `shouldExecuteAgent`: every scheduled agent runs. */
  function ShouldExecuteAgent(agentId: AgentId, context: Option<Json>): (b: bool)
    ensures b
  {
    true
  }

  // ---------------------------------------------------------------------
  // executeAgentWithRetries

  /** What the retry loop settles to once attempt `k` is reached: the first
      attempt that does not throw, or the error of the last permitted one. */
  function Retry(invoke: Invoke, agent: Agent, outputs: Outputs, maxRetries: int, k: nat): Outcome<Option<Json>>
    decreases maxRetries - k
  {
    if k >= maxRetries then Returned(None)
    else if invoke(agent, k, outputs).Returned? || k + 1 >= maxRetries then invoke(agent, k, outputs)
    else Retry(invoke, agent, outputs, maxRetries, k + 1)
  }

  /** An attempt that does not throw, after attempts that all threw, is the
      answer. */
  lemma {:induction false} RetryReturnsFirst(invoke: Invoke, agent: Agent, outputs: Outputs, maxRetries: int, k: nat, n: nat)
    requires k <= n < maxRetries
    requires forall j :: k <= j < n ==> invoke(agent, j, outputs).Threw?
    requires invoke(agent, n, outputs).Returned?
    ensures Retry(invoke, agent, outputs, maxRetries, k) == invoke(agent, n, outputs)
    decreases n - k
  {
    if k < n {
      RetryReturnsFirst(invoke, agent, outputs, maxRetries, k + 1, n);
    }
  }

  /** When every permitted attempt throws, the error of the last one is
      rethrown. */
  lemma {:induction false} RetryRethrowsLast(invoke: Invoke, agent: Agent, outputs: Outputs, maxRetries: int, k: nat)
    requires k < maxRetries
    requires forall j :: k <= j < maxRetries ==> invoke(agent, j, outputs).Threw?
    ensures Retry(invoke, agent, outputs, maxRetries, k) == invoke(agent, maxRetries - 1, outputs)
    decreases maxRetries - k
  {
    if k + 1 < maxRetries {
      RetryRethrowsLast(invoke, agent, outputs, maxRetries, k + 1);
    }
  }

  /** `executeAgentWithRetries(agent, prompt, context, maxRetries)`: `calls`
      is the number of times the agent was invoked and `delays` the waits,
      in milliseconds, between consecutive attempts. */
  method ExecuteAgentWithRetries(invoke: Invoke, agent: Agent, outputs: Outputs, maxRetries: int)
    returns (r: Outcome<Option<Json>>, calls: nat, delays: seq<int>)
    ensures r == Retry(invoke, agent, outputs, maxRetries, 0)
    ensures maxRetries <= 0 ==> r == Returned(None) && calls == 0 && delays == []
    ensures maxRetries > 0 ==> 1 <= calls <= maxRetries && r == invoke(agent, calls - 1, outputs)
    ensures forall k :: 0 <= k < calls - 1 ==> invoke(agent, k, outputs).Threw?
    ensures r.Threw? ==> calls == maxRetries
    ensures calls > 0 ==> |delays| == calls - 1
    ensures forall k :: 0 <= k < |delays| ==> delays[k] == (k + 1) * 1000
  {
    var attempts: nat := 0;
    delays := [];
    while attempts < maxRetries
      invariant attempts == 0 || attempts < maxRetries
      invariant forall k :: 0 <= k < attempts ==> invoke(agent, k, outputs).Threw?
      invariant |delays| == attempts
      invariant forall k :: 0 <= k < attempts ==> delays[k] == (k + 1) * 1000
      invariant Retry(invoke, agent, outputs, maxRetries, 0) == Retry(invoke, agent, outputs, maxRetries, attempts)
      decreases maxRetries - attempts
    {
      var response := invoke(agent, attempts, outputs);
      if response.Returned? {
        return response, attempts + 1, delays;
      }
      attempts := attempts + 1;
      if attempts >= maxRetries {
        return response, attempts, delays;
      }
      delays := delays + [attempts * 1000];
    }
    return Returned(None), 0, [];
  }

  // ---------------------------------------------------------------------
  // One agent, one level, all levels

  /** The completion log inserts `agentResponse?.metadata?.status` as text
      before the entry is stored; a status that cannot be converted throws
      there, inside the `try`. */
  predicate StatusThrows(response: Option<Json>)
  {
    var status := OptionalMember(OptionalMember(response, "metadata"), "status");
    status.Some? && ConversionThrows(status.value)
  }

  /** Running agent `id` with the outputs `seen`: AGENT_NOT_FOUND for an
      unregistered id, EXECUTION_FAILED with the error's message when every
      retry threw or the completion log threw, the response's metadata
      otherwise. */
  function AgentRun(id: AgentId, agents: map<string, Agent>, invoke: Invoke, seen: Outputs): (run: Run)
    ensures run.published.Some? <==> Succeeded(run.record)
    ensures run.published.Some? ==> run.published.value == OptionalMember(run.record, "data")
  {
    if id !in agents then Failure(id, "AGENT_NOT_FOUND", "Agent not found.")
    else
      match Retry(invoke, agents[id], seen, DefaultMaxRetries, 0)
      case Threw(e) => Failure(id, "EXECUTION_FAILED", MessageOf(e))
      case Returned(response) =>
        if StatusThrows(response) then Failure(id, "EXECUTION_FAILED", MessageOf(TypeError))
        else FromMetadata(OptionalMember(response, "metadata"))
  }

  /** A registered agent's entry: the error of the last retry when every one
      threw, a TypeError's when its status cannot be logged, and otherwise its
      response's metadata, published exactly when the status is "success". */
  lemma AgentRunEntries(id: AgentId, agents: map<string, Agent>, invoke: Invoke, seen: Outputs)
    requires id in agents
    ensures var o := Retry(invoke, agents[id], seen, DefaultMaxRetries, 0);
      var run := AgentRun(id, agents, invoke, seen);
      && (o.Threw? ==> run == Failure(id, "EXECUTION_FAILED", MessageOf(o.exception)))
      && (o.Returned? && StatusThrows(o.value) ==>
            run.record == Some(ErrorRecord(id, "EXECUTION_FAILED", MessageOf(TypeError))) && run.published.None?)
      && (o.Returned? && !StatusThrows(o.value) ==>
            && run.record == OptionalMember(o.value, "metadata")
            && (run.published.Some? <==> OptionalMember(OptionalMember(o.value, "metadata"), "status") == Some(JStr("success"))))
  {
  }

  /** Running an unregistered agent records AGENT_NOT_FOUND. */
  lemma UnregisteredNotFound(id: AgentId, agents: map<string, Agent>, invoke: Invoke, seen: Outputs)
    requires id !in agents
    ensures AgentRun(id, agents, invoke, seen).record == Some(ErrorRecord(id, "AGENT_NOT_FOUND", "Agent not found."))
  {
  }

  /** Running the agents of one level in turn, each seeing `seen`. */
  function AfterLevel(level: seq<AgentId>, agents: map<string, Agent>, invoke: Invoke, seen: Outputs, s: State): State
  {
    if level == [] then s
    else
      var n := |level| - 1;
      Record(AfterLevel(level[..n], agents, invoke, seen, s), level[n], AgentRun(level[n], agents, invoke, seen))
  }

  /** Running the levels in turn, skipping holes; each level sees the outputs
      of the levels before it. */
  function AfterLevels(levels: seq<Option<seq<AgentId>>>, agents: map<string, Agent>, invoke: Invoke): State
  {
    if levels == [] then State(map[], map[])
    else
      var s := AfterLevels(levels[..|levels| - 1], agents, invoke);
      match levels[|levels| - 1]
      case None => s
      case Some(level) => AfterLevel(level, agents, invoke, s.outputs, s)
  }

  /** The agents of the levels, in execution order. */
  function Scheduled(levels: seq<Option<seq<AgentId>>>): seq<AgentId>
  {
    if levels == [] then []
    else
      Scheduled(levels[..|levels| - 1]) +
        match levels[|levels| - 1] case None => [] case Some(level) => level
  }

  /** The levels `groupAgentsByLevels` builds from an execution order. */
  function Schedule(order: seq<AgentId>, config: seq<AgentConfig>): (levels: seq<Option<seq<AgentId>>>)
  {
    var lv := LevelsOf(order, config);
    seq(LevelCount(lv), l requires 0 <= l < LevelCount(lv) => Bucket(order, lv, l))
  }

  /** Running a level adds an entry for each of its agents and for no other. */
  lemma {:induction false} AfterLevelDomain(level: seq<AgentId>, agents: map<string, Agent>, invoke: Invoke, seen: Outputs, s: State)
    ensures forall id :: id in AfterLevel(level, agents, invoke, seen, s).results <==> id in s.results || id in level
  {
    if level != [] {
      var n := |level| - 1;
      AfterLevelDomain(level[..n], agents, invoke, seen, s);
      InitOrLast(level);
    }
  }

  /** Running a level gives each of its agents the entry of a run with the
      level-start outputs and leaves every other agent's entry alone. */
  lemma {:induction false} AfterLevelResults(level: seq<AgentId>, agents: map<string, Agent>, invoke: Invoke, seen: Outputs, s: State)
    ensures var t := AfterLevel(level, agents, invoke, seen, s);
      && (forall id :: id in level ==> id in t.results && t.results[id] == AgentRun(id, agents, invoke, seen).record)
      && (forall id :: id !in level && id in s.results ==> id in t.results && t.results[id] == s.results[id])
  {
    forall id {
      AfterLevelEntry(level, agents, invoke, seen, s, id);
    }
  }

  /** The entry of one agent after a level. */
  lemma AfterLevelEntry(level: seq<AgentId>, agents: map<string, Agent>, invoke: Invoke, seen: Outputs, s: State, id: AgentId)
    ensures var t := AfterLevel(level, agents, invoke, seen, s);
      && (id in level ==> id in t.results && t.results[id] == AgentRun(id, agents, invoke, seen).record)
      && (id !in level && id in s.results ==> id in t.results && t.results[id] == s.results[id])
  {
    if id in level {
      AfterLevelMember(level, agents, invoke, seen, s, id);
    } else if id in s.results {
      AfterLevelOther(level, agents, invoke, seen, s, id);
    }
  }

  /** An agent of the level gets the entry of its run with the level-start outputs. */
  lemma {:induction false} AfterLevelMember(level: seq<AgentId>, agents: map<string, Agent>, invoke: Invoke, seen: Outputs, s: State, id: AgentId)
    requires id in level
    ensures var t := AfterLevel(level, agents, invoke, seen, s);
      id in t.results && t.results[id] == AgentRun(id, agents, invoke, seen).record
  {
    var n := |level| - 1;
    if id != level[n] {
      InitOrLastAt(level, id);
      AfterLevelMember(level[..n], agents, invoke, seen, s, id);
    }
  }

  /** An agent outside the level keeps its entry. */
  lemma {:induction false} AfterLevelOther(level: seq<AgentId>, agents: map<string, Agent>, invoke: Invoke, seen: Outputs, s: State, id: AgentId)
    requires id !in level && id in s.results
    ensures var t := AfterLevel(level, agents, invoke, seen, s);
      id in t.results && t.results[id] == s.results[id]
  {
    if level != [] {
      var n := |level| - 1;
      InitOrLastAt(level, id);
      AfterLevelOther(level[..n], agents, invoke, seen, s, id);
    }
  }

  /** Running a level publishes nothing for an agent outside it. */
  lemma {:induction false} AfterLevelOutputs(level: seq<AgentId>, agents: map<string, Agent>, invoke: Invoke, seen: Outputs, s: State)
    ensures var t := AfterLevel(level, agents, invoke, seen, s);
      && (forall id :: id !in level ==> (id in t.outputs <==> id in s.outputs))
      && (forall id :: id !in level && id in s.outputs ==> t.outputs[id] == s.outputs[id])
  {
    if level != [] {
      var n := |level| - 1;
      AfterLevelOutputs(level[..n], agents, invoke, seen, s);
      InitOrLast(level);
    }
  }

  /** Every scheduled agent, and no other, gets an `assessmentResults` entry. */
  lemma {:induction false} OneRecordPerAgent(levels: seq<Option<seq<AgentId>>>, agents: map<string, Agent>, invoke: Invoke)
    ensures AfterLevels(levels, agents, invoke).results.Keys == Elems(Scheduled(levels))
  {
    if levels != [] {
      var init := levels[..|levels| - 1];
      OneRecordPerAgent(init, agents, invoke);
      var s := AfterLevels(init, agents, invoke);
      match levels[|levels| - 1]
      case None =>
        assert Scheduled(levels) == Scheduled(init) + [];
      case Some(level) =>
        AfterLevelDomain(level, agents, invoke, s.outputs, s);
        assert Elems(Scheduled(levels)) == Elems(Scheduled(init)) + Elems(level) by {
          assert Scheduled(levels) == Scheduled(init) + level;
        }
    }
  }

  /** An agent of level `l` that no later level repeats ends with the entry
      of its run with the outputs of the levels before `l`: it sees the data
      of every earlier successful agent, not only its dependencies'. */
  lemma {:induction false} LevelSeesEarlierOutputs(levels: seq<Option<seq<AgentId>>>, agents: map<string, Agent>, invoke: Invoke, l: nat, id: AgentId)
    requires l < |levels| && levels[l].Some? && id in levels[l].value
    requires forall m :: l < m < |levels| && levels[m].Some? ==> id !in levels[m].value
    ensures id in AfterLevels(levels, agents, invoke).results
    ensures AfterLevels(levels, agents, invoke).results[id] == AgentRun(id, agents, invoke, AfterLevels(levels[..l], agents, invoke).outputs).record
  {
    var init := levels[..|levels| - 1];
    var s := AfterLevels(init, agents, invoke);
    AfterLevelsLast(levels, agents, invoke);
    if l == |levels| - 1 {
      assert init == levels[..l];
      AfterLevelMember(levels[l].value, agents, invoke, s.outputs, s, id);
    } else {
      LevelSeesEarlierOutputs(init, agents, invoke, l, id);
      assert init[..l] == levels[..l];
      if levels[|levels| - 1].Some? {
        AfterLevelOther(levels[|levels| - 1].value, agents, invoke, s.outputs, s, id);
      }
    }
  }

  /** The last level runs after the others, seeing their outputs. */
  lemma AfterLevelsLast(levels: seq<Option<seq<AgentId>>>, agents: map<string, Agent>, invoke: Invoke)
    requires levels != []
    ensures var s := AfterLevels(levels[..|levels| - 1], agents, invoke);
      AfterLevels(levels, agents, invoke) ==
        if levels[|levels| - 1].Some? then AfterLevel(levels[|levels| - 1].value, agents, invoke, s.outputs, s) else s
  {
  }

  /** Running a level of agents not yet run keeps the outputs in step with the entries. */
  lemma {:induction false} AfterLevelConsistent(level: seq<AgentId>, agents: map<string, Agent>, invoke: Invoke, seen: Outputs, s: State)
    requires Consistent(s) && Distinct(level)
    requires forall id :: id in level ==> id !in s.results
    ensures Consistent(AfterLevel(level, agents, invoke, seen, s))
  {
    if level != [] {
      var n := |level| - 1;
      assert level == level[..n] + [level[n]];
      DistinctAppend(level[..n], level[n]);
      AfterLevelConsistent(level[..n], agents, invoke, seen, s);
      AfterLevelDomain(level[..n], agents, invoke, seen, s);
      RecordConsistent(AfterLevel(level[..n], agents, invoke, seen, s), level[n], AgentRun(level[n], agents, invoke, seen));
    }
  }

  /** With every agent scheduled once, `agentOutputs[id]` is set exactly for
      the agents whose entry reports success, to that entry's `data`. */
  lemma {:induction false} PublishedIffSucceeded(levels: seq<Option<seq<AgentId>>>, agents: map<string, Agent>, invoke: Invoke)
    requires Distinct(Scheduled(levels))
    ensures Consistent(AfterLevels(levels, agents, invoke))
  {
    if levels != [] {
      var init := levels[..|levels| - 1];
      var s := AfterLevels(init, agents, invoke);
      var last := match levels[|levels| - 1] case None => [] case Some(level) => level;
      assert Scheduled(levels) == Scheduled(init) + last;
      DistinctSplit(Scheduled(init), last);
      PublishedIffSucceeded(init, agents, invoke);
      OneRecordPerAgent(init, agents, invoke);
      if levels[|levels| - 1].Some? {
        AfterLevelConsistent(last, agents, invoke, s.outputs, s);
      }
    }
  }

  // ---------------------------------------------------------------------
  // The schedule of an execution order

  /** A level of a repetition-free order repeats no agent. */
  lemma {:induction false} AtLevelDistinct(order: seq<AgentId>, lv: seq<nat>, l: nat)
    requires |lv| == |order| && Distinct(order)
    ensures Distinct(AtLevel(order, lv, l))
  {
    if order != [] {
      var n := |order| - 1;
      assert order == order[..n] + [order[n]];
      DistinctAppend(order[..n], order[n]);
      AtLevelDistinct(order[..n], lv[..n], l);
      AtLevelMeans(order[..n], lv[..n], l);
      DistinctAppend(AtLevel(order[..n], lv[..n], l), order[n]);
    }
  }

  /** The level after the first `k - 1` of an execution order's schedule
      adds the agents at level `k - 1`. */
  lemma ScheduledStep(order: seq<AgentId>, config: seq<AgentConfig>, k: nat)
    requires 0 < k <= LevelCount(LevelsOf(order, config))
    ensures Scheduled(Schedule(order, config)[..k]) ==
              Scheduled(Schedule(order, config)[..k - 1]) + AtLevel(order, LevelsOf(order, config), k - 1)
  {
    var levels := Schedule(order, config);
    ScheduledTake(levels, k);
    assert levels[k - 1] == Bucket(order, LevelsOf(order, config), k - 1);
  }

  /** The agents of the first `k` levels: those of the first `k - 1`, then level `k - 1`'s, if it is no hole. */
  lemma ScheduledTake(levels: seq<Option<seq<AgentId>>>, k: nat)
    requires 0 < k <= |levels|
    ensures Scheduled(levels[..k]) == Scheduled(levels[..k - 1]) + match levels[k - 1] case None => [] case Some(level) => level
  {
    assert levels[..k][..k - 1] == levels[..k - 1];
  }

  /** The agents of the first `k` levels of an execution order's schedule:
      those whose level is below `k`. */
  lemma {:induction false} ScheduledPrefix(order: seq<AgentId>, config: seq<AgentConfig>, k: nat)
    requires k <= LevelCount(LevelsOf(order, config))
    ensures var lv := LevelsOf(order, config);
      forall x :: x in Scheduled(Schedule(order, config)[..k]) <==> exists i :: 0 <= i < |order| && order[i] == x && lv[i] < k
  {
    if k > 0 {
      ScheduledPrefix(order, config, k - 1);
      ScheduledStep(order, config, k);
      AtLevelMeans(order, LevelsOf(order, config), k - 1);
    }
  }

  /** A repetition-free order's schedule repeats no agent. */
  lemma {:induction false} ScheduledPrefixDistinct(order: seq<AgentId>, config: seq<AgentConfig>, k: nat)
    requires k <= LevelCount(LevelsOf(order, config)) && Distinct(order)
    ensures Distinct(Scheduled(Schedule(order, config)[..k]))
  {
    if k > 0 {
      var lv := LevelsOf(order, config);
      var init := Scheduled(Schedule(order, config)[..k - 1]);
      var bucket := AtLevel(order, lv, k - 1);
      ScheduledPrefixDistinct(order, config, k - 1);
      ScheduledPrefix(order, config, k - 1);
      ScheduledStep(order, config, k);
      AtLevelMeans(order, lv, k - 1);
      AtLevelDistinct(order, lv, k - 1);
      LevelsDisjoint(order, lv, k - 1, init);
      DistinctConcat(init, bucket);
    }
  }

  /** Agents below level `l` of a repetition-free order are not at level `l`. */
  lemma LevelsDisjoint(order: seq<AgentId>, lv: seq<nat>, l: nat, below: seq<AgentId>)
    requires |lv| == |order| && Distinct(order)
    requires forall x :: x in below <==> exists i :: 0 <= i < |order| && order[i] == x && lv[i] < l
    ensures forall x :: x in below ==> x !in AtLevel(order, lv, l)
  {
    AtLevelMeans(order, lv, l);
    forall x | x in below ensures x !in AtLevel(order, lv, l) {
      var i :| 0 <= i < |order| && order[i] == x && lv[i] < l;
      forall j | 0 <= j < |order| && order[j] == x ensures lv[j] != l {
        assert j == i;
      }
    }
  }

  /** The schedule of an execution order holds each of its agents: exactly
      once when the order has no repetition. */
  lemma ScheduleCoversOrder(order: seq<AgentId>, config: seq<AgentConfig>)
    ensures Elems(Scheduled(Schedule(order, config))) == Elems(order)
    ensures Distinct(order) ==> Distinct(Scheduled(Schedule(order, config)))
  {
    var lv := LevelsOf(order, config);
    var levels := Schedule(order, config);
    ScheduledPrefix(order, config, |levels|);
    if Distinct(order) {
      ScheduledPrefixDistinct(order, config, |levels|);
    }
    assert levels[..|levels|] == levels;
    forall x | x in order ensures x in Scheduled(levels) {
      var i :| 0 <= i < |order| && order[i] == x;
      assert lv[i] < |levels|;
    }
  }

  // ---------------------------------------------------------------------
  // The answer

  /** `synthesizeCode(assessmentResults)`: the synthesis agent's entry. */
  function SynthesizeCode(results: map<AgentId, Option<Json>>): (r: Option<Json>)
    ensures r.Some? ==> SynthesisAgentId in results
  {
    if SynthesisAgentId in results then results[SynthesisAgentId] else None
  }

  /** Reading a chain of properties: reading one of `undefined` or `null`
      throws a TypeError. */
  function Project(v: Option<Json>, path: seq<string>): (r: Outcome<Option<Json>>)
    ensures path != [] && (v == None || v == Some(JNull)) ==> r == Threw(TypeError)
    ensures r.Threw? ==> r.exception == TypeError
    decreases |path|
  {
    if path == [] then Returned(v)
    else
      match Member(v, path[0])
      case Threw(e) => Threw(TypeError)
      case Returned(w) => Project(w, path[1..])
  }

  /** Objects nested along `path`, with `inner` at the end. */
  function Nest(path: seq<string>, inner: Json): Json
  {
    if path == [] then inner else JObj([(path[0], Nest(path[1..], inner))])
  }

  /** Reading a path out of objects nested along it gives what they hold. */
  lemma {:induction false} ProjectNest(path: seq<string>, inner: Json)
    ensures Project(Some(Nest(path, inner)), path) == Returned(Some(inner))
  {
    if path != [] {
      ProjectNest(path[1..], inner);
    }
  }

  /** The answer built from the entries: the synthesis agent's formatted
      breakdown, or the TypeError of reading it. */
  function Answer(promptId: string, results: map<AgentId, Option<Json>>): Outcome<Response>
  {
    match Project(SynthesizeCode(results), FormattedBreakdownPath)
    case Threw(e) => Threw(e)
    case Returned(v) => Returned(Response(promptId, v))
  }

  /** Without a synthesis agent among the scheduled agents, the run fails. */
  lemma NoSynthesisNoAnswer(promptId: string, levels: seq<Option<seq<AgentId>>>, agents: map<string, Agent>, invoke: Invoke)
    requires SynthesisAgentId !in Scheduled(levels)
    ensures Answer(promptId, AfterLevels(levels, agents, invoke).results) == Threw(TypeError)
  {
    OneRecordPerAgent(levels, agents, invoke);
  }

  // ---------------------------------------------------------------------
  // processPrompt

  /** Runs one level: every agent of the level is invoked with the outputs
      as they stood when the level began. */
  method ExecuteLevel(level: seq<AgentId>, registry: AgentRegistry, invoke: Invoke, context: Option<Json>, s: State)
    returns (t: State)
    ensures t == AfterLevel(level, registry.agents, invoke, s.outputs, s)
  {
    var seen := s.outputs;
    t := s;
    for j := 0 to |level|
      invariant t == AfterLevel(level[..j], registry.agents, invoke, seen, s)
    {
      var agentId := level[j];
      assert level[..j + 1][..j] == level[..j];
      if ShouldExecuteAgent(agentId, context) {
        var agent := registry.GetAgent(agentId);
        if agent.Some? {
          var response, _, _ := ExecuteAgentWithRetries(invoke, agent.value, seen, DefaultMaxRetries);
          match response
          case Returned(agentResponse) =>
            var metadata := OptionalMember(agentResponse, "metadata");
            var status := OptionalMember(metadata, "status");
            if status.Some? && ConversionThrows(status.value) {
              t := State(t.results[agentId := Some(ErrorRecord(agentId, "EXECUTION_FAILED", MessageOf(TypeError)))], t.outputs);
            } else {
              var outputs := t.outputs;
              if status == Some(JStr("success")) {
                outputs := outputs[agentId := OptionalMember(metadata, "data")];
              }
              t := State(t.results[agentId := metadata], outputs);
            }
          case Threw(error) =>
            t := State(t.results[agentId := Some(ErrorRecord(agentId, "EXECUTION_FAILED", MessageOf(error)))], t.outputs);
        } else {
          t := State(t.results[agentId := Some(ErrorRecord(agentId, "AGENT_NOT_FOUND", "Agent not found."))], t.outputs);
        }
      }
    }
    assert level[..|level|] == level;
  }

  /** Runs the levels in turn, skipping the holes. */
  method ExecuteLevels(levels: seq<Option<seq<AgentId>>>, registry: AgentRegistry, invoke: Invoke, context: Option<Json>)
    returns (s: State)
    ensures s == AfterLevels(levels, registry.agents, invoke)
  {
    s := State(map[], map[]);
    for i := 0 to |levels|
      invariant s == AfterLevels(levels[..i], registry.agents, invoke)
    {
      assert levels[..i + 1][..i] == levels[..i];
      var levelAgents := levels[i];
      if levelAgents.Some? {
        s := ExecuteLevel(levelAgents.value, registry, invoke, context, s);
      }
    }
    assert levels[..|levels|] == levels;
  }

  /** `processPrompt(prompt, context)` for the requested `primaryAgentIds`:
      the resolved order and the entries are returned beside the answer.
      A cycle (or a repeated or empty id) stops the run before any agent is
      invoked; an agent of the order without a configuration entry makes the
      grouping throw; otherwise every requested agent gets one entry, and the
      answer is read out of the synthesis agent's. */
  method ProcessPrompt(promptId: string, context: Option<Json>, primaryAgentIds: seq<AgentId>,
                       config: seq<AgentConfig>, registry: AgentRegistry, invoke: Invoke)
    returns (r: Outcome<Response>, executionOrder: seq<AgentId>, assessmentResults: map<AgentId, Option<Json>>)
    ensures r == Threw(Error(CircularMessage)) <==>
              !Distinct(primaryAgentIds) || "" in primaryAgentIds || exists stuck :: Blocked(config, primaryAgentIds, stuck)
    ensures r == Threw(Error(CircularMessage)) ==> assessmentResults == map[]
    ensures r != Threw(Error(CircularMessage)) ==>
              && Distinct(executionOrder) && multiset(executionOrder) == multiset(primaryAgentIds)
              && RespectsDependencies(executionOrder, primaryAgentIds, config)
              && (!Configured(executionOrder, config) ==> r == Threw(TypeError) && assessmentResults == map[])
              && (Configured(executionOrder, config) ==>
                    && assessmentResults == AfterLevels(Schedule(executionOrder, config), registry.agents, invoke).results
                    && assessmentResults.Keys == Elems(primaryAgentIds)
                    && r == Answer(promptId, assessmentResults))
  {
    var resolved := ResolveDependencies(primaryAgentIds, config);
    if resolved.None? {
      if Distinct(primaryAgentIds) && "" !in primaryAgentIds {
        assert exists stuck :: Blocked(config, primaryAgentIds, stuck);
      }
      return Threw(Error(CircularMessage)), [], map[];
    }
    executionOrder := resolved.value;
    ResolvedOrderUnblocked(primaryAgentIds, config, executionOrder);
    var grouped := GroupAgentsByLevels(executionOrder, config);
    if grouped.Threw? {
      return Threw(grouped.exception), executionOrder, map[];
    }
    var levels := grouped.value;
    assert levels == Schedule(executionOrder, config);
    var s := ExecuteLevels(levels, registry, invoke, context);
    assessmentResults := s.results;
    OneRecordPerAgent(levels, registry.agents, invoke);
    ScheduleCoversOrder(executionOrder, config);
    var finalAssessmentResp := SynthesizeCode(assessmentResults);
    var finalAssessment := Project(finalAssessmentResp, FormattedBreakdownPath);
    match finalAssessment
    case Threw(e) => r := Threw(e);
    case Returned(v) => r := Returned(Response(promptId, v));
  }

  /** With the order resolved and configured, `agentOutputs` ends up holding
      the data of exactly the agents whose entry reports success. */
  lemma OutputsFollowEntries(order: seq<AgentId>, config: seq<AgentConfig>, agents: map<string, Agent>, invoke: Invoke)
    requires Distinct(order)
    ensures Consistent(AfterLevels(Schedule(order, config), agents, invoke))
  {
    ScheduleCoversOrder(order, config);
    PublishedIffSucceeded(Schedule(order, config), agents, invoke);
  }
}
