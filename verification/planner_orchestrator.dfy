/** The orchestrator of the agent planner: it orders the requested agents by
    their dependencies, runs them one at a time, records one entry per
    agent, publishes the data of every successful agent to the shared
    outputs, merges the agents' data key by key, and asks the model to
    structure the merge. The agents' replies and the model's reply are
    inputs. */
module PlannerOrchestrator {
  import opened JsValues
  import opened Seqs
  import opened DependencyOrder
  import opened Registry
  import opened AgentReplies
  import opened Assessment

  /** What `agent.processPrompt(prompt, { agentOutputs })` settles to, for
      the outputs the agent is shown. */
  type Invoke = (Agent, Outputs) -> Outcome<Option<Json>>

  /** The merged outputs: each key with the values the agents gave it. */
  type Merge = map<string, seq<Json>>

  const CircularMessage: string := "Circular dependency detected among agents."
  const FallbackMessage: string := "Synthesis failed due to unexpected error"

  // ---------------------------------------------------------------------
  // Running the agents

  /** Running agent `id` once with the outputs `seen`: AGENT_NOT_FOUND for an
      unregistered id, PROCESSING_FAILED with the error's message when the
      agent throws or its response has no readable `metadata`, the response's
      metadata otherwise. */
  function AgentRun(id: AgentId, agents: map<string, Agent>, invoke: Invoke, seen: Outputs): (run: Run)
    ensures run.published.Some? <==> Succeeded(run.record)
    ensures run.published.Some? ==> run.published.value == OptionalMember(run.record, "data")
  {
    if id !in agents then Failure(id, "AGENT_NOT_FOUND", "Agent not found.")
    else
      match invoke(agents[id], seen)
      case Threw(e) => Failure(id, "PROCESSING_FAILED", MessageOf(e))
      case Returned(response) =>
        match Member(response, "metadata")
        case Threw(e) => Failure(id, "PROCESSING_FAILED", MessageOf(e))
        case Returned(metadata) => FromMetadata(metadata)
  }

  /** Running an unregistered agent records AGENT_NOT_FOUND. */
  lemma UnregisteredNotFound(id: AgentId, agents: map<string, Agent>, invoke: Invoke, seen: Outputs)
    requires id !in agents
    ensures AgentRun(id, agents, invoke, seen).record == Some(ErrorRecord(id, "AGENT_NOT_FOUND", "Agent not found."))
  {
  }

  /** An agent that throws records PROCESSING_FAILED with the error's message. */
  lemma ThrowingAgentFails(id: AgentId, agents: map<string, Agent>, invoke: Invoke, seen: Outputs)
    requires id in agents && invoke(agents[id], seen).Threw?
    ensures AgentRun(id, agents, invoke, seen).record == Some(ErrorRecord(id, "PROCESSING_FAILED", MessageOf(invoke(agents[id], seen).exception)))
  {
  }

  /** Running the agents of `order` in turn, each seeing the outputs of the
      agents before it. */
  function AfterAgents(order: seq<AgentId>, agents: map<string, Agent>, invoke: Invoke): State
  {
    if order == [] then State(map[], map[])
    else
      var n := |order| - 1;
      var s := AfterAgents(order[..n], agents, invoke);
      Record(s, order[n], AgentRun(order[n], agents, invoke, s.outputs))
  }

  /** Every agent of the order, and no other, gets an entry. */
  lemma {:induction false} OneRecordPerAgent(order: seq<AgentId>, agents: map<string, Agent>, invoke: Invoke)
    ensures AfterAgents(order, agents, invoke).results.Keys == Elems(order)
  {
    if order != [] {
      var n := |order| - 1;
      OneRecordPerAgent(order[..n], agents, invoke);
      ElemsLast(order);
      AfterAgentsKeys(order, agents, invoke);
    }
  }

  /** Running one more agent adds its entry. */
  lemma AfterAgentsKeys(order: seq<AgentId>, agents: map<string, Agent>, invoke: Invoke)
    requires order != []
    ensures var n := |order| - 1;
      AfterAgents(order, agents, invoke).results.Keys == AfterAgents(order[..n], agents, invoke).results.Keys + {order[n]}
  {
  }

  /** Running one more agent leaves the entries of the other agents alone. */
  lemma AfterAgentsStep(order: seq<AgentId>, agents: map<string, Agent>, invoke: Invoke, x: AgentId)
    requires order != [] && x != order[|order| - 1]
    requires x in AfterAgents(order[..|order| - 1], agents, invoke).results
    ensures x in AfterAgents(order, agents, invoke).results
    ensures AfterAgents(order, agents, invoke).results[x] == AfterAgents(order[..|order| - 1], agents, invoke).results[x]
  {
  }

  /** Agents after `order[..i + 1]` leave the entry of `order[i]` alone. */
  lemma {:induction false} LaterAgentsKeep(order: seq<AgentId>, agents: map<string, Agent>, invoke: Invoke, i: nat)
    requires Distinct(order) && i < |order|
    ensures order[i] in AfterAgents(order[..i + 1], agents, invoke).results
    ensures order[i] in AfterAgents(order, agents, invoke).results
    ensures AfterAgents(order, agents, invoke).results[order[i]] == AfterAgents(order[..i + 1], agents, invoke).results[order[i]]
  {
    var n := |order| - 1;
    if i < n {
      var init := order[..n];
      assert order == init + [order[n]];
      DistinctAppend(init, order[n]);
      assert init[i] == order[i] && init[..i + 1] == order[..i + 1];
      LaterAgentsKeep(init, agents, invoke, i);
      assert order[i] != order[n];
      AfterAgentsStep(order, agents, invoke, order[i]);
    } else {
      assert order[..i + 1] == order;
      assert order[..i + 1][..i] == order[..i];
    }
  }

  /** The `i`-th agent's entry is its run with the outputs of every earlier
      successful agent, not only of its dependencies. */
  lemma AgentSeesEarlierOutputs(order: seq<AgentId>, agents: map<string, Agent>, invoke: Invoke, i: nat)
    requires Distinct(order) && i < |order|
    ensures order[i] in AfterAgents(order, agents, invoke).results
    ensures AfterAgents(order, agents, invoke).results[order[i]] ==
              AgentRun(order[i], agents, invoke, AfterAgents(order[..i], agents, invoke).outputs).record
  {
    LaterAgentsKeep(order, agents, invoke, i);
    var prefix := order[..i + 1];
    assert prefix[..i] == order[..i] && prefix[i] == order[i];
    AfterAgentsLast(prefix, agents, invoke);
  }

  /** The last agent's entry is its run with the outputs of the agents before it. */
  lemma AfterAgentsLast(order: seq<AgentId>, agents: map<string, Agent>, invoke: Invoke)
    requires order != []
    ensures var n := |order| - 1;
      AfterAgents(order, agents, invoke).results[order[n]] == AgentRun(order[n], agents, invoke, AfterAgents(order[..n], agents, invoke).outputs).record
  {
  }

  /** With no agent run twice, `agentOutputs[id]` is set exactly for the
      agents whose entry reports success, to that entry's `data`. */
  lemma {:induction false} PublishedIffSucceeded(order: seq<AgentId>, agents: map<string, Agent>, invoke: Invoke)
    requires Distinct(order)
    ensures Consistent(AfterAgents(order, agents, invoke))
  {
    if order != [] {
      var n := |order| - 1;
      assert order == order[..n] + [order[n]];
      DistinctAppend(order[..n], order[n]);
      PublishedIffSucceeded(order[..n], agents, invoke);
      OneRecordPerAgent(order[..n], agents, invoke);
      var s := AfterAgents(order[..n], agents, invoke);
      RecordConsistent(s, order[n], AgentRun(order[n], agents, invoke, s.outputs));
    }
  }

  // ---------------------------------------------------------------------
  // The key-wise merge of synthesizeCode

  /** The error an entry contributes, if any: no truthy output or no truthy
      `data` is "Missing output", `data` that is not an object is "Invalid
      data format". */
  function EntryError(agentId: AgentId, output: Option<Json>): (r: Option<string>)
    ensures r.None? <==> output.Some? && TruthyOpt(Get(output.value, "data")) && IsObject(Get(output.value, "data").value)
  {
    if !TruthyOpt(output) || !TruthyOpt(Get(output.value, "data")) then Some("Missing output from agent " + agentId)
    else if !IsObject(Get(output.value, "data").value) then Some("Invalid data format from agent " + agentId)
    else None
  }

  /** `finalOutput[key] ??= []; finalOutput[key].push(value)`, for own keys. */
  function Push(out: Merge, key: string, value: Json): Merge
  {
    out[key := (if key in out then out[key] else []) + [value]]
  }

  /** Pushing every pair of `kvs` in turn. */
  function PushAll(out: Merge, kvs: seq<(string, Json)>): Merge
  {
    if kvs == [] then out
    else
      var n := |kvs| - 1;
      Push(PushAll(out, kvs[..n]), kvs[n].0, kvs[n].1)
  }

  /** The values `kvs` pairs with `key`, in order. */
  function KeyValues(kvs: seq<(string, Json)>, key: string): seq<Json>
  {
    if kvs == [] then [] else (if kvs[0].0 == key then [kvs[0].1] else []) + KeyValues(kvs[1..], key)
  }

  /** What `finalOutput` holds under `key`. */
  function Held(out: Merge, key: string): seq<Json>
  {
    if key in out then out[key] else []
  }

  datatype Merged = Merged(finalOutput: Merge, errors: seq<string>)

  /** The loop over `Object.entries(assessmentResults)`. */
  function MergeEntries(entries: seq<(AgentId, Option<Json>)>): Merged
  {
    if entries == [] then Merged(map[], [])
    else
      var n := |entries| - 1;
      var m := MergeEntries(entries[..n]);
      var (agentId, output) := entries[n];
      match EntryError(agentId, output)
      case Some(message) => Merged(m.finalOutput, m.errors + [message])
      case None => Merged(PushAll(m.finalOutput, Entries(Get(output.value, "data").value)), m.errors)
  }

  /** `finalOutput` once the errors are attached under "errors". */
  function FinalOutput(m: Merged): Merge
  {
    if |m.errors| > 0 then m.finalOutput["errors" := ErrorStrings(m.errors)] else m.finalOutput
  }

  /** The error messages as the array of strings `finalOutput.errors` holds. */
  function ErrorStrings(errors: seq<string>): (r: seq<Json>)
    ensures |r| == |errors| && forall i :: 0 <= i < |errors| ==> r[i] == JStr(errors[i])
  {
    seq(|errors|, i requires 0 <= i < |errors| => JStr(errors[i]))
  }

  /** The values the valid entries give `key`, entry by entry. */
  function Values(entries: seq<(AgentId, Option<Json>)>, key: string): seq<Json>
  {
    if entries == [] then []
    else
      var n := |entries| - 1;
      var (agentId, output) := entries[n];
      Values(entries[..n], key) +
        if EntryError(agentId, output).None? then KeyValues(Entries(Get(output.value, "data").value), key) else []
  }

  /** The error messages of the entries, in entry order. */
  function Errors(entries: seq<(AgentId, Option<Json>)>): seq<string>
  {
    if entries == [] then []
    else
      var e := EntryError(entries[0].0, entries[0].1);
      (if e.Some? then [e.value] else []) + Errors(entries[1..])
  }

  /** The values paired with a key in a concatenation: those of each part, in turn. */
  lemma {:induction false} KeyValuesAppend(a: seq<(string, Json)>, b: seq<(string, Json)>, key: string)
    ensures KeyValues(a + b, key) == KeyValues(a, key) + KeyValues(b, key)
  {
    if a != [] {
      KeyValuesAppend(a[1..], b, key);
      assert (a + b)[1..] == a[1..] + b;
    } else {
      assert a + b == b;
    }
  }

  /** Pushing pairs appends, under each key, the values paired with it. */
  lemma {:induction false} PushAllHeld(out: Merge, kvs: seq<(string, Json)>, key: string)
    ensures Held(PushAll(out, kvs), key) == Held(out, key) + KeyValues(kvs, key)
    ensures key in PushAll(out, kvs) <==> key in out || KeyValues(kvs, key) != []
  {
    if kvs != [] {
      var n := |kvs| - 1;
      PushAllHeld(out, kvs[..n], key);
      KeyValuesLast(kvs, key);
      PushHeld(PushAll(out, kvs[..n]), kvs[n].0, kvs[n].1, key);
    }
  }

  /** One push appends the value under its own key only. */
  lemma PushHeld(out: Merge, k: string, v: Json, key: string)
    ensures Held(Push(out, k, v), key) == Held(out, key) + (if k == key then [v] else [])
    ensures key in Push(out, k, v) <==> key in out || k == key
  {
  }

  /** The values paired with `key`: those of all pairs but the last, then the last's. */
  lemma KeyValuesLast(kvs: seq<(string, Json)>, key: string)
    requires kvs != []
    ensures var n := |kvs| - 1;
      KeyValues(kvs, key) == KeyValues(kvs[..n], key) + (if kvs[n].0 == key then [kvs[n].1] else [])
  {
    var n := |kvs| - 1;
    assert kvs == kvs[..n] + [kvs[n]];
    KeyValuesAppend(kvs[..n], [kvs[n]], key);
    assert [kvs[n]][1..] == [];
  }

  /** Every key of the merge holds, in entry order, the values the valid
      entries give it; a key no valid entry has is absent. */
  lemma {:induction false} MergeValues(entries: seq<(AgentId, Option<Json>)>, key: string)
    ensures Held(MergeEntries(entries).finalOutput, key) == Values(entries, key)
    ensures key in MergeEntries(entries).finalOutput <==> Values(entries, key) != []
  {
    if entries != [] {
      var n := |entries| - 1;
      MergeValues(entries[..n], key);
      var (agentId, output) := entries[n];
      if EntryError(agentId, output).None? {
        PushAllHeld(MergeEntries(entries[..n]).finalOutput, Entries(Get(output.value, "data").value), key);
      }
    }
  }

  /** The errors of a concatenation of entries: those of each part, in turn. */
  lemma {:induction false} ErrorsAppend(a: seq<(AgentId, Option<Json>)>, b: seq<(AgentId, Option<Json>)>)
    ensures Errors(a + b) == Errors(a) + Errors(b)
  {
    if a != [] {
      ErrorsAppend(a[1..], b);
      assert (a + b)[1..] == a[1..] + b;
    } else {
      assert a + b == b;
    }
  }

  /** The errors are the entries' error messages, one per invalid entry, in
      entry order. */
  lemma {:induction false} MergeErrors(entries: seq<(AgentId, Option<Json>)>)
    ensures MergeEntries(entries).errors == Errors(entries)
  {
    if entries != [] {
      var n := |entries| - 1;
      MergeErrors(entries[..n]);
      assert entries == entries[..n] + [entries[n]];
      ErrorsAppend(entries[..n], [entries[n]]);
      assert Errors([entries[n]]) == var e := EntryError(entries[n].0, entries[n].1); if e.Some? then [e.value] else [] by {
        assert [entries[n]][1..] == [];
      }
    }
  }

  /** `finalOutput.errors` is set exactly when some entry was invalid (or a
      valid entry's data has an "errors" key, whose values it then replaces);
      every other key keeps its merged values. */
  lemma ErrorsKey(entries: seq<(AgentId, Option<Json>)>)
    ensures var m := MergeEntries(entries);
      && ("errors" in FinalOutput(m) <==> Errors(entries) != [] || Values(entries, "errors") != [])
      && (Errors(entries) != [] ==> FinalOutput(m)["errors"] == ErrorStrings(Errors(entries)))
      && (forall key :: key != "errors" ==> Held(FinalOutput(m), key) == Values(entries, key))
  {
    MergeErrors(entries);
    MergeValues(entries, "errors");
    forall key | key != "errors" ensures Held(FinalOutput(MergeEntries(entries)), key) == Values(entries, key) {
      MergeValues(entries, key);
    }
  }

  /** An object's entries pair a key it has with its value once. */
  lemma {:induction false} ObjectKeyOnce(props: seq<(string, Json)>, key: string)
    ensures KeyValues(FirstOccurrences(props), key) == if Lookup(props, key).Some? then [Lookup(props, key).value] else []
    decreases |props|
  {
    if props != [] {
      var k := props[0].0;
      var rest := Without(props[1..], k);
      ObjectKeyOnce(rest, key);
      var r := FirstOccurrences(props);
      assert r == [props[0]] + FirstOccurrences(rest);
      assert r[1..] == FirstOccurrences(rest);
      if key == k {
        assert Lookup(rest, key) == None by {
          forall p | p in rest ensures p.0 != key { }
        }
      }
    }
  }

  /** So when every valid entry's data is an object, a key's merged values
      are one per valid entry whose data has the key. */
  lemma ObjectValues(entries: seq<(AgentId, Option<Json>)>, key: string, i: nat)
    requires i < |entries| && EntryError(entries[i].0, entries[i].1).None?
    requires Get(entries[i].1.value, "data").value.JObj?
    ensures KeyValues(Entries(Get(entries[i].1.value, "data").value), key) ==
              var v := Lookup(Get(entries[i].1.value, "data").value.props, key); if v.Some? then [v.value] else []
  {
    ObjectKeyOnce(Get(entries[i].1.value, "data").value.props, key);
  }

  // ---------------------------------------------------------------------
  // The merge as written, and its finding

  /** The properties every plain object inherits from `Object.prototype`:
      for these `finalOutput[key]` is truthy before any push. */
  const InheritedKeys: set<string> := {
    "constructor", "__proto__", "__defineGetter__", "__defineSetter__", "__lookupGetter__",
    "__lookupSetter__", "hasOwnProperty", "isPrototypeOf", "propertyIsEnumerable",
    "toLocaleString", "toString", "valueOf"
  }

  /** The push as written: `if (!finalOutput[key]) finalOutput[key] = []`
      skips an inherited key, and pushing onto the inherited function throws
      a TypeError. */
  function PushAllAsWritten(out: Merge, kvs: seq<(string, Json)>): Outcome<Merge>
  {
    if kvs == [] then Returned(out)
    else
      var n := |kvs| - 1;
      match PushAllAsWritten(out, kvs[..n])
      case Threw(e) => Threw(e)
      case Returned(o) =>
        if kvs[n].0 !in o && kvs[n].0 in InheritedKeys then Threw(TypeError)
        else Returned(Push(o, kvs[n].0, kvs[n].1))
  }

  /** The merge loop as written. */
  function MergeAsWritten(entries: seq<(AgentId, Option<Json>)>): Outcome<Merged>
  {
    if entries == [] then Returned(Merged(map[], []))
    else
      var n := |entries| - 1;
      match MergeAsWritten(entries[..n])
      case Threw(e) => Threw(e)
      case Returned(m) =>
        var (agentId, output) := entries[n];
        match EntryError(agentId, output)
        case Some(message) => Returned(Merged(m.finalOutput, m.errors + [message]))
        case None =>
          match PushAllAsWritten(m.finalOutput, Entries(Get(output.value, "data").value))
          case Threw(e) => Threw(e)
          case Returned(o) => Returned(Merged(o, m.errors))
  }

  /** Some pair of `kvs` has an inherited key. */
  predicate InheritedIn(kvs: seq<(string, Json)>)
  {
    exists j :: 0 <= j < |kvs| && kvs[j].0 in InheritedKeys
  }

  /** Some valid entry's data has an inherited key. */
  predicate HasInheritedKey(entries: seq<(AgentId, Option<Json>)>)
  {
    if entries == [] then false
    else
      var n := |entries| - 1;
      var (agentId, output) := entries[n];
      HasInheritedKey(entries[..n]) ||
        (EntryError(agentId, output).None? && InheritedIn(Entries(Get(output.value, "data").value)))
  }

  /** Starting from a merge without inherited keys, the push as written throws a TypeError exactly when some pair has an inherited key, and otherwise agrees with the push. */
  lemma {:induction false} PushAllAsWrittenAgrees(out: Merge, kvs: seq<(string, Json)>)
    requires forall k :: k in out ==> k !in InheritedKeys
    ensures InheritedIn(kvs) ==> PushAllAsWritten(out, kvs) == Threw(TypeError)
    ensures !InheritedIn(kvs) ==>
              PushAllAsWritten(out, kvs) == Returned(PushAll(out, kvs)) && forall k :: k in PushAll(out, kvs) ==> k !in InheritedKeys
  {
    if kvs != [] {
      var n := |kvs| - 1;
      PushAllAsWrittenAgrees(out, kvs[..n]);
      assert forall j :: 0 <= j < n ==> kvs[..n][j] == kvs[j];
      assert InheritedIn(kvs) <==> InheritedIn(kvs[..n]) || kvs[n].0 in InheritedKeys;
    }
  }

  /** The merge as written throws a TypeError exactly when some valid
      entry's data has a key every object inherits; otherwise it agrees with
      the merge. */
  lemma {:induction false} MergeAsWrittenAgrees(entries: seq<(AgentId, Option<Json>)>)
    ensures HasInheritedKey(entries) ==> MergeAsWritten(entries) == Threw(TypeError)
    ensures !HasInheritedKey(entries) ==> MergeAsWritten(entries) == Returned(MergeEntries(entries))
    ensures !HasInheritedKey(entries) ==> forall k :: k in MergeEntries(entries).finalOutput ==> k !in InheritedKeys
  {
    if entries != [] {
      var n := |entries| - 1;
      MergeAsWrittenAgrees(entries[..n]);
      var (agentId, output) := entries[n];
      if !HasInheritedKey(entries[..n]) && EntryError(agentId, output).None? {
        PushAllAsWrittenAgrees(MergeEntries(entries[..n]).finalOutput, Entries(Get(output.value, "data").value));
      }
    }
  }

  /** An agent whose data has a `constructor` key makes the merge as written
      throw, while the merge collects the value. */
  lemma ConstructorKeyThrows()
    ensures var entries := [("agent-design-agent", Some(JObj([("data", JObj([("constructor", JStr("Planner"))]))])))];
      && MergeAsWritten(entries) == Threw(TypeError)
      && MergeEntries(entries).finalOutput == map["constructor" := [JStr("Planner")]]
  {
    var data := JObj([("constructor", JStr("Planner"))]);
    var entries := [("agent-design-agent", Some(JObj([("data", data)])))];
    assert Get(entries[0].1.value, "data") == Some(data);
    assert EntryError(entries[0].0, entries[0].1).None?;
    var kvs := Entries(data);
    assert kvs == [("constructor", JStr("Planner"))] by {
      assert Without([], "constructor") == [];
    }
    assert kvs[..0] == [];
    assert PushAll(map[], kvs) == Push(map[], "constructor", JStr("Planner"));
    assert entries[..0] == [];
    assert MergeEntries(entries) == Merged(PushAll(map[], kvs), []);
    assert [] + [JStr("Planner")] == [JStr("Planner")];
    assert "constructor" in InheritedKeys;
  }

  // ---------------------------------------------------------------------
  // The model's structuring of the merge

  /** The reply the model gives to the merged outputs: the parsed object's
      `agents`, or the fallback object when the call throws, the reply does
      not parse or it parses to null. */
  function SynthesisResult(completion: Completion): (r: Option<Json>)
    ensures completion.CallThrew? || completion == Completed(Unparseable) || completion == Completed(Parsed(JNull)) ==>
              r == Some(JObj([("error", JStr(FallbackMessage))]))
    ensures completion.Completed? && completion.reply.Parsed? && completion.reply.value != JNull ==>
              r == Get(completion.reply.value, "agents")
  {
    match completion
    case CallThrew(_) => Some(JObj([("error", JStr(FallbackMessage))]))
    case Completed(Unparseable) => Some(JObj([("error", JStr(FallbackMessage))]))
    case Completed(Parsed(v)) =>
      match Member(Some(v), "agents")
      case Threw(_) => Some(JObj([("error", JStr(FallbackMessage))]))
      case Returned(agents) => agents
  }

  /** `synthesizeCode(assessmentResults)` with the model's reply to the
      merged outputs as an input. */
  function SynthesizeCode(entries: seq<(AgentId, Option<Json>)>, synthesize: Merge -> Completion): Option<Json>
  {
    SynthesisResult(synthesize(FinalOutput(MergeEntries(entries))))
  }

  // ---------------------------------------------------------------------
  // The methods

  /** The inner loop: every pair of one agent's data pushed in turn. */
  method PushEntries(out: Merge, kvs: seq<(string, Json)>) returns (o: Merge)
    ensures o == PushAll(out, kvs)
  {
    o := out;
    for j := 0 to |kvs|
      invariant o == PushAll(out, kvs[..j])
    {
      assert kvs[..j + 1][..j] == kvs[..j];
      var (key, value) := kvs[j];
      if key !in o {
        o := o[key := []];
      }
      o := o[key := o[key] + [value]];
    }
    assert kvs[..|kvs|] == kvs;
  }

  /** The merge part of `synthesizeCode`, with the own-key test the loop
      evidently intends. */
  method MergeOutputs(entries: seq<(AgentId, Option<Json>)>) returns (finalOutput: Merge)
    ensures finalOutput == FinalOutput(MergeEntries(entries))
  {
    finalOutput := map[];
    var errors: seq<string> := [];
    for i := 0 to |entries|
      invariant Merged(finalOutput, errors) == MergeEntries(entries[..i])
    {
      assert entries[..i + 1][..i] == entries[..i];
      var (agentId, agentOutput) := entries[i];
      if !TruthyOpt(agentOutput) || !TruthyOpt(Get(agentOutput.value, "data")) {
        errors := errors + ["Missing output from agent " + agentId];
      } else if !IsObject(Get(agentOutput.value, "data").value) {
        errors := errors + ["Invalid data format from agent " + agentId];
      } else {
        finalOutput := PushEntries(finalOutput, Entries(Get(agentOutput.value, "data").value));
      }
    }
    assert entries[..|entries|] == entries;
    if |errors| > 0 {
      finalOutput := finalOutput["errors" := ErrorStrings(errors)];
    }
  }

  /** `Object.entries(assessmentResults)` when the entries were written in
      the order of `order`. */
  function EntriesOf(order: seq<AgentId>, results: map<AgentId, Option<Json>>): (entries: seq<(AgentId, Option<Json>)>)
    requires forall id :: id in order ==> id in results
    ensures |entries| == |order|
    ensures forall i :: 0 <= i < |order| ==> entries[i] == (order[i], results[order[i]])
  {
    seq(|order|, i requires 0 <= i < |order| => (order[i], results[order[i]]))
  }

  /** Runs the agents of `order` one at a time. */
  method ExecuteAgents(order: seq<AgentId>, registry: AgentRegistry, invoke: Invoke) returns (s: State)
    ensures s == AfterAgents(order, registry.agents, invoke)
  {
    var assessmentResults: map<AgentId, Option<Json>> := map[];
    var agentOutputs: Outputs := map[];
    for i := 0 to |order|
      invariant State(assessmentResults, agentOutputs) == AfterAgents(order[..i], registry.agents, invoke)
    {
      AfterAgentsPrefix(order, registry.agents, invoke, i);
      assessmentResults, agentOutputs := ExecuteAgent(order[i], registry, invoke, assessmentResults, agentOutputs);
    }
    assert order[..|order|] == order;
    s := State(assessmentResults, agentOutputs);
  }

  /** The body of the loop of `executeAgents` for one agent, updating the
      entries and the outputs in place as the source does. It is a method of
      its own so that the loop's invariant is carried over one call whose
      effect is pinned to `Record` of `AgentRun`, rather than over each of
      the body's branches. */
  method ExecuteAgent(agentId: AgentId, registry: AgentRegistry, invoke: Invoke,
                      assessmentResults: map<AgentId, Option<Json>>, agentOutputs: Outputs)
    returns (results: map<AgentId, Option<Json>>, outputs: Outputs)
    ensures State(results, outputs) ==
              Record(State(assessmentResults, agentOutputs), agentId, AgentRun(agentId, registry.agents, invoke, agentOutputs))
  {
    results, outputs := assessmentResults, agentOutputs;
    var agent := registry.GetAgent(agentId);
    if agent.Some? {
      var agentResponse := invoke(agent.value, agentOutputs);
      var metadata := if agentResponse.Threw? then Threw(agentResponse.exception) else Member(agentResponse.value, "metadata");
      match metadata
      case Returned(md) =>
        results := results[agentId := md];
        if OptionalMember(md, "status") == Some(JStr("success")) {
          outputs := outputs[agentId := OptionalMember(md, "data")];
        }
      case Threw(error) =>
        results := results[agentId := Some(ErrorRecord(agentId, "PROCESSING_FAILED", MessageOf(error)))];
    } else {
      results := results[agentId := Some(ErrorRecord(agentId, "AGENT_NOT_FOUND", "Agent not found."))];
    }
  }

  /** Running one more agent of the order stores its run with the outputs so far. */
  lemma AfterAgentsPrefix(order: seq<AgentId>, agents: map<string, Agent>, invoke: Invoke, i: nat)
    requires i < |order|
    ensures var s := AfterAgents(order[..i], agents, invoke);
      AfterAgents(order[..i + 1], agents, invoke) == Record(s, order[i], AgentRun(order[i], agents, invoke, s.outputs))
  {
    assert order[..i + 1][..i] == order[..i];
  }

  /** `processPrompt(prompt, context)` for the requested `primaryAgentIds`:
      the resolved order and the entries are returned beside the answer. A
      cycle (or a repeated or empty id) stops the run before any agent is
      invoked; otherwise every requested agent gets one entry and the answer
      is the model's structuring of the merged outputs. */
  method ProcessPrompt(promptId: string, primaryAgentIds: seq<AgentId>, config: seq<AgentConfig>,
                       registry: AgentRegistry, invoke: Invoke, synthesize: Merge -> Completion)
    returns (r: Outcome<Response>, executionOrder: seq<AgentId>, assessmentResults: map<AgentId, Option<Json>>)
    ensures r == Threw(Error(CircularMessage)) <==>
              !Distinct(primaryAgentIds) || "" in primaryAgentIds || exists stuck :: Blocked(config, primaryAgentIds, stuck)
    ensures r.Threw? ==> r == Threw(Error(CircularMessage)) && assessmentResults == map[]
    ensures r.Returned? ==>
              && Distinct(executionOrder) && multiset(executionOrder) == multiset(primaryAgentIds)
              && RespectsDependencies(executionOrder, primaryAgentIds, config)
              && assessmentResults == AfterAgents(executionOrder, registry.agents, invoke).results
              && assessmentResults.Keys == Elems(executionOrder) == Elems(primaryAgentIds)
              && r.value == Response(promptId, SynthesizeCode(EntriesOf(executionOrder, assessmentResults), synthesize))
  {
    var resolved := ResolveDependencies(primaryAgentIds, config);
    if resolved.None? {
      if Distinct(primaryAgentIds) && "" !in primaryAgentIds {
        assert exists stuck :: Blocked(config, primaryAgentIds, stuck);
      }
      return Threw(Error(CircularMessage)), [], map[];
    }
    executionOrder := resolved.value;
    ResolvedOrderUnblocked(primaryAgentIds, config, executionOrder);
    var s := ExecuteAgents(executionOrder, registry, invoke);
    assessmentResults := s.results;
    OneRecordPerAgent(executionOrder, registry.agents, invoke);
    var entries := EntriesOf(executionOrder, assessmentResults);
    var finalOutput := MergeOutputs(entries);
    var finalAssessment := SynthesisResult(synthesize(finalOutput));
    r := Returned(Response(promptId, finalAssessment));
  }
}
