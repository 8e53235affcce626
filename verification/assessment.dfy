/** What the two orchestrators build while they run agents: one entry per
    agent in `assessmentResults`, and the `data` of every successful agent
    in the shared `agentOutputs`. */
module Assessment {
  import opened JsValues
  import opened DependencyOrder
  import opened AgentReplies

  /** The shared `agentOutputs` object: agent id to the `data` it published
      (which may be `undefined`). */
  type Outputs = map<AgentId, Option<Json>>

  /** What running one agent yields: its `assessmentResults` entry and, when
      it succeeded, the data it publishes to `agentOutputs`. */
  datatype Run = Run(record: Option<Json>, published: Option<Option<Json>>)

  /** The entries and outputs built so far. */
  datatype State = State(results: map<AgentId, Option<Json>>, outputs: Outputs)

  /** The orchestrator's answer: the prompt's id and the final assessment. */
  datatype Response = Response(promptId: string, metadata: Option<Json>)

  /** A response's metadata becomes the entry; its `data` is published when
      its status is "success". */
  function FromMetadata(metadata: Option<Json>): (run: Run)
    ensures run.record == metadata
    ensures run.published.Some? <==> Succeeded(metadata)
    ensures run.published.Some? ==> run.published.value == OptionalMember(metadata, "data")
  {
    if Succeeded(metadata) then Run(metadata, Some(OptionalMember(metadata, "data"))) else Run(metadata, None)
  }

  /** An error entry written by the orchestrator; nothing is published. */
  function Failure(id: AgentId, code: string, message: string): (run: Run)
    ensures run.record == Some(ErrorRecord(id, code, message))
    ensures run.published.None? && !Succeeded(run.record)
  {
    ErrorRecordFails(id, code, message);
    Run(Some(ErrorRecord(id, code, message)), None)
  }

  /** Storing a run: the entry is overwritten, the data published on success. */
  function Record(s: State, id: AgentId, run: Run): State
  {
    State(s.results[id := run.record], if run.published.Some? then s.outputs[id := run.published.value] else s.outputs)
  }

  /** The published outputs agree with the entries: an agent's data is in
      `agentOutputs` exactly when its entry reports success. */
  ghost predicate Consistent(s: State)
  {
    forall id ::
      && (id in s.outputs <==> id in s.results && Succeeded(s.results[id]))
      && (id in s.outputs ==> s.outputs[id] == OptionalMember(s.results[id], "data"))
  }

  /** Storing the run of an agent not yet run keeps the outputs in step with
      the entries. */
  lemma RecordConsistent(s: State, id: AgentId, run: Run)
    requires Consistent(s) && id !in s.results
    requires run.published.Some? <==> Succeeded(run.record)
    requires run.published.Some? ==> run.published.value == OptionalMember(run.record, "data")
    ensures Consistent(Record(s, id, run))
  {
  }
}
