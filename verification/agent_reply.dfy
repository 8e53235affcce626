/** The reply normalisation every agent class wraps around its model call,
    as the Problem Analysis Agent of the agent planner writes it: the other
    agent classes repeat the same block with their own id and wording. */
module AgentReplies {
  import opened JsValues

  /** What JSON.parse makes of the model's cleaned reply: a parse failure or
      a value. */
  datatype Reply = Unparseable | Parsed(value: Json)

  /** The model call and its reply: the call throws, or it completes. */
  datatype Completion = CallThrew(error: Exception) | Completed(reply: Reply)

  /** What `processPrompt` resolves to. */
  datatype AgentResponse = AgentResponse(promptId: string, content: string, metadata: Json)

  const AgentId: string := "problem-analysis-agent"

  /** The error metadata the agents and the orchestrators write:
      `{ agentId, status: "error", code, message }`. */
  function ErrorRecord(agentId: string, code: string, message: string): (m: Json)
    ensures Get(m, "agentId") == Some(JStr(agentId))
    ensures Get(m, "status") == Some(JStr("error"))
    ensures Get(m, "code") == Some(JStr(code))
    ensures agentId != "" ==> Complete(m)
  {
    var ps := [("agentId", JStr(agentId)), ("status", JStr("error")), ("code", JStr(code)), ("message", JStr(message))];
    assert ps[0].0 != "status" && ps[0].0 != "code" && ps[1].0 != "code" by {
      assert |"agentId"| == 7 && |"status"| == 6 && |"code"| == 4;
    }
    assert Lookup(ps[1..], "status") == Some(JStr("error"));
    assert Lookup(ps[1..][1..], "code") == Some(JStr(code));
    JObj(ps)
  }

  /** `metadata?.status === "success"`: the test the orchestrators apply
      before publishing an agent's data. */
  predicate Succeeded(metadata: Option<Json>)
  {
    OptionalMember(metadata, "status") == Some(JStr("success"))
  }

  /** No error record reports success. */
  lemma ErrorRecordFails(agentId: string, code: string, message: string)
    ensures !Succeeded(Some(ErrorRecord(agentId, code, message)))
  {
    assert |"error"| != |"success"|;
  }

  const InvalidJson: Json := ErrorRecord(AgentId, "INVALID_JSON", "The agent returned malformed JSON.")
  const IncompleteOutput: Json := ErrorRecord(AgentId, "INCOMPLETE_OUTPUT", "The agent returned incomplete data.")
  const ProcessingFailed: Json := ErrorRecord(AgentId, "PROCESSING_FAILED", "Failed to process prompt in Problem Analysis Agent.")

  /** The metadata carries a truthy `agentId` and a truthy `status`. */
  predicate Complete(metadata: Json)
  {
    TruthyOpt(Get(metadata, "agentId")) && TruthyOpt(Get(metadata, "status"))
  }

  /** The check of the required fields: reading them from null throws a
      TypeError, and metadata without both is replaced. */
  function Validated(metadata: Json): (r: Outcome<Json>)
    ensures r.Threw? <==> metadata == JNull
    ensures r.Returned? ==> Complete(r.value)
  {
    if metadata == JNull then Threw(TypeError)
    else if !Complete(metadata) then Returned(IncompleteOutput)
    else Returned(metadata)
  }

  /** `processPrompt(prompt, context)` of the Problem Analysis Agent, with the
      model's reply as an input. Reading `context.agentOutputs` happens before
      the `try`, so an absent context makes the call fail; any failure inside
      the `try` becomes PROCESSING_FAILED metadata. */
  function ProcessPrompt(promptId: string, context: Option<Json>, completion: Completion): (r: Outcome<AgentResponse>)
    ensures r.Threw? <==> context == None || context == Some(JNull)
    ensures r.Threw? ==> r.exception == TypeError
    ensures r.Returned? ==> r.value.promptId == promptId && r.value.content == ""
    ensures r.Returned? ==> Complete(r.value.metadata)
  {
    if Member(context, "agentOutputs").Threw? then Threw(TypeError)
    else
      assert AgentId != "" by { assert |AgentId| == 22; }
      var attempt := match completion
        case CallThrew(e) => Threw(e)
        case Completed(reply) => Validated(if reply.Unparseable? then InvalidJson else reply.value);
      var metadata := if attempt.Threw? then ProcessingFailed else attempt.value;
      Returned(AgentResponse(promptId, "", metadata))
  }

  /** Which metadata a failed reply produces, given a context: a failed call
      and a parsed null give PROCESSING_FAILED, an unparseable reply
      INVALID_JSON. */
  lemma FailedReplyOutcomes(promptId: string, context: Json, completion: Completion)
    requires context != JNull
    ensures ProcessPrompt(promptId, Some(context), completion).Returned?
    ensures completion.CallThrew? ==> ProcessPrompt(promptId, Some(context), completion).value.metadata == ProcessingFailed
    ensures completion == Completed(Unparseable) ==> ProcessPrompt(promptId, Some(context), completion).value.metadata == InvalidJson
    ensures completion == Completed(Parsed(JNull)) ==> ProcessPrompt(promptId, Some(context), completion).value.metadata == ProcessingFailed
  {
    assert AgentId != "" by { assert |AgentId| == 22; }
    match completion
    case CallThrew(_) =>
    case Completed(Unparseable) =>
      assert Validated(InvalidJson) == Returned(InvalidJson);
    case Completed(Parsed(v)) =>
  }

  /** Which metadata a parsed reply produces, given a context: a value
      without a truthy `agentId` and `status` gives INCOMPLETE_OUTPUT, and any
      other value comes back unchanged, whatever its status. */
  lemma ParsedReplyOutcomes(promptId: string, context: Json, v: Json)
    requires context != JNull && v != JNull
    ensures var r := ProcessPrompt(promptId, Some(context), Completed(Parsed(v)));
      r.Returned? && r.value.metadata == (if Complete(v) then v else IncompleteOutput)
  {
  }

  /** The error codes are told apart by the `code` property. */
  lemma ErrorCodesDiffer()
    ensures Get(InvalidJson, "code") != Get(IncompleteOutput, "code")
    ensures Get(InvalidJson, "code") != Get(ProcessingFailed, "code")
    ensures Get(IncompleteOutput, "code") != Get(ProcessingFailed, "code")
  {
  }

  /** A reply with a status other than "success" or "error" is passed on. */
  lemma UnknownStatusPassedOn(promptId: string)
    ensures var v := JObj([("agentId", JStr(AgentId)), ("status", JStr("pending"))]);
      ProcessPrompt(promptId, Some(JObj([])), Completed(Parsed(v))) == Returned(AgentResponse(promptId, "", v))
  {
    var ps := [("agentId", JStr(AgentId)), ("status", JStr("pending"))];
    assert ps[0].0 != "status" by { assert |"agentId"| == 7 && |"status"| == 6; }
    assert Lookup(ps[1..], "status") == Some(JStr("pending"));
    assert Get(JObj(ps), "agentId") == Some(JStr(AgentId));
    assert Get(JObj(ps), "status") == Some(JStr("pending"));
  }
}
