/** The five leaf agents of the prompt-decomposition pipeline. Each guards
    its inputs, asks the model once (the integration agent once per subtask)
    and checks the shape of the parsed reply. The model call sits outside the
    agents' `try`, so a call that throws makes the agent throw; a reply that
    does not parse is caught and reported. */
module DecompositionAgents {
  import opened JsValues
  import opened AgentReplies

  /** `{ status: "success", ... }` carrying the agent's result, or
      `{ status: "error", errorMessage }`. */
  datatype Status<+T> = Success(value: T) | Failure(errorMessage: string)

  /** The intent extraction's result. */
  datatype Intent = Intent(intent: string, parameters: Json)

  /** The fundamental truths and the relationships between them. */
  datatype Truths = Truths(truths: seq<Json>, relationships: seq<Json>)

  /** The three decisions the refinement step can take. */
  datatype Decision = Finalize | RefineSubtasks | RefineTruths

  datatype Verdict = Verdict(decision: Decision, notes: Option<Json>)

  /** The integration's `finalBreakdown`. */
  datatype Breakdown = Breakdown(intent: string, parameters: Json, fundamentalTruths: seq<Json>,
                                 subtasks: seq<Json>, agents: seq<Json>)

  const EmptyPrompt: string := "Empty prompt"
  const NoIntentFound: string := "No 'intent' found in the response."
  const IntentUnparsed: string := "Failed to parse intent JSON."
  const NoIntent: string := "No intent provided"
  const TruthsMissing: string := "Missing truths or relationships in response."
  const TruthsUnparsed: string := "Failed to parse truths and relationships."
  const IntentOrTruthsMissing: string := "Intent or truths missing."
  const NoSubtaskArray: string := "No array found for subtasks."
  const SubtasksUnparsed: string := "Failed to parse subtasks."
  const IntentOrSubtasksMissing: string := "Missing intent or subtasks."
  const NoValidDecision: string := "No valid decision found."
  const DecisionUnparsed: string := "Failed to parse decision."
  const MissingComponents: string := "Missing key components for integration."

  /** The agent resolved with a success. */
  predicate Succeeds<T>(o: Outcome<Status<T>>)
  {
    o.Returned? && o.value.Success?
  }

  /** Passing on an agent's error, as the orchestration does: a thrown error
      propagates, an error result is returned with its message. */
  function Abort<T, U>(o: Outcome<Status<T>>): (r: Outcome<Status<U>>)
    requires !Succeeds(o)
    ensures !Succeeds(r)
    ensures o.Threw? ==> r == Threw(o.exception)
    ensures o.Returned? ==> r == Returned(Failure(o.value.errorMessage))
  {
    match o
    case Threw(e) => Threw(e)
    case Returned(s) => Returned(Failure(s.errorMessage))
  }

  // ---------------------------------------------------------------------
  // IntentExtractionAgent.processPrompt

  /** `processPrompt(userPrompt)` with the model's reply to it. */
  function ExtractIntent(userPrompt: string, completion: Completion): (r: Outcome<Status<Intent>>)
    ensures Trim(userPrompt) == [] ==> r == Returned(Failure(EmptyPrompt))
    ensures Trim(userPrompt) != [] && completion.CallThrew? ==> r == Threw(completion.error)
    ensures Trim(userPrompt) != [] && completion.Completed? ==> r.Returned?
    ensures Trim(userPrompt) != [] && completion.Completed? ==>
              (r.value == Failure(IntentUnparsed) <==> completion.reply == Unparseable || completion.reply == Parsed(JNull))
    ensures Succeeds(r) <==>
              Trim(userPrompt) != [] && completion.Completed? && completion.reply.Parsed? &&
              var intent := Get(completion.reply.value, "intent"); intent.Some? && intent.value.JStr?
    ensures Succeeds(r) ==>
              && Get(completion.reply.value, "intent") == Some(JStr(r.value.value.intent))
              && Truthy(r.value.value.parameters)
              && (TruthyOpt(Get(completion.reply.value, "parameters")) ==> r.value.value.parameters == Get(completion.reply.value, "parameters").value)
  {
    if Trim(userPrompt) == [] then Returned(Failure(EmptyPrompt))
    else
      match completion
      case CallThrew(e) => Threw(e)
      case Completed(Unparseable) => Returned(Failure(IntentUnparsed))
      case Completed(Parsed(data)) =>
        match Member(Some(data), "intent")
        case Threw(_) => Returned(Failure(IntentUnparsed))
        case Returned(intent) =>
          if intent.Some? && intent.value.JStr? then
            var parameters := Get(data, "parameters");
            Returned(Success(Intent(intent.value.s, if TruthyOpt(parameters) then parameters.value else JObj([]))))
          else Returned(Failure(NoIntentFound))
  }

  /** A blank prompt is refused whatever the model would have said. */
  lemma BlankPromptNotSent(userPrompt: string, c1: Completion, c2: Completion)
    requires Trim(userPrompt) == []
    ensures ExtractIntent(userPrompt, c1) == ExtractIntent(userPrompt, c2) == Returned(Failure(EmptyPrompt))
  {
  }

  // ---------------------------------------------------------------------
  // FundamentalTruthsAgent.deriveTruths

  /** Both lists of the reply are arrays. */
  predicate HasTruths(data: Json)
  {
    var truths := Get(data, "truths");
    var relationships := Get(data, "relationships");
    truths.Some? && truths.value.JArr? && relationships.Some? && relationships.value.JArr?
  }

  /** `deriveTruths(intent)` with the model's reply to it. */
  function DeriveTruths(intent: string, completion: Completion): (r: Outcome<Status<Truths>>)
    ensures intent == "" ==> r == Returned(Failure(NoIntent))
    ensures intent != "" && completion.CallThrew? ==> r == Threw(completion.error)
    ensures intent != "" && completion == Completed(Unparseable) ==> r == Returned(Failure(TruthsUnparsed))
    ensures intent != "" && completion.Completed? && completion.reply.Parsed? ==>
              && (Succeeds(r) <==> HasTruths(completion.reply.value))
              && (!Succeeds(r) ==> r == Returned(Failure(TruthsMissing)))
    ensures Succeeds(r) ==>
              && Get(completion.reply.value, "truths") == Some(JArr(r.value.value.truths))
              && Get(completion.reply.value, "relationships") == Some(JArr(r.value.value.relationships))
  {
    if intent == "" then Returned(Failure(NoIntent))
    else
      match completion
      case CallThrew(e) => Threw(e)
      case Completed(Unparseable) => Returned(Failure(TruthsUnparsed))
      case Completed(Parsed(data)) =>
        if Truthy(data) && HasTruths(data) then
          Returned(Success(Truths(Get(data, "truths").value.items, Get(data, "relationships").value.items)))
        else Returned(Failure(TruthsMissing))
  }

  // ---------------------------------------------------------------------
  // DecompositionAgent.decompose

  /** `decompose(intent, truths)` with the model's reply to it. */
  function Decompose(intent: string, truths: seq<Json>, completion: Completion): (r: Outcome<Status<seq<Json>>>)
    ensures intent == "" || truths == [] ==> r == Returned(Failure(IntentOrTruthsMissing))
    ensures intent != "" && truths != [] ==>
              && (completion.CallThrew? ==> r == Threw(completion.error))
              && (completion == Completed(Unparseable) ==> r == Returned(Failure(SubtasksUnparsed)))
              && (completion.Completed? && completion.reply.Parsed? ==>
                    r == if completion.reply.value.JArr? then Returned(Success(completion.reply.value.items))
                         else Returned(Failure(NoSubtaskArray)))
  {
    if intent == "" || |truths| == 0 then Returned(Failure(IntentOrTruthsMissing))
    else
      match completion
      case CallThrew(e) => Threw(e)
      case Completed(Unparseable) => Returned(Failure(SubtasksUnparsed))
      case Completed(Parsed(subtasks)) =>
        if subtasks.JArr? then Returned(Success(subtasks.items)) else Returned(Failure(NoSubtaskArray))
  }

  // ---------------------------------------------------------------------
  // RefinementDecisionAgent.decide

  /** The decision a reply's `decision` names, if it names one of the three. */
  function DecisionNamed(v: Option<Json>): (d: Option<Decision>)
    ensures d == Some(Finalize) <==> v == Some(JStr("finalize"))
    ensures d == Some(RefineSubtasks) <==> v == Some(JStr("refine_subtasks"))
    ensures d == Some(RefineTruths) <==> v == Some(JStr("refine_truths"))
  {
    if v == Some(JStr("finalize")) then Some(Finalize)
    else if v == Some(JStr("refine_subtasks")) then Some(RefineSubtasks)
    else if v == Some(JStr("refine_truths")) then Some(RefineTruths)
    else None
  }

  /** `decide(intent, truths, subtasks)` with the model's reply to it. The
      truths only go into the prompt. */
  function Decide(intent: string, truths: seq<Json>, subtasks: seq<Json>, completion: Completion): (r: Outcome<Status<Verdict>>)
    ensures intent == "" || subtasks == [] ==> r == Returned(Failure(IntentOrSubtasksMissing))
    ensures intent != "" && subtasks != [] ==>
              && (completion.CallThrew? ==> r == Threw(completion.error))
              && (completion == Completed(Unparseable) || completion == Completed(Parsed(JNull)) ==> r == Returned(Failure(DecisionUnparsed)))
    ensures intent != "" && subtasks != [] && completion.Completed? && completion.reply.Parsed? && completion.reply.value != JNull ==>
              var data := completion.reply.value;
              && (Succeeds(r) <==> DecisionNamed(Get(data, "decision")).Some?)
              && (Succeeds(r) ==> r.value.value == Verdict(DecisionNamed(Get(data, "decision")).value, Get(data, "notes")))
              && (!Succeeds(r) ==> r == Returned(Failure(NoValidDecision)))
  {
    if intent == "" || |subtasks| == 0 then Returned(Failure(IntentOrSubtasksMissing))
    else
      match completion
      case CallThrew(e) => Threw(e)
      case Completed(Unparseable) => Returned(Failure(DecisionUnparsed))
      case Completed(Parsed(data)) =>
        match Member(Some(data), "decision")
        case Threw(_) => Returned(Failure(DecisionUnparsed))
        case Returned(decision) =>
          match DecisionNamed(decision)
          case Some(d) => Returned(Success(Verdict(d, Get(data, "notes"))))
          case None => Returned(Failure(NoValidDecision))
  }

  /** Empty truths are not refused: the decision does not depend on them. */
  lemma DecideIgnoresTruths(intent: string, truths: seq<Json>, subtasks: seq<Json>, completion: Completion)
    ensures Decide(intent, truths, subtasks, completion) == Decide(intent, [], subtasks, completion)
  {
  }

  // ---------------------------------------------------------------------
  // IntegrationAgent.integrate

  /** The error of the first subtask whose agent description does not parse. */
  function ParseFailure(task: Json): string
  {
    "Failed to parse agent JSON for subtask \"" + ToJsString(task) + "\""
  }

  /** The reply is a parsed value. */
  predicate Parses(c: Completion)
  {
    c.Completed? && c.reply.Parsed?
  }

  /** The request for `task` gives a description: the subtask converts to
      text for the prompt's `"${task}"`, and the reply to the request parses. */
  predicate Usable(task: Json, c: Completion)
  {
    !ConversionThrows(task) && Parses(c)
  }

  /** How the loop ends at `task`: a subtask that cannot be converted to text
      throws a TypeError while the prompt is built, before any request; a
      request that throws is rethrown; an unparseable reply is reported. */
  function Stop(task: Json, c: Completion): Outcome<Status<seq<Json>>>
    requires !Usable(task, c)
  {
    if ConversionThrows(task) then Threw(TypeError)
    else if c.CallThrew? then Threw(c.error)
    else Returned(Failure(ParseFailure(task)))
  }

  /** The loop over `subtasks[..n]`: the parsed agent descriptions, or how the
      first bad subtask or reply ended it. The request for subtask `i` gets
      `replies(i)`. */
  function Described(subtasks: seq<Json>, replies: nat -> Completion, n: nat): Outcome<Status<seq<Json>>>
    requires n <= |subtasks|
  {
    if n == 0 then Returned(Success([]))
    else
      var before := Described(subtasks, replies, n - 1);
      if !Succeeds(before) then before
      else if Usable(subtasks[n - 1], replies(n - 1)) then Returned(Success(before.value.value + [replies(n - 1).reply.value]))
      else Stop(subtasks[n - 1], replies(n - 1))
  }

  /** `integrate(intent, parameters, truths, subtasks)` with the model's replies
      to its per-subtask requests. */
  function Integration(intent: string, parameters: Json, truths: seq<Json>, subtasks: seq<Json>,
                       replies: nat -> Completion): Outcome<Status<Breakdown>>
  {
    if intent == "" || |truths| == 0 || |subtasks| == 0 then Returned(Failure(MissingComponents))
    else
      var agents := Described(subtasks, replies, |subtasks|);
      if !Succeeds(agents) then Abort(agents)
      else Returned(Success(Breakdown(intent, parameters, truths, subtasks, agents.value.value)))
  }

  /** The loop succeeds exactly when every subtask converts and every reply
      parses, and then holds one description per subtask: the parse of that
      subtask's reply. */
  lemma {:induction false} DescribedAll(subtasks: seq<Json>, replies: nat -> Completion, n: nat)
    requires n <= |subtasks|
    ensures Succeeds(Described(subtasks, replies, n)) <==> forall i :: 0 <= i < n ==> Usable(subtasks[i], replies(i))
    ensures Succeeds(Described(subtasks, replies, n)) ==>
              var agents := Described(subtasks, replies, n).value.value;
              |agents| == n && forall i :: 0 <= i < n ==> agents[i] == replies(i).reply.value
  {
    if n > 0 {
      DescribedAll(subtasks, replies, n - 1);
    }
  }

  /** Otherwise the first bad subtask or reply decides the result, and the
      replies after it are never asked for. */
  lemma {:induction false} DescribedStops(subtasks: seq<Json>, replies: nat -> Completion, n: nat, i: nat)
    requires i < n <= |subtasks|
    requires forall j :: 0 <= j < i ==> Usable(subtasks[j], replies(j))
    requires !Usable(subtasks[i], replies(i))
    ensures Described(subtasks, replies, n) == Stop(subtasks[i], replies(i))
  {
    if n - 1 > i {
      DescribedStops(subtasks, replies, n - 1, i);
    } else {
      DescribedAll(subtasks, replies, i);
    }
  }

  /** The success of the integration echoes its inputs and pairs each subtask
      with the parse of its reply. Otherwise the first bad subtask decides:
      one that cannot be converted to text throws a TypeError, a request that
      throws is rethrown, and an unparseable reply names its subtask. */
  lemma IntegrationOutcomes(intent: string, parameters: Json, truths: seq<Json>, subtasks: seq<Json>,
                            replies: nat -> Completion)
    requires intent != "" && truths != [] && subtasks != []
    ensures Succeeds(Integration(intent, parameters, truths, subtasks, replies)) <==>
              forall i :: 0 <= i < |subtasks| ==> Usable(subtasks[i], replies(i))
    ensures Succeeds(Integration(intent, parameters, truths, subtasks, replies)) ==>
              var b := Integration(intent, parameters, truths, subtasks, replies).value.value;
              && b.intent == intent && b.parameters == parameters && b.fundamentalTruths == truths && b.subtasks == subtasks
              && |b.agents| == |subtasks| && forall i :: 0 <= i < |subtasks| ==> b.agents[i] == replies(i).reply.value
    ensures forall i :: 0 <= i < |subtasks| && (forall j :: 0 <= j < i ==> Usable(subtasks[j], replies(j))) ==>
              && (ConversionThrows(subtasks[i]) ==>
                    Integration(intent, parameters, truths, subtasks, replies) == Threw(TypeError))
              && (!ConversionThrows(subtasks[i]) && replies(i).CallThrew? ==>
                    Integration(intent, parameters, truths, subtasks, replies) == Threw(replies(i).error))
              && (!ConversionThrows(subtasks[i]) && replies(i) == Completed(Unparseable) ==>
                    Integration(intent, parameters, truths, subtasks, replies) == Returned(Failure(ParseFailure(subtasks[i]))))
  {
    DescribedAll(subtasks, replies, |subtasks|);
    forall i | 0 <= i < |subtasks| && (forall j :: 0 <= j < i ==> Usable(subtasks[j], replies(j))) && !Usable(subtasks[i], replies(i))
      ensures Described(subtasks, replies, |subtasks|) == Stop(subtasks[i], replies(i))
    {
      DescribedStops(subtasks, replies, |subtasks|, i);
    }
  }

  /** `integrate`: one model request per subtask, in subtask order, each
      built after its subtask is converted to text, stopping at the first
      subtask that cannot be converted or reply that does not parse.
      `requests` is the number of requests made. */
  method Integrate(intent: string, parameters: Json, truths: seq<Json>, subtasks: seq<Json>,
                   replies: nat -> Completion)
    returns (r: Outcome<Status<Breakdown>>, requests: nat)
    ensures r == Integration(intent, parameters, truths, subtasks, replies)
    ensures intent == "" || truths == [] || subtasks == [] ==> requests == 0
    ensures intent != "" && truths != [] && subtasks != [] ==>
              && requests <= |subtasks|
              && (forall j :: 0 <= j < requests ==> !ConversionThrows(subtasks[j]))
              && (forall j :: 0 <= j < requests - 1 ==> Parses(replies(j)))
              && (Succeeds(r) ==> requests == |subtasks| && Parses(replies(requests - 1)))
              && (!Succeeds(r) ==>
                    || (requests < |subtasks| && ConversionThrows(subtasks[requests]) && r == Threw(TypeError)
                        && forall j :: 0 <= j < requests ==> Parses(replies(j)))
                    || (1 <= requests && !Parses(replies(requests - 1))))
  {
    if intent == "" || |truths| == 0 || |subtasks| == 0 {
      return Returned(Failure(MissingComponents)), 0;
    }
    var agents: seq<Json> := [];
    requests := 0;
    for i := 0 to |subtasks|
      invariant requests == i
      invariant Described(subtasks, replies, i) == Returned(Success(agents))
      invariant forall j :: 0 <= j < i ==> Usable(subtasks[j], replies(j))
    {
      var task := subtasks[i];
      DescribedAll(subtasks, replies, i);
      if ConversionThrows(task) {
        DescribedStops(subtasks, replies, |subtasks|, i);
        return Threw(TypeError), requests;
      }
      var response := replies(i);
      requests := requests + 1;
      if !Parses(response) {
        DescribedStops(subtasks, replies, |subtasks|, i);
        return Abort(Stop(task, response)), requests;
      }
      agents := agents + [response.reply.value];
    }
    r := Returned(Success(Breakdown(intent, parameters, truths, subtasks, agents)));
  }
}
