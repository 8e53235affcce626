/** `OrchestrationAgent.run` of the prompt-decomposition pipeline: extract
    the intent, derive the truths, then up to five rounds of decomposing and
    deciding (finalize, refine the subtasks, or re-derive the truths), and
    integrate once at the end. Any agent's error ends the run with that error. */
module Refinement {
  import opened JsValues
  import opened AgentReplies
  import opened DecompositionAgents

  const MaxIterations: nat := 5

  /** The model's replies. Each agent's replies are numbered by its own
      calls: `truths(k)` answers the `k`-th `deriveTruths`, `subtasks(i)` and
      `decisions(i)` the decomposition and the decision of round `i`, and
      `agents(j)` the integration's request for subtask `j`. */
  datatype Replies = Replies(intent: Completion, truths: nat -> Completion, subtasks: nat -> Completion,
                             decisions: nat -> Completion, agents: nat -> Completion)

  /** The loop variables of `run`, with the truths the current subtasks were
      decomposed from (`basis`), the decisions taken and the number of
      `deriveTruths` calls made. */
  datatype LoopState = LoopState(iterationCount: nat, finalize: bool, truths: seq<Json>, currentSubtasks: seq<Json>,
                                 basis: seq<Json>, decisions: seq<Decision>, truthsCalls: nat)

  /** The state before the first round. */
  function Initial(truths: seq<Json>): LoopState
  {
    LoopState(0, false, truths, [], [], [], 1)
  }

  /** One round: decompose with the current truths, decide, and act on the
      decision. */
  function Iteration(intent: string, s: LoopState, replies: Replies): (r: Outcome<Status<LoopState>>)
    ensures Succeeds(r) ==> |r.value.value.decisions| == |s.decisions| + 1
    ensures Succeeds(r) ==>
              var next := r.value.value;
              var d := next.decisions[|next.decisions| - 1];
              && next.iterationCount == s.iterationCount + 1
              && next.decisions[..|s.decisions|] == s.decisions
              && next.finalize == (d == Finalize)
              && next.basis == s.truths
              && Decompose(intent, s.truths, replies.subtasks(s.iterationCount)) == Returned(Success(next.currentSubtasks))
              && (d != RefineTruths ==> next.truths == s.truths && next.truthsCalls == s.truthsCalls)
              && (d == RefineTruths ==>
                    next.truthsCalls == s.truthsCalls + 1 &&
                    var t := DeriveTruths(intent, replies.truths(s.truthsCalls)); Succeeds(t) && t.value.value.truths == next.truths)
  {
    var i := s.iterationCount;
    var decomposition := Decompose(intent, s.truths, replies.subtasks(i));
    if !Succeeds(decomposition) then Abort(decomposition)
    else
      var subtasks := decomposition.value.value;
      var decision := Decide(intent, s.truths, subtasks, replies.decisions(i));
      if !Succeeds(decision) then Abort(decision)
      else
        var d := decision.value.value.decision;
        var next := LoopState(i + 1, d == Finalize, s.truths, subtasks, s.truths, s.decisions + [d], s.truthsCalls);
        assert next.decisions[..|s.decisions|] == s.decisions;
        if d != RefineTruths then Returned(Success(next))
        else
          var truths := DeriveTruths(intent, replies.truths(s.truthsCalls));
          if !Succeeds(truths) then Abort(truths)
          else Returned(Success(next.(truths := truths.value.value.truths, truthsCalls := s.truthsCalls + 1)))
  }

  /** `while (!finalize && iterationCount < maxIterations)` from state `s`. */
  function Rounds(intent: string, s: LoopState, replies: Replies): Outcome<Status<LoopState>>
    decreases MaxIterations - s.iterationCount
  {
    if s.finalize || s.iterationCount >= MaxIterations then Returned(Success(s))
    else
      var next := Iteration(intent, s, replies);
      if !Succeeds(next) then next else Rounds(intent, next.value.value, replies)
  }

  /** What `run(userPrompt)` settles to. */
  function RunOutcome(userPrompt: string, replies: Replies): Outcome<Status<Breakdown>>
  {
    var intent := ExtractIntent(userPrompt, replies.intent);
    if !Succeeds(intent) then Abort(intent)
    else
      var truths := DeriveTruths(intent.value.value.intent, replies.truths(0));
      if !Succeeds(truths) then Abort(truths)
      else
        var loop := Rounds(intent.value.value.intent, Initial(truths.value.value.truths), replies);
        if !Succeeds(loop) then Abort(loop)
        else
          var s := loop.value.value;
          Integration(intent.value.value.intent, intent.value.value.parameters, s.truths, s.currentSubtasks, replies.agents)
  }

  /** The number of `refine_truths` decisions. */
  function TruthRefinements(decisions: seq<Decision>): nat
  {
    if decisions == [] then 0
    else TruthRefinements(decisions[..|decisions| - 1]) + (if decisions[|decisions| - 1] == RefineTruths then 1 else 0)
  }

  /** What the loop keeps: one decomposition and one decision per round, at
      most five rounds, one `deriveTruths` call before the loop and one per
      `refine_truths`, and `finalize` set by the last decision only. */
  predicate Tally(s: LoopState)
  {
    && s.iterationCount == |s.decisions| <= MaxIterations
    && s.truthsCalls == 1 + TruthRefinements(s.decisions)
    && (s.finalize <==> s.decisions != [] && s.decisions[|s.decisions| - 1] == Finalize)
    && (forall i :: 0 <= i < |s.decisions| - 1 ==> s.decisions[i] != Finalize)
  }

  /** The truths and subtasks the last round left: the subtasks come from the
      `basis` truths; these are the current truths unless the last decision
      re-derived them. */
  predicate Provenance(intent: string, s: LoopState, replies: Replies)
  {
    s.iterationCount > 0 && |s.decisions| > 0 && s.truthsCalls > 0 ==>
      && Decompose(intent, s.basis, replies.subtasks(s.iterationCount - 1)) == Returned(Success(s.currentSubtasks))
      && (s.decisions[|s.decisions| - 1] != RefineTruths ==> s.basis == s.truths)
      && (s.decisions[|s.decisions| - 1] == RefineTruths ==>
            var t := DeriveTruths(intent, replies.truths(s.truthsCalls - 1)); Succeeds(t) && t.value.value.truths == s.truths)
  }

  /** A round that succeeds keeps the tally and establishes the provenance. */
  lemma TallyStep(intent: string, s: LoopState, replies: Replies)
    requires Tally(s) && !s.finalize && s.iterationCount < MaxIterations
    requires Succeeds(Iteration(intent, s, replies))
    ensures Tally(Iteration(intent, s, replies).value.value)
    ensures Provenance(intent, Iteration(intent, s, replies).value.value, replies)
  {
    var next := Iteration(intent, s, replies).value.value;
    assert next.decisions == s.decisions + [next.decisions[|s.decisions|]];
    assert next.decisions[..|next.decisions| - 1] == s.decisions;
  }

  /** A loop that completes ends with `finalize` or after the fifth round,
      having kept the tally and the provenance. */
  lemma {:induction false} RoundsEnd(intent: string, s: LoopState, replies: Replies)
    requires Tally(s) && Provenance(intent, s, replies)
    ensures Succeeds(Rounds(intent, s, replies)) ==>
              var t := Rounds(intent, s, replies).value.value;
              && Tally(t) && Provenance(intent, t, replies)
              && (t.finalize || t.iterationCount == MaxIterations)
              && s.iterationCount <= t.iterationCount
    decreases MaxIterations - s.iterationCount
  {
    if !(s.finalize || s.iterationCount >= MaxIterations) {
      var next := Iteration(intent, s, replies);
      if Succeeds(next) {
        TallyStep(intent, s, replies);
        RoundsEnd(intent, next.value.value, replies);
      }
    }
  }

  /** A run that gets past the loop integrates exactly once, with the
      subtasks of the last decomposition and the current truths, after at
      most five rounds; it called `deriveTruths` once more than there were
      `refine_truths` decisions, and ran a fifth round unless some round
      decided to finalize. */
  lemma RunIntegratesOnce(userPrompt: string, replies: Replies)
    requires Succeeds(ExtractIntent(userPrompt, replies.intent))
    requires var intent := ExtractIntent(userPrompt, replies.intent).value.value;
      Succeeds(DeriveTruths(intent.intent, replies.truths(0)))
    ensures var intent := ExtractIntent(userPrompt, replies.intent).value.value;
      var initial := Initial(DeriveTruths(intent.intent, replies.truths(0)).value.value.truths);
      var loop := Rounds(intent.intent, initial, replies);
      && (!Succeeds(loop) ==> RunOutcome(userPrompt, replies) == Abort(loop))
      && (Succeeds(loop) ==>
            var s := loop.value.value;
            && RunOutcome(userPrompt, replies) == Integration(intent.intent, intent.parameters, s.truths, s.currentSubtasks, replies.agents)
            && 1 <= s.iterationCount == |s.decisions| <= MaxIterations
            && s.truthsCalls == 1 + TruthRefinements(s.decisions)
            && (s.iterationCount < MaxIterations ==> s.decisions[|s.decisions| - 1] == Finalize)
            && (forall i :: 0 <= i < |s.decisions| - 1 ==> s.decisions[i] != Finalize))
  {
    var intent := ExtractIntent(userPrompt, replies.intent).value.value;
    var initial := Initial(DeriveTruths(intent.intent, replies.truths(0)).value.value.truths);
    RoundsEnd(intent.intent, initial, replies);
  }

  /** After a last `refine_truths`, the integration pairs the new truths with
      subtasks decomposed from the old ones; otherwise the subtasks come from
      the truths it is given. */
  lemma RefinedTruthsPairing(userPrompt: string, replies: Replies)
    requires Succeeds(ExtractIntent(userPrompt, replies.intent))
    requires var intent := ExtractIntent(userPrompt, replies.intent).value.value;
      Succeeds(DeriveTruths(intent.intent, replies.truths(0)))
    ensures var intent := ExtractIntent(userPrompt, replies.intent).value.value;
      var initial := Initial(DeriveTruths(intent.intent, replies.truths(0)).value.value.truths);
      var loop := Rounds(intent.intent, initial, replies);
      Succeeds(loop) ==>
        var s := loop.value.value;
        && 1 <= s.iterationCount && 1 <= s.truthsCalls && 1 <= |s.decisions|
        && Decompose(intent.intent, s.basis, replies.subtasks(s.iterationCount - 1)) == Returned(Success(s.currentSubtasks))
        && (s.decisions[|s.decisions| - 1] != RefineTruths ==> s.basis == s.truths)
        && (s.decisions[|s.decisions| - 1] == RefineTruths ==>
              var t := DeriveTruths(intent.intent, replies.truths(s.truthsCalls - 1)); Succeeds(t) && t.value.value.truths == s.truths)
  {
    var intent := ExtractIntent(userPrompt, replies.intent).value.value;
    var initial := Initial(DeriveTruths(intent.intent, replies.truths(0)).value.value.truths);
    RoundsEnd(intent.intent, initial, replies);
    var loop := Rounds(intent.intent, initial, replies);
    if Succeeds(loop) {
      var s := loop.value.value;
      assert Tally(s) && Provenance(intent.intent, s, replies);
      assert 1 <= s.iterationCount && 1 <= s.truthsCalls && 1 <= |s.decisions|;
    }
  }

  /** Re-derived truths that come back empty make the integration refuse. */
  lemma EmptyTruthsRefused(userPrompt: string, replies: Replies)
    requires Succeeds(ExtractIntent(userPrompt, replies.intent))
    requires var intent := ExtractIntent(userPrompt, replies.intent).value.value;
      Succeeds(DeriveTruths(intent.intent, replies.truths(0)))
    ensures var intent := ExtractIntent(userPrompt, replies.intent).value.value;
      var initial := Initial(DeriveTruths(intent.intent, replies.truths(0)).value.value.truths);
      var loop := Rounds(intent.intent, initial, replies);
      Succeeds(loop) && loop.value.value.truths == [] ==> RunOutcome(userPrompt, replies) == Returned(Failure(MissingComponents))
  {
    RunIntegratesOnce(userPrompt, replies);
  }

  /** An error from the intent extraction or the first derivation of truths
      is the run's result, whatever the later replies would have been. */
  lemma EarlyErrorStops(userPrompt: string, replies: Replies, other: Replies)
    requires other.intent == replies.intent
    ensures !Succeeds(ExtractIntent(userPrompt, replies.intent)) ==>
              RunOutcome(userPrompt, replies) == RunOutcome(userPrompt, other) == Abort(ExtractIntent(userPrompt, replies.intent))
    ensures Succeeds(ExtractIntent(userPrompt, replies.intent)) && other.truths(0) == replies.truths(0) ==>
              var truths := DeriveTruths(ExtractIntent(userPrompt, replies.intent).value.value.intent, replies.truths(0));
              !Succeeds(truths) ==> RunOutcome(userPrompt, replies) == RunOutcome(userPrompt, other) == Abort(truths)
  {
  }

  /** The body of the loop of `run`: one round from the loop variables `s`,
      with the source's early returns. It is a method of its own so that the
      loop's invariant is carried over one call whose result is pinned to
      `Iteration`, rather than over each of the round's exits. */
  method Round(intent: string, s: LoopState, replies: Replies) returns (r: Outcome<Status<LoopState>>)
    ensures r == Iteration(intent, s, replies)
  {
    var iterationCount := s.iterationCount + 1;
    var decompositionResult := Decompose(intent, s.truths, replies.subtasks(s.iterationCount));
    if !Succeeds(decompositionResult) {
      return Abort(decompositionResult);
    }
    var currentSubtasks := decompositionResult.value.value;
    var decisionResult := Decide(intent, s.truths, currentSubtasks, replies.decisions(s.iterationCount));
    if !Succeeds(decisionResult) {
      return Abort(decisionResult);
    }
    var decision := decisionResult.value.value.decision;
    var finalize := false;
    var truths := s.truths;
    var truthsCalls := s.truthsCalls;
    if decision == Finalize {
      finalize := true;
    } else if decision == RefineSubtasks {
    } else {
      var truthsResult := DeriveTruths(intent, replies.truths(truthsCalls));
      truthsCalls := truthsCalls + 1;
      if !Succeeds(truthsResult) {
        return Abort(truthsResult);
      }
      truths := truthsResult.value.value.truths;
    }
    r := Returned(Success(LoopState(iterationCount, finalize, truths, currentSubtasks, s.truths, s.decisions + [decision], truthsCalls)));
  }

  /** `run(userPrompt)`. The loop variables are kept in one `LoopState`. */
  method Run(userPrompt: string, replies: Replies) returns (r: Outcome<Status<Breakdown>>)
    ensures r == RunOutcome(userPrompt, replies)
  {
    var intentResult := ExtractIntent(userPrompt, replies.intent);
    if !Succeeds(intentResult) {
      return Abort(intentResult);
    }
    var intent := intentResult.value.value;
    var truthsResult := DeriveTruths(intent.intent, replies.truths(0));
    if !Succeeds(truthsResult) {
      return Abort(truthsResult);
    }
    var state := Initial(truthsResult.value.value.truths);
    RunIntegratesOnce(userPrompt, replies);
    ghost var loop := Rounds(intent.intent, state, replies);
    while !state.finalize && state.iterationCount < MaxIterations
      invariant Rounds(intent.intent, state, replies) == loop
      decreases MaxIterations - state.iterationCount
    {
      var next := Round(intent.intent, state, replies);
      if !Succeeds(next) {
        return Abort(next);
      }
      state := next.value.value;
    }
    var requests;
    r, requests := Integrate(intent.intent, intent.parameters, state.truths, state.currentSubtasks, replies.agents);
  }
}
