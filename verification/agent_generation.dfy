/** The bookkeeping of `handleAgentGeneration`: the agent plan is checked,
    every planned agent's configuration reply is parsed and checked for the
    ten required fields, and the configuration list gains an entry for each
    configured agent, for the synthesis agent and for the orchestrator, each
    only when no entry has its id yet. */
module AgentGeneration {
  import opened JsValues
  import opened AgentReplies

  const NoAgentsMessage: string := "No agents were extracted from the user input."
  const SynthesisId: string := "synthesis-agent"
  const SynthesisClass: string := "SynthesisAgent"
  const OrchestratorId: string := "orchestrator-agent"
  const OrchestratorClass: string := "OrchestratorAgent"

  /** The fields a configuration reply must have, in the order they are checked. */
  const RequiredFields: seq<string> := ["className", "id", "name", "instructions", "primaryAgents",
                                        "expectedOutput", "outputFormat", "dependencies", "tools", "toolVariables"]

  /** An `agentsConfig` entry. */
  datatype ConfigEntry = ConfigEntry(name: Json, path: string, id: Json, dependencies: Json)

  /** The configuration so far and the ids of the agents configured, in
      processing order (`primaryAgentDetails`). */
  datatype Progress = Progress(agentsConfig: seq<ConfigEntry>, ids: seq<Json>)

  /** The final configuration list, the orchestrator's `primaryAgentIds` and
      the ids of `agentsCreated`. */
  datatype Generated = Generated(agentsConfig: seq<ConfigEntry>, primaryAgentIds: seq<Json>, createdIds: seq<Json>)

  /** `a === b` for values of which no two objects or arrays are the same
      reference: every object and array compared here is freshly parsed. */
  predicate StrictEquals(a: Json, b: Json)
  {
    match (a, b)
    case (JNull, JNull) => true
    case (JBool(x), JBool(y)) => x == y
    case (JNum(x), JNum(y)) => x == y
    case (JStr(x), JStr(y)) => x == y
    case _ => false
  }

  /** `agentsConfig.some((agent) => agent.id === id)`. */
  predicate HasId(config: seq<ConfigEntry>, id: Json)
  {
    config != [] && (HasId(config[..|config| - 1], id) || StrictEquals(config[|config| - 1].id, id))
  }

  /** Some entry has the id exactly when one of the entries, at some index, has it. */
  lemma {:induction false} HasIdMeans(config: seq<ConfigEntry>, id: Json)
    ensures HasId(config, id) <==> exists k :: 0 <= k < |config| && StrictEquals(config[k].id, id)
  {
    if config != [] {
      var n := |config| - 1;
      HasIdMeans(config[..n], id);
      if HasId(config[..n], id) {
        var k :| 0 <= k < n && StrictEquals(config[..n][k].id, id);
        assert config[k] == config[..n][k];
      }
      if exists k :: 0 <= k < |config| && StrictEquals(config[k].id, id) {
        var k :| 0 <= k < |config| && StrictEquals(config[k].id, id);
        if k < n {
          assert config[..n][k] == config[k];
        }
      }
    }
  }

  /** An id present stays present when an entry is pushed. */
  lemma HasIdPush(config: seq<ConfigEntry>, entry: ConfigEntry, id: Json)
    requires HasId(config, id)
    ensures HasId(config + [entry], id)
  {
    assert (config + [entry])[..|config|] == config;
  }

  /** Pushing `entry` unless an entry already has its id. */
  function AppendIfAbsent(config: seq<ConfigEntry>, entry: ConfigEntry): seq<ConfigEntry>
  {
    if HasId(config, entry.id) then config else config + [entry]
  }

  /** The entry written for a configured agent. */
  function EntryFor(className: Json, id: Json, dependencies: Json): ConfigEntry
  {
    ConfigEntry(className, "./agents/" + ToJsString(className) + ".js", id, dependencies)
  }

  /** Appending keeps the list as a prefix; an entry is added exactly when no
      entry had its id, and then the list has one. */
  lemma AppendIfAbsentKeeps(config: seq<ConfigEntry>, entry: ConfigEntry)
    ensures var r := AppendIfAbsent(config, entry);
      && r[..|config|] == config
      && (|r| == |config| + 1 <==> !HasId(config, entry.id))
      && (|r| == |config| + 1 ==> r[|config|] == entry)
      && (StrictEquals(entry.id, entry.id) ==> HasId(r, entry.id))
  {
    var r := AppendIfAbsent(config, entry);
    if !HasId(config, entry.id) {
      assert r[..|config|] == config;
    }
  }

  // ---------------------------------------------------------------------
  // The plan

  /** `agents.length`: the length of an array or a string, an object's own
      `length` property, nothing for other values. */
  function Length(v: Json): Option<Json>
  {
    match v
    case JArr(items) => Some(JNum(|items|))
    case JStr(s) => Some(JNum(|s|))
    case JObj(_) => Get(v, "length")
    case _ => None
  }

  /** The agents of the plan: `if (!agents || agents.length === 0)` throws,
      and `for (const agent of agents)` iterates an array's elements or a
      string's characters and throws a TypeError on any other value. */
  function PlanAgents(plan: Option<Json>): (r: Outcome<seq<Json>>)
    ensures r == Threw(Error(NoAgentsMessage)) <==> !TruthyOpt(plan) || Length(plan.value) == Some(JNum(0))
    ensures r.Threw? && r != Threw(Error(NoAgentsMessage)) ==> r == Threw(TypeError) && !plan.value.JArr? && !plan.value.JStr?
    ensures r.Returned? ==> r.value != []
    ensures forall items :: plan == Some(JArr(items)) && items != [] ==> r == Returned(items)
  {
    if !TruthyOpt(plan) || Length(plan.value) == Some(JNum(0)) then Threw(Error(NoAgentsMessage))
    else
      match plan.value
      case JArr(items) => Returned(items)
      case JStr(s) => Returned(Characters(s))
      case _ => Threw(TypeError)
  }

  /** The one-character strings a string iterates over. */
  function Characters(s: string): (r: seq<Json>)
    ensures |r| == |s| && forall i :: 0 <= i < |s| ==> r[i] == JStr([s[i]])
  {
    if s == [] then [] else [JStr([s[0]])] + Characters(s[1..])
  }

  // ---------------------------------------------------------------------
  // The configuration loop

  /** `requiredFields.filter((field) => !(field in configVariables))` for an
      object or array. */
  function MissingFields(v: Json, fields: seq<string>): seq<string>
  {
    if fields == [] then []
    else
      var n := |fields| - 1;
      MissingFields(v, fields[..n]) + (if Get(v, fields[n]).None? then [fields[n]] else [])
  }

  /** A field is missing exactly when it is required and absent. */
  lemma {:induction false} MissingFieldsMembers(v: Json, fields: seq<string>)
    ensures forall f :: f in MissingFields(v, fields) <==> f in fields && Get(v, f).None?
  {
    if fields != [] {
      var n := |fields| - 1;
      MissingFieldsMembers(v, fields[..n]);
      assert fields == fields[..n] + [fields[n]];
    }
  }

  /** The value of a field known to be present. */
  function Field(v: Json, key: string): Json
  {
    match Get(v, key)
    case Some(x) => x
    case None => JNull
  }

  /** The filter keeps the order of the fields: the missing fields of a
      concatenation are those of its parts, in turn. */
  lemma {:induction false} MissingFieldsInOrder(v: Json, a: seq<string>, b: seq<string>)
    ensures MissingFields(v, a + b) == MissingFields(v, a) + MissingFields(v, b)
  {
    if b == [] {
      assert a + b == a;
    } else {
      var n := |b| - 1;
      MissingFieldsInOrder(v, a, b[..n]);
      assert (a + b)[..|a + b| - 1] == a + b[..n];
    }
  }

  /** The entry written for a configured agent's reply. */
  function AcceptedEntry(v: Json): ConfigEntry
  {
    EntryFor(Field(v, "className"), Field(v, "id"), Field(v, "dependencies"))
  }

  /** No required field is missing. */
  predicate AllFields(v: Json)
  {
    MissingFields(v, RequiredFields) == []
  }

  /** `tools && tools.includes("apiTool")` in the generated agent's template
      throws: a truthy value other than an array or a string has no `includes`
      method to call. */
  predicate ToolsThrow(tools: Json)
  {
    Truthy(tools) && !tools.JArr? && !tools.JStr?
  }

  /** Preparing and generating the agent's code from a reply that names
      every field throws a TypeError: `instructions += …` converts the
      instructions to text, the template reads `tools` and inserts the class
      name, the name and the id as text. */
  predicate GeneratorThrows(v: Json)
  {
    || ConversionThrows(Field(v, "instructions"))
    || ToolsThrow(Field(v, "tools"))
    || ConversionThrows(Field(v, "className"))
    || ConversionThrows(Field(v, "name"))
    || ConversionThrows(Field(v, "id"))
  }

  /** A reply that names every required field, and from which the code
      generator can write the agent, is configured. */
  predicate Accepted(c: Completion)
  {
    c.Completed? && c.reply.Parsed? && IsObject(c.reply.value) && AllFields(c.reply.value)
      && !GeneratorThrows(c.reply.value)
  }

  /** A reply that ends the whole generation: the model call throws, the
      reply parses to a value `in` cannot be applied to, or it names every
      field but the code generator cannot write the agent from it. */
  predicate Throws(c: Completion)
  {
    || c.CallThrew?
    || (c.Completed? && c.reply.Parsed? && !IsObject(c.reply.value))
    || (c.Completed? && c.reply.Parsed? && IsObject(c.reply.value) && AllFields(c.reply.value)
        && GeneratorThrows(c.reply.value))
  }

  /** The exception such a reply throws. */
  function Thrown(c: Completion): Exception
    requires Throws(c)
  {
    if c.CallThrew? then c.error else TypeError
  }

  /** One pass of the loop: skip an unparseable reply or one that lacks a
      field, otherwise generate the agent's code (which converts the
      instructions, class name, name and id to text and reads `tools`), then
      record the agent and append its entry if absent. */
  function Step(p: Progress, c: Completion): Outcome<Progress>
  {
    match c
    case CallThrew(e) => Threw(e)
    case Completed(Unparseable) => Returned(p)
    case Completed(Parsed(v)) =>
      if !IsObject(v) then Threw(TypeError)
      else if !AllFields(v) then Returned(p)
      else if GeneratorThrows(v) then Threw(TypeError)
      else
        Returned(Progress(AppendIfAbsent(p.agentsConfig, AcceptedEntry(v)), p.ids + [Field(v, "id")]))
  }

  /** A pass throws exactly when the reply throws, and a reply that is
      neither thrown nor accepted is skipped. */
  lemma StepOutcomes(p: Progress, c: Completion)
    ensures Step(p, c).Threw? <==> Throws(c)
    ensures Throws(c) ==> Step(p, c) == Threw(Thrown(c))
    ensures !Throws(c) && !Accepted(c) ==> Step(p, c) == Returned(p)
  {
  }

  /** The loop over the first `n` agents, agent `i` answered by `replies(i)`. */
  function Configured(initial: seq<ConfigEntry>, replies: nat -> Completion, n: nat): Outcome<Progress>
  {
    if n == 0 then Returned(Progress(initial, []))
    else
      match Configured(initial, replies, n - 1)
      case Threw(e) => Threw(e)
      case Returned(p) => Step(p, replies(n - 1))
  }

  /** The ids of the accepted replies among the first `n`, in order. */
  function AcceptedIds(replies: nat -> Completion, n: nat): seq<Json>
  {
    if n == 0 then []
    else AcceptedIds(replies, n - 1) + (if Accepted(replies(n - 1)) then [Field(replies(n - 1).reply.value, "id")] else [])
  }

  /** The first of the first `n` replies that throws, if any. */
  function FirstThrow(replies: nat -> Completion, n: nat): (r: Option<nat>)
    ensures r.None? <==> forall i :: 0 <= i < n ==> !Throws(replies(i))
    ensures r.Some? ==> r.value < n && Throws(replies(r.value)) && forall j :: 0 <= j < r.value ==> !Throws(replies(j))
  {
    if n == 0 then None
    else
      var r := FirstThrow(replies, n - 1);
      if r.Some? then r else if Throws(replies(n - 1)) then Some(n - 1) else None
  }

  /** The loop throws exactly when some reply throws; the first one decides
      the exception. */
  lemma {:induction false} ConfiguredThrows(initial: seq<ConfigEntry>, replies: nat -> Completion, n: nat)
    ensures Configured(initial, replies, n).Threw? <==> FirstThrow(replies, n).Some?
    ensures FirstThrow(replies, n).Some? ==> Configured(initial, replies, n) == Threw(Thrown(replies(FirstThrow(replies, n).value)))
  {
    if n > 0 {
      ConfiguredThrows(initial, replies, n - 1);
      if Configured(initial, replies, n - 1).Returned? {
        StepOutcomes(Configured(initial, replies, n - 1).value, replies(n - 1));
      }
    }
  }

  /** Otherwise the configured ids are those of the accepted replies, in
      order: a skipped agent leaves no trace and the loop goes on. */
  lemma {:induction false} ConfiguredIds(initial: seq<ConfigEntry>, replies: nat -> Completion, n: nat)
    ensures Configured(initial, replies, n).Returned? ==> Configured(initial, replies, n).value.ids == AcceptedIds(replies, n)
  {
    if n > 0 {
      ConfiguredIds(initial, replies, n - 1);
      var before := Configured(initial, replies, n - 1);
      if before.Returned? {
        StepIds(before.value, replies(n - 1));
      }
    }
  }

  /** One pass records the id of an accepted reply and no other. */
  lemma StepIds(p: Progress, c: Completion)
    ensures Step(p, c).Returned? ==>
              Step(p, c).value.ids == p.ids + (if Accepted(c) then [Field(c.reply.value, "id")] else [])
  {
  }

  /** The entries of the list before the loop are kept, in place. */
  predicate PrefixKept(initial: seq<ConfigEntry>, config: seq<ConfigEntry>)
  {
    |initial| <= |config| && config[..|initial|] == initial
  }

  /** No entry appended after `initial` repeats the id of an entry before it. */
  predicate AppendedFresh(initial: seq<ConfigEntry>, config: seq<ConfigEntry>)
  {
    forall k, j :: |initial| <= k < |config| && 0 <= j < k ==> !StrictEquals(config[j].id, config[k].id)
  }

  /** Every entry appended after `initial` is that of an accepted reply among
      the first `n`. */
  predicate AppendedFrom(initial: seq<ConfigEntry>, config: seq<ConfigEntry>, replies: nat -> Completion, n: nat)
  {
    forall k :: |initial| <= k < |config| ==>
      exists i :: 0 <= i < n && Accepted(replies(i)) && config[k] == AcceptedEntry(replies(i).reply.value)
  }

  /** One accepted reply appends its entry when the id is absent and records
      its id. */
  lemma StepAccepted(p: Progress, c: Completion)
    requires Accepted(c)
    ensures Step(p, c) == Returned(Progress(AppendIfAbsent(p.agentsConfig, AcceptedEntry(c.reply.value)), p.ids + [Field(c.reply.value, "id")]))
  {
  }

  /** The loop's effect on the list when agent `n - 1` is accepted: its entry
      is appended if its id is absent. */
  lemma ConfiguredAccepted(initial: seq<ConfigEntry>, replies: nat -> Completion, n: nat)
    requires n > 0 && Configured(initial, replies, n - 1).Returned? && Accepted(replies(n - 1))
    ensures Configured(initial, replies, n).Returned?
    ensures Configured(initial, replies, n).value.agentsConfig ==
              AppendIfAbsent(Configured(initial, replies, n - 1).value.agentsConfig, AcceptedEntry(replies(n - 1).reply.value))
  {
    StepAccepted(Configured(initial, replies, n - 1).value, replies(n - 1));
  }

  /** The loop's effect on the list otherwise: none, unless it throws. */
  lemma ConfiguredOther(initial: seq<ConfigEntry>, replies: nat -> Completion, n: nat)
    requires n > 0 && !Accepted(replies(n - 1)) && Configured(initial, replies, n).Returned?
    ensures Configured(initial, replies, n - 1).Returned?
    ensures Configured(initial, replies, n).value.agentsConfig == Configured(initial, replies, n - 1).value.agentsConfig
  {
    if Configured(initial, replies, n - 1).Returned? {
      StepOutcomes(Configured(initial, replies, n - 1).value, replies(n - 1));
    }
  }

  /** Entries already in the list are never changed or reordered. */
  lemma {:induction false} ConfiguredPrefix(initial: seq<ConfigEntry>, replies: nat -> Completion, n: nat)
    ensures Configured(initial, replies, n).Returned? ==> PrefixKept(initial, Configured(initial, replies, n).value.agentsConfig)
  {
    if n > 0 && Configured(initial, replies, n).Returned? {
      ConfiguredPrefix(initial, replies, n - 1);
      if Accepted(replies(n - 1)) {
        ConfiguredAccepted(initial, replies, n);
        PrefixKeptAppend(initial, Configured(initial, replies, n - 1).value.agentsConfig, AcceptedEntry(replies(n - 1).reply.value));
      } else {
        ConfiguredOther(initial, replies, n);
      }
    }
  }

  /** Appending an entry if its id is absent keeps the entries before it. */
  lemma PrefixKeptAppend(initial: seq<ConfigEntry>, config: seq<ConfigEntry>, entry: ConfigEntry)
    requires PrefixKept(initial, config)
    ensures PrefixKept(initial, AppendIfAbsent(config, entry))
  {
    AppendIfAbsentKeeps(config, entry);
    assert AppendIfAbsent(config, entry)[..|initial|] == config[..|initial|];
  }

  /** No appended entry has the id of an entry before it. */
  lemma {:induction false} ConfiguredFresh(initial: seq<ConfigEntry>, replies: nat -> Completion, n: nat)
    ensures Configured(initial, replies, n).Returned? ==> AppendedFresh(initial, Configured(initial, replies, n).value.agentsConfig)
  {
    if n > 0 && Configured(initial, replies, n).Returned? {
      ConfiguredFresh(initial, replies, n - 1);
      if Accepted(replies(n - 1)) {
        ConfiguredAccepted(initial, replies, n);
        FreshStep(initial, Configured(initial, replies, n - 1).value.agentsConfig, AcceptedEntry(replies(n - 1).reply.value));
      } else {
        ConfiguredOther(initial, replies, n);
      }
    }
  }

  /** Appending an entry only when its id is absent keeps the appended ids fresh. */
  lemma FreshStep(initial: seq<ConfigEntry>, config: seq<ConfigEntry>, entry: ConfigEntry)
    requires AppendedFresh(initial, config)
    ensures AppendedFresh(initial, AppendIfAbsent(config, entry))
  {
    var r := AppendIfAbsent(config, entry);
    if r != config {
      HasIdMeans(config, entry.id);
      forall k, j | |initial| <= k < |r| && 0 <= j < k
        ensures !StrictEquals(r[j].id, r[k].id)
      {
        assert r[j] == config[j];
        if k < |config| {
          assert r[k] == config[k];
        }
      }
    }
  }

  /** Every appended entry is that of an accepted reply: the class name as
      its name, `./agents/<className>.js` as its path. */
  lemma {:induction false} ConfiguredFrom(initial: seq<ConfigEntry>, replies: nat -> Completion, n: nat)
    ensures Configured(initial, replies, n).Returned? ==> AppendedFrom(initial, Configured(initial, replies, n).value.agentsConfig, replies, n)
  {
    if n > 0 && Configured(initial, replies, n).Returned? {
      ConfiguredFrom(initial, replies, n - 1);
      var old_ := Configured(initial, replies, n - 1).value.agentsConfig;
      if Accepted(replies(n - 1)) {
        ConfiguredAccepted(initial, replies, n);
        FromStep(initial, old_, replies, n);
      } else {
        ConfiguredOther(initial, replies, n);
        FromStep(initial, old_, replies, n);
      }
    }
  }

  /** One more reply keeps every appended entry traced to an accepted reply. */
  lemma FromStep(initial: seq<ConfigEntry>, config: seq<ConfigEntry>, replies: nat -> Completion, n: nat)
    requires n > 0 && AppendedFrom(initial, config, replies, n - 1)
    ensures AppendedFrom(initial, config, replies, n)
    ensures Accepted(replies(n - 1)) ==> AppendedFrom(initial, AppendIfAbsent(config, AcceptedEntry(replies(n - 1).reply.value)), replies, n)
  {
    if Accepted(replies(n - 1)) {
      var r := AppendIfAbsent(config, AcceptedEntry(replies(n - 1).reply.value));
      forall k | |initial| <= k < |r|
        ensures exists i :: 0 <= i < n && Accepted(replies(i)) && r[k] == AcceptedEntry(replies(i).reply.value)
      {
        if k < |config| {
          assert r[k] == config[k];
          var i :| 0 <= i < n - 1 && Accepted(replies(i)) && config[k] == AcceptedEntry(replies(i).reply.value);
        } else {
          assert r[k] == AcceptedEntry(replies(n - 1).reply.value);
        }
      }
    }
  }

  /** Every recorded id that is a primitive has an entry. */
  predicate Covers(p: Progress)
  {
    forall k :: 0 <= k < |p.ids| && StrictEquals(p.ids[k], p.ids[k]) ==> HasId(p.agentsConfig, p.ids[k])
  }

  /** Every accepted agent whose id is a primitive ends with an entry for it. */
  lemma {:induction false} ConfiguredCovers(initial: seq<ConfigEntry>, replies: nat -> Completion, n: nat)
    ensures Configured(initial, replies, n).Returned? ==> Covers(Configured(initial, replies, n).value)
  {
    if n > 0 {
      ConfiguredCovers(initial, replies, n - 1);
      var before := Configured(initial, replies, n - 1);
      if before.Returned? && Accepted(replies(n - 1)) {
        var entry := AcceptedEntry(replies(n - 1).reply.value);
        StepAccepted(before.value, replies(n - 1));
        AppendIfAbsentKeeps(before.value.agentsConfig, entry);
        var config := AppendIfAbsent(before.value.agentsConfig, entry);
        var ids := before.value.ids + [entry.id];
        assert Configured(initial, replies, n).value == Progress(config, ids);
        forall k | 0 <= k < |ids| && StrictEquals(ids[k], ids[k])
          ensures HasId(config, ids[k])
        {
          if k < |before.value.ids| {
            assert ids[k] == before.value.ids[k];
            assert HasId(before.value.agentsConfig, before.value.ids[k]);
            if config != before.value.agentsConfig {
              HasIdPush(before.value.agentsConfig, entry, ids[k]);
            }
          }
        }
      }
    }
  }

  // ---------------------------------------------------------------------
  // Synthesis and orchestrator

  /** The module path written for a class. */
  function ModulePath(className: string): string
  {
    "./agents/" + className + ".js"
  }

  /** The synthesis agent's entry: it depends on the configured agents. */
  function SynthesisEntry(ids: seq<Json>): ConfigEntry
  {
    ConfigEntry(JStr(SynthesisClass), ModulePath(SynthesisClass), JStr(SynthesisId), JArr(ids))
  }

  /** The orchestrator's entry: it depends on its primary agents. */
  function OrchestratorEntry(primaryAgentIds: seq<Json>): ConfigEntry
  {
    ConfigEntry(JStr(OrchestratorClass), ModulePath(OrchestratorClass), JStr(OrchestratorId), JArr(primaryAgentIds))
  }

  /** The synthesis agent and the orchestrator added to the configuration. */
  function Assembled(p: Progress): Generated
  {
    var withSynthesis := AppendIfAbsent(p.agentsConfig, SynthesisEntry(p.ids));
    var primaryAgentIds := p.ids + [JStr(SynthesisId)];
    Generated(AppendIfAbsent(withSynthesis, OrchestratorEntry(primaryAgentIds)),
              primaryAgentIds, primaryAgentIds + [JStr(OrchestratorId)])
  }

  /** The steps after the loop, given the model's reply for the synthesis
      agent's output format and its reply for the overview: a failed call or
      an unparseable format is rethrown, the format first. */
  function Finish(p: Progress, formatReply: Completion, overviewReply: Completion): (r: Outcome<Generated>)
    ensures formatReply.CallThrew? ==> r == Threw(formatReply.error)
    ensures formatReply == Completed(Unparseable) ==> r == Threw(SyntaxError)
    ensures formatReply.Completed? && formatReply.reply.Parsed? && overviewReply.CallThrew? ==> r == Threw(overviewReply.error)
    ensures r.Returned? <==> formatReply.Completed? && formatReply.reply.Parsed? && overviewReply.Completed?
    ensures r.Returned? ==> r.value == Assembled(p)
  {
    match formatReply
    case CallThrew(e) => Threw(e)
    case Completed(Unparseable) => Threw(SyntaxError)
    case Completed(Parsed(_)) =>
      if overviewReply.CallThrew? then Threw(overviewReply.error) else Returned(Assembled(p))
  }

  /** What `handleAgentGeneration` settles to, as far as the configuration
      list goes. */
  function Generation(initial: seq<ConfigEntry>, plan: Option<Json>, replies: nat -> Completion,
                      formatReply: Completion, overviewReply: Completion): Outcome<Generated>
  {
    var agents := PlanAgents(plan);
    if agents.Threw? then Threw(agents.exception)
    else
      match Configured(initial, replies, |agents.value|)
      case Threw(e) => Threw(e)
      case Returned(p) => Finish(p, formatReply, overviewReply)
  }

  /** The orchestrator runs the configured agents followed by the synthesis
      agent; the agents created are those, then the orchestrator. */
  lemma FinishIds(p: Progress)
    ensures var g := Assembled(p);
      && g.primaryAgentIds == p.ids + [JStr(SynthesisId)]
      && g.createdIds == p.ids + [JStr(SynthesisId), JStr(OrchestratorId)]
  {
  }

  /** The synthesis and orchestrator entries are appended after the rest,
      each only when its id is absent, and both ids end up present. */
  lemma FinishEntries(p: Progress)
    ensures var config := Assembled(p).agentsConfig;
      && |p.agentsConfig| <= |config| <= |p.agentsConfig| + 2
      && config[..|p.agentsConfig|] == p.agentsConfig
      && HasId(config, JStr(SynthesisId)) && HasId(config, JStr(OrchestratorId))
      && (!HasId(p.agentsConfig, JStr(SynthesisId)) ==> config[|p.agentsConfig|] == SynthesisEntry(p.ids))
      && (!HasId(p.agentsConfig, JStr(OrchestratorId)) ==> config[|config| - 1] == OrchestratorEntry(p.ids + [JStr(SynthesisId)]))
  {
    var withSynthesis := AppendIfAbsent(p.agentsConfig, SynthesisEntry(p.ids));
    AppendIfAbsentKeeps(p.agentsConfig, SynthesisEntry(p.ids));
    var orchestrator := OrchestratorEntry(p.ids + [JStr(SynthesisId)]);
    AppendIfAbsentKeeps(withSynthesis, orchestrator);
    var config := AppendIfAbsent(withSynthesis, orchestrator);
    assert config[..|p.agentsConfig|] == withSynthesis[..|p.agentsConfig|];
    if config != withSynthesis {
      HasIdPush(withSynthesis, orchestrator, JStr(SynthesisId));
    }
    if !HasId(p.agentsConfig, JStr(OrchestratorId)) && withSynthesis != p.agentsConfig {
      assert SynthesisId[0] != OrchestratorId[0];
      assert withSynthesis[..|withSynthesis| - 1] == p.agentsConfig;
    }
  }

  /** An empty or missing plan stops the generation before any reply is
      asked for. */
  lemma NoPlanStops(initial: seq<ConfigEntry>, plan: Option<Json>, replies: nat -> Completion,
                    formatReply: Completion, overviewReply: Completion)
    requires plan == None || plan == Some(JArr([])) || plan == Some(JNull) || plan == Some(JStr(""))
    ensures Generation(initial, plan, replies, formatReply, overviewReply) == Threw(Error(NoAgentsMessage))
  {
  }

  // ---------------------------------------------------------------------
  // The method

  /** `handleAgentGeneration`, given the loaded configuration list, the agent
      plan, the model's configuration reply for each planned agent, its
      reply for the synthesis agent's output format and its reply for the
      overview. */
  method HandleAgentGeneration(initial: seq<ConfigEntry>, plan: Option<Json>, replies: nat -> Completion,
                               formatReply: Completion, overviewReply: Completion)
    returns (r: Outcome<Generated>)
    ensures r == Generation(initial, plan, replies, formatReply, overviewReply)
  {
    var agents := PlanAgents(plan);
    if agents.Threw? {
      return Threw(agents.exception);
    }
    var agentsConfig := initial;
    var ids: seq<Json> := [];
    for i := 0 to |agents.value|
      invariant Configured(initial, replies, i) == Returned(Progress(agentsConfig, ids))
    {
      var next := ConfigureAgent(agentsConfig, ids, replies(i));
      if next.Threw? {
        ThrowPersists(initial, replies, i + 1, |agents.value|);
        return Threw(next.exception);
      }
      agentsConfig, ids := next.value.agentsConfig, next.value.ids;
    }
    r := Finish(Progress(agentsConfig, ids), formatReply, overviewReply);
  }

  /** The body of the loop for one agent, given the model's configuration
      reply: skip it when the reply does not parse or lacks a field, and
      throw where the source does, in its order — the `in` test, the
      instructions' `+=`, the template's `tools` test, then its insertion of
      the class name, the name and the id. It is a method of its own so that
      the loop's invariant is carried over one call whose result is pinned to
      `Step`, rather than over every branch of the body. */
  method ConfigureAgent(agentsConfig: seq<ConfigEntry>, ids: seq<Json>, configResponse: Completion) returns (r: Outcome<Progress>)
    ensures r == Step(Progress(agentsConfig, ids), configResponse)
  {
    if configResponse.CallThrew? {
      return Threw(configResponse.error);
    }
    if configResponse.reply.Unparseable? {
      return Returned(Progress(agentsConfig, ids));
    }
    var configVariables := configResponse.reply.value;
    if !IsObject(configVariables) {
      return Threw(TypeError);
    }
    var missingFields := MissingFields(configVariables, RequiredFields);
    if |missingFields| > 0 {
      return Returned(Progress(agentsConfig, ids));
    }
    if ConversionThrows(Field(configVariables, "instructions")) {
      return Threw(TypeError);
    }
    if ToolsThrow(Field(configVariables, "tools")) {
      return Threw(TypeError);
    }
    var className, name, id := Field(configVariables, "className"), Field(configVariables, "name"), Field(configVariables, "id");
    if ConversionThrows(className) || ConversionThrows(name) || ConversionThrows(id) {
      return Threw(TypeError);
    }
    var entry := EntryFor(className, id, Field(configVariables, "dependencies"));
    var config := agentsConfig;
    if !HasId(config, id) {
      config := config + [entry];
    }
    return Returned(Progress(config, ids + [id]));
  }

  /** A throw in the loop ends it: later agents do not change the outcome. */
  lemma {:induction false} ThrowPersists(initial: seq<ConfigEntry>, replies: nat -> Completion, m: nat, n: nat)
    requires m <= n && Configured(initial, replies, m).Threw?
    ensures Configured(initial, replies, n) == Configured(initial, replies, m)
  {
    if n > m {
      ThrowPersists(initial, replies, m, n - 1);
      ThrowStays(initial, replies, n);
    }
  }

  /** One more agent after a throw changes nothing. */
  lemma ThrowStays(initial: seq<ConfigEntry>, replies: nat -> Completion, n: nat)
    requires n > 0 && Configured(initial, replies, n - 1).Threw?
    ensures Configured(initial, replies, n) == Configured(initial, replies, n - 1)
  {
  }
}
