/** The agent registry: a name-to-agent map that later registrations
    overwrite. The orchestrators look agents up in it by id. */
module Registry {
  import opened JsValues

  /** A function an agent can call, known by its name. */
  type FunctionRef = string

  /** A registered agent instance: its identity and its optional list of
      callable functions. Its `processPrompt` behaviour is an input of the
      orchestrators that invoke it. */
  datatype Agent = Agent(id: string, name: string, instructions: string, functions: Option<seq<FunctionRef>>)

  class AgentRegistry {
    /** The private `Map` from name to agent. */
    var agents: map<string, Agent>

    /** A fresh registry is empty. */
    constructor ()
      ensures agents == map[]
    {
      agents := map[];
    }

    /** `registerAgent(name, agent)`: `name` now maps to `agent`, replacing
        any earlier registration; every other name keeps its agent. */
    method RegisterAgent(name: string, agent: Agent)
      modifies this
      ensures agents == old(agents)[name := agent]
      ensures name in agents && agents[name] == agent
      ensures forall n :: n != name ==> (n in agents <==> n in old(agents)) && (n in old(agents) ==> agents[n] == old(agents)[n])
    {
      agents := agents[name := agent];
    }

    /** `getAgent(name)`: the registered agent, `undefined` for a name never
        registered. */
    method GetAgent(name: string) returns (r: Option<Agent>)
      ensures r.Some? <==> name in agents
      ensures r.Some? ==> r.value == agents[name]
    {
      if name in agents {
        r := Some(agents[name]);
      } else {
        r := None;
      }
    }

    /** `getFunctions(agentName)`: `agent?.functions || []`, so the agent's
        list when it has one (an empty list included) and [] otherwise. */
    method GetFunctions(agentName: string) returns (fs: seq<FunctionRef>)
      ensures agentName in agents && agents[agentName].functions.Some? ==> fs == agents[agentName].functions.value
      ensures !(agentName in agents && agents[agentName].functions.Some?) ==> fs == []
    {
      var agent := GetAgent(agentName);
      if agent.Some? && agent.value.functions.Some? {
        fs := agent.value.functions.value;
      } else {
        fs := [];
      }
    }
  }

  /** Registering two names and looking them up: the later registration of
      a name wins and the other name is untouched. */
  method RegistryScenario(a: Agent, b: Agent, c: Agent) returns (first: Option<Agent>, second: Option<Agent>, missing: Option<Agent>)
    ensures first == Some(c) && second == Some(b) && missing == None
  {
    var registry := new AgentRegistry();
    registry.RegisterAgent("writer", a);
    registry.RegisterAgent("reviewer", b);
    registry.RegisterAgent("writer", c);
    first := registry.GetAgent("writer");
    second := registry.GetAgent("reviewer");
    missing := registry.GetAgent("planner");
  }
}
