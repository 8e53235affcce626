/** `groupAgentsByLevels` of the user-objective orchestrator: each agent of the
    execution order gets the level one above the highest level among its
    dependencies, and the levels run one after another. */
module Levels {
  import opened JsValues
  import opened Seqs
  import opened DependencyOrder

  /** `Object.fromEntries(config.map(a => [a.id, a]))[id]`: the last entry for
      an id wins. */
  function ConfigFor(config: seq<AgentConfig>, id: AgentId): (r: Option<AgentConfig>)
    ensures r.Some? ==> r.value.id == id
  {
    if config == [] then None
    else if config[|config| - 1].id == id then Some(config[|config| - 1])
    else ConfigFor(config[..|config| - 1], id)
  }

  /** The entry found is the last one with that id, and there is one exactly
      when some entry has that id. */
  lemma {:induction false} ConfigForIsLast(config: seq<AgentConfig>, id: AgentId)
    ensures ConfigFor(config, id).Some? <==> exists i :: 0 <= i < |config| && config[i].id == id
    ensures ConfigFor(config, id).Some? ==>
              exists i :: 0 <= i < |config| && config[i] == ConfigFor(config, id).value &&
                          forall k :: i < k < |config| ==> config[k].id != id
  {
    if config != [] {
      var n := |config| - 1;
      ConfigForIsLast(config[..n], id);
      assert forall i :: 0 <= i < n ==> config[..n][i] == config[i];
      if config[n].id != id && ConfigFor(config, id).Some? {
        var i :| 0 <= i < n && config[..n][i] == ConfigFor(config, id).value &&
                 forall k :: i < k < n ==> config[..n][k].id != id;
        assert config[i] == ConfigFor(config, id).value;
      }
    }
  }

  /** Every agent of the order has a configuration entry; otherwise reading
      `agent.dependencies` throws. */
  predicate Configured(order: seq<AgentId>, config: seq<AgentConfig>)
  {
    forall x :: x in order ==> ConfigFor(config, x).Some?
  }

  /** The dependencies the level computation reads for an agent; it reads
      them only for configured agents. */
  function DepsOf(config: seq<AgentConfig>, x: AgentId): seq<AgentId>
  {
    match ConfigFor(config, x)
    case Some(c) => c.dependencies
    case None => []
  }

  /** `agentLevels[dep] || 0`: a dependency with no level yet counts as level 0. */
  function Prior(levels: map<AgentId, nat>, d: AgentId): nat
  {
    if d in levels then levels[d] else 0
  }

  /** One above the highest prior level among `deps`, or 0 without dependencies. */
  function DepLevel(deps: seq<AgentId>, levels: map<AgentId, nat>): (l: nat)
  {
    if deps == [] then 0
    else
      var l0 := DepLevel(deps[..|deps| - 1], levels);
      var last := deps[|deps| - 1];
      if l0 < Prior(levels, last) + 1 then Prior(levels, last) + 1 else l0
  }

  /** `agentLevels` once the agents of `order` have been visited: the level of
      each agent's last visit. */
  function LevelMap(order: seq<AgentId>, config: seq<AgentConfig>): map<AgentId, nat>
  {
    if order == [] then map[]
    else
      var init := order[..|order| - 1];
      var x := order[|order| - 1];
      assert order == init + [x];
      var m := LevelMap(init, config);
      m[x := DepLevel(DepsOf(config, x), m)]
  }

  /** The level given to each position of `order`. */
  function LevelsOf(order: seq<AgentId>, config: seq<AgentConfig>): (lv: seq<nat>)
    ensures |lv| == |order|
  {
    if order == [] then []
    else
      var init := order[..|order| - 1];
      var x := order[|order| - 1];
      LevelsOf(init, config) + [DepLevel(DepsOf(config, x), LevelMap(init, config))]
  }

  /** The number of levels: one more than the highest level, none for an empty order. */
  function LevelCount(lv: seq<nat>): (n: nat)
    ensures forall i :: 0 <= i < |lv| ==> lv[i] < n
  {
    if lv == [] then 0
    else
      var n0 := LevelCount(lv[..|lv| - 1]);
      if n0 < lv[|lv| - 1] + 1 then lv[|lv| - 1] + 1 else n0
  }

  /** The agents of `order` at level `l`, in execution order. */
  function AtLevel(order: seq<AgentId>, lv: seq<nat>, l: nat): (s: seq<AgentId>)
    requires |lv| == |order|
    ensures s == [] <==> forall i :: 0 <= i < |order| ==> lv[i] != l
  {
    if order == [] then []
    else
      var n := |order| - 1;
      var s0 := AtLevel(order[..n], lv[..n], l);
      assert forall i :: 0 <= i < n ==> order[..n][i] == order[i] && lv[..n][i] == lv[i];
      s0 + (if lv[n] == l then [order[n]] else [])
  }

  /** The array `levels` holds, at index `l`, the agents at level `l`, or a
      hole when no agent is at that level. */
  function Bucket(order: seq<AgentId>, lv: seq<nat>, l: nat): Option<seq<AgentId>>
    requires |lv| == |order|
  {
    var s := AtLevel(order, lv, l);
    if s == [] then None else Some(s)
  }

  /** The levels of the execution order, level by level, with `None` for a
      hole of the JavaScript array. Throws a TypeError for an agent without
      a configuration entry. */
  method GroupAgentsByLevels(order: seq<AgentId>, config: seq<AgentConfig>)
    returns (r: Outcome<seq<Option<seq<AgentId>>>>)
    ensures r.Threw? <==> !Configured(order, config)
    ensures r.Threw? ==> r.exception == TypeError
    ensures r.Returned? ==>
              var lv := LevelsOf(order, config);
              && |r.value| == LevelCount(lv)
              && forall l :: 0 <= l < |r.value| ==> r.value[l] == Bucket(order, lv, l)
  {
    var levels: seq<Option<seq<AgentId>>> := [];
    var agentLevels: map<AgentId, nat> := map[];
    for i := 0 to |order|
      invariant Visited(order, config, i, agentLevels, levels)
    {
      var agentId := order[i];
      var agent := ConfigFor(config, agentId);
      if agent.None? {
        assert agentId in order;
        return Threw(TypeError);
      }
      var level := LevelAbove(agent.value.dependencies, agentLevels);
      var levels' := Place(levels, level, agentId);
      VisitStep(order, config, i, agentLevels, levels, level, levels');
      agentLevels := agentLevels[agentId := level];
      levels := levels';
    }
    assert order[..|order|] == order;
    return Returned(levels);
  }

  /** The state of the outer loop after visiting `order[..i]`. */
  ghost predicate Visited(order: seq<AgentId>, config: seq<AgentConfig>, i: nat,
                          agentLevels: map<AgentId, nat>, levels: seq<Option<seq<AgentId>>>)
  {
    && i <= |order|
    && Configured(order[..i], config)
    && agentLevels == LevelMap(order[..i], config)
    && Grouped(levels, order[..i], LevelsOf(order[..i], config))
  }

  /** One pass of the outer loop for a configured agent. */
  lemma VisitStep(order: seq<AgentId>, config: seq<AgentConfig>, i: nat,
                  agentLevels: map<AgentId, nat>, levels: seq<Option<seq<AgentId>>>,
                  level: nat, levels': seq<Option<seq<AgentId>>>)
    requires i < |order| && Visited(order, config, i, agentLevels, levels)
    requires ConfigFor(config, order[i]).Some?
    requires level == DepLevel(DepsOf(config, order[i]), agentLevels)
    requires Placed(levels, levels', level, order[i])
    ensures Visited(order, config, i + 1, agentLevels[order[i] := level], levels')
  {
    ConfiguredStep(order, config, i);
    LevelMapStep(order, config, i, level);
    LevelStep(order, config, i, level);
    PlaceStep(levels, levels', order, LevelsOf(order[..i], config), LevelsOf(order[..i + 1], config), i, level);
  }

  /** The `dependencies.forEach` loop: the level of an agent from the levels
      assigned so far. */
  method LevelAbove(dependencies: seq<AgentId>, agentLevels: map<AgentId, nat>) returns (level: nat)
    ensures level == DepLevel(dependencies, agentLevels)
  {
    level := 0;
    for k := 0 to |dependencies|
      invariant level == DepLevel(dependencies[..k], agentLevels)
    {
      assert dependencies[..k + 1] == dependencies[..k] + [dependencies[k]];
      var prior := if dependencies[k] in agentLevels then agentLevels[dependencies[k]] else 0;
      level := if level < prior + 1 then prior + 1 else level;
    }
    assert dependencies[..|dependencies|] == dependencies;
  }

  /** A configured agent extends a configured prefix. */
  lemma ConfiguredStep(order: seq<AgentId>, config: seq<AgentConfig>, i: nat)
    requires i < |order| && Configured(order[..i], config) && ConfigFor(config, order[i]).Some?
    ensures Configured(order[..i + 1], config)
  {
    assert order[..i + 1] == order[..i] + [order[i]];
  }

  /** Visiting one more agent records its level in `agentLevels`. */
  lemma LevelMapStep(order: seq<AgentId>, config: seq<AgentConfig>, i: nat, level: nat)
    requires i < |order|
    requires level == DepLevel(DepsOf(config, order[i]), LevelMap(order[..i], config))
    ensures LevelMap(order[..i + 1], config) == LevelMap(order[..i], config)[order[i] := level]
  {
    var p := order[..i + 1];
    assert p[..i] == order[..i] && p[i] == order[i];
  }

  /** Visiting one more agent appends its level. */
  lemma LevelStep(order: seq<AgentId>, config: seq<AgentConfig>, i: nat, level: nat)
    requires i < |order|
    requires level == DepLevel(DepsOf(config, order[i]), LevelMap(order[..i], config))
    ensures LevelsOf(order[..i + 1], config) == LevelsOf(order[..i], config) + [level]
  {
    var p := order[..i + 1];
    assert p[..i] == order[..i] && p[i] == order[i];
  }

  /** `if (!levels[level]) levels[level] = []; levels[level].push(agentId)`. */
  method Place(levels: seq<Option<seq<AgentId>>>, level: nat, x: AgentId) returns (levels': seq<Option<seq<AgentId>>>)
    ensures Placed(levels, levels', level, x)
  {
    if level < |levels| {
      levels' := levels[level := Some(if levels[level].Some? then levels[level].value + [x] else [x])];
    } else {
      levels' := levels + seq(level - |levels|, _ => None) + [Some([x])];
    }
  }

  /** `levels'` is `levels` after `if (!levels[level]) levels[level] = [];
      levels[level].push(x)`: writing past the end leaves holes below. */
  ghost predicate Placed(levels: seq<Option<seq<AgentId>>>, levels': seq<Option<seq<AgentId>>>, level: nat, x: AgentId)
  {
    if level < |levels| then
      levels' == levels[level := Some(if levels[level].Some? then levels[level].value + [x] else [x])]
    else
      levels' == levels + seq(level - |levels|, _ => None) + [Some([x])]
  }

  /** One pass of the outer loop keeps `levels` the buckets of the visited prefix. */
  lemma PlaceStep(levels: seq<Option<seq<AgentId>>>, levels': seq<Option<seq<AgentId>>>,
                  order: seq<AgentId>, lv: seq<nat>, lv': seq<nat>, i: nat, level: nat)
    requires i < |order| && |lv| == i && lv' == lv + [level]
    requires Grouped(levels, order[..i], lv)
    requires Placed(levels, levels', level, order[i])
    ensures Grouped(levels', order[..i + 1], lv')
  {
    assert order[..i + 1] == order[..i] + [order[i]];
    PlaceKeepsGrouped(levels, levels', order[..i], lv, level, order[i], order[..i + 1], lv');
  }


  /** `levels` holds the buckets of `order` under the levels `lv`. */
  ghost predicate Grouped(levels: seq<Option<seq<AgentId>>>, order: seq<AgentId>, lv: seq<nat>)
    requires |lv| == |order|
  {
    && |levels| == LevelCount(lv)
    && forall l :: 0 <= l < |levels| ==> levels[l] == Bucket(order, lv, l)
  }

  /** Pushing an agent onto its level, creating the level and any holes below
      it first, keeps the buckets. */
  lemma PlaceKeepsGrouped(levels: seq<Option<seq<AgentId>>>, levels': seq<Option<seq<AgentId>>>,
                          order: seq<AgentId>, lv: seq<nat>, level: nat, x: AgentId,
                          o': seq<AgentId>, lv': seq<nat>)
    requires |lv| == |order| && Grouped(levels, order, lv)
    requires o' == order + [x] && lv' == lv + [level]
    requires Placed(levels, levels', level, x)
    ensures Grouped(levels', o', lv')
  {
    assert o'[..|order|] == order && lv'[..|order|] == lv;
    assert LevelCount(lv') == if |levels| < level + 1 then level + 1 else |levels|;
    forall l | 0 <= l < |levels'| ensures levels'[l] == Bucket(o', lv', l) {
      var s := AtLevel(order, lv, l);
      assert AtLevel(o', lv', l) == s + (if l == level then [x] else []);
      if l < |levels| {
        assert levels[l] == Bucket(order, lv, l);
        if l == level {
          assert s == [] ==> s + [x] == [x];
          assert levels'[l] == Some(s + [x]);
          assert Bucket(o', lv', l) == Some(s + [x]);
        } else {
          if level >= |levels| {
            assert levels'[l] == (levels + seq(level - |levels|, _ => None))[l] == levels[l];
          }
          assert levels'[l] == levels[l];
          assert s + [] == s;
        }
      } else {
        assert s == [];
        assert s + [] == s;
        if l < level {
          assert levels'[l] == (levels + seq(level - |levels|, _ => None))[l];
          assert levels'[l] == seq(level - |levels|, _ => None)[l - |levels|];
          assert levels'[l] == None;
          assert Bucket(o', lv', l) == None;
        } else {
          assert [] + [x] == [x];
          assert levels'[l] == Some([x]);
          assert Bucket(o', lv', l) == Some([x]);
        }
      }
    }
  }

  /** The level of an agent is one above the highest prior level among its
      dependencies, and 0 exactly when it has none. */
  lemma {:induction false} DepLevelIsMax(deps: seq<AgentId>, levels: map<AgentId, nat>)
    ensures forall d :: d in deps ==> Prior(levels, d) + 1 <= DepLevel(deps, levels)
    ensures DepLevel(deps, levels) == 0 <==> deps == []
    ensures deps != [] ==> exists d :: d in deps && DepLevel(deps, levels) == Prior(levels, d) + 1
  {
    if deps != [] {
      var init := deps[..|deps| - 1];
      DepLevelIsMax(init, levels);
      assert deps == init + [deps[|deps| - 1]];
    }
  }

  /** The highest level is taken by some agent. */
  lemma {:induction false} LevelCountAttained(lv: seq<nat>)
    ensures LevelCount(lv) == 0 <==> lv == []
    ensures lv != [] ==> exists i :: 0 <= i < |lv| && lv[i] == LevelCount(lv) - 1
  {
    if lv != [] {
      LevelCountAttained(lv[..|lv| - 1]);
    }
  }

  /** The levels of a prefix are the prefix of the levels. */
  lemma {:induction false} LevelsOfPrefix(order: seq<AgentId>, config: seq<AgentConfig>, i: nat)
    requires i <= |order|
    ensures LevelsOf(order[..i], config) == LevelsOf(order, config)[..i]
    decreases |order| - i
  {
    if i == |order| {
      assert order[..i] == order;
    } else {
      var init := order[..|order| - 1];
      LevelsOfPrefix(init, config, i);
      assert init[..i] == order[..i];
      var lv := LevelsOf(init, config);
      assert LevelsOf(order, config) == lv + [LevelsOf(order, config)[|order| - 1]];
      assert (lv + [LevelsOf(order, config)[|order| - 1]])[..i] == lv[..i];
    }
  }

  /** The level of position `i` is computed from the levels of the agents
      visited before it. */
  lemma LevelAt(order: seq<AgentId>, config: seq<AgentConfig>, i: nat)
    requires i < |order|
    ensures LevelsOf(order, config)[i] == DepLevel(DepsOf(config, order[i]), LevelMap(order[..i], config))
  {
    LevelsOfPrefix(order, config, i + 1);
    assert order[..i + 1][..i] == order[..i];
  }

  /** `agentLevels` holds exactly the visited agents, each at the level of its
      last visit. */
  lemma {:induction false} LevelMapMeaning(order: seq<AgentId>, config: seq<AgentConfig>)
    ensures forall x :: x in LevelMap(order, config) <==> x in order
    ensures forall x :: x in LevelMap(order, config) ==>
              exists j :: 0 <= j < |order| && order[j] == x && LevelMap(order, config)[x] == LevelsOf(order, config)[j] &&
                          forall k :: j < k < |order| ==> order[k] != x
  {
    if order != [] {
      var n := |order| - 1;
      var init := order[..n];
      LevelMapMeaning(init, config);
      assert order == init + [order[n]];
      var m := LevelMap(order, config);
      var lv := LevelsOf(order, config);
      assert lv[..n] == LevelsOf(init, config);
      forall x | x in m
        ensures exists j :: 0 <= j < |order| && order[j] == x && m[x] == lv[j] &&
                            forall k :: j < k < |order| ==> order[k] != x
      {
        if x == order[n] {
          assert m[x] == lv[n];
        } else {
          var j :| 0 <= j < n && init[j] == x && LevelMap(init, config)[x] == LevelsOf(init, config)[j] &&
                   forall k :: j < k < n ==> init[k] != x;
          assert order[j] == x && m[x] == lv[j];
        }
      }
    }
  }

  /** In a repetition-free order, an agent runs at a higher level than every
      dependency visited before it. */
  lemma DependenciesRunEarlier(order: seq<AgentId>, config: seq<AgentConfig>, i: nat, j: nat)
    requires Distinct(order) && j < i < |order|
    requires order[j] in DepsOf(config, order[i])
    ensures LevelsOf(order, config)[j] < LevelsOf(order, config)[i]
  {
    var m := LevelMap(order[..i], config);
    LevelAt(order, config, i);
    DepLevelIsMax(DepsOf(config, order[i]), m);
    LevelMapMeaning(order[..i], config);
    assert order[..i][j] == order[j];
    var j' :| 0 <= j' < i && order[..i][j'] == order[j] && m[order[j]] == LevelsOf(order[..i], config)[j'] &&
              forall k :: j' < k < i ==> order[..i][k] != order[j];
    assert j' == j;
    LevelsOfPrefix(order, config, i);
  }

  /** An agent is at level 0 exactly when it has no dependencies. */
  lemma LevelZeroIffIndependent(order: seq<AgentId>, config: seq<AgentConfig>, i: nat)
    requires i < |order|
    ensures LevelsOf(order, config)[i] == 0 <==> DepsOf(config, order[i]) == []
  {
    LevelAt(order, config, i);
    DepLevelIsMax(DepsOf(config, order[i]), LevelMap(order[..i], config));
  }

  /** An agent of `order` is in the bucket of level `l` exactly when one of its
      visits was given level `l`. */
  lemma {:induction false} AtLevelMeans(order: seq<AgentId>, lv: seq<nat>, l: nat)
    requires |lv| == |order|
    ensures forall x :: x in AtLevel(order, lv, l) <==> exists i :: 0 <= i < |order| && order[i] == x && lv[i] == l
  {
    if order != [] {
      var n := |order| - 1;
      AtLevelMeans(order[..n], lv[..n], l);
      assert forall i :: 0 <= i < n ==> order[..n][i] == order[i] && lv[..n][i] == lv[i];
    }
  }

  /** Every dependency of each agent of `order` is visited before that agent. */
  ghost predicate DepsVisitedFirst(order: seq<AgentId>, config: seq<AgentConfig>)
  {
    forall i, d :: 0 <= i < |order| && d in DepsOf(config, order[i]) ==> d in order[..i]
  }

  /** When dependencies are visited first, an agent above level 0 has a
      dependency exactly one level below it. */
  lemma LevelBelow(order: seq<AgentId>, config: seq<AgentConfig>, i: nat)
    requires DepsVisitedFirst(order, config)
    requires i < |order| && LevelsOf(order, config)[i] > 0
    ensures exists j :: 0 <= j < i && LevelsOf(order, config)[j] == LevelsOf(order, config)[i] - 1
  {
    var deps := DepsOf(config, order[i]);
    var m := LevelMap(order[..i], config);
    LevelAt(order, config, i);
    DepLevelIsMax(deps, m);
    var d :| d in deps && LevelsOf(order, config)[i] == Prior(m, d) + 1;
    assert d in order[..i];
    LevelMapMeaning(order[..i], config);
    var j :| 0 <= j < i && order[..i][j] == d && m[d] == LevelsOf(order[..i], config)[j] &&
             forall k :: j < k < i ==> order[..i][k] != d;
    LevelsOfPrefix(order, config, i);
  }

  /** Every level from 0 up to the level of position `k` is taken by some
      position up to `k`. */
  lemma {:induction false} LevelsBelowTaken(order: seq<AgentId>, config: seq<AgentConfig>, k: nat, l: nat)
    requires DepsVisitedFirst(order, config)
    requires k < |order| && l <= LevelsOf(order, config)[k]
    ensures exists j :: 0 <= j <= k && LevelsOf(order, config)[j] == l
    decreases k
  {
    if LevelsOf(order, config)[k] != l {
      LevelBelow(order, config, k);
      var j :| 0 <= j < k && LevelsOf(order, config)[j] == LevelsOf(order, config)[k] - 1;
      LevelsBelowTaken(order, config, j, l);
    }
  }

  /** When every dependency is visited before its dependent, the array of
      levels has no holes. */
  lemma NoHoles(order: seq<AgentId>, config: seq<AgentConfig>)
    requires DepsVisitedFirst(order, config)
    ensures forall l :: 0 <= l < LevelCount(LevelsOf(order, config)) ==>
              Bucket(order, LevelsOf(order, config), l).Some?
  {
    var lv := LevelsOf(order, config);
    forall l | 0 <= l < LevelCount(lv) ensures Bucket(order, lv, l).Some? {
      LevelCountAttained(lv);
      var k :| 0 <= k < |lv| && lv[k] == LevelCount(lv) - 1;
      LevelsBelowTaken(order, config, k, l);
    }
  }

  /** Every dependency of a requested agent is itself requested. */
  ghost predicate DepsRequested(ids: seq<AgentId>, config: seq<AgentConfig>)
  {
    forall x, d :: x in ids && DependsOn(config, x, d) ==> d in ids
  }

  /** An order `resolveDependencies` accepts visits every dependency first when
      the requested agents include all their dependencies; its grouping then
      has no holes. */
  lemma ResolvedOrderVisitsDepsFirst(ids: seq<AgentId>, config: seq<AgentConfig>, order: seq<AgentId>)
    requires RespectsDependencies(order, ids, config) && DepsRequested(ids, config)
    requires multiset(order) == multiset(ids)
    ensures DepsVisitedFirst(order, config)
  {
    forall i, d | 0 <= i < |order| && d in DepsOf(config, order[i]) ensures d in order[..i] {
      var x := order[i];
      ConfigForIsLast(config, x);
      var k :| 0 <= k < |config| && config[k] == ConfigFor(config, x).value &&
               forall k' :: k < k' < |config| ==> config[k'].id != x;
      DependsOnMeans(config, x, d);
      assert x in multiset(ids);
    }
  }

  /** A dependency that is not in the execution order counts as level 0 and
      leaves level 0 empty: the array of levels then starts with a hole. */
  lemma MissingDependencyLeavesHole()
    ensures var order := ["writer"];
            var config := [AgentConfig("writer", ["research"])];
            && LevelsOf(order, config) == [1]
            && Bucket(order, LevelsOf(order, config), 0) == None
            && Bucket(order, LevelsOf(order, config), 1) == Some(order)
  {
    var order := ["writer"];
    var config := [AgentConfig("writer", ["research"])];
    assert order[..0] == [];
    assert DepsOf(config, "writer") == ["research"];
    assert DepLevel(["research"], map[]) == 1 by { assert ["research"][..0] == []; }
    var lv := LevelsOf(order, config);
    assert lv == [1];
    assert AtLevel(order, lv, 1) == AtLevel([], [], 1) + ["writer"] by {
      assert order[..0] == [] && lv[..0] == [];
    }
    assert AtLevel([], [], 1) == [];
    assert AtLevel(order, lv, 1) == ["writer"];
  }
}
