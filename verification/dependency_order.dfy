/** The execution order both orchestrators compute before any agent runs
    (`resolveDependencies`): Kahn's topological sort over the requested agent
    ids, with a first-in-first-out queue, returning nothing on a cycle. */
module DependencyOrder {
  import opened JsValues
  import opened Seqs

  type AgentId = string

  /** The fields of an agentsConfig entry the scheduler reads. An entry without a
      `dependencies` field behaves as one with the empty list wherever the
      field is read. */
  datatype AgentConfig = AgentConfig(id: AgentId, dependencies: seq<AgentId>)

  /** A dependency edge: an entry for `to` lists `from` among its dependencies. */
  datatype Edge = Edge(from: AgentId, to: AgentId)

  /** The edges of one entry, in the order of its dependency list. */
  function EntryEdges(c: AgentConfig): (r: seq<Edge>)
    ensures |r| == |c.dependencies|
  {
    seq(|c.dependencies|, i requires 0 <= i < |c.dependencies| => Edge(c.dependencies[i], c.id))
  }

  /** Every edge of the configuration, in the order the graph-building loop
      visits them. */
  function Edges(config: seq<AgentConfig>): seq<Edge>
  {
    if config == [] then [] else Edges(config[..|config| - 1]) + EntryEdges(config[|config| - 1])
  }

  /** `x` depends on `d` when some entry for `x` lists `d`. */
  ghost predicate DependsOn(config: seq<AgentConfig>, x: AgentId, d: AgentId)
  {
    Edge(d, x) in Edges(config)
  }

  /** `DependsOn` read as an index into the configuration. */
  lemma {:induction false} DependsOnMeans(config: seq<AgentConfig>, x: AgentId, d: AgentId)
    ensures DependsOn(config, x, d) <==>
            exists i :: 0 <= i < |config| && config[i].id == x && d in config[i].dependencies
  {
    if config != [] {
      var n := |config| - 1;
      var init := config[..n];
      DependsOnMeans(init, x, d);
      var c := config[n];
      assert Edge(d, x) in EntryEdges(c) <==> c.id == x && d in c.dependencies by {
        if Edge(d, x) in EntryEdges(c) {
          var k :| 0 <= k < |c.dependencies| && EntryEdges(c)[k] == Edge(d, x);
        }
        if c.id == x && d in c.dependencies {
          var k :| 0 <= k < |c.dependencies| && c.dependencies[k] == d;
          assert EntryEdges(c)[k] == Edge(d, x);
        }
      }
      if exists i :: 0 <= i < |config| && config[i].id == x && d in config[i].dependencies {
        var i :| 0 <= i < |config| && config[i].id == x && d in config[i].dependencies;
        if i < n { assert init[i] == config[i]; }
      }
      if exists i :: 0 <= i < n && init[i].id == x && d in init[i].dependencies {
        var i :| 0 <= i < n && init[i].id == x && d in init[i].dependencies;
        assert config[i] == init[i];
      }
    }
  }

  /** `graph[d]` once built: the id of every entry that lists `d`, once per
      listing, in visiting order. */
  function Dependents(es: seq<Edge>, d: AgentId): seq<AgentId>
  {
    if es == [] then []
    else
      var e := es[|es| - 1];
      Dependents(es[..|es| - 1], d) + (if e.from == d then [e.to] else [])
  }

  /** The number of edges into `x` that start in `from`. */
  function InCount(es: seq<Edge>, x: AgentId, from: set<AgentId>): nat
  {
    if es == [] then 0
    else
      var e := es[|es| - 1];
      InCount(es[..|es| - 1], x, from) + (if e.to == x && e.from in from then 1 else 0)
  }

  /** Taking `c` out of `from` removes exactly the edges `c -> x`, and there are
      as many of them as `x` occurs among the dependents of `c`. */
  lemma {:induction false} InCountRemove(es: seq<Edge>, x: AgentId, from: set<AgentId>, c: AgentId)
    requires c in from
    ensures InCount(es, x, from) == InCount(es, x, from - {c}) + multiset(Dependents(es, c))[x]
  {
    if es != [] {
      InCountRemove(es[..|es| - 1], x, from, c);
    }
  }

  /** No edge into `x` starts in `from` exactly when the count is zero. */
  lemma {:induction false} InCountZero(es: seq<Edge>, x: AgentId, from: set<AgentId>)
    ensures InCount(es, x, from) == 0 <==> forall d :: d in from ==> Edge(d, x) !in es
  {
    if es != [] {
      var init := es[..|es| - 1];
      InCountZero(init, x, from);
      assert es == init + [es[|es| - 1]];
    }
  }

  /** Every requested dependency of `x` lies in `done`. */
  ghost predicate DepsAmong(es: seq<Edge>, req: set<AgentId>, x: AgentId, done: set<AgentId>)
  {
    forall d :: d in req && Edge(d, x) in es ==> d in done
  }

  /** The keys among `keys` with no edge from a requested id, in order. */
  function ReadyAmong(keys: seq<AgentId>, es: seq<Edge>, req: set<AgentId>): (r: seq<AgentId>)
    ensures forall x :: x in r <==> x in keys && InCount(es, x, req) == 0
    ensures Distinct(keys) ==> Distinct(r)
  {
    if keys == [] then []
    else
      var init := keys[..|keys| - 1];
      var x := keys[|keys| - 1];
      assert keys == init + [x];
      DistinctAppend(init, x);
      var r0 := ReadyAmong(init, es, req);
      DistinctAppend(r0, x);
      r0 + (if InCount(es, x, req) == 0 then [x] else [])
  }

  /** The requested ids that have no requested dependency, in the order of
      their first request: the queue Kahn's loop starts from. */
  function InitiallyReady(ids: seq<AgentId>, config: seq<AgentConfig>): seq<AgentId>
  {
    ReadyAmong(Dedup(ids), Edges(config), Elems(ids))
  }

  /** The ids of `s` other than the empty one, which the loop dequeues and skips. */
  function WithoutEmpty(s: seq<AgentId>): (r: seq<AgentId>)
    ensures Elems(r) == Elems(s) - {""}
    ensures Distinct(s) ==> Distinct(r)
    ensures "" !in s ==> r == s
  {
    if s == [] then []
    else
      var init := s[..|s| - 1];
      var x := s[|s| - 1];
      assert s == init + [x];
      DistinctAppend(init, x);
      var r0 := WithoutEmpty(init);
      assert Elems(s) == Elems(init) + {x};
      assert Elems(r0 + [x]) == Elems(r0) + {x};
      assert Distinct(s) ==> x !in Elems(r0);
      DistinctAppend(r0, x);
      r0 + (if x == "" then [] else [x])
  }

  /** The ids among `ns` (a sorted id's `graph` list) that its release loop
      enqueues once the ids of `done` are sorted: a requested id joins the
      queue at its last listing, when no edge from an unsorted requested id
      still enters it. */
  function Released(es: seq<Edge>, req: set<AgentId>, done: set<AgentId>, ns: seq<AgentId>): seq<AgentId>
  {
    if ns == [] then []
    else
      ReleasedHere(es, req, done, ns[0], ns[1..]) + Released(es, req, done, ns[1..])
  }

  /** Everything the ids of `sorted`, released in turn, add to the queue. */
  function ReleaseLog(es: seq<Edge>, req: set<AgentId>, sorted: seq<AgentId>): seq<AgentId>
  {
    if sorted == [] then []
    else
      ReleaseLog(es, req, sorted[..|sorted| - 1])
        + Released(es, req, Elems(sorted), Dependents(es, sorted[|sorted| - 1]))
  }

  /** Every requested dependency of an id of `order` appears before it. */
  ghost predicate RespectsDependencies(order: seq<AgentId>, ids: seq<AgentId>, config: seq<AgentConfig>)
  {
    forall j, d :: 0 <= j < |order| && d in ids && DependsOn(config, order[j], d) ==> d in order[..j]
  }

  /** A non-empty set of requested ids each of which depends on a member of the
      set: following dependencies inside it never ends, so it holds a cycle. */
  ghost predicate Blocked(config: seq<AgentConfig>, ids: seq<AgentId>, stuck: set<AgentId>)
  {
    && stuck != {}
    && stuck <= Elems(ids)
    && forall x {:trigger DependsOnSome(config, x, stuck)} :: x in stuck ==> DependsOnSome(config, x, stuck)
  }

  /** `x` depends on some member of `s`. */
  ghost predicate DependsOnSome(config: seq<AgentConfig>, x: AgentId, s: set<AgentId>)
  {
    exists d :: d in s && DependsOn(config, x, d)
  }

  /** No order that respects the dependencies can contain a blocked set: so the
      sort succeeds exactly when no blocked set exists. */
  lemma BlockedPreventsOrder(config: seq<AgentConfig>, ids: seq<AgentId>, stuck: set<AgentId>, order: seq<AgentId>)
    requires Blocked(config, ids, stuck)
    requires RespectsDependencies(order, ids, config)
    ensures !(stuck <= Elems(order))
  {
    NoBlockedPrefix(config, ids, stuck, order, |order|);
    var x :| x in stuck;
    assert x !in Elems(order);
  }

  /** No id of a respecting order, up to position `k`, lies in a blocked set. */
  lemma {:induction false} NoBlockedPrefix(config: seq<AgentConfig>, ids: seq<AgentId>, stuck: set<AgentId>, order: seq<AgentId>, k: nat)
    requires Blocked(config, ids, stuck)
    requires RespectsDependencies(order, ids, config)
    requires k <= |order|
    ensures forall i :: 0 <= i < k ==> order[i] !in stuck
  {
    if k > 0 {
      NoBlockedPrefix(config, ids, stuck, order, k - 1);
      var x := order[k - 1];
      forall d | d in order[..k - 1] ensures d !in stuck {
        var i :| 0 <= i < k - 1 && order[..k - 1][i] == d;
        assert order[i] == d;
      }
      assert !DependsOnSome(config, x, stuck);
    }
  }

  /** Kahn's algorithm as `resolveDependencies` runs it. On success the result
      is a permutation of the requested ids in which every requested dependency
      of an id comes before it, and which starts with the ids that were ready
      from the start, in request order. The queue is first in, first out:
      the order is those ids followed by the ids each sorted id releases, in
      the order they were sorted. It fails only when the requested ids repeat,
      include the empty id, or contain a blocked set. */
  method ResolveDependencies(ids: seq<AgentId>, config: seq<AgentConfig>) returns (r: Option<seq<AgentId>>)
    ensures r.Some? ==> Distinct(ids) && "" !in ids
    ensures r.Some? ==> Distinct(r.value) && multiset(r.value) == multiset(ids)
    ensures r.Some? ==> RespectsDependencies(r.value, ids, config)
    ensures r.Some? ==> InitiallyReady(ids, config) <= r.value
    ensures r.Some? ==> r.value == InitiallyReady(ids, config) + ReleaseLog(Edges(config), Elems(ids), r.value)
    ensures r.None? && Distinct(ids) && "" !in ids ==> exists stuck :: Blocked(config, ids, stuck)
  {
    ghost var req := Elems(ids);
    ghost var E := Edges(config);
    var graph, inDegree, keys := NewGraph(ids);
    assert GraphOf([], req, graph, inDegree);
    graph, inDegree := AddEdges(config, req, graph, inDegree);
    var queue := ReadyQueue(keys, inDegree, E, req);
    var sorted, seen := Drain(E, req, graph, inDegree, queue);
    if |sorted| == |ids| {
      r := Some(sorted);
      CoverFromDistinct(sorted, ids);
      assert WithoutEmpty(seen) == seen;
      SortedRespects(E, config, ids, sorted);
    } else {
      r := None;
      if Distinct(ids) && "" !in ids {
        assert "" !in Elems(seen) by { assert "" !in Elems(ids); }
        var stuck := req - Elems(sorted);
        StuckIsBlocked(config, ids, sorted, stuck);
      }
    }
  }

  /** The `while (queue.length > 0)` loop: dequeue, skip the empty id, append
      to the order, and release the dependents. `seen` lists every id ever
      dequeued, the skipped empty id included, in the order it was enqueued:
      the initial queue, then what each sorted id released. */
  method Drain(ghost E: seq<Edge>, ghost req: set<AgentId>, graph: map<AgentId, seq<AgentId>>,
               inDegree0: map<AgentId, int>, queue0: seq<AgentId>)
    returns (sorted: seq<AgentId>, ghost seen: seq<AgentId>)
    requires graph.Keys == req && inDegree0.Keys == req
    requires forall d :: d in req ==> graph[d] == Dependents(E, d)
    requires Distinct(queue0) && Elems(queue0) <= req
    requires forall x :: x in req ==> inDegree0[x] == InCount(E, x, req)
    requires forall x :: x in req ==> (inDegree0[x] == 0 <==> x in queue0)
    ensures Distinct(seen) && Elems(seen) <= req && queue0 <= seen
    ensures seen == queue0 + ReleaseLog(E, req, sorted)
    ensures sorted == WithoutEmpty(seen)
    ensures SortedAfterDeps(E, req, sorted)
    ensures forall x :: x in req && x !in seen ==> InCount(E, x, req - Elems(sorted)) != 0
  {
    var queue := queue0;
    var inDegree := inDegree0;
    sorted, seen := [], [];
    ghost var log: seq<AgentId> := [];
    StartPending(E, req, queue0, inDegree);
    DistinctWithin(queue, req);
    while |queue| > 0
      invariant Draining(E, req, queue0, sorted, seen, inDegree, queue, log)
      invariant log == ReleaseLog(E, req, sorted)
      decreases 2 * |req| - 2 * |seen| - |queue|
    {
      sorted, seen, inDegree, queue, log := DrainStep(E, req, graph, queue0, sorted, seen, inDegree, queue, log);
    }
    EndPending(E, req, queue0, sorted, seen, inDegree);
    assert seen + queue == seen;
  }

  /** The state between two turns of the loop: the order is the dequeued ids
      bar the empty one, each after its requested dependencies, and what was
      dequeued, then what is queued, is the initial queue followed by `log`. */
  ghost predicate Draining(E: seq<Edge>, req: set<AgentId>, queue0: seq<AgentId>, sorted: seq<AgentId>,
                           seen: seq<AgentId>, inDegree: map<AgentId, int>, queue: seq<AgentId>,
                           log: seq<AgentId>)
  {
    && sorted == WithoutEmpty(seen) && SortedAfterDeps(E, req, sorted)
    && Pending(E, req, queue0, sorted, seen, inDegree, queue, [])
    && |seen| + |queue| <= |req|
    && seen + queue == queue0 + log
  }

  /** One turn of the loop: dequeue, skip the empty id, or append the id to
      the order and release its dependents; `log` stays what the sorted ids
      released. */
  method DrainStep(ghost E: seq<Edge>, ghost req: set<AgentId>, graph: map<AgentId, seq<AgentId>>,
                   ghost queue0: seq<AgentId>, sorted0: seq<AgentId>, ghost seen0: seq<AgentId>,
                   inDegree0: map<AgentId, int>, queue1: seq<AgentId>, ghost log0: seq<AgentId>)
    returns (sorted: seq<AgentId>, ghost seen: seq<AgentId>, inDegree: map<AgentId, int>, queue: seq<AgentId>,
             ghost log: seq<AgentId>)
    requires graph.Keys == req && forall d :: d in req ==> graph[d] == Dependents(E, d)
    requires Draining(E, req, queue0, sorted0, seen0, inDegree0, queue1, log0) && |queue1| > 0
    requires log0 == ReleaseLog(E, req, sorted0)
    ensures Draining(E, req, queue0, sorted, seen, inDegree, queue, log)
    ensures log == ReleaseLog(E, req, sorted)
    ensures seen == seen0 + [queue1[0]] && |queue| + 1 >= |queue1|
  {
    var current := queue1[0];
    if current == "" {
      SkipStep(E, req, queue0, sorted0, seen0, inDegree0, queue1, log0);
      sorted, seen, inDegree, queue, log := sorted0, seen0 + [current], inDegree0, queue1[1..], log0;
    } else {
      sorted, seen, inDegree, queue, log := TakeStep(E, req, graph, queue0, sorted0, seen0, inDegree0, queue1, log0);
      ReleaseLogSnoc(E, req, sorted0, current);
    }
  }

  /** Dequeuing the empty id leaves the order and the in-degrees as they were. */
  lemma SkipStep(E: seq<Edge>, req: set<AgentId>, queue0: seq<AgentId>, sorted: seq<AgentId>,
                 seen0: seq<AgentId>, inDegree: map<AgentId, int>, queue1: seq<AgentId>, log: seq<AgentId>)
    requires Draining(E, req, queue0, sorted, seen0, inDegree, queue1, log) && |queue1| > 0 && queue1[0] == ""
    ensures Draining(E, req, queue0, sorted, seen0 + [queue1[0]], inDegree, queue1[1..], log)
  {
    var seen, queue := seen0 + [queue1[0]], queue1[1..];
    SkipEmpty(E, req, queue0, sorted, seen0, inDegree, queue1);
    assert seen + queue == seen0 + queue1 by { assert queue1 == [queue1[0]] + queue; }
  }

  /** Dequeuing a non-empty id appends it to the order, and what its
      dependents release is appended to the queue and to `log`. */
  method TakeStep(ghost E: seq<Edge>, ghost req: set<AgentId>, graph: map<AgentId, seq<AgentId>>,
                  ghost queue0: seq<AgentId>, sorted0: seq<AgentId>, ghost seen0: seq<AgentId>,
                  inDegree0: map<AgentId, int>, queue1: seq<AgentId>, ghost log0: seq<AgentId>)
    returns (sorted: seq<AgentId>, ghost seen: seq<AgentId>, inDegree: map<AgentId, int>, queue: seq<AgentId>,
             ghost log: seq<AgentId>)
    requires graph.Keys == req && forall d :: d in req ==> graph[d] == Dependents(E, d)
    requires Draining(E, req, queue0, sorted0, seen0, inDegree0, queue1, log0) && |queue1| > 0 && queue1[0] != ""
    ensures Draining(E, req, queue0, sorted, seen, inDegree, queue, log)
    ensures seen == seen0 + [queue1[0]] && sorted == sorted0 + [queue1[0]] && |queue| + 1 >= |queue1|
    ensures log == log0 + Released(E, req, Elems(sorted), Dependents(E, queue1[0]))
  {
    var current := queue1[0];
    queue := queue1[1..];
    seen := seen0 + [current];
    sorted := sorted0 + [current];
    log := log0 + Released(E, req, Elems(sorted), Dependents(E, current));
    TakeCurrent(E, req, queue0, sorted0, seen0, inDegree0, queue1);
    LogStep(queue0, seen0, queue1, log0, Released(E, req, Elems(sorted), Dependents(E, current)));
    inDegree, queue := ReleaseDependents(graph[current], E, req, queue0, sorted, seen, inDegree0, queue);
    DistinctWithin(seen + queue, req);
  }

  /** The graph and in-degree maps with every requested id at no edges, and
      their keys in insertion order. */
  method NewGraph(ids: seq<AgentId>) returns (graph: map<AgentId, seq<AgentId>>, inDegree: map<AgentId, int>, keys: seq<AgentId>)
    ensures graph.Keys == Elems(ids) && inDegree.Keys == Elems(ids)
    ensures forall d :: d in graph ==> graph[d] == [] && inDegree[d] == 0
    ensures keys == Dedup(ids)
  {
    graph, inDegree, keys := map[], map[], [];
    for i := 0 to |ids|
      invariant graph.Keys == Elems(ids[..i]) && inDegree.Keys == Elems(ids[..i])
      invariant forall d :: d in graph ==> graph[d] == [] && inDegree[d] == 0
      invariant keys == Dedup(ids[..i])
    {
      assert ids[..i + 1] == ids[..i] + [ids[i]];
      assert ids[..i + 1][..i] == ids[..i];
      if ids[i] !in inDegree {
        keys := keys + [ids[i]];
      }
      graph := graph[ids[i] := []];
      inDegree := inDegree[ids[i] := 0];
    }
    assert ids[..|ids|] == ids;
  }

  /** `graph` and `inDegree` as the building loop leaves them after visiting
      the edges `es`. */
  ghost predicate GraphOf(es: seq<Edge>, req: set<AgentId>, graph: map<AgentId, seq<AgentId>>,
                          inDegree: map<AgentId, int>)
  {
    && graph.Keys == req && inDegree.Keys == req
    && (forall d :: d in req ==> graph[d] == Dependents(es, d))
    && (forall x :: x in req ==> inDegree[x] == InCount(es, x, req))
  }

  /** The graph-building loop. An edge whose dependency is not requested is
      dropped; an entry whose own id is not requested gets a NaN in-degree in
      the source, which never equals 0, so it stays out of `inDegree` here. */
  method AddEdges(config: seq<AgentConfig>, ghost req: set<AgentId>,
                  graph0: map<AgentId, seq<AgentId>>, inDegree0: map<AgentId, int>)
    returns (graph: map<AgentId, seq<AgentId>>, inDegree: map<AgentId, int>)
    requires GraphOf([], req, graph0, inDegree0)
    ensures GraphOf(Edges(config), req, graph, inDegree)
  {
    graph, inDegree := graph0, inDegree0;
    for i := 0 to |config|
      invariant GraphOf(Edges(config[..i]), req, graph, inDegree)
    {
      assert config[..i + 1][..i] == config[..i];
      graph, inDegree := AddEntryEdges(config[i], Edges(config[..i]), req, graph, inDegree);
    }
    assert config[..|config|] == config;
  }

  /** The edges of one entry, added dependency by dependency. */
  method AddEntryEdges(c: AgentConfig, ghost es: seq<Edge>, ghost req: set<AgentId>,
                       graph0: map<AgentId, seq<AgentId>>, inDegree0: map<AgentId, int>)
    returns (graph: map<AgentId, seq<AgentId>>, inDegree: map<AgentId, int>)
    requires GraphOf(es, req, graph0, inDegree0)
    ensures GraphOf(es + EntryEdges(c), req, graph, inDegree)
  {
    graph, inDegree := graph0, inDegree0;
    var current := c.id;
    EntryEdgesPrefix(es, c, 0);
    for j := 0 to |c.dependencies|
      invariant GraphOf(es + EntryEdges(c)[..j], req, graph, inDegree)
    {
      var dep := c.dependencies[j];
      EntryEdgesPrefix(es, c, j + 1);
      AddEdge(es + EntryEdges(c)[..j], Edge(dep, current), req, graph, inDegree);
      if dep in graph {
        graph := graph[dep := graph[dep] + [current]];
        if current in inDegree {
          inDegree := inDegree[current := inDegree[current] + 1];
        }
      }
    }
    EntryEdgesPrefix(es, c, |c.dependencies|);
  }

  /** The edges of an entry's first `j` dependencies, after `es`. */
  lemma EntryEdgesPrefix(es: seq<Edge>, c: AgentConfig, j: nat)
    requires j <= |c.dependencies|
    ensures j == 0 ==> es + EntryEdges(c)[..j] == es
    ensures j > 0 ==> es + EntryEdges(c)[..j] == (es + EntryEdges(c)[..j - 1]) + [Edge(c.dependencies[j - 1], c.id)]
    ensures j == |c.dependencies| ==> es + EntryEdges(c)[..j] == es + EntryEdges(c)
  {
    if j > 0 {
      assert EntryEdges(c)[..j] == EntryEdges(c)[..j - 1] + [EntryEdges(c)[j - 1]];
    }
  }

  /** One visited edge: it extends `graph[from]` and raises the in-degree of
      `to` when both ends are requested, and changes nothing otherwise. */
  lemma AddEdge(es: seq<Edge>, e: Edge, req: set<AgentId>, graph: map<AgentId, seq<AgentId>>,
                inDegree: map<AgentId, int>)
    requires GraphOf(es, req, graph, inDegree)
    ensures e.from in req ==>
              GraphOf(es + [e], req, graph[e.from := graph[e.from] + [e.to]],
                      if e.to in req then inDegree[e.to := inDegree[e.to] + 1] else inDegree)
    ensures e.from !in req ==> GraphOf(es + [e], req, graph, inDegree)
  {
    assert (es + [e])[..|es|] == es;
  }

  /** The loop that fills the initial queue from `Object.keys(inDegree)`. */
  method ReadyQueue(keys: seq<AgentId>, inDegree: map<AgentId, int>, ghost E: seq<Edge>, ghost req: set<AgentId>)
    returns (queue: seq<AgentId>)
    requires Elems(keys) == req && inDegree.Keys == req
    requires forall x :: x in req ==> inDegree[x] == InCount(E, x, req)
    ensures queue == ReadyAmong(keys, E, req)
  {
    queue := [];
    for k := 0 to |keys|
      invariant queue == ReadyAmong(keys[..k], E, req)
    {
      assert keys[..k + 1][..k] == keys[..k];
      assert keys[k] in Elems(keys);
      if inDegree[keys[k]] == 0 {
        queue := queue + [keys[k]];
      }
    }
    assert keys[..|keys|] == keys;
  }

  /** Every sorted id comes after its requested dependencies. */
  ghost predicate SortedAfterDeps(E: seq<Edge>, req: set<AgentId>, sorted: seq<AgentId>)
  {
    forall j :: 0 <= j < |sorted| ==> DepsAmong(E, req, sorted[j], Elems(sorted[..j]))
  }

  /** The state of the queue and the in-degrees in the middle of Kahn's loop,
      with the edges to `toRelease` not yet decremented: every id was enqueued
      at most once, an in-degree counts the edges from unsorted requested ids,
      it is zero exactly for the ids enqueued so far, and every queued id has
      all its requested dependencies sorted. */
  ghost predicate Pending(E: seq<Edge>, req: set<AgentId>, queue0: seq<AgentId>, sorted: seq<AgentId>,
                          seen: seq<AgentId>, inDegree: map<AgentId, int>, queue: seq<AgentId>,
                          toRelease: seq<AgentId>)
  {
    && inDegree.Keys == req
    && Distinct(seen + queue) && Elems(seen + queue) <= req
    && queue0 <= seen + queue
    && (forall x :: x in req ==>
          inDegree[x] == InCount(E, x, req - Elems(sorted)) + multiset(toRelease)[x])
    && (forall x :: x in req ==> (inDegree[x] == 0 <==> x in seen + queue))
    && (forall x :: x in queue ==> DepsAmong(E, req, x, Elems(sorted)))
  }

  /** Before the loop: nothing sorted, the queue as filled from the in-degrees. */
  lemma StartPending(E: seq<Edge>, req: set<AgentId>, queue0: seq<AgentId>, inDegree: map<AgentId, int>)
    requires inDegree.Keys == req
    requires Distinct(queue0) && Elems(queue0) <= req
    requires forall x :: x in req ==> inDegree[x] == InCount(E, x, req)
    requires forall x :: x in req ==> (inDegree[x] == 0 <==> x in queue0)
    ensures SortedAfterDeps(E, req, []) && [] == WithoutEmpty([])
    ensures Pending(E, req, queue0, [], [], inDegree, queue0, [])
  {
    assert req - Elems<AgentId>([]) == req;
    assert [] + queue0 == queue0;
    forall x | x in queue0 ensures DepsAmong(E, req, x, Elems<AgentId>([])) {
      InCountZero(E, x, req);
    }
  }

  /** With the queue empty, every requested id never dequeued still has an edge from an unsorted id. */
  lemma EndPending(E: seq<Edge>, req: set<AgentId>, queue0: seq<AgentId>, sorted: seq<AgentId>,
                   seen: seq<AgentId>, inDegree: map<AgentId, int>)
    requires Pending(E, req, queue0, sorted, seen, inDegree, [], [])
    ensures Distinct(seen) && Elems(seen) <= req && queue0 <= seen
    ensures forall x :: x in req && x !in seen ==> InCount(E, x, req - Elems(sorted)) != 0
  {
    assert seen + [] == seen;
  }

  /** Dequeuing the empty id changes nothing but the queue. */
  lemma SkipEmpty(E: seq<Edge>, req: set<AgentId>, queue0: seq<AgentId>, sorted: seq<AgentId>,
                  seen: seq<AgentId>, inDegree: map<AgentId, int>, queue: seq<AgentId>)
    requires sorted == WithoutEmpty(seen)
    requires Pending(E, req, queue0, sorted, seen, inDegree, queue, [])
    requires |queue| > 0 && queue[0] == ""
    ensures sorted == WithoutEmpty(seen + [queue[0]])
    ensures Pending(E, req, queue0, sorted, seen + [queue[0]], inDegree, queue[1..], [])
  {
    assert (seen + [queue[0]]) + queue[1..] == seen + queue;
    assert (seen + [queue[0]])[..|seen|] == seen;
  }

  /** Dequeuing a non-empty id: it joins the order, and its outgoing edges
      become the ones to release. */
  lemma TakeCurrent(E: seq<Edge>, req: set<AgentId>, queue0: seq<AgentId>, sorted: seq<AgentId>,
                    seen: seq<AgentId>, inDegree: map<AgentId, int>, queue: seq<AgentId>)
    requires sorted == WithoutEmpty(seen) && SortedAfterDeps(E, req, sorted)
    requires Pending(E, req, queue0, sorted, seen, inDegree, queue, [])
    requires |queue| > 0 && queue[0] != ""
    ensures queue[0] in req
    ensures sorted + [queue[0]] == WithoutEmpty(seen + [queue[0]])
    ensures SortedAfterDeps(E, req, sorted + [queue[0]])
    ensures Pending(E, req, queue0, sorted + [queue[0]], seen + [queue[0]], inDegree, queue[1..],
                    Dependents(E, queue[0]))
  {
    var current := queue[0];
    var seen' := seen + [current];
    assert seen' + queue[1..] == seen + queue;
    assert seen'[..|seen|] == seen;
    DistinctSplit(seen', queue[1..]);
    DistinctAppend(seen, current);
    assert current in Elems(seen + queue);
    assert current !in sorted by { assert current !in Elems(seen); }
    DepsAmongStep(E, req, sorted, current);
    ProcessCurrent(E, req, sorted, current, inDegree);
    var sorted' := sorted + [current];
    forall x | x in queue[1..] ensures DepsAmong(E, req, x, Elems(sorted')) {
      assert x in queue;
      DepsAmongMono(E, req, x, Elems(sorted), Elems(sorted'));
    }
  }

  /** The loop over `graph[current]`: each requested neighbour loses one
      in-degree and joins the queue when it reaches zero. */
  method ReleaseDependents(neighbors: seq<AgentId>, ghost E: seq<Edge>, ghost req: set<AgentId>,
                           ghost queue0: seq<AgentId>, ghost sorted: seq<AgentId>, ghost seen: seq<AgentId>,
                           inDegree0: map<AgentId, int>, queue1: seq<AgentId>)
    returns (inDegree: map<AgentId, int>, queue: seq<AgentId>)
    requires Pending(E, req, queue0, sorted, seen, inDegree0, queue1, neighbors)
    ensures Pending(E, req, queue0, sorted, seen, inDegree, queue, [])
    ensures queue == queue1 + Released(E, req, Elems(sorted), neighbors)
  {
    inDegree, queue := inDegree0, queue1;
    for k := 0 to |neighbors|
      invariant Pending(E, req, queue0, sorted, seen, inDegree, queue, neighbors[k..])
      invariant queue + Released(E, req, Elems(sorted), neighbors[k..]) == queue1 + Released(E, req, Elems(sorted), neighbors)
    {
      var neighbor := neighbors[k];
      assert neighbors[k..] == [neighbor] + neighbors[k + 1..];
      ghost var queueBefore := queue;
      inDegree, queue := ReleaseOne(neighbor, neighbors[k + 1..], E, req, queue0, sorted, seen, inDegree, queue);
      ReleasedHead(E, req, Elems(sorted), neighbor, neighbors[k + 1..]);
      ConcatAssoc(queueBefore, ReleasedHere(E, req, Elems(sorted), neighbor, neighbors[k + 1..]),
                  Released(E, req, Elems(sorted), neighbors[k + 1..]));
    }
    assert neighbors[|neighbors|..] == [];
  }

  /** One turn of the loop over `graph[current]`: a requested neighbour loses
      one in-degree and joins the queue when that makes it zero, which is at
      its last listing once no unsorted requested id still points at it. */
  method ReleaseOne(neighbor: AgentId, rest: seq<AgentId>, ghost E: seq<Edge>, ghost req: set<AgentId>,
                    ghost queue0: seq<AgentId>, ghost sorted: seq<AgentId>, ghost seen: seq<AgentId>,
                    inDegree0: map<AgentId, int>, queue1: seq<AgentId>)
    returns (inDegree: map<AgentId, int>, queue: seq<AgentId>)
    requires Pending(E, req, queue0, sorted, seen, inDegree0, queue1, [neighbor] + rest)
    ensures Pending(E, req, queue0, sorted, seen, inDegree, queue, rest)
    ensures queue == queue1 + ReleasedHere(E, req, Elems(sorted), neighbor, rest)
  {
    inDegree, queue := inDegree0, queue1;
    if neighbor in inDegree {
      assert multiset([neighbor] + rest)[neighbor] == 1 + multiset(rest)[neighbor];
      assert neighbor in rest <==> multiset(rest)[neighbor] > 0;
      inDegree := inDegree[neighbor := inDegree[neighbor] - 1];
      if inDegree[neighbor] == 0 {
        Enqueue(E, req, queue0, sorted, seen, inDegree, queue, rest, neighbor);
        queue := queue + [neighbor];
      }
    }
  }

  /** What the release of one listed neighbour adds to the queue. */
  function ReleasedHere(es: seq<Edge>, req: set<AgentId>, done: set<AgentId>, n: AgentId, rest: seq<AgentId>): seq<AgentId>
  {
    if n in req && InCount(es, n, req - done) == 0 && n !in rest then [n] else []
  }

  /** The releases of a list are those of its first neighbour, then the rest's. */
  lemma ReleasedHead(es: seq<Edge>, req: set<AgentId>, done: set<AgentId>, n: AgentId, rest: seq<AgentId>)
    ensures Released(es, req, done, [n] + rest) == ReleasedHere(es, req, done, n, rest) + Released(es, req, done, rest)
  {
    assert ([n] + rest)[1..] == rest;
  }

  /** Dequeuing the head of the queue and appending `rel` keeps the queue's
      history: the initial queue, then `log` followed by `rel`. */
  lemma LogStep(queue0: seq<AgentId>, seen: seq<AgentId>, queue: seq<AgentId>, log: seq<AgentId>, rel: seq<AgentId>)
    requires queue != [] && seen + queue == queue0 + log
    ensures (seen + [queue[0]]) + (queue[1..] + rel) == queue0 + (log + rel)
  {
    assert queue == [queue[0]] + queue[1..];
    assert (seen + [queue[0]]) + queue[1..] == seen + queue;
    assert (seen + [queue[0]]) + (queue[1..] + rel) == (seen + queue) + rel;
    assert queue0 + (log + rel) == (queue0 + log) + rel;
  }

  /** Sorting one more id appends what it releases to the log. */
  lemma ReleaseLogSnoc(E: seq<Edge>, req: set<AgentId>, sorted: seq<AgentId>, id: AgentId)
    ensures ReleaseLog(E, req, sorted + [id])
            == ReleaseLog(E, req, sorted) + Released(E, req, Elems(sorted + [id]), Dependents(E, id))
  {
    var s' := sorted + [id];
    assert s'[..|s'| - 1] == sorted;
  }

  /** An id whose in-degree reaches zero has all its requested dependencies
      sorted and was never enqueued before. */
  lemma Enqueue(E: seq<Edge>, req: set<AgentId>, queue0: seq<AgentId>, sorted: seq<AgentId>,
                seen: seq<AgentId>, inDegree: map<AgentId, int>, queue: seq<AgentId>,
                rest: seq<AgentId>, neighbor: AgentId)
    requires neighbor in req && inDegree.Keys == req && inDegree[neighbor] == 0
    requires Distinct(seen + queue) && Elems(seen + queue) <= req
    requires queue0 <= seen + queue
    requires forall x :: x in req ==>
               inDegree[x] == InCount(E, x, req - Elems(sorted)) + multiset(rest)[x]
    requires forall x :: x in req && x != neighbor ==> (inDegree[x] == 0 <==> x in seen + queue)
    requires neighbor !in seen + queue
    requires forall x :: x in queue ==> DepsAmong(E, req, x, Elems(sorted))
    ensures Pending(E, req, queue0, sorted, seen, inDegree, queue + [neighbor], rest)
  {
    InCountZero(E, neighbor, req - Elems(sorted));
    assert (seen + queue) + [neighbor] == seen + (queue + [neighbor]);
    DistinctAppend(seen + queue, neighbor);
    PrefixExtend(queue0, seen, queue, queue + [neighbor]);
  }

  /** Appending a dequeued id whose requested dependencies are all sorted keeps
      every sorted id after its requested dependencies. */
  lemma DepsAmongStep(E: seq<Edge>, req: set<AgentId>, sorted: seq<AgentId>, current: AgentId)
    requires SortedAfterDeps(E, req, sorted)
    requires DepsAmong(E, req, current, Elems(sorted))
    ensures SortedAfterDeps(E, req, sorted + [current])
  {
    var s := sorted + [current];
    forall j | 0 <= j < |s| ensures DepsAmong(E, req, s[j], Elems(s[..j])) {
      if j < |sorted| {
        assert s[..j] == sorted[..j];
      } else {
        assert s[..j] == sorted;
      }
    }
  }

  /** Dependencies sorted stay sorted as more ids are sorted. */
  lemma DepsAmongMono(E: seq<Edge>, req: set<AgentId>, x: AgentId, done: set<AgentId>, more: set<AgentId>)
    requires DepsAmong(E, req, x, done) && done <= more
    ensures DepsAmong(E, req, x, more)
  {
  }

  /** Marking `current` sorted moves its outgoing edges from the counts into
      the list of neighbours still to be decremented. */
  lemma ProcessCurrent(E: seq<Edge>, req: set<AgentId>, sorted: seq<AgentId>, current: AgentId,
                       inDegree: map<AgentId, int>)
    requires current in req && current !in sorted
    requires inDegree.Keys == req
    requires forall x :: x in req ==> inDegree[x] == InCount(E, x, req - Elems(sorted))
    ensures forall x :: x in req ==>
              inDegree[x] == InCount(E, x, req - Elems(sorted + [current])) + multiset(Dependents(E, current))[x]
  {
    assert req - Elems(sorted + [current]) == (req - Elems(sorted)) - {current};
    forall x | x in req
      ensures inDegree[x] == InCount(E, x, req - Elems(sorted + [current])) + multiset(Dependents(E, current))[x]
    {
      InCountRemove(E, x, req - Elems(sorted), current);
    }
  }

  /** An order in which every id follows its requested dependencies respects them. */
  lemma SortedRespects(E: seq<Edge>, config: seq<AgentConfig>, ids: seq<AgentId>, sorted: seq<AgentId>)
    requires E == Edges(config)
    requires SortedAfterDeps(E, Elems(ids), sorted)
    ensures RespectsDependencies(sorted, ids, config)
  {
    forall j, d | 0 <= j < |sorted| && d in ids && DependsOn(config, sorted[j], d)
      ensures d in sorted[..j]
    {
      assert DepsAmong(E, Elems(ids), sorted[j], Elems(sorted[..j]));
      assert d in Elems(ids);
    }
  }

  /** The requested ids left unsorted, each still with a positive in-degree,
      form a blocked set. */
  lemma StuckIsBlocked(config: seq<AgentConfig>, ids: seq<AgentId>, sorted: seq<AgentId>, stuck: set<AgentId>)
    requires Distinct(ids) && Distinct(sorted) && Elems(sorted) <= Elems(ids) && |sorted| != |ids|
    requires stuck == Elems(ids) - Elems(sorted)
    requires forall x :: x in stuck ==> InCount(Edges(config), x, stuck) != 0
    ensures Blocked(config, ids, stuck)
  {
    SetCardinality(ids);
    SetCardinality(sorted);
    assert Elems(ids) == Elems(sorted) + stuck && Elems(sorted) * stuck == {};
    assert |stuck| == |Elems(ids)| - |Elems(sorted)| != 0;
    forall x | x in stuck ensures DependsOnSome(config, x, stuck) {
      InCountZero(Edges(config), x, stuck);
      var d :| d in stuck && Edge(d, x) in Edges(config);
      assert DependsOn(config, x, d);
    }
  }

  /** A resolved order has the requested agents and leaves no blocked set. */
  lemma ResolvedOrderUnblocked(ids: seq<AgentId>, config: seq<AgentConfig>, order: seq<AgentId>)
    requires multiset(order) == multiset(ids) && RespectsDependencies(order, ids, config)
    ensures Elems(order) == Elems(ids)
    ensures !exists stuck :: Blocked(config, ids, stuck)
  {
    assert Elems(order) == Elems(ids) by {
      assert forall x :: x in order <==> multiset(order)[x] > 0;
      assert forall x :: x in ids <==> multiset(ids)[x] > 0;
    }
    forall stuck | Blocked(config, ids, stuck) ensures false {
      BlockedPreventsOrder(config, ids, stuck, order);
    }
  }
}
