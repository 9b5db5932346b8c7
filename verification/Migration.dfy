/**
 Schema-migration planner: breadth-first search over the registered migration
 edges, and the application of the path it finds to a rulebook.
 */
module Migration {
  import opened Options
  import opened MigrationSearch

  // ---------------------------------------------------------------------
  // The search
  // ---------------------------------------------------------------------

  lemma TargetsAre(edges: seq<Edge>)
    ensures forall i :: 0 <= i < |edges| ==> edges[i].dst in Targets(edges)
  {
  }

  /**
   One pass over the registry for the popped entry `current`: either a hit on
   `dst`, or every unvisited destination is marked and queued.
   */
  method Expand(edges: seq<Edge>, src: Version, dst: Version, current: Entry, visited0: set<Version>,
                queue0: seq<Entry>, ghost s0: Search, ghost nodes: set<Version>)
    returns (hit: seq<Edge>, visited: set<Version>, queue: seq<Entry>, ghost s: Search)
    requires s0.dist.Keys == visited0 && s0.queue == queue0 && dst !in visited0
    requires Scanning(edges, src, s0, current, 0) && visited0 + Targets(edges) <= nodes
    ensures hit != [] ==> IsFirstChain(edges, src, dst, hit) && |hit| == |current.path| + 1
    ensures hit == [] ==>
              && s.dist.Keys == visited && s.queue == queue && dst !in visited && s.done == s0.done
              && visited <= nodes
              && Scanning(edges, src, s, current, |edges|)
  {
    hit, visited, queue, s := [], visited0, queue0, s0;
    TargetsAre(edges);
    for i := 0 to |edges|
      invariant hit == [] && s.dist.Keys == visited && s.queue == queue && s.done == s0.done
      invariant Scanning(edges, src, s, current, i)
      invariant visited <= nodes && dst !in visited
    {
      hit, visited, queue, s := Follow(edges, src, dst, current, i, visited, queue, s, nodes);
      if hit != [] {
        return;
      }
    }
  }

  /** One edge of the pass. */
  method Follow(edges: seq<Edge>, src: Version, dst: Version, current: Entry, i: nat, visited0: set<Version>,
                queue0: seq<Entry>, ghost s0: Search, ghost nodes: set<Version>)
    returns (hit: seq<Edge>, visited: set<Version>, queue: seq<Entry>, ghost s: Search)
    requires visited0 <= nodes && i < |edges| && edges[i].dst in nodes
    requires s0.dist.Keys == visited0 && s0.queue == queue0 && dst !in visited0
    requires Scanning(edges, src, s0, current, i)
    ensures hit != [] ==> IsFirstChain(edges, src, dst, hit) && |hit| == |current.path| + 1
    ensures hit == [] ==>
              && s.dist.Keys == visited && s.queue == queue && dst !in visited && s.done == s0.done
              && visited <= nodes
              && Scanning(edges, src, s, current, i + 1)
  {
    hit, visited, queue, s := [], visited0, queue0, s0;
    var e := edges[i];
    EdgeOutcome(edges, src, s0, current, i);
    if e.src == current.node && e.dst !in visited {
      var newPath := current.path + [e];
      if e.dst == dst {
        return newPath, visited, queue, s;
      }
      queue, s := queue + [Entry(e.dst, newPath)], Grown(s0, current, e);
      visited := visited + {e.dst};
    }
  }

  /**
   `edges` are the registered (source, destination) pairs in the order the
   registry is scanned; of several shortest chains that order decides.
   */
  method FindMigrationPath(edges: seq<Edge>, src: Version, dst: Version) returns (path: seq<Edge>)
    ensures path != [] ==>
              src != dst && IsShortestChain(edges, src, dst, path) && IsFirstChain(edges, src, dst, path)
    ensures path == [] <==> src == dst || !Reachable(edges, src, dst)
  {
    if src == dst {
      return [];
    }
    var visited := {src};
    var queue := [Entry(src, [])];
    ghost var s := Search(queue, {}, map[src := 0]);
    ghost var nodes := {src} + Targets(edges);
    EmptyChainIsFirst(edges, src);
    while queue != []
      invariant s.dist.Keys == visited && s.queue == queue
      invariant SearchOk(edges, src, s) && QueueOrdered(edges, src, queue)
      invariant visited <= nodes && dst !in visited
      decreases nodes - s.done
    {
      EveryChainIsLonger(edges, src, s, dst);
      var current := queue[0];
      queue := queue[1..];
      ghost var popped := Search(queue, s.done + {current.node}, s.dist);
      PopStartsScan(edges, src, s, popped);
      path, visited, queue, s := Expand(edges, src, dst, current, visited, queue, popped, nodes);
      if path != [] {
        return;
      }
      ScanFinish(edges, src, s, current);
    }
    UnreachableWhenDrained(edges, src, s, dst);
    return [];
  }

  // ---------------------------------------------------------------------
  // Applying a path
  // ---------------------------------------------------------------------

  /** A parsed rulebook: its metadata block, when it has one, and the rest of the document. */
  datatype Rulebook = Rulebook(metadata: Option<map<string, string>>, sections: map<string, string>)

  type Registry = map<Edge, Rulebook -> Rulebook>

  datatype LogLine =
    | SkippedNoVersion
    | AlreadyAt(version: Version)
    | NoPath(src: Version, dst: Version)
    | Migrated(step: Edge)

  function Metadata(rb: Rulebook): map<string, string>
  {
    if rb.metadata.Some? then rb.metadata.value else map[]
  }

  function SchemaVersion(rb: Rulebook): Version
  {
    var meta := Metadata(rb);
    if "schema_version" in meta then meta["schema_version"] else ""
  }

  ghost predicate Enumerates(order: seq<Edge>, registry: Registry)
  {
    forall e :: e in order <==> e in registry
  }

  /** Each registered step writes the destination version it is registered for. */
  ghost predicate StampsDestination(registry: Registry)
  {
    forall e, rb :: e in registry ==> SchemaVersion(registry[e](rb)) == e.dst
  }

  ghost function ApplyAll(registry: Registry, path: seq<Edge>, rb: Rulebook): Rulebook
    requires forall e <- path :: e in registry
  {
    if path == [] then rb
    else registry[path[|path| - 1]](ApplyAll(registry, path[..|path| - 1], rb))
  }

  ghost function StepLog(path: seq<Edge>): seq<LogLine>
  {
    seq(|path|, i requires 0 <= i < |path| => Migrated(path[i]))
  }

  /** The four outcomes of a migration request, told apart by the rulebook's version and by reachability. */
  method MigrateRulebook(registry: Registry, order: seq<Edge>, rulebook: Rulebook, target: Version)
    returns (result: Rulebook, log: seq<LogLine>)
    requires Enumerates(order, registry)
    ensures SchemaVersion(rulebook) == "" ==> result == rulebook && log == [SkippedNoVersion]
    ensures SchemaVersion(rulebook) == target != "" ==> result == rulebook && log == [AlreadyAt(target)]
    ensures SchemaVersion(rulebook) !in ["", target] && !Reachable(order, SchemaVersion(rulebook), target) ==>
              result == rulebook && log == [NoPath(SchemaVersion(rulebook), target)]
    ensures SchemaVersion(rulebook) !in ["", target] && Reachable(order, SchemaVersion(rulebook), target) ==>
              exists path ::
                && IsShortestChain(order, SchemaVersion(rulebook), target, path)
                && IsFirstChain(order, SchemaVersion(rulebook), target, path)
                && (forall e <- path :: e in registry)
                && result == ApplyAll(registry, path, rulebook)
                && log == StepLog(path)
    ensures SchemaVersion(rulebook) != "" && Reachable(order, SchemaVersion(rulebook), target) && StampsDestination(registry)
            ==> SchemaVersion(result) == target
  {
    var current := SchemaVersion(rulebook);
    if current == "" {
      return rulebook, [SkippedNoVersion];
    }
    if current == target {
      return rulebook, [AlreadyAt(target)];
    }
    var path := FindMigrationPath(order, current, target);
    if path == [] {
      return rulebook, [NoPath(current, target)];
    }
    assert Reachable(order, current, target);
    ChainIsRegistered(order, current, target, path);
    result, log := ApplyPath(registry, path, rulebook);
  }

  /** The loop over the path: one step and one log line for each edge. */
  method ApplyPath(registry: Registry, path: seq<Edge>, rulebook: Rulebook) returns (result: Rulebook, log: seq<LogLine>)
    requires forall e <- path :: e in registry
    ensures result == ApplyAll(registry, path, rulebook) && log == StepLog(path)
    ensures path != [] && StampsDestination(registry) ==> SchemaVersion(result) == path[|path| - 1].dst
  {
    result, log := rulebook, [];
    for i := 0 to |path|
      invariant result == ApplyAll(registry, path[..i], rulebook)
      invariant log == StepLog(path[..i])
      invariant i > 0 && StampsDestination(registry) ==> SchemaVersion(result) == path[i - 1].dst
    {
      assert path[..i + 1][..i] == path[..i];
      result := registry[path[i]](result);
      log := log + [Migrated(path[i])];
    }
    assert path[..|path|] == path;
  }

  // ---------------------------------------------------------------------
  // The registered steps
  // ---------------------------------------------------------------------

  function AddDescription(rb: Rulebook): Rulebook
  {
    var meta := Metadata(rb)["schema_version" := "1.1.0"];
    var described := if "description" in meta then meta else meta["description" := ""];
    rb.(metadata := Some(described))
  }

  const MIGRATIONS: Registry := map[Edge("1.0.0", "1.1.0") := AddDescription]

  /** The shipped registry stamps destinations, and its step loses nothing: every other key keeps its value. */
  lemma ShippedStepIsConservative(rb: Rulebook)
    ensures StampsDestination(MIGRATIONS)
    ensures AddDescription(rb).sections == rb.sections
    ensures Metadata(AddDescription(rb)).Keys == Metadata(rb).Keys + {"schema_version", "description"}
    ensures forall k <- Metadata(rb) :: k != "schema_version" ==> Metadata(AddDescription(rb))[k] == Metadata(rb)[k]
    ensures AddDescription(AddDescription(rb)) == AddDescription(rb)
  {
    var e := Edge("1.0.0", "1.1.0");
    forall rb: Rulebook
      ensures SchemaVersion(MIGRATIONS[e](rb)) == "1.1.0"
    {
      assert MIGRATIONS[e](rb) == AddDescription(rb);
    }
    assert Metadata(AddDescription(AddDescription(rb))) == Metadata(AddDescription(rb));
  }
}
