/**
  `TaskWarrior::Dependencies::Graph`: an object whose `<<` draws a task's
  dependency closure, or a project's cluster, into its GraphViz graph while
  keeping its own lists of drawn edges and expanded dependencies.

  GraphViz is replaced by the `nodes`, `edges` and `clusters` fields: nodes
  are looked up by presenter id, and since every drawn edge is recorded in
  `@edges` before it is drawn, one list stands for both.
 */
module DependencyGraph {
  import opened Entities
  import opened Registry
  import opened Builder

  class Graph {
    /** The task objects reachable by id; a missing id is a nil reference. */
    const universe: Universe
    /** The GraphViz graph's name: a presenter's id, or the raw id given. */
    const name: Id
    /** The nodes drawn, keyed by presenter id, in order of creation. */
    var nodes: seq<Id>
    /** `@edges`: the (dependency, dependent) pairs drawn, in order. */
    var edges: seq<Edge>
    /** `@dependencies`: the dependencies already expanded by this instance. */
    var visited: seq<Id>
    /** The subgraphs handed to `add_graph`, in order. */
    var clusters: seq<Subgraph>

    function Bookkeeping(): State
      reads this
    {
      State(nodes, edges, visited)
    }

    ghost predicate Valid()
      reads this
    {
      Inv(universe, Bookkeeping())
    }

    /** `initialize`: a graph with the given name and empty bookkeeping. */
    constructor (name: Id, universe: Universe)
      ensures this.name == name && this.universe == universe
      ensures Bookkeeping() == Empty && clusters == []
      ensures Valid()
    {
      this.name := name;
      this.universe := universe;
      nodes := [];
      edges := [];
      visited := [];
      clusters := [];
    }

    /**
      `<<`: a task is accumulated with its dependency closure; a project is
      accumulated into a fresh cluster that is then attached. A nil thing (a
      task reference that does not resolve) answers no `dependencies`, is
      taken for a project and fails, as does a project with a nil task:
      `ok` is false and nothing changes.
     */
    method Add(thing: Thing) returns (ok: bool)
      requires Valid()
      modifies this
      ensures Valid()
      ensures ok <==> match thing
        case TaskRef(id) => id in universe
        case ProjectRef(project) => Cluster(universe, project).Some?
      ensures Bookkeeping() == if thing.TaskRef? then Accumulated(universe, old(Bookkeeping()), thing.id) else old(Bookkeeping())
      ensures clusters == if thing.ProjectRef? && ok then old(clusters) + [Cluster(universe, thing.project).value] else old(clusters)
      decreases if thing.ProjectRef? then 2 else 0
    {
      match Presenter(universe, thing)
      case TaskPresentation(id) =>
        AddTask(id);
        AccumulatedKeepsInv(universe, old(Bookkeeping()), id);
        ok := true;
      case ProjectPresentation(_) =>
        ok := AddProject(thing.project);
      case NullPresentation =>
        ok := false;
    }

    /**
      The task branch of `<<`, also what `self << dependency` reaches for a
      live dependency: skip a deleted or absent task; otherwise find or create
      its node, wire its dependencies to it, and expand each live dependency
      not yet in `@dependencies` after adding it there.
     */
    method AddTask(id: Id)
      modifies this
      ensures Bookkeeping() == Accumulated(universe, old(Bookkeeping()), id)
      ensures clusters == old(clusters)
      decreases Unvisited(universe, Bookkeeping()), 1
    {
      if IsDeletedOrAbsent(universe, id) {
        return;
      }
      var nodeA := FindOrCreateNode(id);
      var dependencies := universe[id].dependencies;
      CreateEdges(nodeA.value, dependencies);
      ResolveDependencies(dependencies);
    }

    /**
      The loop of `<<` over the task's dependencies: each live one not yet in
      `@dependencies` is added there and then accumulated with `self <<`.
     */
    method ResolveDependencies(dependencies: seq<Id>)
      modifies this
      ensures Bookkeeping() == Expanded(universe, old(Bookkeeping()), dependencies)
      ensures clusters == old(clusters)
      decreases Unvisited(universe, Bookkeeping()), 0
    {
      var i := 0;
      while i < |dependencies|
        invariant 0 <= i <= |dependencies|
        invariant Expanded(universe, Bookkeeping(), dependencies[i..]) == Expanded(universe, old(Bookkeeping()), dependencies)
        invariant old(visited) <= visited
        invariant clusters == old(clusters)
      {
        var dependency := dependencies[i];
        ghost var before := Bookkeeping();
        ExpandedAt(universe, before, dependencies, i);
        if !(dependency in visited || IsDeletedOrAbsent(universe, dependency)) {
          visited := visited + [dependency];
          UnvisitedShrinks(universe, before, dependency);
          UnvisitedMonotone(universe, old(Bookkeeping()), before);
          AddTask(dependency);
        }
        i := i + 1;
      }
    }

    /** The project branch of `<<`: fill a fresh cluster with the project's tasks, then attach it. */
    method AddProject(project: Project) returns (ok: bool)
      requires Valid()
      modifies this
      ensures Valid()
      ensures ok <==> Cluster(universe, project).Some?
      ensures Bookkeeping() == old(Bookkeeping())
      ensures clusters == if ok then old(clusters) + [Cluster(universe, project).value] else old(clusters)
      decreases 1
    {
      var cluster := new Graph(Presenter(universe, ProjectRef(project)).id, universe);
      var i := 0;
      while i < |project.tasks|
        invariant 0 <= i <= |project.tasks|
        invariant fresh(cluster) && cluster.Valid()
        invariant cluster.universe == universe && cluster.name == project.name
        invariant forall k :: 0 <= k < i ==> project.tasks[k] in universe
        invariant AccumulatedAll(universe, cluster.Bookkeeping(), project.tasks[i..]) == AccumulatedAll(universe, Empty, project.tasks)
        invariant Bookkeeping() == old(Bookkeeping()) && clusters == old(clusters)
      {
        var task := project.tasks[i];
        assert project.tasks[i..][1..] == project.tasks[i + 1..];
        var accepted := cluster.Add(TaskRef(task));
        if !accepted {
          return false;
        }
        i := i + 1;
      }
      clusters := clusters + [Subgraph(cluster.name, cluster.nodes, cluster.edges)];
      ok := true;
    }

    /** `create_edges(nodeA, nodes)`: wire an edge from each live dependency's node to `nodeA`. */
    method CreateEdges(nodeA: Id, dependencies: seq<Id>)
      modifies this
      ensures Bookkeeping() == WithEdges(universe, old(Bookkeeping()), nodeA, dependencies)
      ensures clusters == old(clusters)
    {
      var i := 0;
      while i < |dependencies|
        invariant 0 <= i <= |dependencies|
        invariant WithEdges(universe, Bookkeeping(), nodeA, dependencies[i..]) == WithEdges(universe, old(Bookkeeping()), nodeA, dependencies)
        invariant clusters == old(clusters)
      {
        var node := dependencies[i];
        assert dependencies[i..][1..] == dependencies[i + 1..];
        if !IsDeletedOrAbsent(universe, node) {
          var nodeB := FindOrCreateNode(node);
          CreateEdge(nodeB.value, nodeA);
        }
        i := i + 1;
      }
    }

    /** `find_or_create_node`: the node registered under the id, else whatever `create_node` gives. */
    method FindOrCreateNode(id: Id) returns (node: Option<Id>)
      modifies this
      ensures node == if id in old(nodes) || !IsDeletedOrAbsent(universe, id) then Some(id) else None
      ensures Bookkeeping() == WithNode(universe, old(Bookkeeping()), id)
      ensures clusters == old(clusters)
    {
      if id in nodes {
        node := Some(id);
      } else {
        node := CreateNode(id);
      }
    }

    /** `create_node`: draw a node for a live thing; a deleted or absent thing gets none. */
    method CreateNode(id: Id) returns (node: Option<Id>)
      modifies this
      ensures node.Some? <==> !IsDeletedOrAbsent(universe, id)
      ensures node.Some? ==> node.value == id
      ensures nodes == if node.Some? then old(nodes) + [id] else old(nodes)
      ensures edges == old(edges) && visited == old(visited) && clusters == old(clusters)
    {
      if !IsDeletedOrAbsent(universe, id) {
        nodes := nodes + [id];
        node := Some(id);
      } else {
        node := None;
      }
    }

    /** `create_edge(nodeA, nodeB)`: record and draw the edge "nodeB depends on nodeA" unless `@edges` has it. */
    method CreateEdge(nodeA: Id, nodeB: Id)
      modifies this
      ensures Bookkeeping() == WithEdge(old(Bookkeeping()), (nodeA, nodeB))
      ensures clusters == old(clusters)
    {
      var edge := (nodeA, nodeB);
      if edge !in edges {
        edges := edges + [edge];
      }
    }
  }
}
