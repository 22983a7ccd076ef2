# twdeps dependency graph, in Dafny

This project models `TaskWarrior::Dependencies::Graph` (`lib/twdeps/graph.rb`). The class turns a
TaskWarrior task, or a project, into a GraphViz graph of "depends on" edges.

- `<<` takes a task. It draws the task's node and an edge from each live dependency to it. Then it
  recurses into each live dependency the first time this graph instance sees it. The instance
  remembers these dependencies in its `@dependencies` list, so cycles and diamonds terminate.
- `<<` takes a project. It fills a fresh nested `Graph` with the project's tasks and attaches that
  graph as a cluster.
- Nodes are looked up by presenter id and created at most once. A deleted task or a nil reference
  never gets a node.
- Edges are recorded in `@edges` and drawn only once per ordered pair, because GraphViz has no edge
  lookup.

The model has two layers.

- **Specification functions** on a value `State(nodes, edges, visited)`. `Registry.WithNode`,
  `WithEdge` and `WithEdges` model `find_or_create_node`/`create_node`, `create_edge` and
  `create_edges`. `Builder.Accumulated` and `Builder.Expanded` model the task branch of `<<` and
  its expansion loop. `Builder.AccumulatedAll` and `Builder.Cluster` model the project branch.
- **The class** `DependencyGraph.Graph`. Its fields are `nodes`, `edges`, `visited` (`@dependencies`)
  and `clusters`. Each method ensures its new bookkeeping equals the matching specification function
  applied to the old bookkeeping. The loops stay `while` loops. The recursive `self << dependency` is a call from
  `ResolveDependencies`, the loop of `<<`, back to `AddTask`.

Tasks live in a `Universe`, a map from id to `Task(status, dependencies)`. A dependency id that is
not a key of the universe is a nil reference. Recursion terminates because each recursive call first
adds a new universe id to `visited`. The measure is the number of universe ids not yet visited.

The main theorem is `Closure.BuildIsReachableClosure`. Accumulating a list of roots into a fresh
graph draws exactly the live tasks reachable from the roots along live dependencies, each once. It
also draws exactly one edge from each live declared dependency to each such task. This holds on
cyclic data too. `Scenarios` works through a diamond, a two-task cycle, a cycle back into the
root and a deleted dependency.

Two behaviours of the code are easy to misread:

- A nil passed straight to `<<` does not reach the deleted-or-absent check at line 41.
  `nil.respond_to?(:dependencies)` is false, so the code takes the project branch and raises before
  `add_graph` runs (at the latest on `nil.tasks`). A project containing a nil task also raises before
  `add_graph` runs, inside the cluster's `<<`. The model returns `ok == false` from `Graph.Add` and
  changes nothing.
- The task that `<<` was called with is not added to `@dependencies`. On cyclic data the cycle can
  lead back to it and expand it once more. This nested expansion starts while the root's own loop is
  still running, so it can take over the root's remaining dependencies. With A→[B, C] and B→[A],
  the nested expansion of A marks and expands C, and the root's loop then skips C
  (`Scenarios.ReentryRevisitsA`). The result is still the reachable closure
  (`Closure.BuildIsReachableClosure`). A second `<<` of the same task made after the first has
  returned adds nothing (`Closure.AccumulatedIdempotent`).

## Model

| member | source | states |
|---|---|---|
| `Entities.IsDeletedOrAbsent` | lib/twdeps/graph.rb:20-22 | A nil reference is always skipped. A thing that is not skipped resolves to a task whose status is not deleted. |
| `Entities.Presenter` | lib/twdeps/graph.rb:105-116 | Only nil gets the null presentation. A thing that resolves to a task gets a task presentation keyed by its own id. A project gets a project presentation keyed by its name. |
| `Registry.WithNode` | lib/twdeps/graph.rb:85-93 | After find-or-create, the id has a node iff it already had one or the thing is live. Every other node was already there. An existing node means nothing changes. Nodes stay duplicate-free. Edges and visited are untouched. |
| `Registry.WithNodeIdempotent` | lib/twdeps/graph.rb:85-87 | Finding or creating the same node twice is the same as doing it once. |
| `Registry.WithEdge` | lib/twdeps/graph.rb:95-103 | The ordered pair is in `@edges` afterwards. No other edge is added. It is not added again if present. `@edges` stays duplicate-free. |
| `Registry.WithEdgeIdempotent` | lib/twdeps/graph.rb:95-99 | Creating the same ordered edge twice adds it once. |
| `Registry.WithEdges` | lib/twdeps/graph.rb:75-83 | Every live dependency gets a node and an edge from it to the task. Every new node is a live dependency. Every new edge runs from a live dependency to the task. Visited is untouched, and nodes and edges keep their old entries as a prefix. |
| `Registry.WithEdgesKeepsInv` | lib/twdeps/graph.rb:75-101 | Wiring a drawn live task's declared dependencies keeps the invariant. The invariant: no duplicate nodes, edges or visited entries; nothing deleted or absent drawn or visited; every edge joins drawn nodes and is declared. |
| `Builder.UnvisitedShrinks` | lib/twdeps/graph.rb:47-49 | Marking a live, unvisited dependency visited before recursing strictly lowers the termination measure. |
| `Builder.Accumulated` | lib/twdeps/graph.rb:38-52 | The task branch of `<<`. Nodes, `@edges` and `@dependencies` only gain entries and never lose or change earlier ones. A deleted or absent task changes nothing. |
| `Builder.Expanded` | lib/twdeps/graph.rb:45-51 | The loop over unknown dependencies only appends to the bookkeeping. |
| `Builder.AccumulatedAll` | lib/twdeps/graph.rb:58-60 | Feeding a project's tasks one by one only appends to the bookkeeping. |
| `Builder.Cluster` | lib/twdeps/graph.rb:53-64 | A cluster is built and attached iff every task of the project resolves. It is named by the project's presenter. Its content comes from empty bookkeeping. |
| `Builder.AccumulatedKeepsInv` | lib/twdeps/graph.rb:38-52 | Accumulating a task keeps the invariant. In particular `@dependencies` never holds a duplicate or a deleted or absent entry, and no node or edge is duplicated. |
| `Builder.ExpandedKeepsInv` | lib/twdeps/graph.rb:46-51 | Only live dependencies not yet visited are appended to `@dependencies`, so the invariant holds. |
| `Builder.AccumulatedAllKeepsInv` | lib/twdeps/graph.rb:58-60 | Accumulating a sequence of tasks keeps the invariant. |
| `Closure.AccumulatedCloses` | lib/twdeps/graph.rb:38-52 | After accumulating a live task, the task is closed: it is drawn, and every live dependency is visited and wired to it. Every dependency this call marked visited is closed too. |
| `Closure.ExpandedCloses` | lib/twdeps/graph.rb:45-51 | After the loop, every live dependency is visited and everything newly visited is closed. |
| `Closure.AccumulatedStaysSound` | lib/twdeps/graph.rb:38-52 | Accumulating a task reachable from the roots draws and visits only tasks reachable from the roots. |
| `Closure.ExpandedStaysSound` | lib/twdeps/graph.rb:45-51 | Expanding dependencies reachable from the roots keeps everything drawn and visited reachable. |
| `Closure.AccumulatedCompletes` | lib/twdeps/graph.rb:38-52 | Accumulating a task keeps all previous roots and visited entries closed, and adds the new task to the closed roots. |
| `Closure.BuildIsReachableClosure` | lib/twdeps/graph.rb:38-65 | From empty bookkeeping, the nodes are exactly the live tasks reachable from the roots. The edges are exactly the pairs (live declared dependency, reachable dependent). Nothing is duplicated and the invariant holds, cycles included. |
| `Closure.ClusterIsReachableClosure` | lib/twdeps/graph.rb:53-64 | A project's cluster holds exactly the closure of its own tasks, without duplicates. The parent's bookkeeping plays no part. |
| `Closure.WithEdgesNoOp` | lib/twdeps/graph.rb:75-83 | `create_edges` changes nothing when every live dependency is already drawn and wired. |
| `Closure.ExpandedNoOp` | lib/twdeps/graph.rb:46-51 | The expansion loop changes nothing when every live dependency is already in `@dependencies`. |
| `Closure.AccumulatedIdempotent` | lib/twdeps/graph.rb:38-52 | Accumulating the same task a second time changes nothing, so no node, edge or visit is duplicated. |
| `Closure.EdgeFromDependencyToDependent` | lib/twdeps/graph.rb:42-43 | After a live task is accumulated, each live dependency is drawn. There is an edge from the dependency to the task. |
| `Scenarios.DiamondFromA` | lib/twdeps/graph.rb:38-52 | A diamond A→{B,C}→D gives four nodes and the four edges (B,A), (C,A), (D,B), (D,C). D is visited once. |
| `Scenarios.CycleFromA` | lib/twdeps/graph.rb:38-52 | A two-task cycle terminates with two nodes and one edge each way. |
| `Scenarios.ReentryFromA` | lib/twdeps/graph.rb:38-52 | With A→[B, C] and B→[A], `<< A` draws three nodes and the edges (B,A), (C,A), (A,B). It visits B, then A, then C. |
| `Scenarios.ReentryRevisitsA` | lib/twdeps/graph.rb:42-51 | The nested expansion of the root A, reached through B, reuses A's node and edges. It skips the visited B, then marks and expands C. So it is not a no-op. |
| `Scenarios.DeletedDependencySkipped` | lib/twdeps/graph.rb:41-51 | A deleted dependency and a nil dependency get no node and no edge. A task behind the deleted one is never reached through it. |
| `DependencyGraph.Graph.constructor` | lib/twdeps/graph.rb:27-36 | A new graph has the given name, no nodes, no edges, an empty `@dependencies` and no clusters, and satisfies the invariant. |
| `DependencyGraph.Graph.Add` | lib/twdeps/graph.rb:38-65 | `<<` succeeds iff the thing is a task that resolves or a project whose tasks all resolve. A task accumulates into the bookkeeping as `Builder.Accumulated`. A project leaves the bookkeeping unchanged and appends its cluster. The invariant is kept. |
| `DependencyGraph.Graph.AddTask` | lib/twdeps/graph.rb:39-52 | The task branch, through its loop and recursive call, leaves exactly `Builder.Accumulated` of the old bookkeeping. Clusters are unchanged. |
| `DependencyGraph.Graph.ResolveDependencies` | lib/twdeps/graph.rb:45-51 | The loop over the task's dependencies, with `self << dependency` for each new live one, leaves exactly `Builder.Expanded` of the old bookkeeping. Clusters are unchanged. |
| `DependencyGraph.Graph.AddProject` | lib/twdeps/graph.rb:53-64 | A fresh cluster graph accumulates the project's tasks. The parent's nodes, edges and `@dependencies` are unchanged. `clusters` gains `Builder.Cluster`'s subgraph iff every task resolves. |
| `DependencyGraph.Graph.CreateEdges` | lib/twdeps/graph.rb:75-83 | The loop leaves exactly `Registry.WithEdges` of the old bookkeeping. |
| `DependencyGraph.Graph.FindOrCreateNode` | lib/twdeps/graph.rb:85-87 | Returns the node iff it existed or the thing is live. Leaves exactly `Registry.WithNode` of the old bookkeeping. |
| `DependencyGraph.Graph.CreateNode` | lib/twdeps/graph.rb:89-93 | A node is appended and returned iff the thing is live. Nothing else changes. |
| `DependencyGraph.Graph.CreateEdge` | lib/twdeps/graph.rb:95-103 | Leaves exactly `Registry.WithEdge` of the old bookkeeping: the pair is appended to `@edges` unless already there. |

## Left out

- `render` and `Graph.formats` (lines 15-16, 67-69): they hand the graph to GraphViz's output and its format list, which is external rendering.
- GraphViz attributes, labels, tooltips and the `dir => 'back'` arrow style (lines 29, 91, 101): presentation data from presenter classes that are not part of this model. A node is its id only.
- The `respond_to?` checks (lines 28, 39, 110) are replaced by the `Thing` variant. `initialize`'s two forms (a presenter or a raw id) both become the graph's name; the presenter's attributes are dropped.
- A nil passed to `<<`, or a nil task inside a project, raises in the source (at the latest on `nil.tasks`). The model returns `ok == false` with nothing changed instead of modelling the exception.
- `add_graph`'s merge semantics are GraphViz's. Attaching a cluster is modelled as appending a `Subgraph(name, nodes, edges)` value to `clusters`.
- Ruby object equality in `@dependencies.include?` and `@edges.include?` is modelled as equality of ids. Dependencies are always tasks, never projects.
