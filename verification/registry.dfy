/**
  The node and edge registry of one Graph instance, as values: which nodes
  exist, the `@edges` list that stands in for GraphViz's missing edge lookup,
  and the `@dependencies` list of dependencies already expanded.
 */
module Registry {
  import opened Entities

  /** An edge `(a, b)` reads "b depends on a": it runs from the dependency to the dependent. */
  type Edge = (Id, Id)

  /** The bookkeeping of one Graph instance. */
  datatype State = State(nodes: seq<Id>, edges: seq<Edge>, visited: seq<Id>)

  /** A fresh instance: nothing drawn, nothing visited. */
  const Empty: State := State([], [], [])

  /** What `add_graph` receives from a cluster: its name, its nodes and its edges. */
  datatype Subgraph = Subgraph(name: Id, nodes: seq<Id>, edges: seq<Edge>)

  predicate NoDup<T(==)>(s: seq<T>) {
    forall i, j :: 0 <= i < j < |s| ==> s[i] != s[j]
  }

  /** The edge joins two drawn nodes, and its dependent really declares its dependency. */
  ghost predicate EdgeSound(u: Universe, s: State, e: Edge) {
    e.0 in s.nodes && e.1 in s.nodes && e.1 in u && e.0 in u[e.1].dependencies
  }

  /**
    What the builder keeps true of its bookkeeping: no node, edge or visited
    entry twice, nothing deleted or absent drawn or visited, and no edge that
    dangles or was not declared.
   */
  ghost predicate Inv(u: Universe, s: State) {
    && NoDup(s.nodes) && NoDup(s.edges) && NoDup(s.visited)
    && (forall x :: x in s.nodes ==> !IsDeletedOrAbsent(u, x))
    && (forall x :: x in s.visited ==> !IsDeletedOrAbsent(u, x))
    && (forall e :: e in s.edges ==> EdgeSound(u, s, e))
  }

  /** Bookkeeping only grows: every list keeps its old entries as a prefix. */
  predicate Grows(s: State, r: State) {
    s.nodes <= r.nodes && s.edges <= r.edges && s.visited <= r.visited
  }

  lemma PrefixMember<T>(a: seq<T>, b: seq<T>, x: T)
    requires a <= b && x in a
    ensures x in b
  {
    var i :| 0 <= i < |a| && a[i] == x;
    assert b[i] == x;
  }

  lemma PrefixMembers<T>(a: seq<T>, b: seq<T>)
    requires a <= b
    ensures forall x :: x in a ==> x in b
  {
    forall x | x in a ensures x in b {
      PrefixMember(a, b, x);
    }
  }

  lemma GrowsTransitive(s: State, t: State, r: State)
    requires Grows(s, t) && Grows(t, r)
    ensures Grows(s, r)
  {
  }

  /**
    `find_or_create_node`: the node already registered under the id is reused;
    otherwise `create_node` adds one, unless the thing is deleted or absent.
   */
  function WithNode(u: Universe, s: State, id: Id): (r: State)
    ensures r.edges == s.edges && r.visited == s.visited && s.nodes <= r.nodes
    ensures id in r.nodes <==> id in s.nodes || !IsDeletedOrAbsent(u, id)
    ensures forall x :: x in r.nodes ==> x in s.nodes || x == id
    ensures NoDup(s.nodes) ==> NoDup(r.nodes)
    ensures id in s.nodes ==> r == s
  {
    if id in s.nodes || IsDeletedOrAbsent(u, id) then s
    else s.(nodes := s.nodes + [id])
  }

  /** `create_edge`: the ordered pair is added to `@edges` (and drawn) only the first time. */
  function WithEdge(s: State, e: Edge): (r: State)
    ensures r.nodes == s.nodes && r.visited == s.visited && s.edges <= r.edges
    ensures e in r.edges
    ensures forall f :: f in r.edges ==> f in s.edges || f == e
    ensures NoDup(s.edges) ==> NoDup(r.edges)
    ensures e in s.edges ==> r == s
  {
    if e in s.edges then s else s.(edges := s.edges + [e])
  }

  /**
    `create_edges(nodeA, nodes)`: for each live dependency in order, find or
    create its node and wire an edge from it to `task`.
   */
  function WithEdges(u: Universe, s: State, task: Id, deps: seq<Id>): (r: State)
    ensures r.visited == s.visited && s.nodes <= r.nodes && s.edges <= r.edges
    ensures forall d :: d in deps && !IsDeletedOrAbsent(u, d) ==> d in r.nodes && (d, task) in r.edges
    ensures forall x :: x in r.nodes && x !in s.nodes ==> x in deps && !IsDeletedOrAbsent(u, x)
    ensures forall e :: e in r.edges && e !in s.edges ==> e.1 == task && e.0 in deps && !IsDeletedOrAbsent(u, e.0)
    decreases |deps|
  {
    if deps == [] then s
    else
      var next := if IsDeletedOrAbsent(u, deps[0]) then s else WithEdge(WithNode(u, s, deps[0]), (deps[0], task));
      var r := WithEdges(u, next, task, deps[1..]);
      PrefixMembers(next.nodes, r.nodes);
      PrefixMembers(next.edges, r.edges);
      r
  }

  /** Finding or creating the same node twice creates it at most once. */
  lemma WithNodeIdempotent(u: Universe, s: State, id: Id)
    ensures WithNode(u, WithNode(u, s, id), id) == WithNode(u, s, id)
  {
  }

  /** Creating the same ordered edge twice adds it once. */
  lemma WithEdgeIdempotent(s: State, e: Edge)
    ensures WithEdge(WithEdge(s, e), e) == WithEdge(s, e)
  {
  }

  /** Finding or creating a node keeps the registry invariant. */
  lemma WithNodeKeepsInv(u: Universe, s: State, id: Id)
    requires Inv(u, s)
    ensures Inv(u, WithNode(u, s, id))
  {
  }

  /**
    Wiring the declared dependencies of a drawn, live task keeps the registry
    invariant: every new edge joins two drawn nodes and is declared.
   */
  lemma {:induction false} WithEdgesKeepsInv(u: Universe, s: State, task: Id, deps: seq<Id>)
    requires Inv(u, s)
    requires task in s.nodes && task in u
    requires forall d :: d in deps ==> d in u[task].dependencies
    ensures Inv(u, WithEdges(u, s, task, deps))
    decreases |deps|
  {
    if deps != [] {
      var d := deps[0];
      var next := if IsDeletedOrAbsent(u, d) then s else WithEdge(WithNode(u, s, d), (d, task));
      if !IsDeletedOrAbsent(u, d) {
        var n := WithNode(u, s, d);
        WithNodeKeepsInv(u, s, d);
        PrefixMember(s.nodes, n.nodes, task);
        forall e | e in next.edges ensures EdgeSound(u, next, e) {
          if e in n.edges {
            assert EdgeSound(u, n, e);
          }
        }
      }
      assert task in next.nodes by {
        PrefixMember(s.nodes, next.nodes, task);
      }
      WithEdgesKeepsInv(u, next, task, deps[1..]);
    }
  }
}
