/**
  What the accumulation builds: exactly the live tasks reachable from the
  accumulated roots along live dependencies, with exactly one edge per
  declared (dependency, dependent) pair among them, on cyclic and diamond
  dependency data alike; and accumulating a task again, once the first call
  has returned, adds nothing.
 */
module Closure {
  import opened Entities
  import opened Registry
  import opened Builder

  /** A walk from `p[0]` along declared dependencies through live tasks only. */
  ghost predicate IsPath(u: Universe, p: seq<Id>) {
    && |p| > 0
    && (forall i :: 0 <= i < |p| ==> !IsDeletedOrAbsent(u, p[i]))
    && (forall i :: 0 <= i < |p| - 1 ==> p[i] in u && p[i + 1] in u[p[i]].dependencies)
  }

  ghost predicate Reachable(u: Universe, root: Id, x: Id) {
    exists p :: IsPath(u, p) && p[0] == root && p[|p| - 1] == x
  }

  ghost predicate ReachableFrom(u: Universe, roots: seq<Id>, x: Id) {
    exists root :: root in roots && Reachable(u, root, x)
  }

  lemma ReachableSelf(u: Universe, root: Id)
    requires !IsDeletedOrAbsent(u, root)
    ensures Reachable(u, root, root)
  {
    assert IsPath(u, [root]);
  }

  lemma ReachableStep(u: Universe, root: Id, x: Id, d: Id)
    requires Reachable(u, root, x) && x in u && d in u[x].dependencies && !IsDeletedOrAbsent(u, d)
    ensures Reachable(u, root, d)
  {
    var p :| IsPath(u, p) && p[0] == root && p[|p| - 1] == x;
    var q := p + [d];
    assert IsPath(u, q);
    assert q[0] == root && q[|q| - 1] == d;
  }

  lemma ReachableFromStep(u: Universe, roots: seq<Id>, x: Id, d: Id)
    requires ReachableFrom(u, roots, x) && x in u && d in u[x].dependencies && !IsDeletedOrAbsent(u, d)
    ensures ReachableFrom(u, roots, d)
  {
    var root :| root in roots && Reachable(u, root, x);
    ReachableStep(u, root, x, d);
  }

  /**
    `v` has been fully expanded in `s`: it is drawn, and each of its live
    dependencies is visited and wired to it.
   */
  ghost predicate Closed(u: Universe, s: State, v: Id) {
    && v in s.nodes && v in u
    && forall d :: d in u[v].dependencies && !IsDeletedOrAbsent(u, d) ==> d in s.visited && (d, v) in s.edges
  }

  lemma ClosedGrows(u: Universe, s: State, r: State, v: Id)
    requires Closed(u, s, v) && Grows(s, r)
    ensures Closed(u, r, v)
  {
  }

  /**
    After accumulating a live task it is closed, and so is every dependency
    the call marked visited: the expansion is complete even though the task
    itself is not marked visited.
   */
  lemma {:induction false} AccumulatedCloses(u: Universe, s: State, id: Id)
    ensures !IsDeletedOrAbsent(u, id) ==> Closed(u, Accumulated(u, s, id), id)
    ensures forall v :: v in Accumulated(u, s, id).visited && v !in s.visited ==> Closed(u, Accumulated(u, s, id), v)
    decreases Unvisited(u, s), 1, 0
  {
    if !IsDeletedOrAbsent(u, id) {
      var deps := u[id].dependencies;
      var n := WithNode(u, s, id);
      var w := WithEdges(u, n, id, deps);
      var r := Expanded(u, w, deps);
      assert r == Accumulated(u, s, id);
      assert w.visited == s.visited;
      ExpandedCloses(u, w, deps);
      PrefixMember(n.nodes, w.nodes, id);
      PrefixMember(w.nodes, r.nodes, id);
      forall d | d in deps && !IsDeletedOrAbsent(u, d) ensures (d, id) in r.edges {
        PrefixMember(w.edges, r.edges, (d, id));
      }
    }
  }

  /** After expanding `ds`, each live one is visited, and everything newly visited is closed. */
  lemma {:induction false} ExpandedCloses(u: Universe, s: State, ds: seq<Id>)
    ensures forall d :: d in ds && !IsDeletedOrAbsent(u, d) ==> d in Expanded(u, s, ds).visited
    ensures forall v :: v in Expanded(u, s, ds).visited && v !in s.visited ==> Closed(u, Expanded(u, s, ds), v)
    decreases Unvisited(u, s), 0, |ds|
  {
    if ds == [] {
    } else if ds[0] in s.visited || IsDeletedOrAbsent(u, ds[0]) {
      ExpandedCloses(u, s, ds[1..]);
      var r := Expanded(u, s, ds);
      if ds[0] in s.visited {
        PrefixMember(s.visited, r.visited, ds[0]);
      }
    } else {
      var marked := s.(visited := s.visited + [ds[0]]);
      UnvisitedShrinks(u, s, ds[0]);
      var a := Accumulated(u, marked, ds[0]);
      AccumulatedCloses(u, marked, ds[0]);
      UnvisitedMonotone(u, marked, a);
      var r := Expanded(u, a, ds[1..]);
      ExpandedCloses(u, a, ds[1..]);
      assert ds[0] in a.visited by {
        PrefixMember(marked.visited, a.visited, ds[0]);
      }
      PrefixMember(a.visited, r.visited, ds[0]);
      forall v | v in r.visited && v !in s.visited ensures Closed(u, r, v) {
        if v !in a.visited {
        } else {
          ClosedGrows(u, a, r, v);
        }
      }
    }
  }

  /** Every visited entry and every live root accumulated so far is closed. */
  ghost predicate Complete(u: Universe, s: State, roots: seq<Id>) {
    && (forall v :: v in s.visited ==> Closed(u, s, v))
    && (forall root :: root in roots && !IsDeletedOrAbsent(u, root) ==> Closed(u, s, root))
  }

  /** Everything drawn or visited is reachable from the roots. */
  ghost predicate Sound(u: Universe, s: State, roots: seq<Id>) {
    && (forall x :: x in s.nodes ==> ReachableFrom(u, roots, x))
    && (forall x :: x in s.visited ==> ReachableFrom(u, roots, x))
  }

  lemma AccumulatedCompletes(u: Universe, s: State, roots: seq<Id>, id: Id)
    requires Complete(u, s, roots)
    ensures Complete(u, Accumulated(u, s, id), roots + [id])
  {
    var r := Accumulated(u, s, id);
    AccumulatedCloses(u, s, id);
    forall v | v in r.visited ensures Closed(u, r, v) {
      if v in s.visited {
        ClosedGrows(u, s, r, v);
      }
    }
    forall root | root in roots + [id] && !IsDeletedOrAbsent(u, root) ensures Closed(u, r, root) {
      if root != id {
        ClosedGrows(u, s, r, root);
      }
    }
  }

  /** Accumulating a task reachable from the roots draws and visits only reachable tasks. */
  lemma {:induction false} AccumulatedStaysSound(u: Universe, roots: seq<Id>, s: State, id: Id)
    requires Sound(u, s, roots)
    requires !IsDeletedOrAbsent(u, id) ==> ReachableFrom(u, roots, id)
    ensures Sound(u, Accumulated(u, s, id), roots)
    decreases Unvisited(u, s), 1, 0
  {
    if !IsDeletedOrAbsent(u, id) {
      var deps := u[id].dependencies;
      var n := WithNode(u, s, id);
      var w := WithEdges(u, n, id, deps);
      forall x | x in w.nodes ensures ReachableFrom(u, roots, x) {
        if x !in n.nodes {
          ReachableFromStep(u, roots, id, x);
        }
      }
      forall d | d in deps && !IsDeletedOrAbsent(u, d) ensures ReachableFrom(u, roots, d) {
        ReachableFromStep(u, roots, id, d);
      }
      ExpandedStaysSound(u, roots, w, deps);
    }
  }

  lemma {:induction false} ExpandedStaysSound(u: Universe, roots: seq<Id>, s: State, ds: seq<Id>)
    requires Sound(u, s, roots)
    requires forall d :: d in ds && !IsDeletedOrAbsent(u, d) ==> ReachableFrom(u, roots, d)
    ensures Sound(u, Expanded(u, s, ds), roots)
    decreases Unvisited(u, s), 0, |ds|
  {
    if ds == [] {
    } else if ds[0] in s.visited || IsDeletedOrAbsent(u, ds[0]) {
      ExpandedStaysSound(u, roots, s, ds[1..]);
    } else {
      var marked := s.(visited := s.visited + [ds[0]]);
      UnvisitedShrinks(u, s, ds[0]);
      AccumulatedStaysSound(u, roots, marked, ds[0]);
      var a := Accumulated(u, marked, ds[0]);
      UnvisitedMonotone(u, marked, a);
      ExpandedStaysSound(u, roots, a, ds[1..]);
    }
  }

  /** Along a live path from a closed root, every step is closed. */
  lemma {:induction false} PathClosed(u: Universe, s: State, p: seq<Id>, i: nat)
    requires (forall v :: v in s.visited ==> Closed(u, s, v))
    requires IsPath(u, p) && Closed(u, s, p[0]) && i < |p|
    ensures Closed(u, s, p[i])
  {
    if i > 0 {
      PathClosed(u, s, p, i - 1);
      assert p[i] in u[p[i - 1]].dependencies;
    }
  }

  lemma ReachableFromIsClosed(u: Universe, s: State, roots: seq<Id>, x: Id)
    requires Complete(u, s, roots) && ReachableFrom(u, roots, x)
    ensures Closed(u, s, x)
  {
    var root :| root in roots && Reachable(u, root, x);
    var p :| IsPath(u, p) && p[0] == root && p[|p| - 1] == x;
    PathClosed(u, s, p, |p| - 1);
  }

  /** The invariants carried through `AccumulatedAll`, for roots `done` already accumulated out of `all`. */
  lemma {:induction false} AccumulatedAllInvariants(u: Universe, all: seq<Id>, s: State, done: seq<Id>, todo: seq<Id>)
    requires Inv(u, s) && Sound(u, s, all) && Complete(u, s, done)
    requires forall id :: id in todo ==> id in all
    ensures Inv(u, AccumulatedAll(u, s, todo))
    ensures Sound(u, AccumulatedAll(u, s, todo), all)
    ensures Complete(u, AccumulatedAll(u, s, todo), done + todo)
    decreases |todo|
  {
    if todo == [] {
      assert done + todo == done;
    } else {
      var id := todo[0];
      assert id in all;
      assert forall x :: x in todo[1..] ==> x in todo;
      var a := Accumulated(u, s, id);
      AccumulatedKeepsInv(u, s, id);
      if !IsDeletedOrAbsent(u, id) {
        ReachableSelf(u, id);
      }
      AccumulatedStaysSound(u, all, s, id);
      AccumulatedCompletes(u, s, done, id);
      AccumulatedAllInvariants(u, all, a, done + [id], todo[1..]);
      assert done + [id] + todo[1..] == done + todo;
    }
  }

  /**
    Accumulating `roots` into a fresh graph draws exactly the live tasks
    reachable from them, each once, and exactly one edge from each live
    dependency to each such task, each once; nothing deleted or absent
    appears, cycles included.
   */
  lemma BuildIsReachableClosure(u: Universe, roots: seq<Id>)
    ensures Inv(u, AccumulatedAll(u, Empty, roots))
    ensures forall x :: x in AccumulatedAll(u, Empty, roots).nodes <==> ReachableFrom(u, roots, x)
    ensures forall e: Edge :: e in AccumulatedAll(u, Empty, roots).edges <==>
      ReachableFrom(u, roots, e.1) && e.1 in u && e.0 in u[e.1].dependencies && !IsDeletedOrAbsent(u, e.0)
  {
    var r := AccumulatedAll(u, Empty, roots);
    AccumulatedAllInvariants(u, roots, Empty, [], roots);
    assert [] + roots == roots;
    forall x | ReachableFrom(u, roots, x) ensures x in r.nodes {
      ReachableFromIsClosed(u, r, roots, x);
    }
    forall e | e in r.edges
      ensures ReachableFrom(u, roots, e.1) && e.1 in u && e.0 in u[e.1].dependencies && !IsDeletedOrAbsent(u, e.0)
    {
      assert EdgeSound(u, r, e);
    }
    forall e: Edge | ReachableFrom(u, roots, e.1) && e.1 in u && e.0 in u[e.1].dependencies && !IsDeletedOrAbsent(u, e.0)
      ensures e in r.edges
    {
      ReachableFromIsClosed(u, r, roots, e.1);
    }
  }

  /**
    A project's cluster holds exactly the closure of the project's own tasks,
    whatever the parent graph holds: it starts from empty bookkeeping.
   */
  lemma ClusterIsReachableClosure(u: Universe, p: Project)
    requires Cluster(u, p).Some?
    ensures NoDup(Cluster(u, p).value.nodes) && NoDup(Cluster(u, p).value.edges)
    ensures forall x :: x in Cluster(u, p).value.nodes <==> ReachableFrom(u, p.tasks, x)
    ensures forall e: Edge :: e in Cluster(u, p).value.edges <==>
      ReachableFrom(u, p.tasks, e.1) && e.1 in u && e.0 in u[e.1].dependencies && !IsDeletedOrAbsent(u, e.0)
  {
    BuildIsReachableClosure(u, p.tasks);
  }

  /** `create_edges` adds nothing when every live dependency is already drawn and wired. */
  lemma {:induction false} WithEdgesNoOp(u: Universe, s: State, task: Id, deps: seq<Id>)
    requires forall d :: d in deps && !IsDeletedOrAbsent(u, d) ==> d in s.nodes && (d, task) in s.edges
    ensures WithEdges(u, s, task, deps) == s
    decreases |deps|
  {
    if deps != [] {
      WithEdgesNoOp(u, s, task, deps[1..]);
    }
  }

  /** The expansion loop does nothing when every live dependency is already visited. */
  lemma {:induction false} ExpandedNoOp(u: Universe, s: State, ds: seq<Id>)
    requires forall d :: d in ds && !IsDeletedOrAbsent(u, d) ==> d in s.visited
    ensures Expanded(u, s, ds) == s
    decreases |ds|
  {
    if ds != [] {
      ExpandedNoOp(u, s, ds[1..]);
    }
  }

  /** Accumulating the same task again after the first call returned changes nothing: no node, edge or visit is duplicated. */
  lemma AccumulatedIdempotent(u: Universe, s: State, id: Id)
    ensures Accumulated(u, Accumulated(u, s, id), id) == Accumulated(u, s, id)
  {
    var r := Accumulated(u, s, id);
    if !IsDeletedOrAbsent(u, id) {
      AccumulatedCloses(u, s, id);
      var deps := u[id].dependencies;
      WithEdgesNoOp(u, r, id, deps);
      ExpandedNoOp(u, r, deps);
    }
  }

  /**
    Edge direction: after accumulating a live task, each of its live
    dependencies is drawn and has an edge running from it to the task.
   */
  lemma EdgeFromDependencyToDependent(u: Universe, s: State, task: Id, d: Id)
    requires !IsDeletedOrAbsent(u, task)
    requires d in u[task].dependencies && !IsDeletedOrAbsent(u, d)
    ensures task in Accumulated(u, s, task).nodes && d in Accumulated(u, s, task).nodes
    ensures (d, task) in Accumulated(u, s, task).edges
  {
  }
}
