/**
  The accumulation algorithm of `Graph#<<`, as functions on the registry
  state: the task branch with its depth-first expansion of dependencies, and
  the fold of a project's tasks into a fresh cluster.
 */
module Builder {
  import opened Entities
  import opened Registry

  ghost function VisitedSet(s: State): set<Id> {
    set x | x in s.visited
  }

  /** Termination measure: the ids of the universe not yet in `@dependencies`. */
  ghost function Unvisited(u: Universe, s: State): nat {
    |u.Keys - VisitedSet(s)|
  }

  /** Marking a live, unvisited dependency as visited strictly shrinks the measure. */
  lemma UnvisitedShrinks(u: Universe, s: State, d: Id)
    requires d in u && d !in s.visited
    ensures Unvisited(u, s.(visited := s.visited + [d])) < Unvisited(u, s)
  {
    var before := u.Keys - VisitedSet(s);
    var after := u.Keys - VisitedSet(s.(visited := s.visited + [d]));
    assert after == before - {d};
  }

  /** A longer visited list never raises the measure. */
  lemma UnvisitedMonotone(u: Universe, s: State, r: State)
    requires s.visited <= r.visited
    ensures Unvisited(u, r) <= Unvisited(u, s)
  {
    forall x | x in s.visited ensures x in r.visited {
      PrefixMember(s.visited, r.visited, x);
    }
    var before := u.Keys - VisitedSet(s);
    var after := u.Keys - VisitedSet(r);
    assert after <= before;
    assert before == after + (before - after);
  }

  /**
    The task branch of `<<`: nothing happens for a deleted or absent task;
    otherwise its node is found or created, an edge is wired from each live
    dependency, and each live dependency not yet visited is marked visited and
    accumulated in turn. The task itself is not marked visited.
   */
  function Accumulated(u: Universe, s: State, id: Id): (r: State)
    ensures Grows(s, r)
    ensures IsDeletedOrAbsent(u, id) ==> r == s
    decreases Unvisited(u, s), 1, 0
  {
    if IsDeletedOrAbsent(u, id) then s
    else
      var deps := u[id].dependencies;
      Expanded(u, WithEdges(u, WithNode(u, s, id), id, deps), deps)
  }

  /** The loop "resolve all dependencies we don't know yet" over `ds`, in order. */
  function Expanded(u: Universe, s: State, ds: seq<Id>): (r: State)
    ensures Grows(s, r)
    decreases Unvisited(u, s), 0, |ds|
  {
    if ds == [] then s
    else if ds[0] in s.visited || IsDeletedOrAbsent(u, ds[0]) then Expanded(u, s, ds[1..])
    else
      var marked := s.(visited := s.visited + [ds[0]]);
      UnvisitedShrinks(u, s, ds[0]);
      var a := Accumulated(u, marked, ds[0]);
      UnvisitedMonotone(u, marked, a);
      var r := Expanded(u, a, ds[1..]);
      GrowsTransitive(marked, a, r);
      r
  }

  /** One turn of the expansion loop, at index `i` of the dependency list. */
  lemma ExpandedAt(u: Universe, s: State, ds: seq<Id>, i: nat)
    requires i < |ds|
    ensures Expanded(u, s, ds[i..]) ==
      if ds[i] in s.visited || IsDeletedOrAbsent(u, ds[i]) then Expanded(u, s, ds[i + 1..])
      else Expanded(u, Accumulated(u, s.(visited := s.visited + [ds[i]]), ds[i]), ds[i + 1..])
  {
    assert ds[i..][1..] == ds[i + 1..];
  }

  /** `cluster << task` for each of `ids` in order, every one of them resolving to a task. */
  function AccumulatedAll(u: Universe, s: State, ids: seq<Id>): (r: State)
    ensures Grows(s, r)
    decreases |ids|
  {
    if ids == [] then s
    else
      var a := Accumulated(u, s, ids[0]);
      var r := AccumulatedAll(u, a, ids[1..]);
      GrowsTransitive(s, a, r);
      r
  }

  /**
    The project branch of `<<`: a fresh graph named by the project's presenter
    accumulates the project's tasks and is attached. A task id that does not
    resolve is nil, which the cluster's `<<` cannot handle; then nothing is
    attached.
   */
  function Cluster(u: Universe, p: Project): (r: Option<Subgraph>)
    ensures r.Some? <==> forall id :: id in p.tasks ==> id in u
    ensures r.Some? ==> r.value.name == p.name
  {
    if forall id :: id in p.tasks ==> id in u then
      var c := AccumulatedAll(u, Empty, p.tasks);
      Some(Subgraph(Presenter(u, ProjectRef(p)).id, c.nodes, c.edges))
    else None
  }

  /** Accumulating keeps the registry invariant. */
  lemma {:induction false} AccumulatedKeepsInv(u: Universe, s: State, id: Id)
    requires Inv(u, s)
    ensures Inv(u, Accumulated(u, s, id))
    decreases Unvisited(u, s), 1, 0
  {
    if !IsDeletedOrAbsent(u, id) {
      var deps := u[id].dependencies;
      var n := WithNode(u, s, id);
      WithNodeKeepsInv(u, s, id);
      WithEdgesKeepsInv(u, n, id, deps);
      ExpandedKeepsInv(u, WithEdges(u, n, id, deps), deps);
    }
  }

  /** Expanding keeps the registry invariant: only live, unvisited ids are marked visited. */
  lemma {:induction false} ExpandedKeepsInv(u: Universe, s: State, ds: seq<Id>)
    requires Inv(u, s)
    ensures Inv(u, Expanded(u, s, ds))
    decreases Unvisited(u, s), 0, |ds|
  {
    if ds == [] {
    } else if ds[0] in s.visited || IsDeletedOrAbsent(u, ds[0]) {
      ExpandedKeepsInv(u, s, ds[1..]);
    } else {
      var marked := s.(visited := s.visited + [ds[0]]);
      assert Inv(u, marked) by {
        forall e | e in marked.edges ensures EdgeSound(u, marked, e) {
          assert EdgeSound(u, s, e);
        }
      }
      UnvisitedShrinks(u, s, ds[0]);
      AccumulatedKeepsInv(u, marked, ds[0]);
      var a := Accumulated(u, marked, ds[0]);
      UnvisitedMonotone(u, marked, a);
      ExpandedKeepsInv(u, a, ds[1..]);
    }
  }

  /** Accumulating a sequence of tasks keeps the registry invariant. */
  lemma {:induction false} AccumulatedAllKeepsInv(u: Universe, s: State, ids: seq<Id>)
    requires Inv(u, s)
    ensures Inv(u, AccumulatedAll(u, s, ids))
    decreases |ids|
  {
    if ids != [] {
      AccumulatedKeepsInv(u, s, ids[0]);
      AccumulatedAllKeepsInv(u, Accumulated(u, s, ids[0]), ids[1..]);
    }
  }
}
