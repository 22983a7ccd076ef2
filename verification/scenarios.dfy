/**
  Small dependency data worked through the accumulation: a diamond, a cycle
  and a deleted dependency in the middle of a chain.
 */
module Scenarios {
  import opened Entities
  import opened Registry
  import opened Builder

  /** A depends on B and C; both depend on D. */
  const DIAMOND: Universe := map[
    "A" := Task(Pending, ["B", "C"]),
    "B" := Task(Pending, ["D"]),
    "C" := Task(Pending, ["D"]),
    "D" := Task(Pending, [])
  ]

  /** Four nodes, four edges from dependency to dependent, and D expanded once. */
  lemma DiamondFromA()
    ensures Accumulated(DIAMOND, Empty, "A") ==
      State(["A", "B", "C", "D"], [("B", "A"), ("C", "A"), ("D", "B"), ("D", "C")], ["B", "D", "C"])
  {
    assert DIAMOND["A"].dependencies == ["B", "C"] && !IsDeletedOrAbsent(DIAMOND, "A");
    DiamondWiresA();
    DiamondExpandsBAndC();
  }

  lemma DiamondExpandsBAndC()
    ensures Expanded(DIAMOND, State(["A", "B", "C"], [("B", "A"), ("C", "A")], []), ["B", "C"]) ==
      State(["A", "B", "C", "D"], [("B", "A"), ("C", "A"), ("D", "B"), ("D", "C")], ["B", "D", "C"])
  {
    var wired := State(["A", "B", "C"], [("B", "A"), ("C", "A")], []);
    assert wired.(visited := wired.visited + ["B"]) == State(["A", "B", "C"], [("B", "A"), ("C", "A")], ["B"]);
    assert "B" !in wired.visited && !IsDeletedOrAbsent(DIAMOND, "B");
    DiamondExpandsB();
    DiamondExpandsC();
    ExpandedAt(DIAMOND, wired, ["B", "C"], 0);
    assert ["B", "C"][0..] == ["B", "C"] && ["B", "C"][1..] == ["C"];
  }

  lemma DiamondWiresA()
    ensures WithEdges(DIAMOND, WithNode(DIAMOND, Empty, "A"), "A", ["B", "C"]) ==
      State(["A", "B", "C"], [("B", "A"), ("C", "A")], [])
  {
    assert WithNode(DIAMOND, Empty, "A") == State(["A"], [], []);
    DiamondWiresB();
  }

  lemma DiamondWiresB()
    ensures WithEdges(DIAMOND, State(["A"], [], []), "A", ["B", "C"]) ==
      State(["A", "B", "C"], [("B", "A"), ("C", "A")], [])
  {
    assert WithEdge(WithNode(DIAMOND, State(["A"], [], []), "B"), ("B", "A")) == State(["A", "B"], [("B", "A")], []);
    DiamondWiresC();
    assert ["B", "C"][1..] == ["C"];
  }

  lemma DiamondWiresC()
    ensures WithEdges(DIAMOND, State(["A", "B"], [("B", "A")], []), "A", ["C"]) ==
      State(["A", "B", "C"], [("B", "A"), ("C", "A")], [])
  {
    assert WithEdge(WithNode(DIAMOND, State(["A", "B"], [("B", "A")], []), "C"), ("C", "A")) ==
      State(["A", "B", "C"], [("B", "A"), ("C", "A")], []);
  }

  lemma DiamondExpandsB()
    ensures Accumulated(DIAMOND, State(["A", "B", "C"], [("B", "A"), ("C", "A")], ["B"]), "B") ==
      State(["A", "B", "C", "D"], [("B", "A"), ("C", "A"), ("D", "B")], ["B", "D"])
  {
    var u := DIAMOND;
    var atB := State(["A", "B", "C"], [("B", "A"), ("C", "A")], ["B"]);
    var wiredB := State(["A", "B", "C", "D"], [("B", "A"), ("C", "A"), ("D", "B")], ["B"]);
    assert WithNode(u, atB, "B") == atB;
    assert WithEdges(u, atB, "B", ["D"]) == wiredB by {
      assert WithEdge(WithNode(u, atB, "D"), ("D", "B")) == wiredB;
    }
    DiamondExpandsD();
  }

  lemma DiamondExpandsD()
    ensures Expanded(DIAMOND, State(["A", "B", "C", "D"], [("B", "A"), ("C", "A"), ("D", "B")], ["B"]), ["D"]) ==
      State(["A", "B", "C", "D"], [("B", "A"), ("C", "A"), ("D", "B")], ["B", "D"])
  {
    var atD := State(["A", "B", "C", "D"], [("B", "A"), ("C", "A"), ("D", "B")], ["B", "D"]);
    assert Accumulated(DIAMOND, atD, "D") == atD;
  }

  lemma DiamondExpandsC()
    ensures Expanded(DIAMOND, State(["A", "B", "C", "D"], [("B", "A"), ("C", "A"), ("D", "B")], ["B", "D"]), ["C"]) ==
      State(["A", "B", "C", "D"], [("B", "A"), ("C", "A"), ("D", "B"), ("D", "C")], ["B", "D", "C"])
  {
    var atD := State(["A", "B", "C", "D"], [("B", "A"), ("C", "A"), ("D", "B")], ["B", "D"]);
    var marked := atD.(visited := atD.visited + ["C"]);
    assert marked == State(["A", "B", "C", "D"], [("B", "A"), ("C", "A"), ("D", "B")], ["B", "D", "C"]);
    assert "C" !in atD.visited && !IsDeletedOrAbsent(DIAMOND, "C");
    DiamondAccumulatesC();
    var r := State(["A", "B", "C", "D"], [("B", "A"), ("C", "A"), ("D", "B"), ("D", "C")], ["B", "D", "C"]);
    ExpandedAt(DIAMOND, atD, ["C"], 0);
    assert ["C"][0..] == ["C"] && ["C"][1..] == [];
    assert Expanded(DIAMOND, r, []) == r;
  }

  lemma DiamondAccumulatesC()
    ensures Accumulated(DIAMOND, State(["A", "B", "C", "D"], [("B", "A"), ("C", "A"), ("D", "B")], ["B", "D", "C"]), "C") ==
      State(["A", "B", "C", "D"], [("B", "A"), ("C", "A"), ("D", "B"), ("D", "C")], ["B", "D", "C"])
  {
    var last := State(["A", "B", "C", "D"], [("B", "A"), ("C", "A"), ("D", "B"), ("D", "C")], ["B", "D", "C"]);
    DiamondWiresDToC();
    assert Expanded(DIAMOND, last, ["D"]) == last;
  }

  lemma DiamondWiresDToC()
    ensures WithEdges(DIAMOND, WithNode(DIAMOND, State(["A", "B", "C", "D"], [("B", "A"), ("C", "A"), ("D", "B")], ["B", "D", "C"]), "C"), "C", ["D"]) ==
      State(["A", "B", "C", "D"], [("B", "A"), ("C", "A"), ("D", "B"), ("D", "C")], ["B", "D", "C"])
  {
    var atC := State(["A", "B", "C", "D"], [("B", "A"), ("C", "A"), ("D", "B")], ["B", "D", "C"]);
    var last := State(["A", "B", "C", "D"], [("B", "A"), ("C", "A"), ("D", "B"), ("D", "C")], ["B", "D", "C"]);
    assert WithNode(DIAMOND, atC, "C") == atC;
    assert !IsDeletedOrAbsent(DIAMOND, "D");
    assert WithEdge(WithNode(DIAMOND, atC, "D"), ("D", "C")) == last;
    assert WithEdges(DIAMOND, last, "C", []) == last;
    assert ["D"][1..] == [];
  }

  /** A and B depend on each other. */
  const CYCLE: Universe := map[
    "A" := Task(Pending, ["B"]),
    "B" := Task(Waiting, ["A"])
  ]

  /**
    The cycle terminates with one node each and one edge each way; the root A
    is not marked visited by its own call, so the cycle leads back to it once.
   */
  lemma CycleFromA()
    ensures Accumulated(CYCLE, Empty, "A") == State(["A", "B"], [("B", "A"), ("A", "B")], ["B", "A"])
  {
    var wired := State(["A", "B"], [("B", "A")], []);
    assert CYCLE["A"].dependencies == ["B"] && !IsDeletedOrAbsent(CYCLE, "A");
    CycleWiresA();
    CycleExpandsB();
    assert Expanded(CYCLE, wired, ["B"]) == State(["A", "B"], [("B", "A"), ("A", "B")], ["B", "A"]);
  }

  lemma CycleWiresA()
    ensures WithEdges(CYCLE, WithNode(CYCLE, Empty, "A"), "A", ["B"]) == State(["A", "B"], [("B", "A")], [])
  {
    assert WithNode(CYCLE, Empty, "A") == State(["A"], [], []);
    CycleWiresB();
  }

  lemma CycleWiresB()
    ensures WithEdges(CYCLE, State(["A"], [], []), "A", ["B"]) == State(["A", "B"], [("B", "A")], [])
  {
    var wired := State(["A", "B"], [("B", "A")], []);
    assert !IsDeletedOrAbsent(CYCLE, "B");
    assert WithEdge(WithNode(CYCLE, State(["A"], [], []), "B"), ("B", "A")) == wired;
    assert WithEdges(CYCLE, wired, "A", []) == wired;
    assert ["B"][1..] == [];
  }

  lemma CycleExpandsB()
    ensures Expanded(CYCLE, State(["A", "B"], [("B", "A")], []), ["B"]) == State(["A", "B"], [("B", "A"), ("A", "B")], ["B", "A"])
  {
    var wired := State(["A", "B"], [("B", "A")], []);
    assert "B" !in wired.visited && !IsDeletedOrAbsent(CYCLE, "B");
    assert wired.(visited := wired.visited + ["B"]) == State(["A", "B"], [("B", "A")], ["B"]);
    CycleAccumulatesB();
    var r := State(["A", "B"], [("B", "A"), ("A", "B")], ["B", "A"]);
    assert Expanded(CYCLE, r, []) == r;
    assert ["B"][1..] == [];
  }

  lemma CycleAccumulatesB()
    ensures Accumulated(CYCLE, State(["A", "B"], [("B", "A")], ["B"]), "B") == State(["A", "B"], [("B", "A"), ("A", "B")], ["B", "A"])
  {
    var atB := State(["A", "B"], [("B", "A")], ["B"]);
    var wiredB := State(["A", "B"], [("B", "A"), ("A", "B")], ["B"]);
    assert CYCLE["B"].dependencies == ["A"] && !IsDeletedOrAbsent(CYCLE, "B");
    assert WithNode(CYCLE, atB, "B") == atB;
    assert WithEdges(CYCLE, atB, "B", ["A"]) == wiredB by {
      assert WithEdge(WithNode(CYCLE, atB, "A"), ("A", "B")) == wiredB;
    }
    CycleReturnsToA();
  }

  lemma CycleReturnsToA()
    ensures Expanded(CYCLE, State(["A", "B"], [("B", "A"), ("A", "B")], ["B"]), ["A"]) == State(["A", "B"], [("B", "A"), ("A", "B")], ["B", "A"])
  {
    var wiredB := State(["A", "B"], [("B", "A"), ("A", "B")], ["B"]);
    var atA := State(["A", "B"], [("B", "A"), ("A", "B")], ["B", "A"]);
    assert wiredB.(visited := wiredB.visited + ["A"]) == atA;
    assert "A" !in wiredB.visited && !IsDeletedOrAbsent(CYCLE, "A");
    CycleStopsAtA();
  }

  /** The second expansion of A finds its node, its edge and B's visit already there. */
  lemma CycleStopsAtA()
    ensures Accumulated(CYCLE, State(["A", "B"], [("B", "A"), ("A", "B")], ["B", "A"]), "A") == State(["A", "B"], [("B", "A"), ("A", "B")], ["B", "A"])
  {
    var atA := State(["A", "B"], [("B", "A"), ("A", "B")], ["B", "A"]);
    assert CYCLE["A"].dependencies == ["B"] && !IsDeletedOrAbsent(CYCLE, "A");
    assert WithNode(CYCLE, atA, "A") == atA;
    assert WithEdges(CYCLE, atA, "A", ["B"]) == atA by {
      assert WithEdge(WithNode(CYCLE, atA, "B"), ("B", "A")) == atA;
    }
    assert Expanded(CYCLE, atA, ["B"]) == atA;
  }

  /** A depends on B and C; B depends back on A. */
  const REENTRY: Universe := map[
    "A" := Task(Pending, ["B", "C"]),
    "B" := Task(Pending, ["A"]),
    "C" := Task(Pending, [])
  ]

  /**
    The cycle leads back into A while A's own loop is still at B. That nested
    expansion of A marks and expands C, and the outer loop then skips C.
   */
  lemma ReentryFromA()
    ensures Accumulated(REENTRY, Empty, "A") ==
      State(["A", "B", "C"], [("B", "A"), ("C", "A"), ("A", "B")], ["B", "A", "C"])
  {
    assert REENTRY["A"].dependencies == ["B", "C"] && !IsDeletedOrAbsent(REENTRY, "A");
    assert WithNode(REENTRY, Empty, "A") == State(["A"], [], []);
    ReentryWiresB();
    ReentryExpandsBAndC();
  }

  lemma ReentryWiresB()
    ensures WithEdges(REENTRY, State(["A"], [], []), "A", ["B", "C"]) ==
      State(["A", "B", "C"], [("B", "A"), ("C", "A")], [])
  {
    assert !IsDeletedOrAbsent(REENTRY, "B");
    assert WithEdge(WithNode(REENTRY, State(["A"], [], []), "B"), ("B", "A")) == State(["A", "B"], [("B", "A")], []);
    ReentryWiresC();
    assert ["B", "C"][1..] == ["C"];
  }

  lemma ReentryWiresC()
    ensures WithEdges(REENTRY, State(["A", "B"], [("B", "A")], []), "A", ["C"]) ==
      State(["A", "B", "C"], [("B", "A"), ("C", "A")], [])
  {
    var wired := State(["A", "B", "C"], [("B", "A"), ("C", "A")], []);
    assert !IsDeletedOrAbsent(REENTRY, "C");
    assert WithEdge(WithNode(REENTRY, State(["A", "B"], [("B", "A")], []), "C"), ("C", "A")) == wired;
    assert WithEdges(REENTRY, wired, "A", []) == wired;
    assert ["C"][1..] == [];
  }

  lemma ReentryExpandsBAndC()
    ensures Expanded(REENTRY, State(["A", "B", "C"], [("B", "A"), ("C", "A")], []), ["B", "C"]) ==
      State(["A", "B", "C"], [("B", "A"), ("C", "A"), ("A", "B")], ["B", "A", "C"])
  {
    var wired := State(["A", "B", "C"], [("B", "A"), ("C", "A")], []);
    assert "B" !in wired.visited && !IsDeletedOrAbsent(REENTRY, "B");
    assert wired.(visited := wired.visited + ["B"]) == State(["A", "B", "C"], [("B", "A"), ("C", "A")], ["B"]);
    ReentryAccumulatesB();
    ReentrySkipsC();
    ExpandedAt(REENTRY, wired, ["B", "C"], 0);
    assert ["B", "C"][0..] == ["B", "C"] && ["B", "C"][1..] == ["C"];
  }

  /** Back in A's outer loop, C was already visited by the nested expansion. */
  lemma ReentrySkipsC()
    ensures Expanded(REENTRY, State(["A", "B", "C"], [("B", "A"), ("C", "A"), ("A", "B")], ["B", "A", "C"]), ["C"]) ==
      State(["A", "B", "C"], [("B", "A"), ("C", "A"), ("A", "B")], ["B", "A", "C"])
  {
    var last := State(["A", "B", "C"], [("B", "A"), ("C", "A"), ("A", "B")], ["B", "A", "C"]);
    assert "C" in last.visited;
    assert Expanded(REENTRY, last, []) == last;
    assert ["C"][1..] == [];
  }

  lemma ReentryAccumulatesB()
    ensures Accumulated(REENTRY, State(["A", "B", "C"], [("B", "A"), ("C", "A")], ["B"]), "B") ==
      State(["A", "B", "C"], [("B", "A"), ("C", "A"), ("A", "B")], ["B", "A", "C"])
  {
    var atB := State(["A", "B", "C"], [("B", "A"), ("C", "A")], ["B"]);
    assert REENTRY["B"].dependencies == ["A"] && !IsDeletedOrAbsent(REENTRY, "B");
    assert WithNode(REENTRY, atB, "B") == atB;
    ReentryWiresAToB();
    ReentryExpandsA();
  }

  lemma ReentryWiresAToB()
    ensures WithEdges(REENTRY, State(["A", "B", "C"], [("B", "A"), ("C", "A")], ["B"]), "B", ["A"]) ==
      State(["A", "B", "C"], [("B", "A"), ("C", "A"), ("A", "B")], ["B"])
  {
    var atB := State(["A", "B", "C"], [("B", "A"), ("C", "A")], ["B"]);
    var wiredB := State(["A", "B", "C"], [("B", "A"), ("C", "A"), ("A", "B")], ["B"]);
    assert !IsDeletedOrAbsent(REENTRY, "A");
    assert WithEdge(WithNode(REENTRY, atB, "A"), ("A", "B")) == wiredB;
    assert WithEdges(REENTRY, wiredB, "B", []) == wiredB;
    assert ["A"][1..] == [];
  }

  /** B's loop reaches A, which the root call never marked visited. */
  lemma ReentryExpandsA()
    ensures Expanded(REENTRY, State(["A", "B", "C"], [("B", "A"), ("C", "A"), ("A", "B")], ["B"]), ["A"]) ==
      State(["A", "B", "C"], [("B", "A"), ("C", "A"), ("A", "B")], ["B", "A", "C"])
  {
    var wiredB := State(["A", "B", "C"], [("B", "A"), ("C", "A"), ("A", "B")], ["B"]);
    var last := State(["A", "B", "C"], [("B", "A"), ("C", "A"), ("A", "B")], ["B", "A", "C"]);
    assert "A" !in wiredB.visited && !IsDeletedOrAbsent(REENTRY, "A");
    assert wiredB.(visited := wiredB.visited + ["A"]) == State(["A", "B", "C"], [("B", "A"), ("C", "A"), ("A", "B")], ["B", "A"]);
    ReentryRevisitsA();
    assert Expanded(REENTRY, last, []) == last;
    assert ["A"][1..] == [];
  }

  /**
    The nested expansion of A is not a no-op: it finds A's node and edges in
    place, skips the visited B, and marks and expands C.
   */
  lemma ReentryRevisitsA()
    ensures Accumulated(REENTRY, State(["A", "B", "C"], [("B", "A"), ("C", "A"), ("A", "B")], ["B", "A"]), "A") ==
      State(["A", "B", "C"], [("B", "A"), ("C", "A"), ("A", "B")], ["B", "A", "C"])
  {
    var atA := State(["A", "B", "C"], [("B", "A"), ("C", "A"), ("A", "B")], ["B", "A"]);
    assert REENTRY["A"].dependencies == ["B", "C"] && !IsDeletedOrAbsent(REENTRY, "A");
    assert WithNode(REENTRY, atA, "A") == atA;
    ReentryRewiresA();
    ReentrySkipsB();
  }

  lemma ReentryRewiresA()
    ensures WithEdges(REENTRY, State(["A", "B", "C"], [("B", "A"), ("C", "A"), ("A", "B")], ["B", "A"]), "A", ["B", "C"]) ==
      State(["A", "B", "C"], [("B", "A"), ("C", "A"), ("A", "B")], ["B", "A"])
  {
    var atA := State(["A", "B", "C"], [("B", "A"), ("C", "A"), ("A", "B")], ["B", "A"]);
    assert !IsDeletedOrAbsent(REENTRY, "B") && !IsDeletedOrAbsent(REENTRY, "C");
    assert WithEdge(WithNode(REENTRY, atA, "B"), ("B", "A")) == atA;
    assert WithEdges(REENTRY, atA, "A", ["C"]) == atA by {
      assert WithEdge(WithNode(REENTRY, atA, "C"), ("C", "A")) == atA;
      assert WithEdges(REENTRY, atA, "A", []) == atA;
      assert ["C"][1..] == [];
    }
    assert ["B", "C"][1..] == ["C"];
  }

  lemma ReentrySkipsB()
    ensures Expanded(REENTRY, State(["A", "B", "C"], [("B", "A"), ("C", "A"), ("A", "B")], ["B", "A"]), ["B", "C"]) ==
      State(["A", "B", "C"], [("B", "A"), ("C", "A"), ("A", "B")], ["B", "A", "C"])
  {
    var atA := State(["A", "B", "C"], [("B", "A"), ("C", "A"), ("A", "B")], ["B", "A"]);
    assert "B" in atA.visited;
    ReentryExpandsC();
    assert ["B", "C"][1..] == ["C"];
  }

  lemma ReentryExpandsC()
    ensures Expanded(REENTRY, State(["A", "B", "C"], [("B", "A"), ("C", "A"), ("A", "B")], ["B", "A"]), ["C"]) ==
      State(["A", "B", "C"], [("B", "A"), ("C", "A"), ("A", "B")], ["B", "A", "C"])
  {
    var atA := State(["A", "B", "C"], [("B", "A"), ("C", "A"), ("A", "B")], ["B", "A"]);
    var last := State(["A", "B", "C"], [("B", "A"), ("C", "A"), ("A", "B")], ["B", "A", "C"]);
    assert "C" !in atA.visited && !IsDeletedOrAbsent(REENTRY, "C");
    assert atA.(visited := atA.visited + ["C"]) == last;
    assert Accumulated(REENTRY, last, "C") == last by {
      assert REENTRY["C"].dependencies == [];
      assert WithNode(REENTRY, last, "C") == last;
    }
    assert Expanded(REENTRY, last, []) == last;
    assert ["C"][1..] == [];
  }

  /** A depends on a deleted X, on a missing id and on B; X depends on C. */
  const WITH_DELETED: Universe := map[
    "A" := Task(Pending, ["X", "gone", "B"]),
    "X" := Task(Deleted, ["C"]),
    "B" := Task(Completed, []),
    "C" := Task(Pending, [])
  ]

  /** The deleted X and the nil "gone" get no node and no edge, and C is never reached through X. */
  lemma DeletedDependencySkipped()
    ensures Accumulated(WITH_DELETED, Empty, "A") == State(["A", "B"], [("B", "A")], ["B"])
  {
    var u := WITH_DELETED;
    assert u["A"].dependencies == ["X", "gone", "B"] && !IsDeletedOrAbsent(u, "A");
    assert WithNode(u, Empty, "A") == State(["A"], [], []);
    DeletedDependencyNotWired();
    DeletedDependencyNotExpanded();
  }

  lemma DeletedDependencyNotWired()
    ensures WithEdges(WITH_DELETED, State(["A"], [], []), "A", ["X", "gone", "B"]) == State(["A", "B"], [("B", "A")], [])
  {
    var u := WITH_DELETED;
    var start := State(["A"], [], []);
    assert IsDeletedOrAbsent(u, "X") && IsDeletedOrAbsent(u, "gone") && !IsDeletedOrAbsent(u, "B");
    assert WithEdges(u, start, "A", ["B"]) == State(["A", "B"], [("B", "A")], []) by {
      assert WithEdge(WithNode(u, start, "B"), ("B", "A")) == State(["A", "B"], [("B", "A")], []);
    }
    assert ["X", "gone", "B"][1..] == ["gone", "B"];
    assert ["gone", "B"][1..] == ["B"];
  }

  lemma DeletedDependencyNotExpanded()
    ensures Expanded(WITH_DELETED, State(["A", "B"], [("B", "A")], []), ["X", "gone", "B"]) == State(["A", "B"], [("B", "A")], ["B"])
  {
    var u := WITH_DELETED;
    var wired := State(["A", "B"], [("B", "A")], []);
    var atB := State(["A", "B"], [("B", "A")], ["B"]);
    assert IsDeletedOrAbsent(u, "X") && IsDeletedOrAbsent(u, "gone") && !IsDeletedOrAbsent(u, "B");
    assert u["B"].dependencies == [];
    assert wired.(visited := wired.visited + ["B"]) == atB;
    assert Accumulated(u, atB, "B") == atB by {
      assert WithNode(u, atB, "B") == atB;
    }
    var ds := ["X", "gone", "B"];
    ExpandedAt(u, wired, ds, 0);
    ExpandedAt(u, wired, ds, 1);
    ExpandedAt(u, wired, ds, 2);
    assert ds[0..] == ds && ds[3..] == [];
    assert Expanded(u, atB, []) == atB;
  }
}
