/** The three-colour depth-first search of links/service.py, and why its answer is exact. */
module CycleSearch {
  type Node = string
  type Arc = (Node, Node)

  // ----- directed graphs -----

  ghost predicate IsWalk(arcs: set<Arc>, p: seq<Node>) {
    forall i :: 0 <= i < |p| - 1 ==> (p[i], p[i + 1]) in arcs
  }

  ghost predicate IsCycle(arcs: set<Arc>, p: seq<Node>) {
    |p| >= 2 && p[0] == p[|p| - 1] && IsWalk(arcs, p)
  }

  ghost predicate HasCycle(arcs: set<Arc>) {
    exists p :: IsCycle(arcs, p)
  }

  lemma FewerArcsFewerCycles(arcs: set<Arc>, more: set<Arc>)
    requires arcs <= more && !HasCycle(more)
    ensures !HasCycle(arcs)
  {
    if HasCycle(arcs) {
      var p :| IsCycle(arcs, p);
      assert IsCycle(more, p);
    }
  }

  /** A numbering that falls along every arc. */
  ghost predicate Falls(arcs: set<Arc>, rank: map<Node, nat>) {
    forall a :: a in arcs ==> a.0 in rank && a.1 in rank && rank[a.1] < rank[a.0]
  }

  lemma {:induction false} WalkFalls(arcs: set<Arc>, rank: map<Node, nat>, p: seq<Node>, i: nat)
    requires Falls(arcs, rank) && IsWalk(arcs, p) && 0 < i < |p|
    ensures p[0] in rank && p[i] in rank && rank[p[i]] < rank[p[0]]
  {
    assert (p[i - 1], p[i]) in arcs;
    if i > 1 {
      WalkFalls(arcs, rank, p, i - 1);
    }
  }

  lemma FallingMeansAcyclic(arcs: set<Arc>, rank: map<Node, nat>)
    requires Falls(arcs, rank)
    ensures !HasCycle(arcs)
  {
    forall p | IsCycle(arcs, p)
      ensures false
    {
      WalkFalls(arcs, rank, p, |p| - 1);
    }
  }

  // ----- the search -----

  datatype Color = Unvisited | Visiting | Done

  function ArcSet(arcs: seq<Arc>): set<Arc> {
    set i | 0 <= i < |arcs| :: arcs[i]
  }

  function Successors(adjacency: map<Node, seq<Node>>, n: Node): seq<Node> {
    if n in adjacency then adjacency[n] else []
  }

  function ColorIn(color: map<Node, Color>, n: Node): Color {
    if n in color then color[n] else Unvisited
  }

  function ColoredIn(color: map<Node, Color>): set<Node> {
    set n | n in color && ColorIn(color, n) != Unvisited
  }

  /** What a finished visit leaves as it was: every colour but unvisited ones. */
  ghost predicate Keeps(color: map<Node, Color>, color': map<Node, Color>) {
    forall n :: ColorIn(color, n) != Unvisited ==> ColorIn(color', n) == ColorIn(color, n)
  }

  lemma KeepsColored(color: map<Node, Color>, color': map<Node, Color>)
    requires Keeps(color, color')
    ensures ColoredIn(color) <= ColoredIn(color')
  {
    forall n | n in ColoredIn(color)
      ensures n in ColoredIn(color')
    {
      assert ColorIn(color', n) == ColorIn(color, n);
    }
  }

  ghost predicate AllDone(color: map<Node, Color>, ns: seq<Node>) {
    forall n :: n in ns ==> ColorIn(color, n) == Done
  }

  lemma OneMoreDone(color: map<Node, Color>, color': map<Node, Color>, ns: seq<Node>, i: nat)
    requires i < |ns| && Keeps(color, color') && AllDone(color, ns[..i]) && ColorIn(color', ns[i]) == Done
    ensures AllDone(color', ns[..i + 1])
  {
    forall n | n in ns[..i + 1]
      ensures ColorIn(color', n) == Done
    {
      if n in ns[..i] {
        assert ColorIn(color, n) == Done;
      }
    }
  }

  lemma KeepsOn(a: map<Node, Color>, b: map<Node, Color>, c: map<Node, Color>)
    requires Keeps(a, b) && Keeps(b, c)
    ensures Keeps(a, c)
  {
  }

  /** Opening an unvisited node, visiting from it and finishing it, seen from before. */
  lemma KeepsAround(before: map<Node, Color>, node: Node, color: map<Node, Color>)
    requires ColorIn(before, node) == Unvisited && Keeps(before[node := Visiting], color)
    ensures Keeps(before, color[node := Done])
  {
    forall n | ColorIn(before, n) != Unvisited
      ensures ColorIn(color[node := Done], n) == ColorIn(before, n)
    {
      assert ColorIn(before[node := Visiting], n) == ColorIn(before, n);
    }
  }

  lemma FewerUncolored(before: map<Node, Color>, node: Node, color: map<Node, Color>, nodes: set<Node>)
    requires node in nodes && ColorIn(before, node) == Unvisited && Keeps(before[node := Visiting], color)
    ensures nodes - ColoredIn(color) < nodes - ColoredIn(before)
  {
    KeepsColored(before[node := Visiting], color);
    assert ColoredIn(before[node := Visiting]) == ColoredIn(before) + {node};
    assert node in nodes - ColoredIn(before) && node !in nodes - ColoredIn(color);
  }

  /** The open nodes are a walk, and exactly those being visited. */
  ghost predicate StackFits(arcs: set<Arc>, stack: seq<Node>, color: map<Node, Color>) {
    && IsWalk(arcs, stack)
    && (forall n :: n in stack <==> ColorIn(color, n) == Visiting)
  }

  /** The finished nodes are numbered below `next`, lead to finished ones only, and the numbers fall. */
  ghost predicate RankFits(arcs: set<Arc>, rank: map<Node, nat>, next: nat, color: map<Node, Color>) {
    && (forall n :: n in rank <==> ColorIn(color, n) == Done)
    && (forall n :: n in rank ==> rank[n] < next)
    && (forall u, v :: u in rank && (u, v) in arcs ==> v in rank && rank[v] < rank[u])
  }

  lemma StackPush(arcs: set<Arc>, stack: seq<Node>, color: map<Node, Color>, node: Node)
    requires StackFits(arcs, stack, color) && (stack != [] ==> (stack[|stack| - 1], node) in arcs)
    ensures StackFits(arcs, stack + [node], color[node := Visiting])
  {
    var open := stack + [node];
    assert forall n :: n in open <==> n in stack || n == node;
    forall i | 0 <= i < |open| - 1
      ensures (open[i], open[i + 1]) in arcs
    {
      if i < |stack| - 1 {
        assert (stack[i], stack[i + 1]) in arcs;
      }
    }
  }

  lemma StackPop(arcs: set<Arc>, stack: seq<Node>, color: map<Node, Color>, node: Node)
    requires StackFits(arcs, stack + [node], color) && node !in stack
    ensures StackFits(arcs, stack, color[node := Done])
  {
    var open := stack + [node];
    assert forall n :: n in open <==> n in stack || n == node;
    forall i | 0 <= i < |stack| - 1
      ensures (stack[i], stack[i + 1]) in arcs
    {
      assert (open[i], open[i + 1]) in arcs;
    }
    assert forall n :: n != node ==> ColorIn(color[node := Done], n) == ColorIn(color, n);
  }

  lemma RankUnfinished(arcs: set<Arc>, rank: map<Node, nat>, next: nat, color: map<Node, Color>, node: Node)
    requires RankFits(arcs, rank, next, color) && ColorIn(color, node) != Done
    ensures RankFits(arcs, rank, next, color[node := Visiting])
  {
    assert forall n :: ColorIn(color[node := Visiting], n) == Done <==> ColorIn(color, n) == Done;
  }

  lemma RankFinished(arcs: set<Arc>, rank: map<Node, nat>, next: nat, color: map<Node, Color>, node: Node)
    requires RankFits(arcs, rank, next, color) && ColorIn(color, node) == Visiting
    requires forall v :: (node, v) in arcs ==> ColorIn(color, v) == Done
    ensures RankFits(arcs, rank[node := next], next + 1, color[node := Done])
  {
    assert forall n :: ColorIn(color[node := Done], n) == Done <==> n == node || ColorIn(color, n) == Done;
  }

  class Search {
    const adjacency: map<Node, seq<Node>>
    ghost const arcs: set<Arc>
    ghost const nodes: set<Node>
    var color: map<Node, Color>
    // the nodes being visited, outermost first, and a falling numbering of the finished ones
    ghost var stack: seq<Node>
    ghost var rank: map<Node, nat>
    ghost var next: nat

    function ColorOf(n: Node): Color
      reads this
    {
      ColorIn(color, n)
    }

    ghost predicate GraphOk()
      reads this
    {
      && (forall u, v :: (u, v) in arcs <==> v in Successors(adjacency, u))
      && (forall u, v :: (u, v) in arcs ==> u in nodes && v in nodes)
      && adjacency.Keys <= nodes && color.Keys <= nodes
    }

    ghost predicate Valid()
      reads this
    {
      GraphOk() && StackFits(arcs, stack, color) && RankFits(arcs, rank, next, color)
    }

    constructor (adjacency: map<Node, seq<Node>>, ghost arcs: set<Arc>)
      requires forall u, v :: (u, v) in arcs <==> v in Successors(adjacency, u)
      ensures Valid() && stack == [] && this.arcs == arcs && this.adjacency == adjacency && rank == map[]
    {
      this.adjacency, this.arcs := adjacency, arcs;
      this.nodes := adjacency.Keys + (set a | a in arcs :: a.0) + (set a | a in arcs :: a.1);
      this.color := map n | n in adjacency :: Unvisited;
      this.stack, this.rank, this.next := [], map[], 0;
    }

    method Visit(node: Node) returns (found: bool)
      requires Valid() && node in nodes && ColorOf(node) == Unvisited
      requires stack != [] ==> (stack[|stack| - 1], node) in arcs
      modifies this
      ensures found ==> HasCycle(arcs)
      ensures !found ==> Valid() && stack == old(stack) && Keeps(old(color), color) && ColorOf(node) == Done
      decreases nodes - ColoredIn(color), 0
    {
      ghost var before, rest := color, stack;
      assert node !in rest;
      Enter(node);
      var successors := Successors(adjacency, node);
      for i := 0 to |successors|
        invariant Valid() && stack == rest + [node] && Keeps(before[node := Visiting], color)
        invariant AllDone(color, successors[..i])
      {
        FewerUncolored(before, node, color, nodes);
        ghost var onEntry := color;
        found := Follow(node, successors[i]);
        if found {
          return;
        }
        KeepsOn(before[node := Visiting], onEntry, color);
        OneMoreDone(onEntry, color, successors, i);
      }
      assert successors[..|successors|] == successors;
      assert ColorOf(node) == Visiting by {
        assert ColorIn(before[node := Visiting], node) == Visiting;
      }
      KeepsAround(before, node, color);
      Finish(node, rest);
      return false;
    }

    /** One edge out of the innermost open node. */
    method Follow(node: Node, successor: Node) returns (found: bool)
      requires Valid() && stack != [] && stack[|stack| - 1] == node && (node, successor) in arcs
      modifies this
      ensures found ==> HasCycle(arcs)
      ensures !found ==> Valid() && stack == old(stack) && Keeps(old(color), color) && ColorOf(successor) == Done
      decreases nodes - ColoredIn(color), 1
    {
      if ColorOf(successor) == Visiting {
        ClosesCycle(arcs, stack, successor);
        return true;
      }
      if ColorOf(successor) == Unvisited {
        found := Visit(successor);
        return;
      }
      return false;
    }

    /** Opens an unvisited node reached from the innermost open one. */
    method Enter(node: Node)
      requires Valid() && node in nodes && ColorOf(node) == Unvisited
      requires stack != [] ==> (stack[|stack| - 1], node) in arcs
      modifies this
      ensures Valid() && color == old(color)[node := Visiting] && stack == old(stack) + [node]
    {
      StackPush(arcs, stack, color, node);
      RankUnfinished(arcs, rank, next, color, node);
      color := color[node := Visiting];
      stack := stack + [node];
    }

    /** The innermost node has only finished successors: it is finished too. */
    method Finish(node: Node, ghost rest: seq<Node>)
      requires Valid() && stack == rest + [node] && node !in rest
      requires ColorOf(node) == Visiting && AllDone(color, Successors(adjacency, node))
      modifies this
      ensures Valid() && color == old(color)[node := Done] && stack == rest
    {
      StackPop(arcs, rest, color, node);
      RankFinished(arcs, rank, next, color, node);
      color := color[node := Done];
      stack := rest;
      rank := rank[node := next];
      next := next + 1;
    }

    /** Starts a visit at every node that has successors and was not reached before, until one finds a cycle. */
    method Explore() returns (found: bool)
      requires Valid() && stack == []
      modifies this
      ensures found <==> HasCycle(arcs)
    {
      var todo := adjacency.Keys;
      while todo != {}
        invariant Valid() && stack == [] && todo <= adjacency.Keys
        invariant forall n :: n in adjacency && n !in todo ==> ColorOf(n) == Done
      {
        var node :| node in todo;
        todo := todo - {node};
        if ColorOf(node) == Unvisited {
          found := Visit(node);
          if found {
            return true;
          }
        } else {
          assert ColorOf(node) != Visiting by { assert node !in stack; }
        }
      }
      assert Falls(arcs, rank);
      FallingMeansAcyclic(arcs, rank);
      return false;
    }
  }

  /** An arc from the innermost open node back to an open one closes a cycle along the stack. */
  lemma ClosesCycle(arcs: set<Arc>, stack: seq<Node>, back: Node)
    requires stack != [] && IsWalk(arcs, stack) && back in stack && (stack[|stack| - 1], back) in arcs
    ensures HasCycle(arcs)
  {
    var k :| 0 <= k < |stack| && stack[k] == back;
    var p := stack[k..] + [back];
    forall i | 0 <= i < |p| - 1
      ensures (p[i], p[i + 1]) in arcs
    {
      if i < |p| - 2 {
        assert (stack[k + i], stack[k + i + 1]) in arcs;
      }
    }
    assert IsCycle(arcs, p);
  }

  /** Collects for each predecessor the list of its successors. */
  method BuildAdjacency(arcs: seq<Arc>) returns (adjacency: map<Node, seq<Node>>)
    ensures forall u, v :: (u, v) in ArcSet(arcs) <==> v in Successors(adjacency, u)
  {
    adjacency := map[];
    for i := 0 to |arcs|
      invariant forall u, v :: (u, v) in ArcSet(arcs[..i]) <==> v in Successors(adjacency, u)
    {
      var (u, v) := arcs[i];
      assert ArcSet(arcs[..i + 1]) == ArcSet(arcs[..i]) + {(u, v)} by {
        assert arcs[..i + 1] == arcs[..i] + [arcs[i]];
        assert forall k :: 0 <= k < i ==> arcs[..i + 1][k] == arcs[..i][k];
        assert arcs[..i + 1][i] == (u, v);
      }
      adjacency := adjacency[u := Successors(adjacency, u) + [v]];
    }
    assert arcs[..|arcs|] == arcs;
  }

  /** Does the graph of stored and candidate dependencies have a cycle? */
  method CycleExists(rows: seq<Arc>, extra: seq<Arc>) returns (found: bool)
    ensures found <==> HasCycle(ArcSet(rows + extra))
  {
    var adjacency := BuildAdjacency(rows + extra);
    var search := new Search(adjacency, ArcSet(rows + extra));
    found := search.Explore();
  }
}
