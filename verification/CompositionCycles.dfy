/** The guard against cascading deletes that come back to where they started: a depth-first
    search over the cascade relations of the registered entity sets. */
module CompositionCycles {
  import opened ByteStrings

  /** A composition relation; `target` names the registered entity set it leads to, and is absent
      when the relation has no metadata, no resolvable model or no registered set. */
  datatype Relation = Relation(name: string, cascades: bool, target: Option<string>)

  /** A registered entity set; `enforced` when its composition is resolved and enforced by the
      application. */
  datatype SetDef = SetDef(name: string, enforced: bool, relations: seq<Relation>)

  datatype Edge = Edge(to: string, via: string)

  type Graph = map<string, seq<Edge>>

  // ------------------------------------------------------------------ the cascade graph

  function RelationEdges(from: string, relations: seq<Relation>): seq<Edge> {
    if relations == [] then []
    else
      var last := relations[|relations| - 1];
      RelationEdges(from, relations[..|relations| - 1]) +
      (if last.cascades && last.target.Some? then [Edge(last.target.value, from + "." + last.name)] else [])
  }

  /** All cascade edges out of the sets called `from`, in registration order. */
  function EdgesFrom(defs: seq<SetDef>, from: string): seq<Edge> {
    if defs == [] then []
    else
      var last := defs[|defs| - 1];
      EdgesFrom(defs[..|defs| - 1], from) +
      (if last.enforced && last.name == from then RelationEdges(from, last.relations) else [])
  }

  function Out(g: Graph, node: string): seq<Edge> {
    if node in g then g[node] else []
  }

  ghost predicate NoEmptyEntry(g: Graph) {
    forall n :: n in g ==> g[n] != []
  }

  /** The graph holds the cascade edges, and no node without one. */
  ghost predicate IsCascadeGraph(g: Graph, defs: seq<SetDef>) {
    NoEmptyEntry(g) && forall n :: Out(g, n) == EdgesFrom(defs, n)
  }

  ghost predicate ListsKeys(order: seq<string>, g: Graph) {
    forall n :: n in order <==> n in g
  }

  /** Appends an edge, creating the adjacency entry when it is the first. */
  method AddEdge(g: Graph, order: seq<string>, from: string, edge: Edge) returns (g': Graph, order': seq<string>)
    requires ListsKeys(order, g) && NoEmptyEntry(g)
    ensures ListsKeys(order', g') && NoEmptyEntry(g')
    ensures Out(g', from) == Out(g, from) + [edge]
    ensures forall n :: n != from ==> Out(g', n) == Out(g, n)
  {
    var edges := Out(g, from) + [edge];
    order' := if from in g then order else order + [from];
    g' := g[from := edges];
  }

  method AddRelations(g: Graph, order: seq<string>, from: string, relations: seq<Relation>) returns (g': Graph, order': seq<string>)
    requires ListsKeys(order, g) && NoEmptyEntry(g)
    ensures ListsKeys(order', g') && NoEmptyEntry(g')
    ensures Out(g', from) == Out(g, from) + RelationEdges(from, relations)
    ensures forall n :: n != from ==> Out(g', n) == Out(g, n)
  {
    hide RelationEdges, ListsKeys, NoEmptyEntry, Out;
    g', order' := g, order;
    NoRelations(from);
    for j := 0 to |relations|
      invariant ListsKeys(order', g') && NoEmptyEntry(g')
      invariant Out(g', from) == Out(g, from) + RelationEdges(from, relations[..j])
      invariant forall n :: n != from ==> Out(g', n) == Out(g, n)
    {
      var relation := relations[j];
      OneMoreRelation(from, relations, j);
      if relation.cascades && relation.target.Some? {
        g', order' := AddEdge(g', order', from, Edge(relation.target.value, from + "." + relation.name));
      }
    }
    assert relations[..|relations|] == relations;
  }

  method BuildAdjacency(defs: seq<SetDef>) returns (g: Graph, order: seq<string>)
    ensures IsCascadeGraph(g, defs) && ListsKeys(order, g)
  {
    hide RelationEdges, EdgesFrom, ListsKeys, Out;
    g, order := map[], [];
    NoDefs();
    for i := 0 to |defs|
      invariant IsCascadeGraph(g, defs[..i]) && ListsKeys(order, g)
    {
      OneMoreDef(defs, i);
      if defs[i].enforced {
        g, order := AddRelations(g, order, defs[i].name, defs[i].relations);
      }
    }
    assert defs[..|defs|] == defs;
  }

  lemma NoDefs()
    ensures forall n :: EdgesFrom([], n) == []
    ensures IsCascadeGraph(map[], []) && ListsKeys([], map[])
  {
  }

  lemma NoRelations(from: string)
    ensures RelationEdges(from, []) == []
  {
  }

  lemma OneMoreDef(defs: seq<SetDef>, i: nat)
    requires i < |defs|
    ensures forall n :: EdgesFrom(defs[..i + 1], n) ==
                        EdgesFrom(defs[..i], n) + (if defs[i].enforced && defs[i].name == n then RelationEdges(n, defs[i].relations) else [])
  {
    assert defs[..i + 1][..i] == defs[..i];
  }

  lemma OneMoreRelation(from: string, relations: seq<Relation>, j: nat)
    requires j < |relations|
    ensures RelationEdges(from, relations[..j + 1]) ==
            RelationEdges(from, relations[..j]) +
            (if relations[j].cascades && relations[j].target.Some?
             then [Edge(relations[j].target.value, from + "." + relations[j].name)] else [])
  {
    assert relations[..j + 1][..j] == relations[..j];
  }

  // ------------------------------------------------------------------ walks and cycles

  ghost predicate IsWalk(g: Graph, nodes: seq<string>, labels: seq<string>) {
    && |nodes| == |labels| + 1
    && forall i :: 0 <= i < |labels| ==> Edge(nodes[i + 1], labels[i]) in Out(g, nodes[i])
  }

  /** The labels of a walk that ends where it starts and has at least one edge. */
  ghost predicate IsCycle(g: Graph, labels: seq<string>) {
    labels != [] && exists nodes :: IsWalk(g, nodes, labels) && nodes[0] == nodes[|labels|]
  }

  ghost predicate HasCycle(g: Graph) {
    exists labels :: IsCycle(g, labels)
  }

  lemma WalkSnoc(g: Graph, nodes: seq<string>, labels: seq<string>, edge: Edge)
    requires IsWalk(g, nodes, labels) && edge in Out(g, nodes[|labels|])
    ensures IsWalk(g, nodes + [edge.to], labels + [edge.via])
  {
    assert edge == Edge(edge.to, edge.via);
  }

  /** Cutting the stack at the node an edge returns to gives a closed walk. */
  lemma ClosedSuffix(g: Graph, nodes: seq<string>, labels: seq<string>, edge: Edge, start: nat)
    requires IsWalk(g, nodes, labels) && edge in Out(g, nodes[|labels|])
    requires start < |nodes| && nodes[start] == edge.to
    ensures IsCycle(g, labels[start..] + [edge.via])
  {
    WalkSnoc(g, nodes, labels, edge);
    var all, texts := nodes + [edge.to], labels + [edge.via];
    assert labels[start..] + [edge.via] == texts[start..];
    assert IsWalk(g, all[start..], texts[start..]);
  }

  /** Numbers that decrease along every edge of the numbered nodes. */
  ghost predicate Decreasing(g: Graph, rank: map<string, nat>) {
    forall n, e :: n in rank && e in Out(g, n) ==> e.to in rank && rank[e.to] < rank[n]
  }

  lemma {:induction false} WalkDescends(g: Graph, rank: map<string, nat>, nodes: seq<string>, labels: seq<string>, i: nat)
    requires IsWalk(g, nodes, labels) && Decreasing(g, rank)
    requires nodes[0] in rank && i <= |labels|
    ensures nodes[i] in rank && rank[nodes[i]] + i <= rank[nodes[0]]
    decreases i
  {
    if i > 0 {
      WalkDescends(g, rank, nodes, labels, i - 1);
      assert Edge(nodes[i], labels[i - 1]) in Out(g, nodes[i - 1]);
    }
  }

  lemma RankedMeansAcyclic(g: Graph, rank: map<string, nat>)
    requires Decreasing(g, rank) && forall n :: n in g ==> n in rank
    ensures !HasCycle(g)
  {
    forall labels
      ensures !IsCycle(g, labels)
    {
      forall nodes | labels != [] && IsWalk(g, nodes, labels)
        ensures nodes[0] != nodes[|labels|]
      {
        assert Edge(nodes[1], labels[0]) in Out(g, nodes[0]);
        WalkDescends(g, rank, nodes, labels, |labels|);
      }
    }
  }

  // ------------------------------------------------------------------ the search

  datatype Colour = Visiting | Done

  /** Nodes the search can meet. */
  ghost predicate Covers(all: set<string>, g: Graph) {
    && (forall n :: n in g ==> n in all)
    && (forall n, e :: n in g && e in g[n] ==> e.to in all)
  }

  class CascadeSearch {
    const g: Graph
    const strict: bool
    ghost const all: set<string>

    var visitState: map<string, Colour>
    var stack: seq<string>
    var edgeStack: seq<string>
    /** Cycles reported so far: thrown when strict, logged otherwise. */
    var reports: seq<seq<string>>

    /** Finishing numbers of the nodes that are done, and the next one to give. */
    ghost var rank: map<string, nat>
    ghost var clock: nat

    constructor (g: Graph, strict: bool, ghost all: set<string>)
      requires Covers(all, g)
      ensures this.g == g && this.strict == strict && this.all == all
      ensures Valid() && stack == [] && edgeStack == [] && visitState == map[] && reports == []
    {
      this.g, this.strict, this.all := g, strict, all;
      visitState, stack, edgeStack, reports := map[], [], [], [];
      rank, clock := map[], 0;
    }

    /** Colours, stack and finishing numbers agree. */
    ghost predicate Coloured()
      reads this
    {
      && (forall n :: n in visitState && visitState[n].Visiting? <==> n in stack)
      && (forall n :: n in visitState && visitState[n].Done? <==> n in rank)
      && (forall i, j :: 0 <= i < j < |stack| ==> stack[i] != stack[j])
      && (forall n :: n in visitState ==> n in all)
      && (forall n :: n in rank ==> rank[n] < clock)
    }

    ghost predicate Valid()
      reads this
    {
      && Covers(all, g)
      && Coloured()
      && (forall i :: 0 <= i < |reports| ==> IsCycle(g, reports[i]))
      && (reports == [] ==> Decreasing(g, rank))
    }

    method Report(labels: seq<string>) returns (thrown: bool)
      requires IsCycle(g, labels)
      modifies this`reports
      ensures thrown == strict && reports == old(reports) + [labels]
    {
      reports := reports + [labels];
      return strict;
    }

    method IndexOnStack(node: string) returns (index: nat)
      requires node in stack
      ensures index < |stack| && stack[index] == node
    {
      index := 0;
      while stack[index] != node
        invariant index < |stack| && node !in stack[..index]
        decreases |stack| - index
      {
        assert node in stack[..index] + stack[index..];
        assert stack[index..] == [stack[index]] + stack[index + 1..];
        index := index + 1;
      }
    }

    /** What a piece of search that did not throw leaves in place. */
    twostate predicate Kept()
      reads this
    {
      && stack == old(stack) && edgeStack == old(edgeStack)
      && (forall n :: n in old(rank) ==> n in rank)
      && old(visitState).Keys <= visitState.Keys
    }

    /** Reports only grow, and a strict search throws on the first one. */
    twostate predicate Reported(thrown: bool)
      reads this
    {
      old(reports) <= reports && (thrown <==> strict && reports != old(reports))
    }

    /** Visits `node`, which the search has not met, below the nodes on the stack. */
    method Dfs(node: string) returns (thrown: bool)
      requires Valid() && node !in visitState && node in all
      requires IsWalk(g, stack + [node], edgeStack)
      modifies this
      ensures Valid() && Reported(thrown)
      ensures !thrown ==> Kept() && node in rank
      decreases all - visitState.Keys, 1
    {
      hide Coloured, Decreasing, Covers, IsCycle, HasCycle;
      Enter(node);
      var edges := Out(g, node);
      ghost var grown := stack;
      for i := 0 to |edges|
        invariant Valid() && stack == grown && edgeStack == old(edgeStack)
        invariant strict ==> reports == old(reports)
        invariant old(reports) <= reports
        invariant forall n :: n in old(rank) ==> n in rank
        invariant old(visitState).Keys + {node} <= visitState.Keys
        invariant reports == [] ==> forall k :: 0 <= k < i ==> edges[k].to in rank
      {
        thrown := Explore(node, edges[i]);
        if thrown {
          return;
        }
      }
      Leave(node);
      thrown := false;
    }

    /** One edge out of the node on top of the stack. */
    method Explore(node: string, edge: Edge) returns (thrown: bool)
      requires Valid() && node in visitState && edge in Out(g, node)
      requires stack != [] && stack[|stack| - 1] == node && IsWalk(g, stack, edgeStack)
      modifies this
      ensures Valid() && Reported(thrown)
      ensures !thrown ==> Kept() && (reports == [] ==> edge.to in rank)
      decreases all - visitState.Keys, 2
    {
      hide Decreasing, HasCycle, IsCycle;
      if edge.to in visitState && visitState[edge.to].Visiting? {
        var startIndex := IndexOnStack(edge.to);
        ClosedSuffix(g, stack, edgeStack, edge, startIndex);
        var labels := edgeStack[startIndex..] + [edge.via];
        thrown := Report(labels);
        return;
      }
      if edge.to in visitState && visitState[edge.to].Done? {
        return false;
      }
      WalkSnoc(g, stack, edgeStack, edge);
      hide Coloured, IsWalk;
      edgeStack := edgeStack + [edge.via];
      thrown := Dfs(edge.to);
      if thrown {
        return;
      }
      edgeStack := edgeStack[..|edgeStack| - 1];
    }

    method Enter(node: string)
      requires Valid() && node !in visitState && node in all
      modifies this`visitState, this`stack
      ensures Valid() && stack == old(stack) + [node] && visitState == old(visitState)[node := Visiting]
    {
      visitState := visitState[node := Visiting];
      stack := stack + [node];
    }

    /** Takes a node whose edges are all explored off the stack and numbers it. */
    method Leave(node: string)
      requires Valid() && stack != [] && stack[|stack| - 1] == node
      requires reports == [] ==> forall e :: e in Out(g, node) ==> e.to in rank
      modifies this`visitState, this`stack, this`rank, this`clock
      ensures Valid() && stack == old(stack)[..|old(stack)| - 1]
      ensures rank.Keys == old(rank).Keys + {node} && visitState.Keys == old(visitState).Keys
    {
      assert node in stack;
      stack := stack[..|stack| - 1];
      visitState := visitState[node := Done];
      rank := rank[node := clock];
      clock := clock + 1;
    }

    /** Searches from every node with an edge. */
    method SearchAll(order: seq<string>) returns (thrown: bool)
      requires Valid() && ListsKeys(order, g)
      requires stack == [] && edgeStack == [] && visitState == map[] && reports == []
      modifies this
      ensures thrown <==> strict && reports != []
      ensures reports != [] <==> HasCycle(g)
      ensures forall i :: 0 <= i < |reports| ==> IsCycle(g, reports[i])
    {
      hide Decreasing, Covers, IsCycle, HasCycle;
      for i := 0 to |order|
        invariant Valid() && stack == [] && edgeStack == []
        invariant strict ==> reports == []
        invariant forall k :: 0 <= k < i ==> order[k] in visitState
      {
        var node := order[i];
        if node in visitState {
          continue;
        }
        StartNode(order, i);
        thrown := Dfs(node);
        if thrown {
          CycleFound(reports);
          return;
        }
      }
      thrown := false;
      AllDone(order);
      if reports == [] {
        RankedMeansAcyclic(g, rank);
      } else {
        CycleFound(reports);
      }
    }

    lemma StartNode(order: seq<string>, i: nat)
      requires Valid() && ListsKeys(order, g) && i < |order|
      ensures order[i] in all && IsWalk(g, [] + [order[i]], [])
    {
    }

    lemma CycleFound(found: seq<seq<string>>)
      requires found != [] && forall i :: 0 <= i < |found| ==> IsCycle(g, found[i])
      ensures HasCycle(g)
    {
      assert IsCycle(g, found[0]);
    }

    /** With an empty stack every node met is done. */
    lemma AllDone(order: seq<string>)
      requires Valid() && stack == [] && ListsKeys(order, g)
      requires forall k :: 0 <= k < |order| ==> order[k] in visitState
      ensures forall n :: n in g ==> n in rank
    {
      forall n | n in g
        ensures n in rank
      {
        assert n in order;
        assert n in visitState && n !in stack;
      }
    }
  }

  // ------------------------------------------------------------------ the check

  ghost function NodesOf(g: Graph): set<string> {
    g.Keys + set n, i | n in g && 0 <= i < |g[n]| :: g[n][i].to
  }

  lemma NodesCover(g: Graph)
    ensures Covers(NodesOf(g), g)
  {
    forall n, e | n in g && e in g[n]
      ensures e.to in NodesOf(g)
    {
      var i :| 0 <= i < |g[n]| && g[n][i] == e;
    }
  }

  /** Has the cascade graph of these entity sets a directed cycle? */
  ghost predicate CascadeCycle(defs: seq<SetDef>, labels: seq<string>) {
    labels != [] && exists nodes :: IsCascadeWalk(defs, nodes, labels) && nodes[0] == nodes[|labels|]
  }

  ghost predicate IsCascadeWalk(defs: seq<SetDef>, nodes: seq<string>, labels: seq<string>) {
    && |nodes| == |labels| + 1
    && forall i :: 0 <= i < |labels| ==> Edge(nodes[i + 1], labels[i]) in EdgesFrom(defs, nodes[i])
  }

  lemma SameCycles(g: Graph, defs: seq<SetDef>)
    requires IsCascadeGraph(g, defs)
    ensures forall labels :: IsCycle(g, labels) <==> CascadeCycle(defs, labels)
  {
    hide EdgesFrom, Out;
    forall nodes, labels
      ensures IsWalk(g, nodes, labels) <==> IsCascadeWalk(defs, nodes, labels)
    {
    }
  }

  /** The check, sound and complete on every registration list: it reports something exactly when
      a chain of cascade relations closes, every report labels such a closed chain, and a strict
      check throws exactly then. */
  method ValidateCompositionCascadeCycles(defs: seq<SetDef>, strict: bool)
    returns (thrown: bool, reports: seq<seq<string>>)
    ensures reports != [] <==> exists labels :: CascadeCycle(defs, labels)
    ensures forall i :: 0 <= i < |reports| ==> CascadeCycle(defs, reports[i])
    ensures thrown <==> strict && reports != []
  {
    hide IsCascadeGraph, CascadeCycle, IsCycle, Covers, ListsKeys;
    var g, order := BuildAdjacency(defs);
    NodesCover(g);
    var search := new CascadeSearch(g, strict, NodesOf(g));
    thrown := search.SearchAll(order);
    reports := search.reports;
    SameCycles(g, defs);
  }
}
