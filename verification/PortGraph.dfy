/** The graph over connected processors (ck_lab/Graph.cpp). */
module PortGraph {
  import opened Options
  import opened Pipes

  datatype Edge = Edge(to: nat, reversed: bool, inputPort: nat, outputPort: nat)

  datatype Node = Node(processor: nat, direct: seq<Edge>, back: seq<Edge>)

  /** The last position of p in the list. */
  function IndexOf(ps: seq<nat>, p: nat): (a: nat)
    requires p in ps
    ensures a < |ps| && ps[a] == p
  {
    if ps[|ps| - 1] == p then |ps| - 1 else IndexOf(ps[..|ps| - 1], p)
  }

  /** Every port of the processors is connected, and to one of them. */
  ghost predicate Complete(w: World, ps: seq<nat>) {
    && Within(w, ps) && Linked(w) && Distinct(ps)
    && (forall p, j :: p in ps && 0 <= j < |w[p].ins| ==> w[p].ins[j].Some? && w[p].ins[j].value.proc in ps)
    && (forall p, i :: p in ps && 0 <= i < |w[p].outs| ==> w[p].outs[i].Some? && w[p].outs[i].value.proc in ps)
  }

  /** What the two loops over a processor's ports add (Graph.cpp:34-69). */
  ghost predicate NodeOk(w: World, ps: seq<nat>, p: nat, node: Node)
    requires Complete(w, ps) && p in ps
  {
    && node.processor == p && |node.back| == |w[p].ins| && |node.direct| == |w[p].outs|
    && (forall j :: 0 <= j < |node.back| ==> node.back[j] == BackEdge(w, ps, p, j))
    && (forall i :: 0 <= i < |node.direct| ==> node.direct[i] == DirectEdge(w, ps, p, i))
  }

  class Graph {
    var nodes: seq<Node>
    var processorMap: map<nat, nat>

    /** Graph.cpp:22-32. */
    constructor (w: World, processors: seq<nat>)
      requires Complete(w, processors)
      ensures |nodes| == |processors|
      ensures forall a :: 0 <= a < |processors| ==> NodeOk(w, processors, processors[a], nodes[a])
    {
      nodes, processorMap := [], map[];
      new;
      var n := 0;
      while n < |processors|
        invariant 0 <= n <= |processors| == |processors| && |nodes| == n
        invariant forall a :: 0 <= a < n ==> nodes[a] == Node(processors[a], [], [])
        invariant forall a :: 0 <= a < n ==> processors[a] in processorMap && processorMap[processors[a]] == a
      {
        processorMap := processorMap[processors[n] := n];
        nodes := nodes + [Node(processors[n], [], [])];
        n := n + 1;
      }
      hide Linked;
      n := 0;
      while n < |processors|
        invariant 0 <= n <= |processors| == |nodes|
        invariant MapOk(processors)
        invariant forall a :: 0 <= a < n ==> NodeOk(w, processors, processors[a], nodes[a])
        invariant forall a :: n <= a < |processors| ==> nodes[a] == Node(processors[a], [], [])
      {
        ghost var before := nodes;
        AddBackEdges(w, processors, n);
        AddDirectEdges(w, processors, n);
        assert NodeOk(w, processors, processors[n], nodes[n]);
        assert forall a :: 0 <= a < |nodes| && a != n ==> nodes[a] == before[a];
        n := n + 1;
      }
    }

    ghost predicate MapOk(processors: seq<nat>)
      reads this
    {
      forall p :: p in processors ==> p in processorMap && processorMap[p] == IndexOf(processors, p)
    }

    /** The first half of AddEdges (lines 39-52), with AddEdge. */
    method AddBackEdges(w: World, ghost ps: seq<nat>, n: nat)
      requires Complete(w, ps) && MapOk(ps) && |nodes| == |ps| && n < |ps| && nodes[n] == Node(ps[n], [], [])
      modifies this`nodes
      ensures |nodes| == |ps| && (forall a :: 0 <= a < |ps| && a != n ==> nodes[a] == old(nodes[a]))
      ensures nodes[n].processor == ps[n] && nodes[n].direct == [] && |nodes[n].back| == |w[ps[n]].ins|
      ensures forall j :: 0 <= j < |nodes[n].back| ==> nodes[n].back[j] == BackEdge(w, ps, ps[n], j)
    {
      hide Linked;
      var from := nodes[n].processor;
      var size := |nodes[n].back|;
      while size < |w[from].ins|
        invariant size <= |w[from].ins| && |nodes| == |ps| && MapOk(ps)
        invariant forall a :: 0 <= a < |ps| && a != n ==> nodes[a] == old(nodes[a])
        invariant nodes[n].processor == ps[n] && nodes[n].direct == [] && |nodes[n].back| == size
        invariant forall j :: 0 <= j < size ==> nodes[n].back[j] == BackEdge(w, ps, ps[n], j)
      {
        var port := w[from].ins[size].value;
        var edge := Edge(processorMap[port.proc], true, size, port.port);
        nodes := nodes[n := nodes[n].(back := nodes[n].back + [edge])];
        size := size + 1;
      }
    }

    /** The second half (lines 54-67). */
    method AddDirectEdges(w: World, ghost ps: seq<nat>, n: nat)
      requires Complete(w, ps) && MapOk(ps) && |nodes| == |ps| && n < |ps|
      requires nodes[n].processor == ps[n] && nodes[n].direct == []
      modifies this`nodes
      ensures |nodes| == |ps| && (forall a :: 0 <= a < |ps| && a != n ==> nodes[a] == old(nodes[a]))
      ensures nodes[n].processor == ps[n] && nodes[n].back == old(nodes[n].back) && |nodes[n].direct| == |w[ps[n]].outs|
      ensures forall i :: 0 <= i < |nodes[n].direct| ==> nodes[n].direct[i] == DirectEdge(w, ps, ps[n], i)
    {
      hide Linked;
      var from := nodes[n].processor;
      var size := |nodes[n].direct|;
      while size < |w[from].outs|
        invariant size <= |w[from].outs| && |nodes| == |ps| && MapOk(ps)
        invariant forall a :: 0 <= a < |ps| && a != n ==> nodes[a] == old(nodes[a])
        invariant nodes[n].processor == ps[n] && nodes[n].back == old(nodes[n].back) && |nodes[n].direct| == size
        invariant forall i :: 0 <= i < size ==> nodes[n].direct[i] == DirectEdge(w, ps, ps[n], i)
      {
        var port := w[from].outs[size].value;
        var edge := Edge(processorMap[port.proc], false, port.port, size);
        nodes := nodes[n := nodes[n].(direct := nodes[n].direct + [edge])];
        size := size + 1;
      }
    }
  }

  ghost function BackEdge(w: World, ps: seq<nat>, p: nat, j: nat): Edge
    requires Complete(w, ps) && p in ps && j < |w[p].ins|
  {
    var o := w[p].ins[j].value;
    Edge(IndexOf(ps, o.proc), true, j, o.port)
  }

  ghost function DirectEdge(w: World, ps: seq<nat>, p: nat, i: nat): Edge
    requires Complete(w, ps) && p in ps && i < |w[p].outs|
  {
    var x := w[p].outs[i].value;
    Edge(IndexOf(ps, x.proc), false, x.port, i)
  }

  lemma IndexOfAt(ps: seq<nat>, a: nat)
    requires Distinct(ps) && a < |ps|
    ensures IndexOf(ps, ps[a]) == a
  {
  }

  /** Edges are links, and direct and back edges mirror each other exactly: output i of node a is
      connected to input j of node b if and only if node a has the direct edge (b, j, i), and if
      and only if node b has the back edge (a, j, i). */
  lemma EdgesMirror(w: World, ps: seq<nat>, a: nat, b: nat, j: nat, i: nat)
    requires Complete(w, ps) && a < |ps| && b < |ps|
    ensures (i < |w[ps[a]].outs| && DirectEdge(w, ps, ps[a], i) == Edge(b, false, j, i)) <==>
              (j < |w[ps[b]].ins| && BackEdge(w, ps, ps[b], j) == Edge(a, true, j, i))
    ensures (i < |w[ps[a]].outs| && DirectEdge(w, ps, ps[a], i) == Edge(b, false, j, i)) <==>
              (i < |w[ps[a]].outs| && w[ps[a]].outs[i] == Some(InPort(ps[b], j)))
  {
    IndexOfAt(ps, a);
    IndexOfAt(ps, b);
    if i < |w[ps[a]].outs| {
      assert IsOut(w, OutPort(ps[a], i));
    }
    if j < |w[ps[b]].ins| {
      assert IsIn(w, InPort(ps[b], j));
    }
  }

  /** In the graph of a completed pipe every direct edge leads to a later node. */
  lemma DirectForward(w: World, v: Pipe, a: nat, i: nat)
    requires PipeOk(w, v) && Complete(w, v.processors) && a < |v.processors| && i < |w[v.processors[a]].outs|
    ensures DirectEdge(w, v.processors, v.processors[a], i).to > a
  {
    var ps := v.processors;
    var q := w[ps[a]].outs[i].value.proc;
    assert Leads(w, ps[a], q);
    var b := LeadsLater(w, v, a, q);
    IndexOfAt(ps, b);
  }
}
