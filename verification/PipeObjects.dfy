/** The methods of ck_lab/Pipe.cpp on mutable pipes over a shared network of processors, each
    proved to do what module Pipes says, and the walk of `ToString`. */
module PipeObjects {
  import opened Pipes
  import opened Options
  import PipeSinks

  /** All processors with their ports. */
  class Network {
    var procs: World

    constructor (procs: World)
      ensures this.procs == procs
    {
      this.procs := procs;
    }

    /** Port.cpp:7-14. */
    method Connect(o: OutPort, i: InPort)
      requires Idle(procs, o, i)
      modifies this
      ensures procs == Connected(old(procs), o, i)
    {
      procs := procs[o.proc := procs[o.proc].(outs := procs[o.proc].outs[o.port := Some(i)])];
      procs := procs[i.proc := procs[i.proc].(ins := procs[i.proc].ins[i.port := Some(o)])];
    }
  }

  // ---- The walk of ToString ----

  /** The processor behind the first output port (Pipe.cpp:149-159). */
  function First(w: World, p: nat): Option<nat>
    requires p < |w|
  {
    if w[p].outs == [] || w[p].outs[0].None? then None
    else
      var i := w[p].outs[0].value;
      if !IsIn(w, i) || w[i.proc].ins[i.port].None? then None else Some(i.proc)
  }

  /** Where links are known at both ends, that is where the first output leads. */
  lemma FirstIsLink(w: World, p: nat, q: nat)
    requires Linked(w) && p < |w|
    ensures First(w, p) == Some(q) <==>
              exists j :: 0 <= j && w[p].outs != [] && w[p].outs[0] == Some(InPort(q, j))
  {
    if w[p].outs != [] && w[p].outs[0].Some? {
      assert IsOut(w, OutPort(p, 0));
      assert w[p].outs[0] == Some(InPort(w[p].outs[0].value.proc, w[p].outs[0].value.port));
    }
  }

  /** Where n steps of the walk lead. */
  function Chain(w: World, p: nat, n: nat): Option<nat>
    requires p < |w|
  {
    if n == 0 then Some(p)
    else
      var q := Chain(w, p, n - 1);
      if q.None? || q.value >= |w| then None else First(w, q.value)
  }

  ghost predicate Reached(w: World, sources: seq<nat>, p: nat)
    requires Within(w, sources)
  {
    exists s, n :: s in sources && Chain(w, s, n) == Some(p)
  }

  function Sources(w: World, ps: seq<nat>): (s: seq<nat>)
    requires Within(w, ps)
    ensures Within(w, s) && forall p :: p in s <==> p in ps && w[p].ins == []
  {
    if ps == [] then [] else (if w[ps[0]].ins == [] then [ps[0]] else []) + Sources(w, ps[1..])
  }

  /** `s` are the members of `ps` at the positions `at`, from left to right. */
  ghost predicate Picks(ps: seq<nat>, at: seq<nat>, s: seq<nat>) {
    && |at| == |s| && (forall i, j :: 0 <= i < j < |at| ==> at[i] < at[j])
    && forall i :: 0 <= i < |at| ==> at[i] < |ps| && ps[at[i]] == s[i]
  }

  function Shifted(at: seq<nat>): seq<nat> { seq(|at|, (i: nat) requires i < |at| => at[i] + 1) }

  lemma PicksShifted(ps: seq<nat>, at: seq<nat>, s: seq<nat>)
    requires ps != [] && Picks(ps[1..], at, s)
    ensures Picks(ps, Shifted(at), s) && Picks(ps, [0] + Shifted(at), [ps[0]] + s)
  {
  }

  /** The sources, which are all processors without inputs, are in the order of the list. */
  lemma {:induction false} SourcesInOrder(w: World, ps: seq<nat>) returns (at: seq<nat>)
    requires Within(w, ps)
    ensures Picks(ps, at, Sources(w, ps))
  {
    at := [];
    if ps != [] {
      hide Picks, Shifted;
      var rest := SourcesInOrder(w, ps[1..]);
      at := if w[ps[0]].ins == [] then [0] + Shifted(rest) else Shifted(rest);
      PicksShifted(ps, rest, Sources(w, ps[1..]));
    }
  }

  /** Every printed processor's successor is printed, or is the given one. */
  ghost predicate ClosedBut(w: World, printed: set<nat>, next: Option<nat>) {
    forall p :: p in printed && p < |w| && First(w, p).Some? ==> First(w, p).value in printed || First(w, p) == next
  }

  lemma {:induction false} ClosedChain(w: World, printed: set<nat>, s: nat, n: nat, p: nat)
    requires ClosedBut(w, printed, None) && s in printed && s < |w| && Chain(w, s, n) == Some(p)
    ensures p in printed
    decreases n
  {
    if n > 0 {
      ClosedChain(w, printed, s, n - 1, Chain(w, s, n - 1).value);
    }
  }

  /** A line of ToString: the chain of first links from its source, up to where the chain ends or
      comes to a processor printed before. */
  ghost predicate LineOk(w: World, source: nat, line: seq<nat>, before: set<nat>)
    requires source < |w|
  {
    && (forall a :: 0 <= a < |line| ==> Chain(w, source, a) == Some(line[a]) && line[a] !in before)
    && var end := Chain(w, source, |line|); end.None? || end.value in before
  }

  lemma LineNotShorter(w: World, source: nat, x: seq<nat>, y: seq<nat>, before: set<nat>)
    requires source < |w| && LineOk(w, source, x, before) && LineOk(w, source, y, before)
    ensures |x| >= |y|
  {
    hide Chain;
  }

  /** There is only one such line. */
  lemma LineDetermined(w: World, source: nat, x: seq<nat>, y: seq<nat>, before: set<nat>)
    requires source < |w| && LineOk(w, source, x, before) && LineOk(w, source, y, before)
    ensures x == y
  {
    hide Chain;
    LineNotShorter(w, source, x, y, before);
    LineNotShorter(w, source, y, x, before);
    assert forall a :: 0 <= a < |x| ==> Chain(w, source, a) == Some(x[a]);
  }

  function Printed(lines: seq<seq<nat>>): set<nat> { set p | p in Flat(lines) }

  /** Line k starts from source k, and skips what the lines above it show. */
  ghost predicate LinesOk(w: World, sources: seq<nat>, lines: seq<seq<nat>>)
    requires Within(w, sources)
  {
    && |lines| <= |sources|
    && forall k :: 0 <= k < |lines| ==> LineOk(w, sources[k], lines[k], Printed(lines[..k]))
  }

  lemma LinesAppend(w: World, sources: seq<nat>, lines: seq<seq<nat>>, line: seq<nat>)
    requires Within(w, sources) && LinesOk(w, sources, lines) && |lines| < |sources|
    requires LineOk(w, sources[|lines|], line, Printed(lines))
    ensures LinesOk(w, sources, lines + [line])
  {
    hide LineOk, Printed;
    var all := lines + [line];
    assert all[..|lines|] == lines;
    forall k | 0 <= k < |all|
      ensures LineOk(w, sources[k], all[k], Printed(all[..k]))
    {
      assert k < |lines| ==> all[..k] == lines[..k];
    }
  }

  /** Along a chain the processors stand further and further back in the list. */
  lemma {:induction false} ChainLater(w: World, v: Pipe, source: nat, m: nat, a: nat, n: nat) returns (b: nat)
    requires Linked(w) && PipeOk(w, v) && source < |w| && a < |v.processors| && m <= n
    requires Chain(w, source, m) == Some(v.processors[a]) && Chain(w, source, n).Some?
    ensures a <= b < |v.processors| && Chain(w, source, n) == Some(v.processors[b]) && (m < n ==> a < b)
    decreases n
  {
    hide Linked, PipeOk, First;
    if m == n {
      b := a;
    } else {
      var c := ChainLater(w, v, source, m, a, n - 1);
      PipeWithin(w, v);
      b := FirstLater(w, v, c);
    }
  }

  /** No processor comes twice in a chain. */
  lemma ChainDistinct(w: World, v: Pipe, source: nat, m: nat, n: nat)
    requires Linked(w) && PipeOk(w, v) && source in v.processors && m < n
    ensures Within(w, v.processors) && source < |w|
    ensures Chain(w, source, n).Some? ==> Chain(w, source, m) != Chain(w, source, n)
  {
    PipeWithin(w, v);
    PipeOpen(w, v);
    hide PipeOk, Linked, Chain;
    if Chain(w, source, n).Some? && Chain(w, source, m).Some? {
      var s: nat :| s < |v.processors| && v.processors[s] == source;
      ChainStart(w, source);
      var a := ChainLater(w, v, source, 0, s, m);
      var b := ChainLater(w, v, source, m, a, n);
    }
  }

  function Flat(lines: seq<seq<nat>>): seq<nat> {
    if lines == [] then [] else Flat(lines[..|lines| - 1]) + lines[|lines| - 1]
  }

  lemma FlatAppend(lines: seq<seq<nat>>, line: seq<nat>)
    ensures Flat(lines + [line]) == Flat(lines) + line
  {
    assert (lines + [line])[..|lines|] == lines;
  }

  /** A first link stays in the pipe and leads further back in its list. */
  lemma FirstLater(w: World, v: Pipe, a: nat) returns (b: nat)
    requires Linked(w) && PipeOk(w, v) && a < |v.processors| && First(w, v.processors[a]).Some?
    ensures a < b < |v.processors| && v.processors[b] == First(w, v.processors[a]).value
  {
    assert Leads(w, v.processors[a], First(w, v.processors[a]).value);
    b := LeadsLater(w, v, a, First(w, v.processors[a]).value);
  }

  /** The walk after n steps: it prints, or has come to what was printed before. */
  ghost predicate LineSoFar(w: World, source: nat, line: seq<nat>, before: set<nat>, n: nat, current: Option<nat>)
    requires source < |w|
  {
    && |line| <= n && Chain(w, source, n) == current
    && (forall a :: 0 <= a < |line| ==> Chain(w, source, a) == Some(line[a]) && line[a] !in before)
    && (|line| < n ==>
          && Chain(w, source, |line|).Some? && Chain(w, source, |line|).value in before
          && (current.Some? ==> current.value in before))
  }

  lemma LineStarts(w: World, source: nat, before: set<nat>)
    requires source < |w|
    ensures LineSoFar(w, source, [], before, 0, Some(source))
  {
  }

  lemma LineGoesOn(w: World, v: Pipe, source: nat, line: seq<nat>, before: set<nat>, n: nat, p: nat, more: seq<nat>)
    requires Linked(w) && PipeOk(w, v) && source in v.processors && source < |w| && p < |w|
    requires LineSoFar(w, source, line, before, n, Some(p)) && ClosedBut(w, before, None)
    requires more == if p in before || p in line then line else line + [p]
    ensures LineSoFar(w, source, more, before, n + 1, First(w, p))
  {
    hide PipeOk, Linked, First, Chain;
    forall a | 0 <= a < |line|
      ensures line[a] != p
    {
      ChainDistinct(w, v, source, a, n);
    }
    ChainNext(w, source, n, p);
    assert p in before && First(w, p).Some? ==> First(w, p).value in before;
    LineNext(w, source, line, before, n, p, First(w, p));
  }

  lemma LineNext(w: World, source: nat, line: seq<nat>, before: set<nat>, n: nat, p: nat, next: Option<nat>)
    requires source < |w| && LineSoFar(w, source, line, before, n, Some(p)) && p !in line
    requires next == Chain(w, source, n + 1) && (p in before && next.Some? ==> next.value in before)
    ensures LineSoFar(w, source, if p in before then line else line + [p], before, n + 1, next)
  {
    hide Chain;
  }

  lemma LineEnds(w: World, source: nat, line: seq<nat>, before: set<nat>, n: nat)
    requires source < |w| && LineSoFar(w, source, line, before, n, None)
    ensures LineOk(w, source, line, before)
  {
  }

  class PipeObject {
    var processors: seq<nat>
    var outputPorts: seq<OutPort>
    var maxParallelStreams: nat

    function View(): Pipe
      reads this
    {
      Pipe(processors, outputPorts, maxParallelStreams)
    }

    constructor ()
      ensures View() == Pipe([], [], 0)
    {
      processors, outputPorts, maxParallelStreams := [], [], 0;
    }

    /** Lines 48-59. */
    method AddSource(net: Network, p: nat) returns (status: Status)
      requires p < |net.procs| && net.procs[p].ins == [] && |net.procs[p].outs| == 1
      modifies this
      ensures Step(net.procs, View(), status) == Pipes.AddSource(old(net.procs), old(View()), p)
    {
      if net.procs[p].outs[0].Some? {
        return ConnectedSource;
      }
      outputPorts := outputPorts + [OutPort(p, 0)];
      processors := processors + [p];
      maxParallelStreams := Max(maxParallelStreams, |outputPorts|);
      return OK;
    }

    /** The first loop of AddTransform (lines 108-112). */
    method ConnectInputs(net: Network, t: nat)
      requires Linked(net.procs) && PipeOk(net.procs, View())
      requires t < |net.procs| && t !in processors && Unconnected(net.procs[t])
      requires |net.procs[t].ins| == |outputPorts|
      modifies net
      ensures net.procs == ConnectAll(old(net.procs), outputPorts, t, 0)
    {
      hide PipeOk, Linked, Idle;
      PipeOpen(net.procs, View());
      ghost var all := ConnectAll(net.procs, outputPorts, t, 0);
      var k := 0;
      assert outputPorts[0..] == outputPorts;
      while k < |outputPorts|
        invariant 0 <= k <= |outputPorts| && |net.procs| == |old(net.procs)|
        invariant Linked(net.procs) && Within(net.procs, processors)
        invariant Open(net.procs, processors) == outputPorts[k..]
        invariant |net.procs[t].ins| == |outputPorts|
        invariant forall j :: k <= j < |outputPorts| ==> net.procs[t].ins[j].None?
        invariant all == ConnectAll(net.procs, outputPorts[k..], t, k)
      {
        assert outputPorts[k..][0] == outputPorts[k] && outputPorts[k..][1..] == outputPorts[k + 1..];
        ConnectOne(net.procs, processors, t, k);
        IdleOut(net.procs, outputPorts[k], InPort(t, k));
        net.Connect(outputPorts[k], InPort(t, k));
        k := k + 1;
      }
    }

    /** The second loop of AddTransform (lines 114-122). */
    method OpenOutputs(net: Network, t: nat)
      requires t < |net.procs| && outputPorts == []
      modifies this`outputPorts
      ensures outputPorts == OpenFrom(net.procs[t].outs, t, 0)
    {
      var outs := net.procs[t].outs;
      var i := 0;
      while i < |outs|
        invariant 0 <= i <= |outs|
        invariant OpenFrom(outs, t, 0) == outputPorts + OpenFrom(outs, t, i)
      {
        if outs[i].None? {
          assert outputPorts + ([OutPort(t, i)] + OpenFrom(outs, t, i + 1))
              == (outputPorts + [OutPort(t, i)]) + OpenFrom(outs, t, i + 1);
          outputPorts := outputPorts + [OutPort(t, i)];
        }
        i := i + 1;
      }
    }

    /** Lines 95-127. */
    method AddTransform(net: Network, t: nat) returns (status: Status)
      requires Linked(net.procs) && PipeOk(net.procs, View())
      requires t < |net.procs| && t !in processors && Unconnected(net.procs[t])
      modifies this, net
      ensures Step(net.procs, View(), status) == Pipes.AddTransform(old(net.procs), old(View()), t)
    {
      hide Linked, PipeOk, ConnectAll, OpenFrom;
      if |outputPorts| == 0 {
        return NoOutput;
      }
      if |net.procs[t].ins| != |outputPorts| {
        return NotMatch;
      }
      if |net.procs[t].outs| == 0 {
        return TransformerNoOutput;
      }
      ConnectInputs(net, t);
      outputPorts := [];
      OpenOutputs(net, t);
      processors := processors + [t];
      maxParallelStreams := Max(maxParallelStreams, |outputPorts|);
      return OK;
    }

    /** The inner loop of ToString (lines 141-160): from one source along first outputs. */
    method Walk(net: Network, source: nat, before: set<nat>, ghost sources: seq<nat>)
      returns (line: seq<nat>, printed: set<nat>)
      requires Linked(net.procs) && PipeOk(net.procs, View()) && source in processors && source in sources
      requires Within(net.procs, sources) && ClosedBut(net.procs, before, None)
      ensures Distinct(line) && (forall p :: p in line ==> p !in before && Reached(net.procs, sources, p))
      ensures printed == before + (set p | p in line) && source in printed && ClosedBut(net.procs, printed, None)
      ensures source < |net.procs| && LineOk(net.procs, source, line, before)
    {
      hide Linked, PipeOk, First, Chain, Reached, LineOk;
      line, printed := [], before;
      var current := Some(source);
      ghost var w := net.procs;
      ghost var a: nat :| a < |processors| && processors[a] == source;
      ghost var n: nat := 0;
      ChainStart(w, source);
      PipeWithin(w, View());
      LineStarts(w, source, before);
      while current.Some?
        invariant Distinct(line) && (forall p :: p in line ==> p !in before && Reached(w, sources, p))
        invariant printed == before + (set p | p in line)
        invariant current.Some? ==> a < |processors| && processors[a] == current.value && Chain(w, source, n) == current
        invariant source in printed || current == Some(source)
        invariant ClosedBut(w, printed, current)
        invariant LineSoFar(w, source, line, before, n, current)
        decreases current.Some?, |processors| - a
      {
        ghost var was := line;
        if current.value !in printed {
          ReachedBy(w, sources, source, n, current.value);
          line := line + [current.value];
          printed := printed + {current.value};
        }
        var next := First(net.procs, current.value);
        ChainNext(w, source, n, current.value);
        LineGoesOn(w, View(), source, was, before, n, current.value, line);
        if next.Some? {
          a := FirstLater(w, View(), a);
        }
        n := n + 1;
        current := next;
      }
      LineEnds(w, source, line, before, n);
    }

    /** Lines 61-93 as they run: the loop over the ports only looks at a status that is never set. */
    method AddSink(net: Network) returns (status: PipeSinks.SinkStatus)
      modifies this`outputPorts
      ensures PipeSinks.SinkStep(net.procs, View(), status) == PipeSinks.AddSinkRun(net.procs, old(View()))
    {
      if |outputPorts| == 0 {
        return PipeSinks.NoOpenPort;
      }
      outputPorts := [];
      return PipeSinks.Closed;
    }

    /** ToString (lines 129-162), the names of the processors instead of their texts. */
    method ToString(net: Network) returns (lines: seq<seq<nat>>)
      requires Linked(net.procs) && PipeOk(net.procs, View())
      ensures Within(net.procs, processors)
      ensures |lines| == |Sources(net.procs, processors)| && Distinct(Flat(lines))
      ensures LinesOk(net.procs, Sources(net.procs, processors), lines)
      ensures forall p :: p in Flat(lines) <==> Reached(net.procs, Sources(net.procs, processors), p)
    {
      hide Linked, PipeOk, First, Chain, Reached, Sources, Flat, ClosedBut, LineOk;
      PipeWithin(net.procs, View());
      var sources := FindSources(net);
      var printed: set<nat> := {};
      lines := [];
      FlatNone();
      ClosedNone(net.procs);
      var k := 0;
      while k < |sources|
        invariant 0 <= k <= |sources| == |Sources(net.procs, processors)| && |lines| == k
        invariant Distinct(Flat(lines)) && printed == Printed(lines)
        invariant forall p :: p in printed ==> Reached(net.procs, sources, p)
        invariant forall j :: 0 <= j < k ==> sources[j] in printed
        invariant ClosedBut(net.procs, printed, None) && LinesOk(net.procs, sources, lines)
      {
        var line, more := Walk(net, sources[k], printed, sources);
        FlatAppend(lines, line);
        LinesAppend(net.procs, sources, lines, line);
        DistinctConcat(Flat(lines), line);
        lines, printed := lines + [line], more;
        k := k + 1;
      }
      forall p | Reached(net.procs, sources, p)
        ensures p in printed
      {
        ReachedClosed(net.procs, sources, printed, p);
      }
    }

    /** Lines 131-136. */
    method FindSources(net: Network) returns (sources: seq<nat>)
      requires Within(net.procs, processors)
      ensures sources == Sources(net.procs, processors)
    {
      hide Sources;
      sources := [];
      var k := 0;
      assert processors[0..] == processors;
      SourcesNone(net.procs);
      while k < |processors|
        invariant 0 <= k <= |processors|
        invariant Sources(net.procs, processors) == sources + Sources(net.procs, processors[k..])
      {
        SourcesStep(net.procs, processors, k);
        ghost var rest := Sources(net.procs, processors[k + 1..]);
        if |net.procs[processors[k]].ins| == 0 {
          assert sources + ([processors[k]] + rest) == (sources + [processors[k]]) + rest;
          sources := sources + [processors[k]];
        }
        k := k + 1;
      }
      assert processors[k..] == [];
    }
  }

  lemma SourcesNone(w: World)
    ensures Sources(w, []) == []
  {
  }

  lemma SourcesStep(w: World, ps: seq<nat>, k: nat)
    requires Within(w, ps) && k < |ps|
    ensures Within(w, ps[k..]) && Within(w, ps[k + 1..])
    ensures Sources(w, ps[k..]) == if w[ps[k]].ins == [] then [ps[k]] + Sources(w, ps[k + 1..])
            else Sources(w, ps[k + 1..])
  {
    assert ps[k..][0] == ps[k] && ps[k..][1..] == ps[k + 1..];
  }

  /** MergePipes for at least two pipes (lines 208-216). */
  method MergePipeObjects(pipes: seq<PipeObject>, ghost views: seq<Pipe>) returns (pipe: PipeObject)
    requires |views| == |pipes| && forall k :: 0 <= k < |pipes| ==> pipes[k].View() == views[k]
    ensures fresh(pipe) && pipe.View() == MergePipes(views)
  {
    pipe := new PipeObject();
    var k := 0;
    assert views[0..] == views;
    while k < |pipes|
      invariant 0 <= k <= |pipes| && fresh(pipe)
      invariant forall j :: 0 <= j < |pipes| ==> pipes[j].View() == views[j]
      invariant var rest := MergePipes(views[k..]);
                MergePipes(views) == Pipe(pipe.processors + rest.processors, pipe.outputPorts + rest.open,
                                          pipe.maxParallelStreams + rest.streams)
    {
      assert views[k..][0] == views[k] && views[k..][1..] == views[k + 1..];
      MergeNext(pipe.View(), views[k], MergePipes(views[k + 1..]));
      pipe.maxParallelStreams := pipe.maxParallelStreams + pipes[k].maxParallelStreams;
      pipe.outputPorts := pipe.outputPorts + pipes[k].outputPorts;
      pipe.processors := pipe.processors + pipes[k].processors;
      k := k + 1;
    }
  }

  lemma MergeNext(a: Pipe, b: Pipe, c: Pipe)
    ensures a.processors + (b.processors + c.processors) == (a.processors + b.processors) + c.processors
    ensures a.open + (b.open + c.open) == (a.open + b.open) + c.open
  {
  }

  // ---- Small facts for the methods above ----

  lemma PipeOpen(w: World, v: Pipe)
    requires PipeOk(w, v)
    ensures Within(w, v.processors) && Distinct(v.processors) && v.open == Open(w, v.processors)
  {
  }

  lemma PipeWithin(w: World, v: Pipe)
    requires PipeOk(w, v)
    ensures Within(w, v.processors)
  {
  }

  lemma IdleOut(w: World, o: OutPort, i: InPort)
    requires Idle(w, o, i)
    ensures IsOut(w, o)
  {
  }

  lemma ChainStart(w: World, s: nat)
    requires s < |w|
    ensures Chain(w, s, 0) == Some(s)
  {
  }

  lemma ChainNext(w: World, s: nat, n: nat, p: nat)
    requires s < |w| && Chain(w, s, n) == Some(p) && p < |w|
    ensures Chain(w, s, n + 1) == First(w, p)
  {
  }

  lemma ReachedBy(w: World, sources: seq<nat>, s: nat, n: nat, p: nat)
    requires Within(w, sources) && s in sources && Chain(w, s, n) == Some(p)
    ensures Reached(w, sources, p)
  {
  }

  lemma ReachedClosed(w: World, sources: seq<nat>, printed: set<nat>, p: nat)
    requires Within(w, sources) && ClosedBut(w, printed, None) && Reached(w, sources, p)
    requires forall j :: 0 <= j < |sources| ==> sources[j] in printed
    ensures p in printed
  {
    var s, n :| s in sources && Chain(w, s, n) == Some(p);
    ClosedChain(w, printed, s, n, p);
  }

  lemma FlatNone()
    ensures Flat([]) == []
  {
  }

  lemma ClosedNone(w: World)
    ensures ClosedBut(w, {}, None)
  {
  }
}
