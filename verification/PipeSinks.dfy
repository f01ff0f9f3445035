/** AddSink (ck_lab/Pipe.cpp:61-93): what its loop is written to do, with which pipes become
    complete and a graph can be laid over them, and what it does, since STATUS_CHECK never
    evaluates its argument (ck_lab/Status.h:8-13). */
module PipeSinks {
  import opened Options
  import opened Pipes
  import opened PortGraph

  datatype SinkStatus = Closed | NoOpenPort | InvalidSink

  datatype SinkStep = SinkStep(w: World, pipe: Pipe, status: SinkStatus)

  predicate IsSink(p: Proc) { |p.ins| == 1 && p.outs == [] }

  /** The loop with do_add evaluated: `sinks` is what the getter returns, call by call. */
  function SinkEach(w: World, v: Pipe, open: seq<OutPort>, sinks: seq<nat>): SinkStep
    requires |sinks| == |open| && forall k :: 0 <= k < |sinks| ==> sinks[k] < |w|
    decreases |open|
  {
    if open == [] then SinkStep(w, v.(open := []), Closed)
    else if !IsSink(w[sinks[0]]) || !IsOut(w, open[0]) then SinkStep(w, v, InvalidSink)
    else
      SinkEach(Connected(w, open[0], InPort(sinks[0], 0)), v.(processors := v.processors + [sinks[0]]), open[1..],
          sinks[1..])
  }

  /** AddSink as it is meant. */
  function AddSinkMeant(w: World, v: Pipe, sinks: seq<nat>): SinkStep
    requires |sinks| == |v.open| && forall k :: 0 <= k < |sinks| ==> sinks[k] < |w|
  {
    if v.open == [] then SinkStep(w, v, NoOpenPort) else SinkEach(w, v, v.open, sinks)
  }

  /** AddSink as it runs: the ports are forgotten, nothing is connected. */
  function AddSinkRun(w: World, v: Pipe): SinkStep {
    if v.open == [] then SinkStep(w, v, NoOpenPort) else SinkStep(w, v.(open := []), Closed)
  }

  // ---- As it is meant ----

  /** What holds of the processors while the loop runs. */
  ghost predicate Joined(w: World, ps: seq<nat>) {
    Linked(w) && Within(w, ps) && Distinct(ps) && InsOk(w, ps) && OutsOk(w, ps)
  }

  predicate FreshSinks(w: World, ps: seq<nat>, sinks: seq<nat>) {
    && Distinct(sinks) && Apart(sinks, ps)
    && forall k :: 0 <= k < |sinks| ==> sinks[k] < |w| && Unconnected(w[sinks[k]])
  }

  predicate AllSinks(w: World, sinks: seq<nat>) {
    forall k :: 0 <= k < |sinks| ==> sinks[k] < |w| && IsSink(w[sinks[k]])
  }

  /** One sink on the first open port. */
  lemma SinkOne(w: World, ps: seq<nat>, t: nat)
    requires Joined(w, ps) && t < |w| && t !in ps && Open(w, ps) != [] && IsSink(w[t]) && Unconnected(w[t])
    ensures Within(w, ps) && IsOut(w, Open(w, ps)[0]) && IsIn(w, InPort(t, 0))
    ensures var w' := Connected(w, Open(w, ps)[0], InPort(t, 0));
            && Joined(w', ps + [t]) && Open(w', ps + [t]) == Open(w, ps)[1..]
            && forall p :: 0 <= p < |w| && p !in ps && p != t ==> w'[p] == w[p]
  {
    ConnectOne(w, ps, t, 0);
    var w' := Connected(w, Open(w, ps)[0], InPort(t, 0));
    OpenConcat(w', ps, [t]);
    OpenSingle(w', t);
    assert OpenFrom(w'[t].outs, t, 0) == [];
    hide Open, OpenFrom, Linked, Connected;
    assert InsOk(w', ps);
    InsAppend(w', ps, t);
    SinkOuts(w, w', ps, t);
  }

  lemma SinkIns(w: World, ps: seq<nat>, t: nat)
    requires Joined(w, ps) && t < |w| && t !in ps && Open(w, ps) != [] && IsSink(w[t]) && Unconnected(w[t])
    ensures Within(w, ps) && IsOut(w, Open(w, ps)[0]) && IsIn(w, InPort(t, 0))
    ensures var w' := Connected(w, Open(w, ps)[0], InPort(t, 0));
            && t < |w'| && w'[t].ins == [Some(Open(w, ps)[0])] && SameIns(w, w', ps)
  {
    hide Linked, Open, Connected, InsOk, OutsOk;
    ConnectOne(w, ps, t, 0);
  }

  lemma SinkOuts(w: World, w': World, ps: seq<nat>, t: nat)
    requires Within(w, ps) && |w| == |w'| && OutsOk(w, ps) && OnlyOuts(w, w', ps, t) && t < |w| && w'[t].outs == []
    ensures OutsOk(w', ps + [t])
  {
    forall a, i | 0 <= a < |ps + [t]| && 0 <= i < |w'[(ps + [t])[a]].outs| && w'[(ps + [t])[a]].outs[i].Some?
      ensures w'[(ps + [t])[a]].outs[i].value.proc in ps + [t]
    {
      assert ps[a] in ps;
    }
  }

  /** With sinks that nothing is connected to yet, the loop gets through if and only if each has
      one input and no output; then it has put each open port onto the sink made for it. */
  lemma {:induction false} SinkEachOk(w: World, v: Pipe, sinks: seq<nat>)
    requires Joined(w, v.processors) && |sinks| == |Open(w, v.processors)| && FreshSinks(w, v.processors, sinks)
    ensures var s := SinkEach(w, v, Open(w, v.processors), sinks);
            && (s.status == Closed <==> AllSinks(w, sinks))
            && (s.status == Closed ==>
                  && |s.w| == |w| && s.pipe == Pipe(v.processors + sinks, [], v.streams)
                  && Joined(s.w, v.processors + sinks) && Open(s.w, v.processors + sinks) == []
                  && SinksJoined(s.w, sinks, Open(w, v.processors)) && SameIns(w, s.w, v.processors)
                  && forall p :: 0 <= p < |w| && p !in v.processors && p !in sinks ==> s.w[p] == w[p])
    decreases |sinks|
  {
    hide Joined, Open, Connected, Unconnected, IsSink, SameIns, SinksJoined;
    NoneJoined(w, v.processors);
    var ps := v.processors;
    if sinks == [] {
      assert ps + sinks == ps;
    } else if IsSink(w[sinks[0]]) {
      var t := sinks[0];
      SinkOne(w, ps, t);
      SinkIns(w, ps, t);
      var w' := Connected(w, Open(w, ps)[0], InPort(t, 0));
      StillFresh(w, w', ps, sinks);
      SinkEachOk(w', v.(processors := ps + [t]), sinks[1..]);
      assert ps + [t] + sinks[1..] == ps + sinks;
      if AllSinks(w, sinks) {
        FirstJoined(w, w', SinkEach(w, v, Open(w, ps), sinks).w, ps, sinks, Open(w, ps));
      }
    } else {
      assert !AllSinks(w, sinks);
    }
  }

  /** The k-th sink is joined to the k-th port, and to nothing else. */
  ghost predicate SinksJoined(w: World, sinks: seq<nat>, open: seq<OutPort>) {
    && |sinks| == |open|
    && forall k :: 0 <= k < |sinks| ==> sinks[k] < |w| && w[sinks[k]].ins == [Some(open[k])]
  }

  ghost predicate SameIns(w: World, w': World, ps: seq<nat>) {
    forall p :: p in ps && p < |w| && p < |w'| ==> w'[p].ins == w[p].ins
  }

  lemma FirstJoined(w: World, w1: World, w2: World, ps: seq<nat>, sinks: seq<nat>, open: seq<OutPort>)
    requires sinks != [] && |sinks| == |open| && sinks[0] < |w1| && w1[sinks[0]].ins == [Some(open[0])]
    requires |w| == |w1| == |w2| && SameIns(w, w1, ps)
    requires SinksJoined(w2, sinks[1..], open[1..]) && SameIns(w1, w2, ps + [sinks[0]])
    ensures SinksJoined(w2, sinks, open) && SameIns(w, w2, ps)
  {
    assert (ps + [sinks[0]])[|ps|] == sinks[0];
    forall k | 0 < k < |sinks|
      ensures sinks[k] < |w2| && w2[sinks[k]].ins == [Some(open[k])]
    {
      assert sinks[1..][k - 1] == sinks[k] && open[1..][k - 1] == open[k];
    }
    assert forall p :: p in ps ==> p in ps + [sinks[0]];
  }

  lemma NoneJoined(w: World, ps: seq<nat>)
    ensures SinksJoined(w, [], []) && SameIns(w, w, ps)
  {
  }

  lemma StillFresh(w: World, w': World, ps: seq<nat>, sinks: seq<nat>)
    requires FreshSinks(w, ps, sinks) && sinks != [] && |w| == |w'| && IsSink(w[sinks[0]])
    requires forall p :: 0 <= p < |w| && p !in ps && p != sinks[0] ==> w'[p] == w[p]
    ensures FreshSinks(w', ps + [sinks[0]], sinks[1..])
    ensures AllSinks(w', sinks[1..]) <==> AllSinks(w, sinks)
  {
    hide Unconnected, IsSink;
    assert forall k :: 0 <= k < |sinks| ==> sinks[k] in sinks && sinks[k] !in ps;
    assert forall k :: 0 <= k < |sinks| - 1 ==> sinks[1..][k] == sinks[k + 1] && w'[sinks[k + 1]] == w[sinks[k + 1]];
    assert forall k :: 0 < k < |sinks| ==> sinks[k] == sinks[1..][k - 1];
  }

  /** The AddSink that is meant closes a well-formed pipe that has open ports: the pipe stays
      well formed and becomes complete, so that a graph can be laid over it. */
  lemma MeantCompletes(w: World, v: Pipe, sinks: seq<nat>)
    requires Linked(w) && PipeOk(w, v) && v.open != [] && |sinks| == |v.open|
    requires FreshSinks(w, v.processors, sinks) && AllSinks(w, sinks)
    ensures var s := AddSinkMeant(w, v, sinks);
            && s.status == Closed && s.pipe == Pipe(v.processors + sinks, [], v.streams)
            && SinksJoined(s.w, sinks, v.open)
            && Linked(s.w) && PipeOk(s.w, s.pipe) && Complete(s.w, s.pipe.processors)
  {
    SinkEachOk(w, v, sinks);
    var s := AddSinkMeant(w, v, sinks);
    NoneOpen(s.w, s.pipe.processors);
  }

  lemma NoneOpen(w: World, ps: seq<nat>)
    requires Joined(w, ps) && Open(w, ps) == []
    ensures Complete(w, ps)
  {
    forall p, i | p in ps && 0 <= i < |w[p].outs|
      ensures w[p].outs[i].Some? && w[p].outs[i].value.proc in ps
    {
      OpenPorts(w, ps, OutPort(p, i));
      var a :| 0 <= a < |ps| && ps[a] == p;
    }
    forall p, j | p in ps && 0 <= j < |w[p].ins|
      ensures w[p].ins[j].Some? && w[p].ins[j].value.proc in ps
    {
      var a :| 0 <= a < |ps| && ps[a] == p;
      assert Before(ps, w[ps[a]].ins[j].value.proc, a);
    }
  }

  // ---- As it runs ----

  lemma OpenMeansIncomplete(w: World, v: Pipe)
    requires PipeOk(w, v) && v.open != []
    ensures !Complete(w, v.processors)
  {
    OpenPorts(w, v.processors, v.open[0]);
  }

  /** As it runs, AddSink keeps a well-formed pipe well formed only when it refuses it; any other
      loses its open ports without being complete. */
  lemma RunLosesPorts(w: World, v: Pipe)
    requires PipeOk(w, v)
    ensures var s := AddSinkRun(w, v);
            && s.w == w && s.pipe.processors == v.processors && s.pipe.streams == v.streams && s.pipe.open == []
            && (s.status == NoOpenPort <==> v.open == [])
            && (PipeOk(s.w, s.pipe) <==> s.status == NoOpenPort)
            && (s.status == Closed ==> !Complete(s.w, s.pipe.processors))
  {
    if v.open != [] {
      OpenMeansIncomplete(w, v);
    }
  }

  // ---- What the other operations build ----

  ghost predicate AllOpen(y: Yard) {
    forall k :: 0 <= k < |y.pipes| && y.pipes[k].processors != [] ==> y.pipes[k].open != []
  }

  lemma {:induction false} MergedOpen(vs: seq<Pipe>)
    requires vs != [] && forall k :: 0 <= k < |vs| ==> vs[k].open != []
    ensures MergePipes(vs).open != []
  {
    assert vs[0].open != [];
  }

  lemma TransformOpen(w: World, v: Pipe, t: nat)
    requires Linked(w) && PipeOk(w, v) && t < |w| && t !in v.processors && Unconnected(w[t])
    ensures AddTransform(w, v, t).status == OK ==> AddTransform(w, v, t).pipe.open != []
  {
    var s := AddTransform(w, v, t);
    if s.status == OK {
      ConnectAllOk(w, v.processors, t, 0);
      OpenFromNone(w[t].outs, t, 0);
    }
  }

  lemma StepOpen(y: Yard, op: Op)
    requires YardOk(y) && AllOpen(y) && CanDo(y, op)
    ensures AllOpen(Did(y, op))
  {
    hide Linked, PipeOk, AddTransform, MergePipes;
    match op
    case NewPipe =>
    case Source(k, p) =>
    case Transform(k, t) =>
      TransformOpen(y.w, y.pipes[k], t);
      TransformRefused(y.w, y.pipes[k], t);
    case Merge(ks) =>
      MergedOpen(Picked(y, ks));
  }

  lemma TransformRefused(w: World, v: Pipe, t: nat)
    requires t < |w|
    ensures AddTransform(w, v, t).status != OK ==> AddTransform(w, v, t).pipe == v
  {
  }

  lemma {:induction false} RunOpen(y: Yard, ops: seq<Op>)
    requires YardOk(y) && AllOpen(y) && IsRun(y, ops)
    ensures YardOk(After(y, ops)) && AllOpen(After(y, ops))
    decreases |ops|
  {
    hide YardOk, AllOpen, CanDo, Did;
    if ops != [] {
      StepYard(y, ops[0]);
      StepOpen(y, ops[0]);
      RunOpen(Did(y, ops[0]), ops[1..]);
    }
  }

  /** Whatever is built by AddSource, AddTransform and MergePipes keeps an open output, so none
      of it is complete: without AddSink no graph can be laid over a pipe. */
  lemma BuiltIncomplete(w: World, ops: seq<Op>, k: nat)
    requires (forall p :: 0 <= p < |w| ==> Unconnected(w[p])) && IsRun(Yard(w, []), ops)
    requires k < |After(Yard(w, []), ops).pipes| && After(Yard(w, []), ops).pipes[k].processors != []
    ensures var y := After(Yard(w, []), ops); y.pipes[k].open != [] && !Complete(y.w, y.pipes[k].processors)
  {
    RunOpen(Yard(w, []), ops);
    var y := After(Yard(w, []), ops);
    OpenMeansIncomplete(y.w, y.pipes[k]);
  }

  /** With the AddSink that is meant, every pipe that can be built gets a graph, whose direct
      edges all lead to later nodes. */
  lemma BuiltGraphForward(w: World, ops: seq<Op>, k: nat, sinks: seq<nat>, a: nat, i: nat)
    requires (forall p :: 0 <= p < |w| ==> Unconnected(w[p])) && IsRun(Yard(w, []), ops)
    requires k < |After(Yard(w, []), ops).pipes| && After(Yard(w, []), ops).pipes[k].processors != []
    requires var y := After(Yard(w, []), ops);
             && |sinks| == |y.pipes[k].open| && FreshSinks(y.w, y.pipes[k].processors, sinks) && AllSinks(y.w, sinks)
    ensures var y := After(Yard(w, []), ops);
            var s := AddSinkMeant(y.w, y.pipes[k], sinks);
            var ps := s.pipe.processors;
            && s.status == Closed && ps == y.pipes[k].processors + sinks && Complete(s.w, ps)
            && (a < |ps| && i < |s.w[ps[a]].outs| ==> DirectEdge(s.w, ps, ps[a], i).to > a)
  {
    hide AllSinks, AddSinkMeant, Complete, PipeOk, IsRun, After;
    BuiltOk(w, ops, k);
    var y := After(Yard(w, []), ops);
    MeantCompletes(y.w, y.pipes[k], sinks);
    var s := AddSinkMeant(y.w, y.pipes[k], sinks);
    var ps := s.pipe.processors;
    assert Within(s.w, ps) by { CompleteWithin(s.w, ps); }
    if a < |ps| && i < |s.w[ps[a]].outs| {
      DirectForward(s.w, s.pipe, a, i);
    }
  }

  lemma CompleteWithin(w: World, ps: seq<nat>)
    requires Complete(w, ps)
    ensures Within(w, ps)
  {
  }

  lemma BuiltOk(w: World, ops: seq<Op>, k: nat)
    requires (forall p :: 0 <= p < |w| ==> Unconnected(w[p])) && IsRun(Yard(w, []), ops)
    requires k < |After(Yard(w, []), ops).pipes| && After(Yard(w, []), ops).pipes[k].processors != []
    ensures var y := After(Yard(w, []), ops); Linked(y.w) && PipeOk(y.w, y.pipes[k]) && y.pipes[k].open != []
  {
    RunOpen(Yard(w, []), ops);
  }
}
