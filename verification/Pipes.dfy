/** Building pipes of processors (ck_lab/Pipe.cpp, Port.cpp). A processor is named by its
    position in the world, a port by its processor and its position in the port list; the name
    stands for the address. */
module Pipes {

  import opened Options

  datatype OutPort = OutPort(proc: nat, port: nat)

  datatype InPort = InPort(proc: nat, port: nat)

  /** `ins[j]`: the output port that input port j is connected to; `outs[i]` likewise. */
  datatype Proc = Proc(ins: seq<Option<OutPort>>, outs: seq<Option<InPort>>)

  type World = seq<Proc>

  predicate IsOut(w: World, o: OutPort) { o.proc < |w| && o.port < |w[o.proc].outs| }

  predicate IsIn(w: World, i: InPort) { i.proc < |w| && i.port < |w[i.proc].ins| }

  /** Port.cpp:7-14. */
  function Connected(w: World, o: OutPort, i: InPort): (v: World)
    requires IsOut(w, o) && IsIn(w, i)
    ensures |v| == |w|
  {
    var v := w[o.proc := w[o.proc].(outs := w[o.proc].outs[o.port := Some(i)])];
    v[i.proc := v[i.proc].(ins := v[i.proc].ins[i.port := Some(o)])]
  }

  /** Both ends of a link know of each other. */
  ghost predicate Linked(w: World) {
    && (forall o :: IsOut(w, o) && w[o.proc].outs[o.port].Some? ==>
          var i := w[o.proc].outs[o.port].value; IsIn(w, i) && w[i.proc].ins[i.port] == Some(o))
    && (forall i :: IsIn(w, i) && w[i.proc].ins[i.port].Some? ==>
          var o := w[i.proc].ins[i.port].value; IsOut(w, o) && w[o.proc].outs[o.port] == Some(i))
  }

  predicate Idle(w: World, o: OutPort, i: InPort) {
    IsOut(w, o) && IsIn(w, i) && w[o.proc].outs[o.port].None? && w[i.proc].ins[i.port].None?
  }

  /** A connection changes one output and one input. */
  lemma ConnectedPorts(w: World, o: OutPort, i: InPort)
    requires IsOut(w, o) && IsIn(w, i)
    ensures var v := Connected(w, o, i);
            && (forall x: OutPort :: IsOut(v, x) <==> IsOut(w, x))
            && (forall y: InPort :: IsIn(v, y) <==> IsIn(w, y))
            && (forall x: OutPort :: IsOut(w, x) ==>
                  v[x.proc].outs[x.port] == if x == o then Some(i) else w[x.proc].outs[x.port])
            && (forall y: InPort :: IsIn(w, y) ==>
                  v[y.proc].ins[y.port] == if y == i then Some(o) else w[y.proc].ins[y.port])
  {
  }

  lemma ConnectedLinked(w: World, o: OutPort, i: InPort)
    requires Linked(w) && Idle(w, o, i)
    ensures Linked(Connected(w, o, i))
  {
    hide Connected;
    ConnectedPorts(w, o, i);
  }

  /** A processor that no link touches. */
  predicate Unconnected(p: Proc) {
    && (forall j :: 0 <= j < |p.ins| ==> p.ins[j].None?)
    && (forall i :: 0 <= i < |p.outs| ==> p.outs[i].None?)
  }

  // ---- Open ports ----

  /** The unconnected output ports of processor p, from number i on. */
  function OpenFrom(outs: seq<Option<InPort>>, p: nat, i: nat): seq<OutPort>
    decreases |outs| - i
  {
    if i >= |outs| then []
    else (if outs[i].None? then [OutPort(p, i)] else []) + OpenFrom(outs, p, i + 1)
  }

  predicate Within(w: World, ps: seq<nat>) { forall a :: 0 <= a < |ps| ==> ps[a] < |w| }

  /** The unconnected output ports of a list of processors, in order. */
  function Open(w: World, ps: seq<nat>): seq<OutPort>
    requires Within(w, ps)
  {
    if ps == [] then [] else OpenFrom(w[ps[0]].outs, ps[0], 0) + Open(w, ps[1..])
  }

  lemma {:induction false} OpenFromNone(outs: seq<Option<InPort>>, p: nat, i: nat)
    requires forall k :: i <= k < |outs| ==> outs[k].None?
    ensures |OpenFrom(outs, p, i)| == if i <= |outs| then |outs| - i else 0
    ensures forall k :: 0 <= k < |OpenFrom(outs, p, i)| ==> OpenFrom(outs, p, i)[k] == OutPort(p, i + k)
    decreases |outs| - i
  {
    if i < |outs| {
      OpenFromNone(outs, p, i + 1);
    }
  }

  /** Which ports are listed, and that the first one is the lowest. */
  lemma {:induction false} OpenFromPorts(outs: seq<Option<InPort>>, p: nat, i: nat)
    ensures forall o :: o in OpenFrom(outs, p, i) <==> o.proc == p && i <= o.port < |outs| && outs[o.port].None?
    decreases |outs| - i
  {
    if i < |outs| {
      OpenFromPorts(outs, p, i + 1);
    }
  }

  /** Connecting the first open port takes it off the list. */
  lemma {:induction false} OpenFromConnect(outs: seq<Option<InPort>>, p: nat, i: nat, x: InPort)
    requires OpenFrom(outs, p, i) != []
    ensures var o := OpenFrom(outs, p, i)[0];
            && o.proc == p && i <= o.port < |outs| && outs[o.port].None?
            && OpenFrom(outs[o.port := Some(x)], p, i) == OpenFrom(outs, p, i)[1..]
    decreases |outs| - i
  {
    if outs[i].None? {
      OpenFromOther(outs, outs[i := Some(x)], p, i + 1);
    } else {
      OpenFromConnect(outs, p, i + 1, x);
    }
  }

  lemma {:induction false} OpenFromOther(outs: seq<Option<InPort>>, outs': seq<Option<InPort>>, p: nat, i: nat)
    requires |outs| == |outs'| && forall k :: i <= k < |outs| ==> outs[k] == outs'[k]
    ensures OpenFrom(outs, p, i) == OpenFrom(outs', p, i)
    decreases |outs| - i
  {
    if i < |outs| {
      OpenFromOther(outs, outs', p, i + 1);
    }
  }

  lemma {:induction false} OpenSame(w: World, v: World, ps: seq<nat>)
    requires Within(w, ps) && Within(v, ps) && forall p :: p in ps ==> w[p].outs == v[p].outs
    ensures Open(w, ps) == Open(v, ps)
  {
    if ps != [] {
      OpenSame(w, v, ps[1..]);
    }
  }

  lemma {:induction false} OpenConcat(w: World, a: seq<nat>, b: seq<nat>)
    requires Within(w, a) && Within(w, b)
    ensures Within(w, a + b) && Open(w, a + b) == Open(w, a) + Open(w, b)
    decreases |a|
  {
    if a == [] {
      assert a + b == b;
    } else {
      assert (a + b)[1..] == a[1..] + b;
      OpenConcat(w, a[1..], b);
    }
  }

  predicate Distinct(ps: seq<nat>) { forall a, b :: 0 <= a < b < |ps| ==> ps[a] != ps[b] }

  lemma {:induction false} OpenPorts(w: World, ps: seq<nat>, o: OutPort)
    requires Within(w, ps)
    ensures o in Open(w, ps) <==> o.proc in ps && IsOut(w, o) && w[o.proc].outs[o.port].None?
  {
    if ps != [] {
      OpenPorts(w, ps[1..], o);
      OpenFromPorts(w[ps[0]].outs, ps[0], 0);
    }
  }

  /** What a connection leaves of the processors. */
  lemma ConnectedAt(w: World, o: OutPort, i: InPort)
    requires IsOut(w, o) && IsIn(w, i) && i.proc != o.proc
    ensures var v := Connected(w, o, i);
            && v[o.proc].outs == w[o.proc].outs[o.port := Some(i)]
            && forall p :: 0 <= p < |w| && p != o.proc && p != i.proc ==> v[p] == w[p]
  {
  }

  /** The case that the first processor has an open port. */
  lemma OpenConnectHead(w: World, ps: seq<nat>, i: InPort)
    requires Within(w, ps) && Distinct(ps) && ps != [] && IsIn(w, i) && i.proc !in ps
    requires OpenFrom(w[ps[0]].outs, ps[0], 0) != []
    ensures var o := OpenFrom(w[ps[0]].outs, ps[0], 0)[0];
            IsOut(w, o) && o.proc == ps[0] && w[o.proc].outs[o.port].None?
            && Open(Connected(w, o, i), ps) == OpenFrom(w[ps[0]].outs, ps[0], 0)[1..] + Open(w, ps[1..])
  {
    hide OpenFrom, Connected;
    OpenFromConnect(w[ps[0]].outs, ps[0], 0, i);
    var o := OpenFrom(w[ps[0]].outs, ps[0], 0)[0];
    ConnectedAt(w, o, i);
    hide Open;
    OpenSame(w, Connected(w, o, i), ps[1..]);
    OpenUnfold(Connected(w, o, i), ps);
  }

  lemma OpenUnfold(w: World, ps: seq<nat>)
    requires Within(w, ps) && ps != []
    ensures Within(w, ps[1..]) && Open(w, ps) == OpenFrom(w[ps[0]].outs, ps[0], 0) + Open(w, ps[1..])
  {
    hide OpenFrom;
  }

  lemma {:induction false} OpenConnect(w: World, ps: seq<nat>, i: InPort)
    requires Within(w, ps) && Distinct(ps) && Open(w, ps) != [] && IsIn(w, i) && i.proc !in ps
    ensures var o := Open(w, ps)[0];
            IsOut(w, o) && o.proc in ps && w[o.proc].outs[o.port].None? && Within(Connected(w, o, i), ps)
            && Open(Connected(w, o, i), ps) == Open(w, ps)[1..]
  {
    assert ps != [];
    hide Open, OpenFrom, Connected;
    OpenUnfold(w, ps);
    if OpenFrom(w[ps[0]].outs, ps[0], 0) != [] {
      OpenConnectHead(w, ps, i);
    } else {
      OpenConnect(w, ps[1..], i);
      var o := Open(w, ps)[0];
      ConnectedAt(w, o, i);
      OpenUnfold(Connected(w, o, i), ps);
    }
  }

  // ---- Pipes ----

  datatype Status = OK | ConnectedSource | NoOutput | NotMatch | TransformerNoOutput

  /** A pipe's processors, open output ports and max_parallel_streams_. */
  datatype Pipe = Pipe(processors: seq<nat>, open: seq<OutPort>, streams: nat)

  datatype Step = Step(w: World, pipe: Pipe, status: Status)

  function Max(a: nat, b: nat): nat { if a < b then b else a }

  /** Lines 48-59. */
  function AddSource(w: World, v: Pipe, p: nat): Step
    requires p < |w| && w[p].ins == [] && |w[p].outs| == 1
  {
    if w[p].outs[0].Some? then Step(w, v, ConnectedSource)
    else Step(w, Pipe(v.processors + [p], v.open + [OutPort(p, 0)], Max(v.streams, |v.open| + 1)), OK)
  }

  /** Connects the given output ports to the inputs of t from number k on. An address that is
      no output port ends the loop; `ConnectAllOk` shows that the open ports of a pipe are. */
  function ConnectAll(w: World, open: seq<OutPort>, t: nat, k: nat): (v: World)
    requires t < |w| && k + |open| <= |w[t].ins|
    decreases |open|
    ensures |v| == |w|
  {
    if open == [] then w
    else if !IsOut(w, open[0]) then w
    else ConnectAll(Connected(w, open[0], InPort(t, k)), open[1..], t, k + 1)
  }

  /** Lines 95-127. */
  function AddTransform(w: World, v: Pipe, t: nat): Step
    requires t < |w|
  {
    if v.open == [] then Step(w, v, NoOutput)
    else if |w[t].ins| != |v.open| then Step(w, v, NotMatch)
    else if w[t].outs == [] then Step(w, v, TransformerNoOutput)
    else
      var w' := ConnectAll(w, v.open, t, 0);
      var open := OpenFrom(w'[t].outs, t, 0);
      Step(w', Pipe(v.processors + [t], open, Max(v.streams, |open|)), OK)
  }

  /** Lines 198-217, for pipes that are not empty. */
  function MergePipes(vs: seq<Pipe>): Pipe {
    if vs == [] then Pipe([], [], 0)
    else
      var rest := MergePipes(vs[1..]);
      Pipe(vs[0].processors + rest.processors, vs[0].open + rest.open, vs[0].streams + rest.streams)
  }

  // ---- What makes a pipe well formed ----

  ghost predicate Before(ps: seq<nat>, p: nat, a: nat) { exists b :: 0 <= b < a && b < |ps| && ps[b] == p }

  /** Every input of the a-th processor is connected to an earlier one. */
  ghost predicate InsOk(w: World, ps: seq<nat>)
    requires Within(w, ps)
  {
    forall a, j :: 0 <= a < |ps| && 0 <= j < |w[ps[a]].ins| ==>
      w[ps[a]].ins[j].Some? && Before(ps, w[ps[a]].ins[j].value.proc, a)
  }

  ghost predicate OutsOk(w: World, ps: seq<nat>)
    requires Within(w, ps)
  {
    forall a, i :: 0 <= a < |ps| && 0 <= i < |w[ps[a]].outs| && w[ps[a]].outs[i].Some? ==>
      w[ps[a]].outs[i].value.proc in ps
  }

  ghost predicate PipeOk(w: World, v: Pipe) {
    && Within(w, v.processors) && Distinct(v.processors)
    && v.open == Open(w, v.processors) && |v.open| <= v.streams
    && InsOk(w, v.processors) && OutsOk(w, v.processors)
  }

  /** Nothing that the pipe can see has changed. */
  lemma PipeSame(w: World, w': World, v: Pipe)
    requires PipeOk(w, v) && |w| == |w'| && forall p :: p in v.processors ==> w[p] == w'[p]
    ensures PipeOk(w', v)
  {
    OpenSame(w, w', v.processors);
  }

  lemma AddSourceOk(w: World, v: Pipe, p: nat)
    requires PipeOk(w, v) && p < |w| && w[p].ins == [] && |w[p].outs| == 1 && p !in v.processors
    ensures PipeOk(w, AddSource(w, v, p).pipe)
  {
    OpenConcat(w, v.processors, [p]);
    OpenFromNoneOrSome(w, p);
    if w[p].outs[0].None? {
      assert Open(w, [p]) == [OutPort(p, 0)];
      InsAppend(w, v.processors, p);
      assert AddSource(w, v, p).pipe.open == Open(w, v.processors + [p]);
    }
  }

  lemma OpenFromNoneOrSome(w: World, p: nat)
    requires p < |w| && |w[p].outs| == 1
    ensures w[p].outs[0].None? ==> Open(w, [p]) == [OutPort(p, 0)]
  {
    assert OpenFrom(w[p].outs, p, 1) == [];
    assert Open(w, [p][1..]) == [];
  }

  lemma InsAppend(w: World, ps: seq<nat>, t: nat)
    requires Within(w, ps) && InsOk(w, ps) && t < |w|
    requires forall j :: 0 <= j < |w[t].ins| ==> w[t].ins[j].Some? && w[t].ins[j].value.proc in ps
    ensures InsOk(w, ps + [t])
  {
    var qs := ps + [t];
    forall a, j | 0 <= a < |qs| && 0 <= j < |w[qs[a]].ins|
      ensures w[qs[a]].ins[j].Some? && Before(qs, w[qs[a]].ins[j].value.proc, a)
    {
      if a < |ps| {
        var b :| 0 <= b < a && b < |ps| && ps[b] == w[ps[a]].ins[j].value.proc;
        assert qs[b] == ps[b];
      } else {
        var b :| 0 <= b < |ps| && ps[b] == w[t].ins[j].value.proc;
        assert qs[b] == ps[b];
      }
    }
  }

  // ---- The loop of AddTransform ----

  /** What the loop does to the processors of the pipe. */
  ghost predicate OnlyOuts(w: World, w': World, ps: seq<nat>, t: nat)
    requires Within(w, ps) && |w| == |w'|
  {
    forall p :: p in ps ==>
      && w'[p].ins == w[p].ins && |w'[p].outs| == |w[p].outs|
      && forall i :: 0 <= i < |w[p].outs| ==>
           w'[p].outs[i] == w[p].outs[i] || (w'[p].outs[i].Some? && w'[p].outs[i].value.proc == t)
  }

  lemma ConnectOne(w: World, ps: seq<nat>, t: nat, k: nat)
    requires Linked(w) && Within(w, ps) && Distinct(ps) && t < |w| && t !in ps && Open(w, ps) != []
    requires k < |w[t].ins| && w[t].ins[k].None?
    ensures var o := Open(w, ps)[0];
            && Idle(w, o, InPort(t, k)) && o.proc in ps
            && var w' := Connected(w, o, InPort(t, k));
            && Linked(w') && Within(w', ps) && Open(w', ps) == Open(w, ps)[1..]
            && OnlyOuts(w, w', ps, t)
            && w'[t] == w[t].(ins := w[t].ins[k := Some(o)])
            && (forall p :: 0 <= p < |w| && p !in ps && p != t ==> w'[p] == w[p])
  {
    OpenConnect(w, ps, InPort(t, k));
    ConnectedLinked(w, Open(w, ps)[0], InPort(t, k));
    hide Open, Linked;
  }

  lemma {:induction false} ConnectAllOk(w: World, ps: seq<nat>, t: nat, k: nat)
    requires Linked(w) && Within(w, ps) && Distinct(ps) && t < |w| && t !in ps
    requires k + |Open(w, ps)| == |w[t].ins| && forall j :: k <= j < |w[t].ins| ==> w[t].ins[j].None?
    ensures var w' := ConnectAll(w, Open(w, ps), t, k);
            && Linked(w') && Within(w', ps) && Open(w', ps) == []
            && OnlyOuts(w, w', ps, t)
            && w'[t].outs == w[t].outs && |w'[t].ins| == |w[t].ins|
            && (forall j :: 0 <= j < k ==> w'[t].ins[j] == w[t].ins[j])
            && (forall j :: k <= j < |w[t].ins| ==>
                  w'[t].ins[j] == Some(Open(w, ps)[j - k]) && Open(w, ps)[j - k].proc in ps)
            && (forall p :: 0 <= p < |w| && p !in ps && p != t ==> w'[p] == w[p])
    decreases |Open(w, ps)|
  {
    hide Linked, Connected;
    if Open(w, ps) != [] {
      ConnectOne(w, ps, t, k);
      var open := Open(w, ps);
      var w1 := Connected(w, open[0], InPort(t, k));
      ConnectAllOk(w1, ps, t, k + 1);
      var w2 := ConnectAll(w1, open[1..], t, k + 1);
      forall j | k <= j < |w[t].ins|
        ensures w2[t].ins[j] == Some(open[j - k]) && open[j - k].proc in ps
      {
        if j > k {
          assert open[1..][j - (k + 1)] == open[j - k];
        } else {
          assert w1[t].ins[j] == Some(open[0]);
        }
      }
    }
  }

  lemma AddTransformOk(w: World, v: Pipe, t: nat)
    requires Linked(w) && PipeOk(w, v) && t < |w| && t !in v.processors && Unconnected(w[t])
    ensures var s := AddTransform(w, v, t);
            && |s.w| == |w| && Linked(s.w) && PipeOk(s.w, s.pipe)
            && (forall p :: 0 <= p < |w| && p !in v.processors && p != t ==> s.w[p] == w[p])
  {
    var s := AddTransform(w, v, t);
    if s.status.OK? {
      ConnectAllOk(w, v.processors, t, 0);
      TransformPipe(w, s.w, v, t);
    }
  }

  lemma TransformPipe(w: World, w': World, v: Pipe, t: nat)
    requires PipeOk(w, v) && t < |w| && t !in v.processors && |w| == |w'| && Unconnected(w[t])
    requires OnlyOuts(w, w', v.processors, t) && Open(w', v.processors) == [] && w'[t].outs == w[t].outs
    requires forall j :: 0 <= j < |w'[t].ins| ==> w'[t].ins[j].Some? && w'[t].ins[j].value.proc in v.processors
    ensures var open := OpenFrom(w'[t].outs, t, 0);
            PipeOk(w', Pipe(v.processors + [t], open, Max(v.streams, |open|)))
  {
    var ps := v.processors;
    OpenConcat(w', ps, [t]);
    assert Open(w', [t][1..]) == [];
    hide Open, OpenFrom;
    assert Open(w', ps + [t]) == OpenFrom(w'[t].outs, t, 0) by {
      OpenSingle(w', t);
    }
    assert InsOk(w', ps);
    InsAppend(w', ps, t);
  }

  lemma OpenSingle(w: World, t: nat)
    requires t < |w|
    ensures Open(w, [t]) == OpenFrom(w[t].outs, t, 0)
  {
    assert [t][1..] == [];
    assert Open(w, [t]) == OpenFrom(w[t].outs, t, 0) + [];
  }

  // ---- What is accepted ----

  /** AddSource takes exactly the sources that nothing is connected to, at the end of the list and
      with its port as the last one, and connects nothing. */
  lemma AddSourceIff(w: World, v: Pipe, p: nat)
    requires p < |w| && w[p].ins == [] && |w[p].outs| == 1
    ensures var s := AddSource(w, v, p);
            && s.w == w && (s.status == OK <==> Unconnected(w[p]))
            && (s.status != OK ==> s.status == ConnectedSource && s.pipe == v)
            && (s.status == OK ==>
                  && s.pipe.processors == v.processors + [p] && s.pipe.open == v.open + [OutPort(p, 0)]
                  && v.streams <= s.pipe.streams && |s.pipe.open| <= s.pipe.streams
                  && (s.pipe.streams == v.streams || s.pipe.streams == |s.pipe.open|))
  {
  }

  /** What AddTransform makes of a pipe that it accepts: the open ports are joined to the inputs
      in their order, and the outputs become the open ports. */
  ghost predicate Extended(w: World, v: Pipe, t: nat, s: Step)
    requires t < |w|
  {
    && |s.w| == |w| && s.pipe.processors == v.processors + [t]
    && s.pipe.open == seq(|w[t].outs|, (i: nat) => OutPort(t, i))
    && v.streams <= s.pipe.streams && |s.pipe.open| <= s.pipe.streams
    && (s.pipe.streams == v.streams || s.pipe.streams == |s.pipe.open|)
    && |s.w[t].ins| == |v.open| && s.w[t].outs == w[t].outs
    && forall k :: 0 <= k < |v.open| ==>
         && s.w[t].ins[k] == Some(v.open[k]) && IsOut(s.w, v.open[k])
         && s.w[v.open[k].proc].outs[v.open[k].port] == Some(InPort(t, k))
  }

  /** AddTransform accepts a transform exactly when the pipe has open ports, as many as the
      transform has inputs, and the transform has outputs; otherwise it says which of these is
      the first to fail and changes nothing. */
  lemma AddTransformIff(w: World, v: Pipe, t: nat)
    requires Linked(w) && PipeOk(w, v) && t < |w| && t !in v.processors && Unconnected(w[t])
    ensures var s := AddTransform(w, v, t);
            && (s.status == OK <==> v.open != [] && |w[t].ins| == |v.open| && w[t].outs != [])
            && (s.status == NoOutput <==> v.open == [])
            && (s.status == NotMatch <==> v.open != [] && |w[t].ins| != |v.open|)
            && (s.status != OK ==> s.w == w && s.pipe == v)
            && (s.status == OK ==> Extended(w, v, t, s))
  {
    if AddTransform(w, v, t).status == OK {
      TransformExtends(w, v, t);
    }
  }

  lemma TransformExtends(w: World, v: Pipe, t: nat)
    requires Linked(w) && PipeOk(w, v) && t < |w| && t !in v.processors && Unconnected(w[t])
    requires AddTransform(w, v, t).status == OK
    ensures Extended(w, v, t, AddTransform(w, v, t))
  {
    var s := AddTransform(w, v, t);
    ConnectAllOk(w, v.processors, t, 0);
    OpenFromNone(w[t].outs, t, 0);
    hide Open, OpenFrom, ConnectAll, InsOk, OutsOk, Linked;
    JoinedBothWays(s.w, t, v.open);
  }

  lemma JoinedBothWays(w: World, t: nat, open: seq<OutPort>)
    requires Linked(w) && t < |w| && |w[t].ins| == |open|
    requires forall k :: 0 <= k < |open| ==> w[t].ins[k] == Some(open[k])
    ensures forall k :: 0 <= k < |open| ==>
              IsOut(w, open[k]) && w[open[k].proc].outs[open[k].port] == Some(InPort(t, k))
  {
    forall k | 0 <= k < |open|
      ensures IsOut(w, open[k]) && w[open[k].proc].outs[open[k].port] == Some(InPort(t, k))
    {
      assert IsIn(w, InPort(t, k));
    }
  }

  // ---- Merging ----

  predicate Apart(a: seq<nat>, b: seq<nat>) { forall p :: p in a ==> p !in b }

  lemma InsConcat(w: World, a: seq<nat>, b: seq<nat>)
    requires Within(w, a) && Within(w, b) && InsOk(w, a) && InsOk(w, b)
    ensures InsOk(w, a + b)
  {
    var ps := a + b;
    forall x, j | 0 <= x < |ps| && 0 <= j < |w[ps[x]].ins|
      ensures w[ps[x]].ins[j].Some? && Before(ps, w[ps[x]].ins[j].value.proc, x)
    {
      if x < |a| {
        var y :| 0 <= y < x && y < |a| && a[y] == w[a[x]].ins[j].value.proc;
        assert ps[y] == a[y];
      } else {
        assert ps[x] == b[x - |a|] && Before(b, w[b[x - |a|]].ins[j].value.proc, x - |a|);
        var y :| 0 <= y < x - |a| && y < |b| && b[y] == w[b[x - |a|]].ins[j].value.proc;
        assert ps[|a| + y] == b[y];
      }
    }
  }

  lemma OutsConcat(w: World, a: seq<nat>, b: seq<nat>)
    requires Within(w, a) && Within(w, b) && OutsOk(w, a) && OutsOk(w, b)
    ensures OutsOk(w, a + b)
  {
    var ps := a + b;
    forall x, i | 0 <= x < |ps| && 0 <= i < |w[ps[x]].outs| && w[ps[x]].outs[i].Some?
      ensures w[ps[x]].outs[i].value.proc in ps
    {
      assert ps[x] == if x < |a| then a[x] else b[x - |a|];
    }
  }

  lemma DistinctConcat(a: seq<nat>, b: seq<nat>)
    requires Distinct(a) && Distinct(b) && Apart(a, b)
    ensures Distinct(a + b)
  {
    forall x, y | 0 <= x < y < |a + b|
      ensures (a + b)[x] != (a + b)[y]
    {
      if x < |a| <= y {
        assert a[x] in a && b[y - |a|] in b;
      }
    }
  }

  lemma MergeTwo(w: World, u: Pipe, v: Pipe)
    requires PipeOk(w, u) && PipeOk(w, v) && Apart(u.processors, v.processors)
    ensures PipeOk(w, Pipe(u.processors + v.processors, u.open + v.open, u.streams + v.streams))
  {
    OpenConcat(w, u.processors, v.processors);
    DistinctConcat(u.processors, v.processors);
    InsConcat(w, u.processors, v.processors);
    OutsConcat(w, u.processors, v.processors);
  }

  lemma {:induction false} MergePipesOk(w: World, vs: seq<Pipe>)
    requires forall k :: 0 <= k < |vs| ==> PipeOk(w, vs[k])
    requires forall k, l :: 0 <= k < l < |vs| ==> Apart(vs[k].processors, vs[l].processors)
    ensures PipeOk(w, MergePipes(vs))
    ensures forall p :: p in MergePipes(vs).processors <==> exists k :: 0 <= k < |vs| && p in vs[k].processors
  {
    hide PipeOk;
    if vs == [] {
      EmptyOk(w);
    } else {
      MergePipesOk(w, vs[1..]);
      MergeTwo(w, vs[0], MergePipes(vs[1..]));
      forall p
        ensures p in MergePipes(vs).processors <==> exists k :: 0 <= k < |vs| && p in vs[k].processors
      {
        if k :| 0 <= k < |vs[1..]| && p in vs[1..][k].processors {
          assert p in vs[k + 1].processors;
        }
        if k :| 0 < k < |vs| && p in vs[k].processors {
          assert p in vs[1..][k - 1].processors;
        }
      }
    }
  }

  function Size(v: Pipe): nat { |v.processors| }

  function Ports(v: Pipe): nat { |v.open| }

  function Streams(v: Pipe): nat { v.streams }

  /** How many the first k pipes have together. */
  function Upto(vs: seq<Pipe>, k: nat, f: Pipe -> nat): nat
    requires k <= |vs|
  {
    if k == 0 then 0 else f(vs[0]) + Upto(vs[1..], k - 1, f)
  }

  /** Each part of a merged pipe is one block of it, the parts in their order, and there is
      nothing else. */
  lemma {:induction false} MergedBlocks(vs: seq<Pipe>, k: nat)
    requires k < |vs|
    ensures var m, p, o := MergePipes(vs), Upto(vs, k, Size), Upto(vs, k, Ports);
            && p + Size(vs[k]) <= |m.processors| && m.processors[p..p + Size(vs[k])] == vs[k].processors
            && o + Ports(vs[k]) <= |m.open| && m.open[o..o + Ports(vs[k])] == vs[k].open
    decreases |vs|
  {
    var rest := MergePipes(vs[1..]);
    if k == 0 {
      BlockFirst(vs[0].processors, rest.processors);
      BlockFirst(vs[0].open, rest.open);
    } else {
      MergedBlocks(vs[1..], k - 1);
      BlockBehind(vs[0].processors, rest.processors, Upto(vs[1..], k - 1, Size), Size(vs[k]));
      BlockBehind(vs[0].open, rest.open, Upto(vs[1..], k - 1, Ports), Ports(vs[k]));
    }
  }

  lemma BlockFirst<T>(a: seq<T>, b: seq<T>)
    ensures (a + b)[0..0 + |a|] == a
  {
  }

  lemma BlockBehind<T>(a: seq<T>, b: seq<T>, p: nat, n: nat)
    requires p + n <= |b|
    ensures |a| + p + n <= |a + b| && (a + b)[|a| + p..|a| + p + n] == b[p..p + n]
  {
  }

  lemma {:induction false} MergedTotals(vs: seq<Pipe>)
    ensures var m := MergePipes(vs);
            && |m.processors| == Upto(vs, |vs|, Size) && |m.open| == Upto(vs, |vs|, Ports)
            && m.streams == Upto(vs, |vs|, Streams)
  {
    if vs != [] {
      MergedTotals(vs[1..]);
    }
  }

  lemma EmptyOk(w: World)
    ensures PipeOk(w, Pipe([], [], 0))
  {
  }

  // ---- Runs of the builder ----

  /** Some pipes over one world. A pipe that was merged away is left empty. */
  datatype Yard = Yard(w: World, pipes: seq<Pipe>)

  datatype Op = NewPipe | Source(k: nat, p: nat) | Transform(k: nat, t: nat) | Merge(ks: seq<nat>)

  predicate Unused(y: Yard, p: nat) { forall k :: 0 <= k < |y.pipes| ==> p !in y.pipes[k].processors }

  predicate CanDo(y: Yard, op: Op) {
    match op
    case NewPipe => true
    case Source(k, p) =>
      k < |y.pipes| && p < |y.w| && Unused(y, p) && y.w[p].ins == [] && |y.w[p].outs| == 1
    case Transform(k, t) => k < |y.pipes| && t < |y.w| && Unused(y, t) && Unconnected(y.w[t])
    case Merge(ks) =>
      && ks != [] && (forall a :: 0 <= a < |ks| ==> ks[a] < |y.pipes| && y.pipes[ks[a]].processors != [])
      && Distinct(ks)
  }

  function Picked(y: Yard, ks: seq<nat>): seq<Pipe>
    requires forall a :: 0 <= a < |ks| ==> ks[a] < |y.pipes|
  {
    seq(|ks|, a requires 0 <= a < |ks| => y.pipes[ks[a]])
  }

  function Did(y: Yard, op: Op): Yard
    requires CanDo(y, op)
  {
    match op
    case NewPipe => y.(pipes := y.pipes + [Pipe([], [], 0)])
    case Source(k, p) =>
      var s := AddSource(y.w, y.pipes[k], p);
      Yard(s.w, y.pipes[k := s.pipe])
    case Transform(k, t) =>
      var s := AddTransform(y.w, y.pipes[k], t);
      Yard(s.w, y.pipes[k := s.pipe])
    case Merge(ks) =>
      y.(pipes := seq(|y.pipes|, k requires 0 <= k < |y.pipes| => if k in ks then Pipe([], [], 0) else y.pipes[k])
                  + [MergePipes(Picked(y, ks))])
  }

  predicate IsRun(y: Yard, ops: seq<Op>)
    decreases |ops|
  {
    ops == [] || (CanDo(y, ops[0]) && IsRun(Did(y, ops[0]), ops[1..]))
  }

  function After(y: Yard, ops: seq<Op>): Yard
    requires IsRun(y, ops)
    decreases |ops|
  {
    if ops == [] then y else After(Did(y, ops[0]), ops[1..])
  }

  ghost predicate YardOk(y: Yard) {
    && Linked(y.w)
    && (forall k :: 0 <= k < |y.pipes| ==> PipeOk(y.w, y.pipes[k]))
    && (forall k, l :: 0 <= k < l < |y.pipes| ==> Apart(y.pipes[k].processors, y.pipes[l].processors))
  }

  lemma SourceYard(y: Yard, k: nat, p: nat)
    requires YardOk(y) && CanDo(y, Source(k, p))
    ensures YardOk(Did(y, Source(k, p)))
  {
    AddSourceOk(y.w, y.pipes[k], p);
    hide PipeOk, Linked;
  }

  lemma TransformYard(y: Yard, k: nat, t: nat)
    requires YardOk(y) && CanDo(y, Transform(k, t))
    ensures YardOk(Did(y, Transform(k, t)))
  {
    var s := AddTransform(y.w, y.pipes[k], t);
    AddTransformOk(y.w, y.pipes[k], t);
    forall l | 0 <= l < |y.pipes| && l != k
      ensures PipeOk(s.w, y.pipes[l])
    {
      assert Apart(y.pipes[l].processors, y.pipes[k].processors) by {
        if l < k {
          assert Apart(y.pipes[l].processors, y.pipes[k].processors);
        } else {
          assert Apart(y.pipes[k].processors, y.pipes[l].processors);
        }
      }
      PipeSame(y.w, s.w, y.pipes[l]);
    }
    assert s.pipe.processors == y.pipes[k].processors || s.pipe.processors == y.pipes[k].processors + [t];
    hide PipeOk, Linked, AddTransform;
  }

  lemma PickedApart(y: Yard, ks: seq<nat>)
    requires YardOk(y) && CanDo(y, Merge(ks))
    ensures var vs := Picked(y, ks);
            && (forall a :: 0 <= a < |vs| ==> PipeOk(y.w, vs[a]))
            && forall a, b :: 0 <= a < b < |vs| ==> Apart(vs[a].processors, vs[b].processors)
  {
    hide PipeOk, Linked;
    forall a, b | 0 <= a < b < |ks|
      ensures Apart(y.pipes[ks[a]].processors, y.pipes[ks[b]].processors)
    {
      if ks[a] < ks[b] {
        assert Apart(y.pipes[ks[a]].processors, y.pipes[ks[b]].processors);
      } else {
        assert Apart(y.pipes[ks[b]].processors, y.pipes[ks[a]].processors);
      }
    }
  }

  lemma MergeYard(y: Yard, ks: seq<nat>)
    requires YardOk(y) && CanDo(y, Merge(ks))
    ensures YardOk(Did(y, Merge(ks)))
  {
    hide PipeOk, Linked, MergePipes;
    var vs := Picked(y, ks);
    PickedApart(y, ks);
    MergePipesOk(y.w, vs);
    EmptyOk(y.w);
    var t := Did(y, Merge(ks));
    forall k | 0 <= k < |y.pipes|
      ensures Apart(t.pipes[k].processors, MergePipes(vs).processors)
    {
      forall p | p in t.pipes[k].processors
        ensures p !in MergePipes(vs).processors
      {
        forall a | 0 <= a < |vs|
          ensures p !in vs[a].processors
        {
          assert ks[a] in ks && k != ks[a];
          assert Apart(y.pipes[if k < ks[a] then k else ks[a]].processors,
              y.pipes[if k < ks[a] then ks[a] else k].processors);
        }
      }
    }
  }

  lemma StepYard(y: Yard, op: Op)
    requires YardOk(y) && CanDo(y, op)
    ensures YardOk(Did(y, op))
  {
    hide YardOk, CanDo, Did;
    match op
    case NewPipe => NewYard(y);
    case Source(k, p) => SourceYard(y, k, p);
    case Transform(k, t) => TransformYard(y, k, t);
    case Merge(ks) => MergeYard(y, ks);
  }

  lemma NewYard(y: Yard)
    requires YardOk(y)
    ensures YardOk(Did(y, NewPipe))
  {
    hide Linked;
    EmptyOk(y.w);
    hide PipeOk;
  }

  lemma {:induction false} RunYard(y: Yard, ops: seq<Op>)
    requires YardOk(y) && IsRun(y, ops)
    ensures YardOk(After(y, ops))
    decreases |ops|
  {
    hide YardOk, CanDo, Did;
    if ops != [] {
      StepYard(y, ops[0]);
      RunYard(Did(y, ops[0]), ops[1..]);
    }
  }

  // ---- No processor is lost ----

  predicate InYard(y: Yard, p: nat) { exists k :: 0 <= k < |y.pipes| && p in y.pipes[k].processors }

  /** The processors that Source and Transform took in, in the order of the run. */
  function Taken(y: Yard, ops: seq<Op>): seq<nat>
    requires IsRun(y, ops)
    decreases |ops|
  {
    if ops == [] then [] else TakenBy(y, ops[0]) + Taken(Did(y, ops[0]), ops[1..])
  }

  function TakenBy(y: Yard, op: Op): seq<nat>
    requires CanDo(y, op)
  {
    match op
    case NewPipe => []
    case Source(k, p) => if AddSource(y.w, y.pipes[k], p).status == OK then [p] else []
    case Transform(k, t) => if AddTransform(y.w, y.pipes[k], t).status == OK then [t] else []
    case Merge(_) => []
  }

  lemma OneMore(y: Yard, z: Yard, k: nat, p: nat)
    requires k < |y.pipes| && |z.pipes| == |y.pipes| && z.pipes[k].processors == y.pipes[k].processors + [p]
    requires forall l :: 0 <= l < |y.pipes| && l != k ==> z.pipes[l] == y.pipes[l]
    ensures forall q :: InYard(z, q) <==> InYard(y, q) || q == p
  {
    forall q
      ensures InYard(z, q) <==> InYard(y, q) || q == p
    {
      assert q in z.pipes[k].processors <==> q in y.pipes[k].processors || q == p;
      if l :| 0 <= l < |y.pipes| && q in y.pipes[l].processors {
        assert q in z.pipes[l].processors;
      }
    }
  }

  lemma MergeInYard(y: Yard, ks: seq<nat>)
    requires YardOk(y) && CanDo(y, Merge(ks))
    ensures forall q :: InYard(Did(y, Merge(ks)), q) <==> InYard(y, q)
  {
    var vs, z := Picked(y, ks), Did(y, Merge(ks));
    PickedApart(y, ks);
    MergePipesOk(y.w, vs);
    hide PipeOk, Linked, MergePipes;
    forall q
      ensures InYard(z, q) <==> InYard(y, q)
    {
      if l :| 0 <= l < |y.pipes| && q in y.pipes[l].processors {
        if l in ks {
          var a :| 0 <= a < |ks| && ks[a] == l;
          assert q in vs[a].processors && q in z.pipes[|y.pipes|].processors;
        } else {
          assert q in z.pipes[l].processors;
        }
      }
      if l :| 0 <= l < |z.pipes| && q in z.pipes[l].processors {
        if l == |y.pipes| {
          var a :| 0 <= a < |vs| && q in vs[a].processors;
          assert q in y.pipes[ks[a]].processors;
        } else {
          assert q in y.pipes[l].processors;
        }
      }
    }
  }

  lemma StepInYard(y: Yard, op: Op)
    requires YardOk(y) && CanDo(y, op)
    ensures forall q :: InYard(Did(y, op), q) <==> InYard(y, q) || q in TakenBy(y, op)
  {
    var z := Did(y, op);
    match op
    case NewPipe =>
      hide YardOk;
      forall q
        ensures InYard(z, q) <==> InYard(y, q)
      {
        if k :| 0 <= k < |y.pipes| && q in y.pipes[k].processors {
          assert q in z.pipes[k].processors;
        }
      }
    case Source(k, p) =>
      hide YardOk, InYard;
      AddSourceIff(y.w, y.pipes[k], p);
      SameOrMore(y, z, k, p, AddSource(y.w, y.pipes[k], p));
    case Transform(k, t) =>
      AddTransformIff(y.w, y.pipes[k], t);
      hide YardOk, InYard, PipeOk, AddTransform;
      SameOrMore(y, z, k, t, AddTransform(y.w, y.pipes[k], t));
    case Merge(ks) =>
      hide YardOk, InYard;
      MergeInYard(y, ks);
  }

  lemma SameOrMore(y: Yard, z: Yard, k: nat, p: nat, s: Step)
    requires k < |y.pipes| && z == Yard(s.w, y.pipes[k := s.pipe])
    requires if s.status == OK then s.pipe.processors == y.pipes[k].processors + [p] else s.pipe == y.pipes[k]
    ensures forall q :: InYard(z, q) <==> InYard(y, q) || (s.status == OK && q == p)
  {
    if s.status == OK {
      OneMore(y, z, k, p);
    } else {
      assert z.pipes == y.pipes;
    }
  }

  lemma {:induction false} RunInYard(y: Yard, ops: seq<Op>)
    requires YardOk(y) && IsRun(y, ops)
    ensures forall q :: InYard(After(y, ops), q) <==> InYard(y, q) || q in Taken(y, ops)
    decreases |ops|
  {
    hide YardOk, CanDo, Did, InYard, TakenBy;
    if ops != [] {
      StepYard(y, ops[0]);
      StepInYard(y, ops[0]);
      RunInYard(Did(y, ops[0]), ops[1..]);
    }
  }

  /** After any run of the builder every processor that a Source or a Transform took in, and no
      other, is in a pipe, in only one, and only once in it. */
  lemma NoneLost(w: World, ops: seq<Op>)
    requires (forall p :: 0 <= p < |w| ==> Unconnected(w[p])) && IsRun(Yard(w, []), ops)
    ensures var y := After(Yard(w, []), ops);
            && (forall p :: p in Taken(Yard(w, []), ops) <==>
                  exists k :: 0 <= k < |y.pipes| && p in y.pipes[k].processors)
            && (forall k, l :: 0 <= k < l < |y.pipes| ==> Apart(y.pipes[k].processors, y.pipes[l].processors))
            && (forall k :: 0 <= k < |y.pipes| ==> Distinct(y.pipes[k].processors))
  {
    var y0 := Yard(w, []);
    assert YardOk(y0);
    RunYard(y0, ops);
    RunInYard(y0, ops);
    var y := After(y0, ops);
    hide Taken, After, IsRun, Linked;
    forall p
      ensures p in Taken(y0, ops) <==> exists k :: 0 <= k < |y.pipes| && p in y.pipes[k].processors
    {
      assert InYard(y, p) <==> p in Taken(y0, ops);
    }
  }

  // ---- What every run of the builder gives ----

  ghost predicate Path(w: World, path: seq<nat>) {
    && Within(w, path)
    && forall a :: 0 <= a < |path| - 1 ==> Leads(w, path[a], path[a + 1])
  }

  /** Some output of p is connected to q. */
  ghost predicate Leads(w: World, p: nat, q: nat)
    requires p < |w|
  {
    exists i :: 0 <= i < |w[p].outs| && w[p].outs[i].Some? && w[p].outs[i].value.proc == q
  }

  /** Links point later in the processor list. */
  lemma LeadsLater(w: World, v: Pipe, a: nat, q: nat) returns (b: nat)
    requires Linked(w) && PipeOk(w, v) && a < |v.processors| && Leads(w, v.processors[a], q)
    ensures a < b < |v.processors| && v.processors[b] == q
  {
    var p := v.processors[a];
    var i :| 0 <= i < |w[p].outs| && w[p].outs[i].Some? && w[p].outs[i].value.proc == q;
    var x := w[p].outs[i].value;
    assert IsOut(w, OutPort(p, i));
    assert IsIn(w, x) && w[q].ins[x.port] == Some(OutPort(p, i));
    assert q in v.processors;
    b :| 0 <= b < |v.processors| && v.processors[b] == q;
    assert Before(v.processors, p, b);
  }

  lemma {:induction false} PathLater(w: World, v: Pipe, a: nat, path: seq<nat>) returns (b: nat)
    requires Linked(w) && PipeOk(w, v) && a < |v.processors| && Path(w, path) && |path| > 1
             && path[0] == v.processors[a]
    ensures a < b < |v.processors| && v.processors[b] == path[|path| - 1]
    decreases |path|
  {
    hide Linked, PipeOk, Leads;
    b := LeadsLater(w, v, a, path[1]);
    if |path| > 2 {
      assert forall x :: 0 <= x < |path[1..]| - 1 ==> path[1..][x] == path[x + 1];
      b := PathLater(w, v, b, path[1..]);
    }
  }

  /** Whatever is built from unconnected processors: a pipe's open ports are exactly the
      unconnected outputs of its processors, in order; its inputs are all connected; and no path
      of links that starts in it comes back to its start. */
  lemma BuiltPipes(w: World, ops: seq<Op>, k: nat)
    requires (forall p :: 0 <= p < |w| ==> Unconnected(w[p])) && IsRun(Yard(w, []), ops)
    requires k < |After(Yard(w, []), ops).pipes|
    ensures var y := After(Yard(w, []), ops);
            var v := y.pipes[k];
            && Within(y.w, v.processors) && v.open == Open(y.w, v.processors) && |v.open| <= v.streams
            && (forall p, j :: p in v.processors && 0 <= j < |y.w[p].ins| ==>
                  y.w[p].ins[j].Some? && y.w[p].ins[j].value.proc in v.processors)
            && (forall path :: Path(y.w, path) && |path| > 1 && path[0] in v.processors ==> path[|path| - 1] != path[0])
  {
    var y0 := Yard(w, []);
    assert YardOk(y0);
    RunYard(y0, ops);
    var y := After(y0, ops);
    var v := y.pipes[k];
    forall path | Path(y.w, path) && |path| > 1 && path[0] in v.processors
      ensures path[|path| - 1] != path[0]
    {
      var a :| 0 <= a < |v.processors| && v.processors[a] == path[0];
      var b := PathLater(y.w, v, a, path);
      assert v.processors[a] != v.processors[b];
    }
    forall p, j | p in v.processors && 0 <= j < |y.w[p].ins|
      ensures y.w[p].ins[j].Some? && y.w[p].ins[j].value.proc in v.processors
    {
      var a :| 0 <= a < |v.processors| && v.processors[a] == p;
      assert Before(v.processors, y.w[p].ins[j].value.proc, a);
    }
  }
}
