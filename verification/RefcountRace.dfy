/** The reference count of new_meta_lab as the source declares it: `refcnt_` is a plain int
    (new_meta_lab/Utils.h:21), and a handle gives its reference back outside every mutex
    (new_meta_lab/Proxy.h:42-47). Here `refcnt_ += 1` and `refcnt_ -= 1` are a load and a store,
    between which any number of other threads may act. */
module RefcountRace {
  import opened Options

  datatype Op = Ref | UnRef

  function Delta(op: Op): int { if op.Ref? then 1 else -1 }

  datatype Thread = Thread(op: Op, loaded: Option<int>, done: bool)

  datatype Counter = Counter(refcnt: int, threads: seq<Thread>)

  /** Threads about to start. */
  function Start(refcnt: int, ops: seq<Op>): Counter {
    Counter(refcnt, seq(|ops|, i requires 0 <= i < |ops| => Thread(ops[i], None, false)))
  }

  datatype Act = Load(i: nat) | Store(i: nat)

  predicate Enabled(s: Counter, a: Act) {
    && a.i < |s.threads|
    && if a.Load? then s.threads[a.i].loaded.None? && !s.threads[a.i].done else s.threads[a.i].loaded.Some?
  }

  function Next(s: Counter, a: Act): Counter
    requires Enabled(s, a)
  {
    var t := s.threads[a.i];
    if a.Load? then s.(threads := s.threads[a.i := t.(loaded := Some(s.refcnt))])
    else Counter(t.loaded.value + Delta(t.op), s.threads[a.i := Thread(t.op, None, true)])
  }

  function Front<T>(s: seq<T>): (f: seq<T>)
    requires s != []
    ensures |f| == |s| - 1
  {
    s[..|s| - 1]
  }

  predicate IsRun(s: Counter, acts: seq<Act>)
    decreases |acts|, 0
  {
    acts == [] || (IsRun(s, Front(acts)) && Enabled(After(s, Front(acts)), acts[|acts| - 1]))
  }

  function After(s: Counter, acts: seq<Act>): Counter
    requires IsRun(s, acts)
    decreases |acts|, 1
  {
    if acts == [] then s else Next(After(s, Front(acts)), acts[|acts| - 1])
  }

  // ---- Which changes the count still shows ----

  /** Where thread i loaded last. */
  function LoadAt(acts: seq<Act>, i: nat): (p: nat)
    ensures p <= |acts|
  {
    if acts == [] then 0
    else if acts[|acts| - 1] == Load(i) then |acts| - 1
    else LoadAt(Front(acts), i)
  }

  /** The threads whose changes the count shows: the last one to store, and those that the count
      showed when it loaded. Whatever was stored in between is lost. */
  function Survivors(acts: seq<Act>): (w: seq<nat>)
    decreases |acts|
  {
    if acts == [] then []
    else
      var a := acts[|acts| - 1];
      if a.Load? then Survivors(Front(acts))
      else Survivors(acts[..LoadAt(Front(acts), a.i)]) + [a.i]
  }

  function Weight(threads: seq<Thread>, who: seq<nat>): int {
    if who == [] then 0
    else Weight(threads, Front(who))
         + if who[|who| - 1] < |threads| then Delta(threads[who[|who| - 1]].op) else 0
  }

  lemma {:induction false} RunPrefix(s: Counter, acts: seq<Act>, p: nat)
    requires IsRun(s, acts) && p <= |acts|
    ensures IsRun(s, acts[..p])
    decreases |acts|
  {
    hide Enabled, Next;
    if p == |acts| {
      assert acts[..p] == acts;
    } else {
      RunPrefix(s, Front(acts), p);
      assert Front(acts)[..p] == acts[..p];
    }
  }

  /** The operations of the threads do not change. */
  lemma {:induction false} RunOps(s: Counter, acts: seq<Act>)
    requires IsRun(s, acts)
    ensures |After(s, acts).threads| == |s.threads|
    ensures forall i :: 0 <= i < |s.threads| ==> After(s, acts).threads[i].op == s.threads[i].op
    decreases |acts|
  {
    if acts != [] {
      RunOps(s, Front(acts));
    }
  }

  ghost predicate Idle(s: Counter) {
    forall i :: 0 <= i < |s.threads| ==> s.threads[i].loaded.None? && !s.threads[i].done
  }

  /** What a thread has loaded is the count as it was then. */
  lemma {:induction false} LoadedThen(s: Counter, acts: seq<Act>, i: nat)
    requires Idle(s) && IsRun(s, acts) && i < |After(s, acts).threads| && After(s, acts).threads[i].loaded.Some?
    ensures var p := LoadAt(acts, i);
            && p < |acts| && acts[p] == Load(i) && IsRun(s, acts[..p])
            && After(s, acts).threads[i].loaded == Some(After(s, acts[..p]).refcnt)
    decreases |acts|
  {
    RunOps(s, acts);
    if acts != [] {
      RunOps(s, Front(acts));
      if acts[|acts| - 1] != Load(i) {
        LoadedThen(s, Front(acts), i);
        var p := LoadAt(Front(acts), i);
        assert Front(acts)[..p] == acts[..p];
      }
    }
  }

  /** Any number of threads, any interleaving: the count is the old one plus the changes that
      survive. */
  lemma {:induction false} CountIsSurvivors(s: Counter, acts: seq<Act>)
    requires Idle(s) && IsRun(s, acts)
    ensures After(s, acts).refcnt == s.refcnt + Weight(s.threads, Survivors(acts))
    decreases |acts|
  {
    if acts != [] {
      var a, front := acts[|acts| - 1], Front(acts);
      RunOps(s, front);
      if a.Load? {
        CountIsSurvivors(s, front);
      } else {
        LoadedThen(s, front, a.i);
        var p := LoadAt(front, a.i);
        assert front[..p] == acts[..p];
        CountIsSurvivors(s, acts[..p]);
        var who := Survivors(acts[..p]);
        assert Front(who + [a.i]) == who;
      }
    }
  }

  // ---- When the count is exact ----

  /** Every load is followed at once by its store. */
  predicate Serial(acts: seq<Act>)
    decreases |acts|
  {
    acts == [] ||
    (&& |acts| >= 2 && acts[|acts| - 1].Store? && acts[|acts| - 2] == Load(acts[|acts| - 1].i)
     && Serial(acts[..|acts| - 2]))
  }

  function Stores(acts: seq<Act>): nat {
    if acts == [] then 0 else Stores(Front(acts)) + if acts[|acts| - 1].Store? then 1 else 0
  }

  lemma {:induction false} StoresPrefix(acts: seq<Act>, p: nat)
    requires p <= |acts|
    ensures Stores(acts[..p]) <= Stores(acts)
    ensures p < |acts| && acts[|acts| - 1].Store? ==> Stores(acts[..p]) < Stores(acts)
    decreases |acts|
  {
    if p == |acts| {
      assert acts[..p] == acts;
    } else {
      StoresPrefix(Front(acts), p);
      assert Front(acts)[..p] == acts[..p];
    }
  }

  lemma {:induction false} SurvivorsBound(acts: seq<Act>)
    ensures |Survivors(acts)| <= Stores(acts)
    decreases |acts|
  {
    if acts != [] {
      SurvivorsBound(Front(acts));
      var p := LoadAt(Front(acts), acts[|acts| - 1].i);
      assert Front(acts)[..p] == acts[..p];
      SurvivorsBound(acts[..p]);
      StoresPrefix(Front(acts), p);
    }
  }

  lemma {:induction false} SerialSurvive(acts: seq<Act>)
    requires Serial(acts)
    ensures |Survivors(acts)| == Stores(acts)
    decreases |acts|
  {
    if acts != [] {
      var n := |acts|;
      var front := Front(acts);
      assert Front(front) == acts[..n - 2] && front[n - 2] == acts[n - 2];
      SerialSurvive(acts[..n - 2]);
      assert LoadAt(front, acts[n - 1].i) == n - 2;
    }
  }

  ghost predicate NonePending(s: Counter) { forall i :: 0 <= i < |s.threads| ==> s.threads[i].loaded.None? }

  /** If nothing is lost and nobody is between load and store, no two changes overlapped. */
  lemma {:induction false} AllSurvive(s: Counter, acts: seq<Act>)
    requires Idle(s) && IsRun(s, acts) && NonePending(After(s, acts)) && |Survivors(acts)| == Stores(acts)
    ensures Serial(acts)
    decreases |acts|
  {
    if acts != [] {
      var n, front := |acts|, Front(acts);
      var i := acts[n - 1].i;
      RunOps(s, front);
      assert acts[n - 1].Store? by {
        assert After(s, acts).threads[i].loaded.None?;
      }
      LoadedThen(s, front, i);
      var p := LoadAt(front, i);
      assert front[..p] == acts[..p];
      SurvivorsBound(acts[..p]);
      StoresPrefix(front, p);
      NoLaterLoad(s, acts, p);
      assert acts[..p] == acts[..n - 2];
      PairUnfold(s, acts);
      AllSurvive(s, acts[..p]);
    }
  }

  /** Nothing comes between the last store and its load when no other store does. */
  lemma NoLaterLoad(s: Counter, acts: seq<Act>, p: nat)
    requires Idle(s) && IsRun(s, acts) && NonePending(After(s, acts)) && |acts| >= 2
    requires p < |acts| - 1 && acts[|acts| - 1].Store? && acts[p] == Load(acts[|acts| - 1].i)
    requires Stores(acts[..p]) == Stores(Front(acts)) && IsRun(s, Front(acts))
    ensures p == |acts| - 2
  {
    var n, front := |acts|, Front(acts);
    RunOps(s, front);
    if p < n - 2 {
      var b := front[n - 2];
      assert front[..p] == acts[..p];
      StoresPrefix(front, p);
      assert b.Load?;
      RunOps(s, Front(front));
      assert After(s, front).threads[b.i].loaded.Some?;
      assert After(s, acts).threads[b.i].loaded.None?;
      assert b.i == acts[n - 1].i;
      LoadedTwice(s, front, p);
    }
  }

  /** A thread that has loaded does not load again. */
  lemma {:induction false} LoadedTwice(s: Counter, acts: seq<Act>, p: nat)
    requires Idle(s) && IsRun(s, acts) && p < |acts| - 1 && acts[p].Load? && Stores(acts[..p]) == Stores(acts)
    ensures acts[|acts| - 1] != acts[p]
  {
    StillLoaded(s, Front(acts), p);
    StoresPrefix(Front(acts), p);
    assert Front(acts)[..p] == acts[..p];
  }

  lemma {:induction false} StillLoaded(s: Counter, acts: seq<Act>, p: nat)
    requires IsRun(s, acts) && p < |acts| && acts[p].Load?
    ensures acts[p].i < |After(s, acts).threads|
    ensures Stores(acts[..p]) == Stores(acts) ==> After(s, acts).threads[acts[p].i].loaded.Some?
    decreases |acts|
  {
    RunOps(s, acts);
    RunOps(s, Front(acts));
    if p < |acts| - 1 {
      StillLoaded(s, Front(acts), p);
      assert Front(acts)[..p] == acts[..p];
      StoresPrefix(Front(acts), p);
    }
  }

  lemma PairUnfold(s: Counter, acts: seq<Act>)
    requires IsRun(s, acts) && |acts| >= 2 && NonePending(After(s, acts))
    requires acts[|acts| - 1].Store? && acts[|acts| - 2] == Load(acts[|acts| - 1].i)
    ensures IsRun(s, acts[..|acts| - 2]) && NonePending(After(s, acts[..|acts| - 2]))
  {
    var front := Front(acts);
    assert Front(front) == acts[..|acts| - 2] && front[|front| - 1] == acts[|acts| - 2];
    RunOps(s, front);
    RunOps(s, Front(front));
    var t := After(s, Front(front));
    forall k | 0 <= k < |t.threads|
      ensures t.threads[k].loaded.None?
    {
      assert After(s, acts).threads[k].loaded.None?;
    }
  }

  // ---- Counting what was carried out ----

  /** What the finished operations amount to, and how many there are. */
  function Total(threads: seq<Thread>): int {
    if threads == [] then 0 else (if threads[0].done then Delta(threads[0].op) else 0) + Total(threads[1..])
  }

  function Finished(threads: seq<Thread>): nat {
    if threads == [] then 0 else (if threads[0].done then 1 else 0) + Finished(threads[1..])
  }

  lemma {:induction false} ThreadUpdate(threads: seq<Thread>, i: nat, t: Thread)
    requires i < |threads|
    ensures Total(threads[i := t]) == Total(threads)
              - (if threads[i].done then Delta(threads[i].op) else 0) + (if t.done then Delta(t.op) else 0)
    ensures Finished(threads[i := t]) + (if threads[i].done then 1 else 0)
         == Finished(threads) + if t.done then 1 else 0
  {
    var u := threads[i := t];
    if i == 0 {
      assert u[1..] == threads[1..];
    } else {
      assert u[1..] == threads[1..][i - 1 := t];
      ThreadUpdate(threads[1..], i - 1, t);
    }
  }

  /** A thread between load and store is not finished. */
  ghost predicate Sound(s: Counter) {
    forall i :: 0 <= i < |s.threads| ==> !(s.threads[i].loaded.Some? && s.threads[i].done)
  }

  lemma {:induction false} StoresFinish(s: Counter, acts: seq<Act>)
    requires Sound(s) && IsRun(s, acts)
    ensures Sound(After(s, acts)) && Finished(After(s, acts).threads) == Finished(s.threads) + Stores(acts)
    decreases |acts|
  {
    hide Finished;
    if acts != [] {
      StoresFinish(s, Front(acts));
      var t, a := After(s, Front(acts)), acts[|acts| - 1];
      ThreadUpdate(t.threads, a.i, Next(t, a).threads[a.i]);
    }
  }

  ghost predicate AllDone(s: Counter) { forall i :: 0 <= i < |s.threads| ==> s.threads[i].done }

  function Sum(ops: seq<Op>): int { if ops == [] then 0 else Delta(ops[0]) + Sum(ops[1..]) }

  lemma {:induction false} DoneTotal(threads: seq<Thread>, ops: seq<Op>)
    requires |threads| == |ops| && forall i :: 0 <= i < |ops| ==> threads[i].op == ops[i] && threads[i].done
    ensures Total(threads) == Sum(ops) && Finished(threads) == |ops|
  {
    if ops != [] {
      DoneTotal(threads[1..], ops[1..]);
    }
  }

  lemma {:induction false} NothingDone(threads: seq<Thread>)
    requires forall i :: 0 <= i < |threads| ==> !threads[i].done
    ensures Total(threads) == 0 && Finished(threads) == 0
  {
    if threads != [] {
      NothingDone(threads[1..]);
    }
  }

  /** A run in which all threads finish has one store for each. */
  lemma WholeRun(refcnt: int, ops: seq<Op>, acts: seq<Act>)
    requires IsRun(Start(refcnt, ops), acts) && AllDone(After(Start(refcnt, ops), acts))
    ensures var e := After(Start(refcnt, ops), acts);
            Stores(acts) == |ops| == |e.threads| && Total(e.threads) == Sum(ops) && NonePending(e)
  {
    var s := Start(refcnt, ops);
    RunOps(s, acts);
    NothingDone(s.threads);
    StoresFinish(s, acts);
    DoneTotal(After(s, acts).threads, ops);
  }

  /** With any number of threads whose operations do not overlap, the count is exact. */
  lemma {:induction false} SerialIsExact(s: Counter, acts: seq<Act>)
    requires IsRun(s, acts) && Serial(acts)
    ensures After(s, acts).refcnt - Total(After(s, acts).threads) == s.refcnt - Total(s.threads)
    decreases |acts|
  {
    hide Total;
    if acts != [] {
      var n, front := |acts|, Front(acts);
      assert Front(front) == acts[..n - 2] && front[n - 2] == acts[n - 2];
      SerialIsExact(s, acts[..n - 2]);
      var t := After(s, acts[..n - 2]);
      var i := acts[n - 1].i;
      var u := After(s, acts);
      assert u.threads == t.threads[i := Thread(t.threads[i].op, None, true)];
      ThreadUpdate(t.threads, i, Thread(t.threads[i].op, None, true));
    }
  }

  // ---- The exact conditions ----

  lemma {:induction false} SurvivorsRun(s: Counter, acts: seq<Act>)
    requires IsRun(s, acts)
    ensures forall k :: 0 <= k < |Survivors(acts)| ==> Survivors(acts)[k] < |s.threads|
    decreases |acts|
  {
    if acts != [] {
      RunOps(s, Front(acts));
      SurvivorsRun(s, Front(acts));
      var p := LoadAt(Front(acts), acts[|acts| - 1].i);
      RunPrefix(s, acts, p);
      SurvivorsRun(s, acts[..p]);
    }
  }

  lemma {:induction false} SameWeight(threads: seq<Thread>, who: seq<nat>, op: Op)
    requires forall i :: 0 <= i < |threads| ==> threads[i].op == op
    requires forall k :: 0 <= k < |who| ==> who[k] < |threads|
    ensures Weight(threads, who) == Delta(op) * |who|
    decreases |who|
  {
    if who != [] {
      SameWeight(threads, Front(who), op);
    }
  }

  function Same(op: Op, n: nat): seq<Op> { seq(n, _ => op) }

  lemma {:induction false} SameSum(op: Op, n: nat)
    ensures Sum(Same(op, n)) == Delta(op) * n
  {
    if n > 0 {
      SameSum(op, n - 1);
      assert Same(op, n)[1..] == Same(op, n - 1);
    }
  }

  /** Any number of references taken, or of references given back, all carried out: the count
      comes out right if and only if no two of them overlapped. */
  lemma SameExactIff(refcnt: int, op: Op, n: nat, acts: seq<Act>)
    requires IsRun(Start(refcnt, Same(op, n)), acts) && AllDone(After(Start(refcnt, Same(op, n)), acts))
    ensures After(Start(refcnt, Same(op, n)), acts).refcnt == refcnt + Delta(op) * n <==> Serial(acts)
  {
    hide IsRun, After, Survivors, Serial, Stores, Sum, Total, Finished, Weight;
    var s := Start(refcnt, Same(op, n));
    WholeRun(refcnt, Same(op, n), acts);
    CountIsSurvivors(s, acts);
    SurvivorsRun(s, acts);
    SameWeight(s.threads, Survivors(acts), op);
    if |Survivors(acts)| == Stores(acts) {
      AllSurvive(s, acts);
    }
    if Serial(acts) {
      SerialSurvive(acts);
    }
  }

  /** Which steps can be taken does not depend on the operations. */
  ghost predicate Alike(s: Counter, t: Counter) {
    && |s.threads| == |t.threads|
    && forall i :: 0 <= i < |s.threads| ==>
         s.threads[i].loaded.Some? == t.threads[i].loaded.Some? && s.threads[i].done == t.threads[i].done
  }

  lemma {:induction false} RunsAlike(s: Counter, t: Counter, acts: seq<Act>)
    requires Alike(s, t) && IsRun(s, acts)
    ensures IsRun(t, acts) && Alike(After(s, acts), After(t, acts))
    decreases |acts|
  {
    if acts != [] {
      RunsAlike(s, t, Front(acts));
    }
  }

  ghost predicate Exact(refcnt: int, ops: seq<Op>, acts: seq<Act>) {
    IsRun(Start(refcnt, ops), acts) && After(Start(refcnt, ops), acts).refcnt == refcnt + Sum(ops)
  }

  /** Any number of threads, any mixture of operations: an order of loads and stores gives the
      right count whatever the operations are if and only if no two of them overlap. A lost Ref
      and a lost UnRef can make up for each other, so that for one mixture an order that
      overlaps may happen to come out right. */
  lemma AlwaysExactIff(refcnt: int, ops: seq<Op>, acts: seq<Act>)
    requires IsRun(Start(refcnt, ops), acts) && AllDone(After(Start(refcnt, ops), acts))
    ensures (forall other: seq<Op> :: |other| == |ops| ==> Exact(refcnt, other, acts)) <==> Serial(acts)
  {
    hide IsRun, After, Serial, Sum;
    forall other: seq<Op> | |other| == |ops|
      ensures IsRun(Start(refcnt, other), acts) && AllDone(After(Start(refcnt, other), acts))
      ensures Serial(acts) ==> Exact(refcnt, other, acts)
    {
      RunsAlike(Start(refcnt, ops), Start(refcnt, other), acts);
      WholeRun(refcnt, other, acts);
      NothingDone(Start(refcnt, other).threads);
      if Serial(acts) {
        SerialIsExact(Start(refcnt, other), acts);
      }
    }
    var refs := Same(Ref, |ops|);
    SameExactIff(refcnt, Ref, |ops|, acts);
    SameSum(Ref, |ops|);
    assert |refs| == |ops|;
  }

  /** Two operations, both carried out: the count comes out right if and only if they did not
      overlap. */
  lemma TwoExactIff(refcnt: int, a: Op, b: Op, acts: seq<Act>)
    requires IsRun(Start(refcnt, [a, b]), acts) && AllDone(After(Start(refcnt, [a, b]), acts))
    ensures After(Start(refcnt, [a, b]), acts).refcnt == refcnt + Delta(a) + Delta(b) <==> Serial(acts)
  {
    hide IsRun, After, Serial, Stores, Survivors, Total, Finished;
    var s := Start(refcnt, [a, b]);
    WholeRun(refcnt, [a, b], acts);
    NothingDone(s.threads);
    SumTwo(a, b);
    CountIsSurvivors(s, acts);
    SurvivorsBound(acts);
    SurvivorsRun(s, acts);
    SomeSurvive(acts);
    if |Survivors(acts)| == 2 {
      AllSurvive(s, acts);
    }
    if Serial(acts) {
      SerialIsExact(s, acts);
    } else {
      OneSurvivor(s.threads, Survivors(acts));
    }
  }

  lemma SumTwo(a: Op, b: Op)
    ensures Sum([a, b]) == Delta(a) + Delta(b)
  {
    assert [a, b][1..] == [b] && [b][1..] == [];
    assert Sum([b]) == Delta(b);
  }

  lemma {:induction false} SomeSurvive(acts: seq<Act>)
    ensures Stores(acts) > 0 ==> Survivors(acts) != []
    decreases |acts|
  {
    if acts != [] {
      SomeSurvive(Front(acts));
    }
  }

  lemma OneSurvivor(threads: seq<Thread>, who: seq<nat>)
    requires |threads| == 2 && |who| == 1 && who[0] < 2
    ensures Weight(threads, who) != Delta(threads[0].op) + Delta(threads[1].op)
  {
    assert Front(who) == [];
  }
}
