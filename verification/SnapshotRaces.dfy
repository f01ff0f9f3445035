/** The threads of module Snapshots with every access to `refcnt_` a step of its own, as the
    source leaves it: `refcnt_` is a plain int and UnRef is called outside the holder's mutex
    (new_meta_lab/Utils.cpp:6-18, new_meta_lab/Proxy.h:42-47, new_meta_lab/Snapshots.h:213-216).
    The Ref of GetSnapshot happens under the mutex; that of Add is on a snapshot which no other
    thread knows yet and stays part of its step. */
module SnapshotRaces {
  import opened Snapshots

  /** UnRef after its first test (line 11), after the load and after the store of `refcnt_ -= 1`
      (line 12); what remains is the second test with the callbacks (lines 13-17). */
  datatype Stage = Tested | Loaded(v: int) | Stored

  /** A Ref of GetSnapshot that has loaded v, an UnRef of a handle or of the collector, or
      neither any more. */
  datatype Job = Taking(o: nat, v: int) | Dropping(o: nat, giver: bool, stage: Stage) | Over

  datatype Fine = Fine(s: State, jobs: seq<Job>)

  datatype FineAct =
    | Whole(a: Act)
    | TakeLoad(id: Id) | TakeStore(k: nat)
    | DropTest(o: nat) | GiveTest
    | UnRefLoad(k: nat) | UnRefStore(k: nat) | UnRefTest(k: nat)

  predicate MutexFree(f: Fine) { forall k :: 0 <= k < |f.jobs| ==> !f.jobs[k].Taking? }

  predicate CollectorFree(f: Fine) { forall k :: 0 <= k < |f.jobs| ==> !(f.jobs[k].Dropping? && f.jobs[k].giver) }

  predicate IsDrop(f: Fine, k: nat) { k < |f.jobs| && f.jobs[k].Dropping? && f.jobs[k].o < |f.s.h.snaps| }

  ghost predicate FineEnabled(f: Fine, a: FineAct) {
    match a
    case Whole(b) =>
      && Enabled(f.s, b)
      && (b.Check? || b.Insert? || b.Get? ==> MutexFree(f))
      && (b.Get? ==> !b.scoped || Found(f.s.h, b.id).None?)
      && (b.Collect? ==> CollectorFree(f)) && !b.Drop? && !b.Give?
    case TakeLoad(id) => MutexFree(f) && Enabled(f.s, Get(id, true)) && Found(f.s.h, id).Some?
    case TakeStore(k) => k < |f.jobs| && f.jobs[k].Taking? && f.jobs[k].o < |f.s.h.snaps|
    case DropTest(o) => Enabled(f.s, Drop(o))
    case GiveTest => Enabled(f.s, Give) && CollectorFree(f)
    case UnRefLoad(k) => IsDrop(f, k) && f.jobs[k].stage.Tested?
    case UnRefStore(k) => IsDrop(f, k) && f.jobs[k].stage.Loaded?
    case UnRefTest(k) => IsDrop(f, k) && f.jobs[k].stage.Stored?
  }

  function SetCount(s: State, o: nat, v: int): State
    requires o < |s.h.snaps|
  {
    s.(h := SetSnap(s.h, o, s.h.snaps[o].(refcnt := v)))
  }

  /** The collector goes on to the next snapshot of its list. */
  function Given(s: State, o: nat): State {
    s.(gc := if s.gc == [] then [] else s.gc[1..], places := SetPlace(s.places, o, Released))
  }

  function CalledBack(s: State, o: nat): State
    requires o < |s.h.snaps|
  {
    var x := s.h.snaps[o];
    if x.refcnt == 0 then s.(h := SetSnap(s.h, o, x.(ran := x.ran + x.callbacks))) else s
  }

  ghost function FineNext(f: Fine, a: FineAct): Fine
    requires FineEnabled(f, a)
  {
    match a
    case Whole(b) => f.(s := Next(f.s, b))
    case TakeLoad(id) =>
      var o := Found(f.s.h, id).value;
      f.(jobs := f.jobs + [Taking(o, f.s.h.snaps[o].refcnt)])
    case TakeStore(k) =>
      var j := f.jobs[k];
      var s := SetCount(f.s, j.o, j.v + 1);
      Fine(s.(handles := s.handles + multiset{j.o}), f.jobs[k := Over])
    case DropTest(o) =>
      Fine(f.s.(handles := f.s.handles - multiset{o}),
           f.jobs + [if f.s.h.snaps[o].refcnt == 0 then Over else Dropping(o, false, Tested)])
    case GiveTest =>
      var o := f.s.gc[0];
      if f.s.h.snaps[o].refcnt == 0 then Fine(Given(f.s, o), f.jobs + [Over])
      else f.(jobs := f.jobs + [Dropping(o, true, Tested)])
    case UnRefLoad(k) => f.(jobs := f.jobs[k := f.jobs[k].(stage := Loaded(f.s.h.snaps[f.jobs[k].o].refcnt))])
    case UnRefStore(k) =>
      var j := f.jobs[k];
      Fine(SetCount(f.s, j.o, j.stage.v - 1), f.jobs[k := j.(stage := Stored)])
    case UnRefTest(k) =>
      var j := f.jobs[k];
      var s := CalledBack(f.s, j.o);
      Fine(if j.giver then Given(s, j.o) else s, f.jobs[k := Over])
  }

  ghost predicate FineRun(f: Fine, acts: seq<FineAct>)
    decreases |acts|, 0
  {
    acts == [] || (FineRun(f, acts[..|acts| - 1]) && FineEnabled(FineAfter(f, acts[..|acts| - 1]), acts[|acts| - 1]))
  }

  ghost function FineAfter(f: Fine, acts: seq<FineAct>): Fine
    requires FineRun(f, acts)
    decreases |acts|, 1
  {
    if acts == [] then f else FineNext(FineAfter(f, acts[..|acts| - 1]), acts[|acts| - 1])
  }

  lemma Extend(f: Fine, acts: seq<FineAct>, a: FineAct)
    requires FineRun(f, acts) && FineEnabled(FineAfter(f, acts), a)
    ensures FineRun(f, acts + [a]) && FineAfter(f, acts + [a]) == FineNext(FineAfter(f, acts), a)
  {
    hide FineEnabled, FineNext;
    assert (acts + [a])[..|acts|] == acts;
  }

  // ---- Without interruption ----

  ghost predicate NoJobs(f: Fine) { forall k :: 0 <= k < |f.jobs| ==> f.jobs[k].Over? }

  lemma TakeAtOnce(f: Fine, acts: seq<FineAct>, id: Id) returns (more: seq<FineAct>)
    requires FineRun(f, acts) && NoJobs(FineAfter(f, acts)) && Enabled(FineAfter(f, acts).s, Get(id, true))
    requires Found(FineAfter(f, acts).s.h, id).Some?
    ensures FineRun(f, more) && NoJobs(FineAfter(f, more))
    ensures FineAfter(f, more).s == Next(FineAfter(f, acts).s, Get(id, true))
  {
    hide FineRun, FineAfter, Found;
    var g := FineAfter(f, acts);
    Extend(f, acts, TakeLoad(id));
    var g1 := FineNext(g, TakeLoad(id));
    Extend(f, acts + [TakeLoad(id)], TakeStore(|g.jobs|));
    more := acts + [TakeLoad(id)] + [TakeStore(|g.jobs|)];
  }

  /** The three steps of an UnRef after its first test. */
  lemma UnRefAtOnce(f: Fine, acts: seq<FineAct>, o: nat, giver: bool) returns (more: seq<FineAct>)
    requires FineRun(f, acts) && o < |FineAfter(f, acts).s.h.snaps| && FineAfter(f, acts).s.h.snaps[o].refcnt != 0
    requires var jobs := FineAfter(f, acts).jobs;
             && jobs != [] && jobs[|jobs| - 1] == Dropping(o, giver, Tested)
             && forall k :: 0 <= k < |jobs| - 1 ==> jobs[k].Over?
    ensures FineRun(f, more) && NoJobs(FineAfter(f, more))
    ensures var s := FineAfter(f, acts).s;
            var t := s.(h := SetSnap(s.h, o, UnRefed(s.h.snaps[o])));
            FineAfter(f, more).s == if giver then Given(t, o) else t
  {
    hide FineRun, FineAfter;
    var g := FineAfter(f, acts);
    var k := |g.jobs| - 1;
    var a0, a1, a2 := UnRefLoad(k), UnRefStore(k), UnRefTest(k);
    Extend(f, acts, a0);
    var g1 := FineNext(g, a0);
    Extend(f, acts + [a0], a1);
    var g2 := FineNext(g1, a1);
    Extend(f, acts + [a0] + [a1], a2);
    more := acts + [a0] + [a1] + [a2];
    assert g2.s.h.snaps[o] == g.s.h.snaps[o].(refcnt := g.s.h.snaps[o].refcnt - 1);
  }

  lemma DropAtOnce(f: Fine, acts: seq<FineAct>, o: nat) returns (more: seq<FineAct>)
    requires FineRun(f, acts) && NoJobs(FineAfter(f, acts)) && Enabled(FineAfter(f, acts).s, Drop(o))
    ensures FineRun(f, more) && NoJobs(FineAfter(f, more))
    ensures FineAfter(f, more).s == Next(FineAfter(f, acts).s, Drop(o))
  {
    hide FineRun, FineAfter;
    var g := FineAfter(f, acts);
    Extend(f, acts, DropTest(o));
    more := acts + [DropTest(o)];
    if g.s.h.snaps[o].refcnt != 0 {
      more := UnRefAtOnce(f, more, o, false);
    } else {
      assert g.s.h.snaps[o := g.s.h.snaps[o]] == g.s.h.snaps;
    }
  }

  lemma GiveAtOnce(f: Fine, acts: seq<FineAct>) returns (more: seq<FineAct>)
    requires FineRun(f, acts) && NoJobs(FineAfter(f, acts)) && Enabled(FineAfter(f, acts).s, Give)
    ensures FineRun(f, more) && NoJobs(FineAfter(f, more))
    ensures FineAfter(f, more).s == Next(FineAfter(f, acts).s, Give)
  {
    hide FineRun, FineAfter;
    var g := FineAfter(f, acts);
    var o := g.s.gc[0];
    Extend(f, acts, GiveTest);
    more := acts + [GiveTest];
    if g.s.h.snaps[o].refcnt != 0 {
      more := UnRefAtOnce(f, more, o, true);
    } else {
      assert g.s.h.snaps[o := g.s.h.snaps[o]] == g.s.h.snaps;
    }
  }

  lemma OneAtOnce(f: Fine, acts: seq<FineAct>, a: Act) returns (more: seq<FineAct>)
    requires FineRun(f, acts) && NoJobs(FineAfter(f, acts)) && Enabled(FineAfter(f, acts).s, a)
    ensures FineRun(f, more) && NoJobs(FineAfter(f, more)) && FineAfter(f, more).s == Next(FineAfter(f, acts).s, a)
  {
    hide FineRun, FineAfter, Next, Found;
    if a.Get? && a.scoped && Found(FineAfter(f, acts).s.h, a.id).Some? {
      more := TakeAtOnce(f, acts, a.id);
    } else if a.Drop? {
      more := DropAtOnce(f, acts, a.o);
    } else if a.Give? {
      more := GiveAtOnce(f, acts);
    } else {
      Extend(f, acts, Whole(a));
      more := acts + [Whole(a)];
    }
  }

  /** Carried out without interruption, the changes of the counts are those of module Snapshots:
      each of its runs is one of the runs here. */
  lemma {:induction false} UninterruptedFrom(f: Fine, done: seq<FineAct>, acts: seq<Act>) returns (fine: seq<FineAct>)
    requires FineRun(f, done) && NoJobs(FineAfter(f, done)) && IsRun(FineAfter(f, done).s, acts)
    ensures FineRun(f, fine) && NoJobs(FineAfter(f, fine)) && FineAfter(f, fine).s == After(FineAfter(f, done).s, acts)
    decreases |acts|
  {
    hide FineRun, FineAfter, Enabled, Next, NoJobs;
    if acts == [] {
      fine := done;
    } else {
      var next := OneAtOnce(f, done, acts[0]);
      fine := UninterruptedFrom(f, next, acts[1..]);
    }
  }

  lemma Uninterrupted(k: nat, acts: seq<Act>) returns (fine: seq<FineAct>)
    requires IsRun(New(k), acts)
    ensures FineRun(Fine(New(k), []), fine) && FineAfter(Fine(New(k), []), fine).s == After(New(k), acts)
  {
    hide IsRun, After;
    fine := UninterruptedFrom(Fine(New(k), []), [], acts);
  }
}
