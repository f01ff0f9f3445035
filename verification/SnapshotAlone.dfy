/** Which runs with loads and stores as steps are safe: if a change of a reference count begins
    only when no other change of the same count is under way, whatever happens to other counts,
    the run is an atomic one of module Snapshots, each change happening when it ends. */
module SnapshotAlone {
  import opened Options
  import opened Snapshots
  import opened SnapshotRaces

  predicate OpenOn(j: Job, o: nat) { !j.Over? && j.o == o }

  /** No change of the count of snapshot o is under way. */
  predicate NoneOn(f: Fine, o: nat) { forall k :: 0 <= k < |f.jobs| ==> !OpenOn(f.jobs[k], o) }

  ghost predicate BeginsAlone(f: Fine, a: FineAct)
    requires FineEnabled(f, a)
  {
    match a
    case TakeLoad(id) => NoneOn(f, Found(f.s.h, id).value)
    case DropTest(o) => NoneOn(f, o)
    case GiveTest => NoneOn(f, f.s.gc[0])
    case _ => true
  }

  ghost predicate AloneRun(f: Fine, acts: seq<FineAct>)
    requires FineRun(f, acts)
    decreases |acts|
  {
    acts == [] || (AloneRun(f, acts[..|acts| - 1]) && BeginsAlone(FineAfter(f, acts[..|acts| - 1]), acts[|acts| - 1]))
  }

  // ---- The state without the changes under way ----

  /** A count that has been stored but not tested again. */
  predicate StoredOn(jobs: seq<Job>, o: nat) {
    exists k :: 0 <= k < |jobs| && jobs[k].Dropping? && jobs[k].stage.Stored? && jobs[k].o == o
  }

  function SnapBefore(f: Fine, o: nat): Snap
    requires o < |f.s.h.snaps|
  {
    var x := f.s.h.snaps[o];
    if StoredOn(f.jobs, o) then x.(refcnt := x.refcnt + 1) else x
  }

  /** The handles whose UnRef is under way. */
  function Dropped(jobs: seq<Job>): multiset<nat> {
    if jobs == [] then multiset{}
    else Dropped(jobs[..|jobs| - 1]) + DroppedBy(jobs[|jobs| - 1])
  }

  function DroppedBy(j: Job): multiset<nat> {
    if j.Dropping? && !j.giver then multiset{j.o} else multiset{}
  }

  function SnapsBefore(f: Fine): (snaps: seq<Snap>)
    ensures |snaps| == |f.s.h.snaps|
  {
    seq(|f.s.h.snaps|, o requires 0 <= o < |f.s.h.snaps| => SnapBefore(f, o))
  }

  function With(s: State, snaps: seq<Snap>, handles: multiset<nat>): State {
    s.(h := s.h.(snaps := snaps), handles := handles)
  }

  function Before(f: Fine): State { With(f.s, SnapsBefore(f), f.s.handles + Dropped(f.jobs)) }

  lemma {:induction false} DroppedUpdate(jobs: seq<Job>, k: nat, j: Job)
    requires k < |jobs|
    ensures Dropped(jobs[k := j]) + DroppedBy(jobs[k]) == Dropped(jobs) + DroppedBy(j)
  {
    hide DroppedBy;
    var n := |jobs| - 1;
    if k == n {
      assert jobs[k := j][..n] == jobs[..n];
      Swap(Dropped(jobs[..n]), DroppedBy(j), DroppedBy(jobs[k]));
    } else {
      assert jobs[k := j][..n] == jobs[..n][k := j] && jobs[k := j][n] == jobs[n];
      DroppedUpdate(jobs[..n], k, j);
      AddSame(Dropped(jobs[..n][k := j]), DroppedBy(jobs[k]), Dropped(jobs[..n]), DroppedBy(j), DroppedBy(jobs[n]));
    }
  }

  lemma Swap(a: multiset<nat>, b: multiset<nat>, c: multiset<nat>)
    ensures a + b + c == a + c + b
  {
  }

  lemma AddSame(a: multiset<nat>, x: multiset<nat>, b: multiset<nat>, y: multiset<nat>, c: multiset<nat>)
    requires a + x == b + y
    ensures a + c + x == b + c + y
  {
    Swap(a, c, x);
    Swap(b, c, y);
  }

  lemma DroppedAppend(jobs: seq<Job>, j: Job)
    ensures Dropped(jobs + [j]) == Dropped(jobs) + DroppedBy(j)
  {
    assert (jobs + [j])[..|jobs|] == jobs;
  }

  // ---- What the changes under way know ----

  ghost predicate Findable(h: Holder, o: nat) {
    exists id :: (id == 0 || id == h.maxId ==> id in h.active) && Found(h, id) == Some(o)
  }

  ghost predicate JobOk(f: Fine, j: Job) {
    match j
    case Taking(o, v) => o < |f.s.h.snaps| && v == f.s.h.snaps[o].refcnt && Findable(f.s.h, o)
    case Dropping(o, giver, stage) =>
      && o < |f.s.h.snaps|
      && (giver ==> f.s.gc != [] && f.s.gc[0] == o && o < |f.s.places|)
      && (stage.Tested? ==> f.s.h.snaps[o].refcnt != 0)
      && (stage.Loaded? ==> stage.v == f.s.h.snaps[o].refcnt != 0)
      && (stage.Stored? ==> f.s.h.snaps[o].refcnt + 1 != 0)
    case Over => true
  }

  /** Each knows the state it works on, and no two work on one count. */
  ghost predicate JobsOk(f: Fine) {
    && (forall k :: 0 <= k < |f.jobs| ==> JobOk(f, f.jobs[k]))
    && (forall k, l :: 0 <= k < l < |f.jobs| && !f.jobs[k].Over? && !f.jobs[l].Over? ==> f.jobs[k].o != f.jobs[l].o)
  }

  /** The step taken in module Snapshots, if any, when a step is taken here. */
  ghost predicate Refines(f: Fine, t: Fine, acts: seq<Act>) {
    && JobsOk(t) && |acts| <= 1
    && if acts == [] then Before(t) == Before(f)
       else Enabled(Before(f), acts[0]) && Before(t) == Next(Before(f), acts[0])
  }

  // Steps on the holder.

  lemma InsertedOver(h: Holder, snaps: seq<Snap>, id: Id)
    requires |snaps| == |h.snaps|
    ensures var a, b := Inserted(h, id), Inserted(h.(snaps := snaps), id);
            b == a.(h := a.h.(snaps := if h.done then snaps else snaps + [Snap(id, 1, 1, 0)]))
    ensures Inserted(h, id).h.snaps == if h.done then h.snaps else h.snaps + [Snap(id, 1, 1, 0)]
    ensures Inserted(h, id).h.toRelease == h.toRelease
  {
  }

  lemma InsertBefore(f: Fine, j: nat)
    requires JobsOk(f) && FineEnabled(f, Whole(Insert(j)))
    ensures Refines(f, FineNext(f, Whole(Insert(j))), [Insert(j)])
  {
    hide JobsOk, Inserted, Found, Dropped, StoredOn;
    InsertJobs(f, j);
    InsertSnaps(f, j);
    InsertCommutes(f.s, SnapsBefore(f), f.s.handles + Dropped(f.jobs), j);
  }

  lemma InsertSnaps(f: Fine, j: nat)
    requires JobsOk(f) && FineEnabled(f, Whole(Insert(j)))
    ensures SnapsBefore(FineNext(f, Whole(Insert(j)))) ==
              if f.s.h.done then SnapsBefore(f) else SnapsBefore(f) + [Snap(f.s.adders[j].id, 1, 1, 0)]
  {
    hide JobsOk, Found, Dropped, StoredOn, Inserted;
    InsertJobs(f, j);
    InsertedOver(f.s.h, f.s.h.snaps, f.s.adders[j].id);
  }

  /** The second section does not look at the counts. */
  lemma InsertCommutes(s: State, snaps: seq<Snap>, handles: multiset<nat>, j: nat)
    requires j < |s.adders| && |snaps| == |s.h.snaps|
    ensures var t := InsertStep(s, j);
            InsertStep(s.(h := s.h.(snaps := snaps), handles := handles), j)
            == t.(h := t.h.(snaps := if s.h.done then snaps else snaps + [Snap(s.adders[j].id, 1, 1, 0)]),
                  handles := handles)
  {
    InsertedOver(s.h, snaps, s.adders[j].id);
    hide Inserted;
  }

  lemma InsertJobs(f: Fine, j: nat)
    requires JobsOk(f) && FineEnabled(f, Whole(Insert(j)))
    ensures JobsOk(FineNext(f, Whole(Insert(j)))) && !StoredOn(f.jobs, |f.s.h.snaps|)
  {
    InsertedOver(f.s.h, f.s.h.snaps, f.s.adders[j].id);
    hide Inserted, Found;
    var t := FineNext(f, Whole(Insert(j)));
    forall k | 0 <= k < |t.jobs|
      ensures JobOk(t, t.jobs[k])
    {
      assert JobOk(f, f.jobs[k]) && !f.jobs[k].Taking?;
    }
  }

  /** What the other steps of the holder leave alone. */
  lemma OtherFrame(s: State, b: Act)
    requires Enabled(s, b) && (b.Call? || b.Check? || b.Release? || b.Collect? || b.NotifyDone? || b.Get?)
    requires b.Get? ==> !b.scoped || Found(s.h, b.id).None?
    ensures var t := Next(s, b);
            && t.h.snaps == s.h.snaps && t.h.active == s.h.active && t.h.minId == s.h.minId && t.h.maxId == s.h.maxId
            && t.handles == s.handles && |t.places| == |s.places| && (!b.Collect? ==> t.gc == s.gc)
  {
    hide Refuses, Found;
  }

  lemma OtherCommutes(s: State, snaps: seq<Snap>, handles: multiset<nat>, b: Act)
    requires Enabled(s, b) && (b.Call? || b.Check? || b.Release? || b.Collect? || b.NotifyDone? || b.Get?)
    requires |snaps| == |s.h.snaps| && (b.Get? ==> !b.scoped || Found(s.h, b.id).None?)
    ensures var u, t := s.(h := s.h.(snaps := snaps), handles := handles), Next(s, b);
            Enabled(u, b) && Next(u, b) == t.(h := t.h.(snaps := snaps), handles := handles)
  {
    FoundOver(s.h, snaps);
    hide Found;
  }

  lemma OtherJobs(f: Fine, b: Act)
    requires JobsOk(f) && FineEnabled(f, Whole(b)) && !b.Insert?
    ensures JobsOk(FineNext(f, Whole(b)))
  {
    var t := FineNext(f, Whole(b));
    OtherFrame(f.s, b);
    hide Found, Findable, Next, Enabled;
    forall k | 0 <= k < |t.jobs|
      ensures JobOk(t, t.jobs[k])
    {
      assert JobOk(f, f.jobs[k]);
      if t.jobs[k].Taking? {
        FoundSame(f.s.h, t.s.h, t.jobs[k].o);
      }
    }
  }

  lemma OtherBefore(f: Fine, b: Act)
    requires JobsOk(f) && FineEnabled(f, Whole(b)) && !b.Insert?
    ensures Refines(f, FineNext(f, Whole(b)), [b])
  {
    OtherJobs(f, b);
    OtherFrame(f.s, b);
    OtherCommutes(f.s, SnapsBefore(f), f.s.handles + Dropped(f.jobs), b);
    hide JobsOk, Found, Next, Enabled, Dropped, StoredOn;
    var t := FineNext(f, Whole(b));
    assert SnapsBefore(t) == SnapsBefore(f);
  }

  /** What GetSnapshot finds does not depend on the counts. */
  lemma FoundOver(h: Holder, snaps: seq<Snap>)
    ensures forall id :: (id == 0 || id == h.maxId ==> id in h.active) ==> Found(h.(snaps := snaps), id) == Found(h, id)
  {
  }

  lemma FoundSame(h: Holder, g: Holder, o: nat)
    requires g.active == h.active && g.minId == h.minId && g.maxId == h.maxId && Findable(h, o)
    ensures Findable(g, o)
  {
    var id :| (id == 0 || id == h.maxId ==> id in h.active) && Found(h, id) == Some(o);
    assert Found(g, id) == Some(o);
  }

  // Steps on a count.

  /** A change that begins. */
  lemma JobBegins(f: Fine, t: Fine, j: Job)
    requires JobsOk(f) && t.jobs == f.jobs + [j] && t.s.h == f.s.h && |t.s.places| == |f.s.places|
    requires t.s.gc == f.s.gc || CollectorFree(f)
    requires JobOk(t, j) && (j.Over? || NoneOn(f, j.o)) && (j.Dropping? ==> !j.stage.Stored?)
    ensures JobsOk(t) && SnapsBefore(t) == SnapsBefore(f) && Dropped(t.jobs) == Dropped(f.jobs) + DroppedBy(j)
  {
    DroppedAppend(f.jobs, j);
    hide Found, Dropped, Findable;
    forall k | 0 <= k < |f.jobs|
      ensures JobOk(t, f.jobs[k])
    {
      assert JobOk(f, f.jobs[k]);
    }
    forall o | 0 <= o < |f.s.h.snaps|
      ensures StoredOn(t.jobs, o) == StoredOn(f.jobs, o)
    {
      StoredAppend(f.jobs, j, o);
    }
  }

  lemma StoredAppend(jobs: seq<Job>, j: Job, o: nat)
    requires j.Dropping? ==> !j.stage.Stored?
    ensures StoredOn(jobs + [j], o) == StoredOn(jobs, o)
  {
    if StoredOn(jobs, o) {
      var k :| 0 <= k < |jobs| && jobs[k].Dropping? && jobs[k].stage.Stored? && jobs[k].o == o;
      assert (jobs + [j])[k] == jobs[k];
    }
  }

  /** A change that goes on, or ends as `j`. */
  ghost predicate Moves(f: Fine, t: Fine, k: nat, j: Job) {
    && k < |f.jobs| && !f.jobs[k].Over? && t.jobs == f.jobs[k := j] && (j.Over? || j.o == f.jobs[k].o)
    && |t.s.h.snaps| == |f.s.h.snaps| && |t.s.places| == |f.s.places|
    && t.s.h.active == f.s.h.active && t.s.h.minId == f.s.h.minId && t.s.h.maxId == f.s.h.maxId
    && (forall o :: 0 <= o < |f.s.h.snaps| && o != f.jobs[k].o ==> t.s.h.snaps[o] == f.s.h.snaps[o])
    && (t.s.gc == f.s.gc || (f.jobs[k].Dropping? && f.jobs[k].giver))
  }

  lemma OtherJobStays(f: Fine, t: Fine, k: nat, j: Job, l: nat)
    requires JobsOk(f) && Moves(f, t, k, j) && l < |f.jobs| && l != k
    ensures JobOk(t, f.jobs[l])
  {
    hide Found, Findable;
    assert JobOk(f, f.jobs[l]) && JobOk(f, f.jobs[k]);
    if f.jobs[l].Taking? {
      FoundSame(f.s.h, t.s.h, f.jobs[l].o);
    }
  }

  lemma JobMoves(f: Fine, t: Fine, k: nat, j: Job)
    requires JobsOk(f) && Moves(f, t, k, j) && JobOk(t, j)
    ensures JobsOk(t)
  {
    forall l | 0 <= l < |t.jobs|
      ensures JobOk(t, t.jobs[l])
    {
      if l != k {
        OtherJobStays(f, t, k, j, l);
      }
    }
    hide JobOk;
  }

  /** The count of a snapshot before the change `j` of it. */
  function CountBefore(j: Job, x: Snap): Snap {
    if j.Dropping? && j.stage.Stored? then x.(refcnt := x.refcnt + 1) else x
  }

  lemma StoredMoves(f: Fine, t: Fine, k: nat, j: Job)
    requires JobsOk(f) && JobsOk(t) && Moves(f, t, k, j)
    ensures forall o :: o != f.jobs[k].o ==> StoredOn(t.jobs, o) == StoredOn(f.jobs, o)
    ensures StoredOn(f.jobs, f.jobs[k].o) <==> f.jobs[k].Dropping? && f.jobs[k].stage.Stored?
    ensures StoredOn(t.jobs, f.jobs[k].o) <==> j.Dropping? && j.stage.Stored?
  {
    hide JobOk;
    forall o | o != f.jobs[k].o
      ensures StoredOn(t.jobs, o) == StoredOn(f.jobs, o)
    {
      StoredElsewhere(f.jobs, k, j, o);
    }
    StoredHere(f.jobs, k);
    if j.Over? {
      NoneStored(f.jobs, k);
    } else {
      StoredHere(t.jobs, k);
    }
    hide StoredOn;
  }

  lemma SnapsMove(f: Fine, t: Fine, k: nat, j: Job)
    requires JobsOk(f) && JobsOk(t) && Moves(f, t, k, j) && f.jobs[k].o < |f.s.h.snaps|
    ensures var o := f.jobs[k].o;
            && SnapsBefore(f)[o] == CountBefore(f.jobs[k], f.s.h.snaps[o])
            && SnapsBefore(t) == SnapsBefore(f)[o := CountBefore(j, t.s.h.snaps[o])]
    ensures Dropped(t.jobs) == Dropped(f.jobs) + DroppedBy(j) - DroppedBy(f.jobs[k])
  {
    hide JobsOk, StoredOn, Dropped, DroppedBy;
    StoredMoves(f, t, k, j);
    DroppedUpdate(f.jobs, k, j);
    Cancel(Dropped(t.jobs), Dropped(f.jobs), DroppedBy(f.jobs[k]), DroppedBy(j));
    SnapsUpdate(f, t, f.jobs[k].o);
  }

  lemma Cancel(a: multiset<nat>, b: multiset<nat>, x: multiset<nat>, y: multiset<nat>)
    requires a + x == b + y
    ensures a == b + y - x
  {
    assert a == a + x - x;
  }

  lemma SnapsUpdate(f: Fine, t: Fine, o: nat)
    requires |t.s.h.snaps| == |f.s.h.snaps| && o < |f.s.h.snaps|
    requires forall p :: p != o ==> StoredOn(t.jobs, p) == StoredOn(f.jobs, p)
    requires forall p :: 0 <= p < |f.s.h.snaps| && p != o ==> t.s.h.snaps[p] == f.s.h.snaps[p]
    ensures SnapsBefore(t) == SnapsBefore(f)[o := SnapBefore(t, o)]
  {
    hide StoredOn;
  }

  lemma NoneStored(jobs: seq<Job>, k: nat)
    requires k < |jobs| && !jobs[k].Over?
    requires forall l, m :: 0 <= l < m < |jobs| && !jobs[l].Over? && !jobs[m].Over? ==> jobs[l].o != jobs[m].o
    ensures !StoredOn(jobs[k := Over], jobs[k].o)
  {
    var after := jobs[k := Over];
    forall l | 0 <= l < |after| && after[l].Dropping? && after[l].stage.Stored?
      ensures after[l].o != jobs[k].o
    {
      assert jobs[l] == after[l];
    }
  }

  lemma StoredElsewhere(jobs: seq<Job>, k: nat, j: Job, o: nat)
    requires k < |jobs| && (jobs[k].Over? || jobs[k].o != o) && (j.Over? || j.o != o)
    ensures StoredOn(jobs[k := j], o) == StoredOn(jobs, o)
  {
    if StoredOn(jobs, o) {
      var l :| 0 <= l < |jobs| && jobs[l].Dropping? && jobs[l].stage.Stored? && jobs[l].o == o;
      assert jobs[k := j][l] == jobs[l];
    }
  }

  lemma StoredHere(jobs: seq<Job>, k: nat)
    requires k < |jobs| && !jobs[k].Over?
    requires forall l, m :: 0 <= l < m < |jobs| && !jobs[l].Over? && !jobs[m].Over? ==> jobs[l].o != jobs[m].o
    ensures StoredOn(jobs, jobs[k].o) <==> jobs[k].Dropping? && jobs[k].stage.Stored?
  {
  }

  lemma ShowsNothing(f: Fine, t: Fine)
    requires JobsOk(t) && t.s == With(f.s, t.s.h.snaps, f.s.handles)
    requires SnapsBefore(t) == SnapsBefore(f) && Dropped(t.jobs) == Dropped(f.jobs)
    ensures Refines(f, t, [])
  {
    hide JobsOk, SnapsBefore, Dropped;
  }

  lemma ShowsOne(f: Fine, t: Fine, s: State, a: Act, handles: multiset<nat>)
    requires JobsOk(t) && t.s == With(s, t.s.h.snaps, t.s.handles) && t.s.handles + Dropped(t.jobs) == handles
    requires Enabled(With(f.s, SnapsBefore(f), f.s.handles + Dropped(f.jobs)), a)
    requires Next(With(f.s, SnapsBefore(f), f.s.handles + Dropped(f.jobs)), a) == With(s, SnapsBefore(t), handles)
    ensures Refines(f, t, [a])
  {
    hide JobsOk, SnapsBefore, Dropped, Enabled, Next;
  }

  lemma NotStored(f: Fine, o: nat)
    requires NoneOn(f, o)
    ensures !StoredOn(f.jobs, o)
  {
    forall k | 0 <= k < |f.jobs| && f.jobs[k].Dropping?
      ensures f.jobs[k].o != o
    {
      assert !OpenOn(f.jobs[k], o);
    }
  }

  lemma TakeLoadStep(f: Fine, id: Id)
    requires JobsOk(f) && FineEnabled(f, TakeLoad(id)) && BeginsAlone(f, TakeLoad(id))
    ensures Refines(f, FineNext(f, TakeLoad(id)), [])
  {
    var t := FineNext(f, TakeLoad(id));
    var o := Found(f.s.h, id).value;
    hide Found, StoredOn;
    assert Findable(f.s.h, o);
    JobBegins(f, t, Taking(o, f.s.h.snaps[o].refcnt));
  }

  lemma TakeStoreNext(f: Fine, k: nat)
    requires FineEnabled(f, TakeStore(k)) && JobOk(f, f.jobs[k])
    ensures var t, j := FineNext(f, TakeStore(k)), f.jobs[k];
            && j.Taking? && j.o < |f.s.h.snaps| && Moves(f, t, k, Over)
            && t.s == With(f.s, t.s.h.snaps, f.s.handles + multiset{j.o})
            && t.s.h.snaps[j.o] == Refed(f.s.h.snaps[j.o])
  {
  }

  lemma GetWith(s: State, snaps: seq<Snap>, handles: multiset<nat>, id: Id, o: nat)
    requires o < |snaps| && (id == 0 || id == s.h.maxId ==> id in s.h.active) && Found(s.h, id) == Some(o)
    ensures Enabled(With(s, snaps, handles), Get(id, true))
    ensures Next(With(s, snaps, handles), Get(id, true)) ==
              With(s, snaps[o := Refed(snaps[o])], handles + multiset{o})
  {
    FoundOver(s.h, snaps);
    hide Found;
  }

  lemma TakeStoreStep(f: Fine, k: nat) returns (acts: seq<Act>)
    requires JobsOk(f) && FineEnabled(f, TakeStore(k))
    ensures Refines(f, FineNext(f, TakeStore(k)), acts)
  {
    TakeHasJob(f, k);
    hide *;
    JobIsOk(f, k);
    TakeStoreNext(f, k);
    var t, j := FineNext(f, TakeStore(k)), f.jobs[k];
    var id := TakingFinds(f, j);
    acts := [Get(id, true)];
    OverOk(t);
    JobMoves(f, t, k, Over);
    SnapsMove(f, t, k, Over);
    CountOver(t.s.h.snaps[j.o]);
    CountTaking(j, f.s.h.snaps[j.o]);
    WithParts(f.s, t.s.h.snaps, f.s.handles + multiset{j.o});
    GetWith(f.s, SnapsBefore(f), f.s.handles + Dropped(f.jobs), id, j.o);
    NothingMore(Dropped(f.jobs), multiset{});
    Swap(f.s.handles, multiset{j.o}, Dropped(f.jobs));
    ShowsOne(f, t, f.s, acts[0], f.s.handles + Dropped(f.jobs) + multiset{j.o});
  }

  lemma TakeHasJob(f: Fine, k: nat)
    requires FineEnabled(f, TakeStore(k))
    ensures k < |f.jobs|
  {
  }

  lemma JobIsOk(f: Fine, k: nat)
    requires JobsOk(f) && k < |f.jobs|
    ensures JobOk(f, f.jobs[k])
  {
  }

  lemma TakingFinds(f: Fine, j: Job) returns (id: Id)
    requires JobOk(f, j) && j.Taking?
    ensures (id == 0 || id == f.s.h.maxId ==> id in f.s.h.active) && Found(f.s.h, id) == Some(j.o)
  {
    id :| (id == 0 || id == f.s.h.maxId ==> id in f.s.h.active) && Found(f.s.h, id) == Some(j.o);
  }

  lemma NothingMore(a: multiset<nat>, x: multiset<nat>)
    ensures a + x - x == a
  {
  }

  lemma WithParts(s: State, snaps: seq<Snap>, handles: multiset<nat>)
    ensures With(s, snaps, handles).handles == handles && With(s, snaps, handles).h.snaps == snaps
  {
  }

  lemma CountTaking(j: Job, x: Snap)
    requires j.Taking?
    ensures CountBefore(j, x) == x && DroppedBy(j) == multiset{}
  {
  }

  lemma DropWith(s: State, snaps: seq<Snap>, handles: multiset<nat>, o: nat)
    requires o < |snaps| && o in handles
    ensures Enabled(With(s, snaps, handles), Drop(o))
    ensures Next(With(s, snaps, handles), Drop(o)) == With(s, snaps[o := UnRefed(snaps[o])], handles - multiset{o})
  {
  }

  lemma GiveWith(s: State, snaps: seq<Snap>, handles: multiset<nat>)
    requires s.gc != [] && s.gc[0] < |snaps| && s.gc[0] < |s.places|
    ensures Enabled(With(s, snaps, handles), Give)
    ensures Next(With(s, snaps, handles), Give) ==
              With(Given(s, s.gc[0]), snaps[s.gc[0] := UnRefed(snaps[s.gc[0]])], handles)
  {
  }

  /** The first test of an UnRef leads to a change under way, or to nothing at a count of zero. */
  function AfterTest(o: nat, giver: bool, refcnt: int): Job { if refcnt == 0 then Over else Dropping(o, giver, Tested) }

  lemma DropTestNext(f: Fine, o: nat)
    requires FineEnabled(f, DropTest(o)) && BeginsAlone(f, DropTest(o)) && JobsOk(f)
    ensures o < |f.s.h.snaps| && o in f.s.handles && SnapsBefore(f)[o] == f.s.h.snaps[o]
    ensures var t, j := FineNext(f, DropTest(o)), AfterTest(o, false, f.s.h.snaps[o].refcnt);
            && t.s == With(f.s, f.s.h.snaps, f.s.handles - multiset{o}) && t.jobs == f.jobs + [j]
            && JobsOk(t) && SnapsBefore(t) == SnapsBefore(f) && Dropped(t.jobs) == Dropped(f.jobs) + DroppedBy(j)
  {
    NotStored(f, o);
    hide StoredOn, Dropped, JobsOk, NoneOn;
    JobBegins(f, FineNext(f, DropTest(o)), AfterTest(o, false, f.s.h.snaps[o].refcnt));
  }

  lemma TestedBy(o: nat, giver: bool, refcnt: int)
    ensures DroppedBy(AfterTest(o, giver, refcnt)) == if refcnt == 0 || giver then multiset{} else multiset{o}
  {
  }

  lemma SameSnap(snaps: seq<Snap>, o: nat)
    requires o < |snaps| && snaps[o].refcnt == 0
    ensures snaps[o := UnRefed(snaps[o])] == snaps
  {
  }

  lemma Unhanded(handles: multiset<nat>, dropped: multiset<nat>, o: nat)
    requires o in handles
    ensures handles - multiset{o} + (dropped + multiset{o}) == handles + dropped
    ensures handles + dropped - multiset{o} == handles - multiset{o} + (dropped + multiset{})
  {
  }

  lemma DropTestStep(f: Fine, o: nat) returns (acts: seq<Act>)
    requires JobsOk(f) && FineEnabled(f, DropTest(o)) && BeginsAlone(f, DropTest(o))
    ensures Refines(f, FineNext(f, DropTest(o)), acts)
  {
    DropTestNext(f, o);
    var t, x := FineNext(f, DropTest(o)), f.s.h.snaps[o];
    hide StoredOn, Dropped, DroppedBy, AfterTest, JobsOk, NoneOn, FineNext, FineEnabled, SnapsBefore, Enabled, Next,
         With, UnRefed;
    TestedBy(o, false, x.refcnt);
    Unhanded(f.s.handles, Dropped(f.jobs), o);
    WithWith(f.s, f.s.h.snaps, f.s.handles - multiset{o}, SnapsBefore(t), t.s.handles + Dropped(t.jobs));
    WithParts(f.s, f.s.h.snaps, f.s.handles - multiset{o});
    if x.refcnt == 0 {
      acts := [Drop(o)];
      DropWith(f.s, SnapsBefore(f), f.s.handles + Dropped(f.jobs), o);
      SameSnap(SnapsBefore(f), o);
    } else {
      acts := [];
    }
  }

  lemma GiveTestNext(f: Fine)
    requires FineEnabled(f, GiveTest) && BeginsAlone(f, GiveTest) && JobsOk(f)
    ensures f.s.gc != [] && f.s.gc[0] < |f.s.h.snaps| && f.s.gc[0] < |f.s.places|
    ensures var o := f.s.gc[0];
            var t, j := FineNext(f, GiveTest), AfterTest(o, true, f.s.h.snaps[o].refcnt);
            && SnapsBefore(f)[o] == f.s.h.snaps[o] && t.jobs == f.jobs + [j]
            && t.s == (if f.s.h.snaps[o].refcnt == 0 then Given(f.s, o) else f.s) && t.s.handles == f.s.handles
            && JobsOk(t) && SnapsBefore(t) == SnapsBefore(f) && Dropped(t.jobs) == Dropped(f.jobs) + DroppedBy(j)
  {
    NotStored(f, f.s.gc[0]);
    hide StoredOn, Dropped, JobsOk, NoneOn, CollectorFree;
    JobBegins(f, FineNext(f, GiveTest), AfterTest(f.s.gc[0], true, f.s.h.snaps[f.s.gc[0]].refcnt));
  }

  lemma GiveTestStep(f: Fine) returns (acts: seq<Act>)
    requires JobsOk(f) && FineEnabled(f, GiveTest) && BeginsAlone(f, GiveTest)
    ensures Refines(f, FineNext(f, GiveTest), acts)
  {
    GiveTestNext(f);
    var t, o := FineNext(f, GiveTest), f.s.gc[0];
    hide StoredOn, Dropped, DroppedBy, AfterTest, JobsOk, NoneOn, FineNext, FineEnabled, SnapsBefore, Enabled, Next,
         With, UnRefed, Given;
    TestedBy(o, true, f.s.h.snaps[o].refcnt);
    assert Dropped(t.jobs) == Dropped(f.jobs);
    if f.s.h.snaps[o].refcnt == 0 {
      acts := [Give];
      GiveWith(f.s, SnapsBefore(f), f.s.handles + Dropped(f.jobs));
      SameSnap(SnapsBefore(f), o);
    } else {
      acts := [];
    }
  }

  /** The load and the store of an UnRef show nothing yet. */
  lemma UnRefNext(f: Fine, a: FineAct)
    requires FineEnabled(f, a) && (a.UnRefLoad? || a.UnRefStore?) && JobOk(f, f.jobs[a.k])
    ensures var t, j := FineNext(f, a), f.jobs[a.k];
            && j.Dropping? && j.o < |f.s.h.snaps| && a.k < |t.jobs| && t.jobs[a.k].Dropping?
            && t.s == With(f.s, t.s.h.snaps, f.s.handles) && Moves(f, t, a.k, t.jobs[a.k]) && JobOk(t, t.jobs[a.k])
            && CountBefore(t.jobs[a.k], t.s.h.snaps[j.o]) == CountBefore(j, f.s.h.snaps[j.o])
            && DroppedBy(t.jobs[a.k]) == DroppedBy(j)
  {
  }

  lemma UnRefMoves(f: Fine, a: FineAct)
    requires JobsOk(f) && FineEnabled(f, a) && (a.UnRefLoad? || a.UnRefStore?)
    ensures Refines(f, FineNext(f, a), [])
  {
    DropHasJob(f, a);
    hide *;
    JobIsOk(f, a.k);
    UnRefNext(f, a);
    var t, k := FineNext(f, a), a.k;
    JobMoves(f, t, k, t.jobs[k]);
    SnapsMove(f, t, k, t.jobs[k]);
    NothingMore(Dropped(f.jobs), DroppedBy(f.jobs[k]));
    ShowsNothing(f, t);
  }

  lemma DropHasJob(f: Fine, a: FineAct)
    requires FineEnabled(f, a) && (a.UnRefLoad? || a.UnRefStore? || a.UnRefTest?)
    ensures a.k < |f.jobs|
  {
  }

  lemma UnRefTestNext(f: Fine, k: nat)
    requires FineEnabled(f, UnRefTest(k)) && JobOk(f, f.jobs[k])
    ensures var t, j := FineNext(f, UnRefTest(k)), f.jobs[k];
            && j.Dropping? && j.o < |f.s.h.snaps| && Moves(f, t, k, Over)
            && t.s.handles == f.s.handles && t.s.h == f.s.h.(snaps := t.s.h.snaps)
            && t.s == With(if j.giver then Given(f.s, j.o) else f.s, t.s.h.snaps, f.s.handles)
            && t.s.h.snaps[j.o] == UnRefed(CountBefore(j, f.s.h.snaps[j.o]))
            && (j.giver ==> f.s.gc != [] && f.s.gc[0] == j.o && j.o < |f.s.places|)
  {
    var j := f.jobs[k];
    assert f.s.h.snaps[j.o := f.s.h.snaps[j.o]] == f.s.h.snaps;
  }

  lemma UnRefTestStep(f: Fine, k: nat) returns (acts: seq<Act>)
    requires JobsOk(f) && FineEnabled(f, UnRefTest(k))
    ensures Refines(f, FineNext(f, UnRefTest(k)), acts)
  {
    DropHasJob(f, UnRefTest(k));
    hide *;
    JobIsOk(f, k);
    UnRefTestNext(f, k);
    var t, j := FineNext(f, UnRefTest(k)), f.jobs[k];
    OverOk(t);
    JobMoves(f, t, k, Over);
    SnapsMove(f, t, k, Over);
    CountOver(t.s.h.snaps[j.o]);
    DroppedByDrop(j);
    if j.giver {
      acts := [Give];
      NothingMore(Dropped(f.jobs), multiset{});
      GiveWith(f.s, SnapsBefore(f), f.s.handles + Dropped(f.jobs));
      ShowsOne(f, t, Given(f.s, j.o), Give, f.s.handles + Dropped(f.jobs));
    } else {
      acts := [Drop(j.o)];
      DroppedHas(f.jobs, k);
      DropWith(f.s, SnapsBefore(f), f.s.handles + Dropped(f.jobs), j.o);
      TakenOff(f.s.handles, Dropped(f.jobs), j.o);
      ShowsOne(f, t, f.s, Drop(j.o), f.s.handles + Dropped(f.jobs) - multiset{j.o});
    }
  }

  lemma DroppedByDrop(j: Job)
    requires j.Dropping?
    ensures DroppedBy(j) == if j.giver then multiset{} else multiset{j.o}
  {
  }

  lemma TakenOff(handles: multiset<nat>, dropped: multiset<nat>, o: nat)
    requires o in dropped
    ensures o in handles + dropped
    ensures handles + (dropped + multiset{} - multiset{o}) == handles + dropped - multiset{o}
  {
  }

  lemma WithWith(s: State, snaps: seq<Snap>, handles: multiset<nat>, snaps': seq<Snap>, handles': multiset<nat>)
    ensures With(With(s, snaps, handles), snaps', handles') == With(s, snaps', handles')
  {
  }

  lemma CountOver(x: Snap)
    ensures CountBefore(Over, x) == x && DroppedBy(Over) == multiset{}
  {
  }

  lemma {:induction false} DroppedHas(jobs: seq<Job>, k: nat)
    requires k < |jobs| && jobs[k].Dropping? && !jobs[k].giver
    ensures jobs[k].o in Dropped(jobs)
  {
    var n := |jobs| - 1;
    if k < n {
      DroppedHas(jobs[..n], k);
    }
  }

  lemma OverOk(t: Fine)
    ensures JobOk(t, Over)
  {
  }

  lemma StepRefines(f: Fine, a: FineAct) returns (acts: seq<Act>)
    requires JobsOk(f) && FineEnabled(f, a) && BeginsAlone(f, a)
    ensures Refines(f, FineNext(f, a), acts)
  {
    hide JobsOk, FineEnabled, FineNext, BeginsAlone, Refines;
    match a {
      case Whole(b) =>
        acts := [b];
        if b.Insert? {
          InsertBefore(f, b.j);
        } else {
          OtherBefore(f, b);
        }
      case TakeLoad(id) =>
        acts := [];
        TakeLoadStep(f, id);
      case TakeStore(k) => acts := TakeStoreStep(f, k);
      case DropTest(o) => acts := DropTestStep(f, o);
      case GiveTest => acts := GiveTestStep(f);
      case UnRefLoad(k) =>
        acts := [];
        UnRefMoves(f, a);
      case UnRefStore(k) =>
        acts := [];
        UnRefMoves(f, a);
      case UnRefTest(k) => acts := UnRefTestStep(f, k);
    }
  }

  // ---- Whole runs ----

  lemma {:induction false} AppendRun(s: State, acts: seq<Act>, a: Act)
    requires IsRun(s, acts) && Enabled(After(s, acts), a)
    ensures IsRun(s, acts + [a]) && After(s, acts + [a]) == Next(After(s, acts), a)
    decreases |acts|
  {
    hide Enabled, Next;
    if acts == [] {
      assert [a][1..] == [];
    } else {
      assert (acts + [a])[1..] == acts[1..] + [a];
      AppendRun(Next(s, acts[0]), acts[1..], a);
    }
  }

  /** Any run with loads and stores as steps, in which changes of one count do not overlap, is an
      atomic run: the one of the changes that have ended, in the order in which they ended. */
  lemma {:induction false} AloneIsAtomic(k: nat, acts: seq<FineAct>) returns (atomic: seq<Act>)
    requires FineRun(Fine(New(k), []), acts) && AloneRun(Fine(New(k), []), acts)
    ensures JobsOk(FineAfter(Fine(New(k), []), acts))
    ensures IsRun(New(k), atomic) && After(New(k), atomic) == Before(FineAfter(Fine(New(k), []), acts))
    decreases |acts|
  {
    var start := Fine(New(k), []);
    hide JobsOk, FineEnabled, FineNext, BeginsAlone, Enabled, Next, Before;
    if acts == [] {
      StartsAtomic(k);
      atomic := [];
    } else {
      var front, a := acts[..|acts| - 1], acts[|acts| - 1];
      atomic := AloneIsAtomic(k, front);
      var more := StepRefines(FineAfter(start, front), a);
      if more != [] {
        AppendRun(New(k), atomic, more[0]);
        atomic := atomic + [more[0]];
      }
    }
  }

  lemma StartsAtomic(k: nat)
    ensures JobsOk(Fine(New(k), [])) && Before(Fine(New(k), [])) == New(k)
  {
  }

  lemma {:induction false} NoneDropped(jobs: seq<Job>)
    requires forall k :: 0 <= k < |jobs| ==> jobs[k].Over?
    ensures Dropped(jobs) == multiset{}
  {
    if jobs != [] {
      NoneDropped(jobs[..|jobs| - 1]);
    }
  }

  lemma NothingOpen(f: Fine)
    requires NoJobs(f)
    ensures Before(f) == f.s
  {
    NoneDropped(f.jobs);
    assert SnapsBefore(f) == f.s.h.snaps;
  }

  /** So in every state of such a run a snapshot's callback has run at most once, and only when
      the snapshot is released and has no handle; and whenever no change is under way the counts
      and callbacks are those of `Snapshots.ReachableCounts`. */
  lemma AloneIsSafe(k: nat, acts: seq<FineAct>, o: nat)
    requires k >= 1 && FineRun(Fine(New(k), []), acts) && AloneRun(Fine(New(k), []), acts)
    requires o < |FineAfter(Fine(New(k), []), acts).s.h.snaps|
    ensures var f := FineAfter(Fine(New(k), []), acts);
            var x := f.s.h.snaps[o];
            && |f.s.places| == |f.s.h.snaps| && x.ran <= 1
            && (x.ran == 1 ==> f.s.handles[o] == 0 && f.s.places[o].Released?)
            && (NoJobs(f) ==>
                  && x.refcnt == f.s.handles[o] + (if Held(f.s, o) || f.s.places[o].Refused? then 1 else 0)
                  && (x.ran == 1 <==> !f.s.places[o].Refused? && !Held(f.s, o) && f.s.handles[o] == 0))
  {
    hide FineRun, AloneRun, FineAfter, IsRun, After;
    var f := FineAfter(Fine(New(k), []), acts);
    var atomic := AloneIsAtomic(k, acts);
    assert SnapsBefore(f)[o].ran == f.s.h.snaps[o].ran;
    ReachableCounts(k, atomic, o);
    ReachableReleased(k, atomic, o);
    hide Held, StoredOn, JobsOk;
    if NoJobs(f) {
      NothingOpen(f);
    }
  }

  /** A snapshot called back was given back by the collector. */
  lemma ReachableReleased(k: nat, acts: seq<Act>, o: nat)
    requires k >= 1 && IsRun(New(k), acts) && o < |After(New(k), acts).h.snaps|
    ensures var s := After(New(k), acts);
            |s.places| == |s.h.snaps| && (s.h.snaps[o].ran == 1 ==> s.places[o].Released?)
  {
    NewInv(k);
    RunInv(New(k), acts);
    var s := After(New(k), acts);
    if s.h.snaps[o].ran == 1 {
      RanParts(s, o);
    }
  }
}
