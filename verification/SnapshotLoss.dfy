/** What goes wrong when the changes of a reference count are not atomic: from an empty holder,
    for every number of versions, a run of the threads of module SnapshotRaces in which a
    snapshot's callback runs although a handle on it is live. */
module SnapshotLoss {
  import opened Options
  import opened Snapshots
  import opened SnapshotRaces

  /** A holder of k versions to which the ids 1 to m were added in turn, none evicted so far. */
  ghost predicate Filled(s: State, k: nat, m: nat) {
    && m < MAX_ID && s.h.limit == k && !s.h.done && s.h.toRelease == [] && s.gc == []
    && |s.h.snaps| == |s.places| == m && |s.h.active| == m
    && (forall i :: 0 <= i < m ==> s.h.snaps[i] == Snap(i + 1, 1, 1, 0))
    && (forall id :: id in s.h.active <==> 1 <= id <= m)
    && (forall id :: id in s.h.active ==> s.h.active[id] == id - 1)
    && (if m == 0 then s.h.minId == MAX_ID && s.h.maxId == MIN_ID else s.h.minId == 1 && s.h.maxId == m)
  }

  /** An Add of the next id gets past its first section. */
  lemma CallAndCheck(f: Fine, done: seq<FineAct>, id: Id) returns (acts: seq<FineAct>)
    requires FineRun(f, done) && NoJobs(FineAfter(f, done)) && !Refuses(FineAfter(f, done).s.h, id)
    ensures FineRun(f, acts) && NoJobs(FineAfter(f, acts))
    ensures var s := FineAfter(f, done).s;
            FineAfter(f, acts).s == s.(adders := s.adders + [Adder(id, Checked)])
  {
    hide FineRun, FineAfter, NoJobs, Refuses;
    var s := FineAfter(f, done).s;
    acts := OneAtOnce(f, done, Call(id));
    var t := FineAfter(f, acts).s;
    assert t == Next(s, Call(id));
    acts := OneAtOnce(f, acts, Check(|s.adders|));
    assert t.adders[|s.adders| := Adder(id, Checked)] == s.adders + [Adder(id, Checked)];
  }

  lemma FillStep(s: State, k: nat, m: nat)
    requires Filled(s, k, m) && m < k < MAX_ID && s.adders != [] && s.adders[|s.adders| - 1] == Adder(m + 1, Checked)
    ensures var t := Next(s, Insert(|s.adders| - 1));
            Filled(t, k, m + 1) && t.handles == s.handles
  {
    var all := s.h.active[m + 1 := m];
    assert |all| == m + 1;
    var a := Inserted(s.h, m + 1);
    assert a.h.active == all && a.ok && a.evicted.None?;
  }

  lemma {:induction false} Fill(k: nat, m: nat) returns (acts: seq<FineAct>)
    requires m <= k < MAX_ID
    ensures var f := Fine(New(k), []);
            && FineRun(f, acts) && NoJobs(FineAfter(f, acts))
            && Filled(FineAfter(f, acts).s, k, m) && FineAfter(f, acts).s.handles == multiset{}
  {
    var f := Fine(New(k), []);
    if m == 0 {
      acts := [];
    } else {
      hide FineRun, FineAfter, NoJobs, Next;
      acts := Fill(k, m - 1);
      acts := CallAndCheck(f, acts, m);
      var s := FineAfter(f, acts).s;
      FillStep(s, k, m - 1);
      acts := OneAtOnce(f, acts, Insert(|s.adders| - 1));
    }
  }

  /** A first handle on the oldest snapshot is dropped while a second one is taken: the UnRef
      loads 2 before the Ref stores 3, and stores 1 afterwards. */
  lemma Race(f: Fine, done: seq<FineAct>, k: nat) returns (acts: seq<FineAct>)
    requires 1 <= k && FineRun(f, done) && NoJobs(FineAfter(f, done))
    requires Filled(FineAfter(f, done).s, k, k) && FineAfter(f, done).s.handles == multiset{}
    ensures FineRun(f, acts) && NoJobs(FineAfter(f, acts))
    ensures FineAfter(f, acts).s == FineAfter(f, done).s.(handles := multiset{0})
  {
    hide FineRun, FineAfter;
    var g := FineAfter(f, done);
    var n := |g.jobs|;
    assert Found(g.s.h, 1) == Some(0);
    acts := TakeAtOnce(f, done, 1);
    var g1 := FineAfter(f, acts);
    assert g1.s.h.snaps == g.s.h.snaps[0 := Snap(1, 2, 1, 0)] && g1.s.handles == multiset{0};
    acts := Overlap(f, acts, 1, 0);
    assert g1.s.h.snaps[0 := Snap(1, 1, 1, 0)] == g.s.h.snaps;
  }

  /** Of a Ref and an UnRef, the one that stores last decides. */
  lemma Overlap(f: Fine, done: seq<FineAct>, id: Id, o: nat) returns (acts: seq<FineAct>)
    requires FineRun(f, done) && NoJobs(FineAfter(f, done))
    requires var s := FineAfter(f, done).s;
             && Enabled(s, Get(id, true)) && Found(s.h, id) == Some(o)
             && s.handles == multiset{o} && s.h.snaps[o].refcnt == 2
    ensures FineRun(f, acts) && NoJobs(FineAfter(f, acts))
    ensures var s := FineAfter(f, done).s;
            FineAfter(f, acts).s == s.(h := SetSnap(s.h, o, s.h.snaps[o].(refcnt := 1)))
  {
    hide FineRun, FineAfter, Found;
    var g0 := FineAfter(f, done);
    var n := |g0.jobs|;
    acts := done;
    Extend(f, acts, TakeLoad(id));
    acts := acts + [TakeLoad(id)];
    var g1 := FineAfter(f, acts);
    Extend(f, acts, DropTest(o));
    acts := acts + [DropTest(o)];
    var g2 := FineAfter(f, acts);
    Extend(f, acts, UnRefLoad(n + 1));
    acts := acts + [UnRefLoad(n + 1)];
    var g3 := FineAfter(f, acts);
    assert g3.s == g0.s.(handles := multiset{});
    assert g3.jobs == g0.jobs + [Taking(o, 2), Dropping(o, false, Loaded(2))];
    acts := StoreBoth(f, acts, g0.jobs, o);
    assert g0.s.h.snaps[o := g0.s.h.snaps[o].(refcnt := 3)][o := g0.s.h.snaps[o].(refcnt := 1)]
        == g0.s.h.snaps[o := g0.s.h.snaps[o].(refcnt := 1)];
  }

  lemma StoreBoth(f: Fine, done: seq<FineAct>, jobs: seq<Job>, o: nat) returns (acts: seq<FineAct>)
    requires FineRun(f, done) && forall k :: 0 <= k < |jobs| ==> jobs[k].Over?
    requires FineAfter(f, done).jobs == jobs + [Taking(o, 2), Dropping(o, false, Loaded(2))]
    requires o < |FineAfter(f, done).s.h.snaps|
    ensures FineRun(f, acts) && NoJobs(FineAfter(f, acts))
    ensures var s := FineAfter(f, done).s;
            FineAfter(f, acts).s == SetCount(s, o, 1).(handles := s.handles + multiset{o})
  {
    hide FineRun, FineAfter;
    var n := |jobs|;
    var s := FineAfter(f, done).s;
    acts := done;
    Extend(f, acts, TakeStore(n));
    acts := acts + [TakeStore(n)];
    var g4 := FineAfter(f, acts);
    Extend(f, acts, UnRefStore(n + 1));
    acts := acts + [UnRefStore(n + 1)];
    var g5 := FineAfter(f, acts);
    assert g5.s.h.snaps == s.h.snaps[o := s.h.snaps[o].(refcnt := 1)];
    Extend(f, acts, UnRefTest(n + 1));
    acts := acts + [UnRefTest(n + 1)];
  }

  /** The next id pushes out id 1, and its Add hands the snapshot to the collector. */
  lemma EvictFirst(f: Fine, done: seq<FineAct>, k: nat) returns (acts: seq<FineAct>)
    requires 1 <= k < MAX_ID && FineRun(f, done) && NoJobs(FineAfter(f, done)) && Filled(FineAfter(f, done).s, k, k)
    ensures FineRun(f, acts) && NoJobs(FineAfter(f, acts))
    ensures var s := FineAfter(f, acts).s;
            && s.gc == [0] && s.h.snaps != [] && s.places != [] && s.h.snaps[0] == Snap(1, 1, 1, 0)
            && s.handles == FineAfter(f, done).s.handles
  {
    hide FineRun, FineAfter, NoJobs;
    acts := CallAndCheck(f, done, k + 1);
    var s := FineAfter(f, acts).s;
    var j := |s.adders| - 1;
    InsertEvicts(s, k);
    hide Filled, Inserted, Next;
    acts := OneAtOnce(f, acts, Insert(j));
    var t := FineAfter(f, acts).s;
    Handed(t, j);
    acts := OneAtOnce(f, acts, Release(j));
    acts := OneAtOnce(f, acts, Collect);
  }

  lemma InsertEvicts(s: State, k: nat)
    requires 1 <= k < MAX_ID && Filled(s, k, k) && s.adders != []
    requires s.adders[|s.adders| - 1] == Adder(k + 1, Checked)
    ensures var t := Next(s, Insert(|s.adders| - 1));
            && t.adders == s.adders[|s.adders| - 1 := Adder(k + 1, Evicting(0))] && t.handles == s.handles
            && t.gc == [] && t.h.toRelease == [] && |t.h.snaps| > 0 && |t.places| > 0
            && t.h.snaps[0] == Snap(1, 1, 1, 0)
  {
    var all := s.h.active[k + 1 := k];
    assert |all| == k + 1;
    assert 1 in all && all[1] == 0;
    hide Least;
    var a := Inserted(s.h, k + 1);
    assert a.ok && a.evicted == Some(0);
  }

  lemma Handed(t: State, j: nat)
    requires j < |t.adders| && t.adders[j].pc == Evicting(0) && t.h.toRelease == [] && t.gc == []
    ensures var u := Next(t, Release(j));
            && Enabled(u, Collect) && u.handles == t.handles
            && var v := Next(u, Collect);
               v.gc == [0] && v.h.snaps == t.h.snaps && |v.places| == |t.places| && v.handles == t.handles
  {
  }

  /** In the source's own steps, for every number of versions: from an empty holder there is a
      run that ends with no call under way, a live handle on the first snapshot, a count of 0,
      and its callback carried out. `Snapshots.ReachableCounts` excludes exactly that. */
  lemma CallbackWithHandle(k: nat) returns (acts: seq<FineAct>)
    requires 1 <= k < MAX_ID
    ensures var f := Fine(New(k), []);
            && FineRun(f, acts) && NoJobs(FineAfter(f, acts))
            && var s := FineAfter(f, acts).s;
               s.h.snaps != [] && s.h.snaps[0] == Snap(1, 0, 1, 1) && s.handles[0] == 1
  {
    hide FineRun, FineAfter, NoJobs, Filled;
    var f := Fine(New(k), []);
    acts := Fill(k, k);
    FilledHandles(FineAfter(f, acts).s, k, multiset{0});
    acts := Race(f, acts, k);
    acts := EvictFirst(f, acts, k);
    acts := GiveAtOnce(f, acts);
  }

  lemma FilledHandles(s: State, k: nat, handles: multiset<nat>)
    requires Filled(s, k, k)
    ensures Filled(s.(handles := handles), k, k)
  {
  }
}
