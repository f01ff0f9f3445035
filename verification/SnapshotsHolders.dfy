/** The methods of `SnapshotsHolder` (new_meta_lab/Snapshots.h) and `ReferenceProxy`
    (new_meta_lab/Utils.cpp) on mutable objects, each proved to do what module Snapshots says. */
module SnapshotsHolders {
  import opened Snapshots
  import opened Options

  class ReferenceProxy {
    const id: Id
    var refcnt: int
    /** How many callbacks are registered, and how many calls of one there have been. */
    var callbacks: nat
    var ran: nat

    ghost function View(): Snap
      reads this
    {
      Snap(id, refcnt, callbacks, ran)
    }

    constructor (id: Id)
      ensures View() == Snap(id, 0, 0, 0)
    {
      this.id := id;
      refcnt, callbacks, ran := 0, 0, 0;
    }

    /** Utils.cpp:6-8. */
    method Ref()
      modifies this
      ensures View() == Refed(old(View()))
    {
      refcnt := refcnt + 1;
    }

    /** Utils.cpp:10-18. */
    method UnRef()
      modifies this
      ensures View() == UnRefed(old(View()))
    {
      if refcnt == 0 {
        return;
      }
      refcnt := refcnt - 1;
      if refcnt == 0 {
        var i := 0;
        while i < callbacks
          invariant 0 <= i <= callbacks && refcnt == 0 && callbacks == old(callbacks) && ran == old(ran) + i
        {
          ran := ran + 1;
          i := i + 1;
        }
      }
    }

    /** Utils.cpp:20-22. */
    method RegisterOnNoRefCB()
      modifies this
      ensures View() == old(View()).(callbacks := old(callbacks) + 1)
    {
      callbacks := callbacks + 1;
    }
  }

  /** A ScopedResource<Snapshot> (Proxy.h:34-47). */
  class ScopedSnapshot {
    const res: ReferenceProxy?
    const scoped: bool

    constructor (res: ReferenceProxy?, scoped: bool)
      requires scoped ==> res != null
      modifies if scoped then {res} else {}
      ensures this.res == res && this.scoped == scoped
      ensures scoped ==> res.View() == Refed(old(res.View()))
    {
      this.res, this.scoped := res, scoped;
      new;
      if scoped {
        res.Ref();
      }
    }

    /** The destructor. */
    method Close()
      requires scoped ==> res != null
      modifies if scoped then {res} else {}
      ensures scoped ==> res.View() == UnRefed(old(res.View()))
    {
      if scoped {
        res.UnRef();
      }
    }
  }

  /** `q` names the objects of `list`. */
  ghost predicate Names(objects: seq<ReferenceProxy>, q: seq<nat>, list: seq<ReferenceProxy>) {
    && |q| == |list|
    && forall i :: 0 <= i < |q| ==> q[i] < |objects| && objects[q[i]] == list[i]
  }

  ghost predicate NamesActive(objects: seq<ReferenceProxy>, a: map<Id, nat>, active: map<Id, ReferenceProxy>) {
    && active.Keys == a.Keys
    && forall id :: id in a ==> a[id] < |objects| && objects[a[id]] == active[id]
  }

  ghost predicate Distinct(objects: seq<ReferenceProxy>) {
    forall i, j :: 0 <= i < j < |objects| ==> objects[i] != objects[j]
  }

  ghost predicate SnapsOk(objects: seq<ReferenceProxy>, snaps: seq<Snap>)
    reads objects
  {
    && Distinct(objects) && |objects| == |snaps|
    && forall o :: 0 <= o < |objects| ==> objects[o].View() == snaps[o]
  }

  /** What becomes of an id that is not active yet. */
  lemma FreshId(h: Holder, id: Id)
    requires BoundsOk(h) && !h.done && id !in h.active
    ensures var g := h.(snaps := h.snaps + [Snap(id, 1, 1, 0)],
                        active := h.active[id := |h.snaps|],
                        minId := if h.minId > id then id else h.minId,
                        maxId := if h.maxId < id then id else h.maxId);
            && g.minId in g.active && h.limit >= 1
            && Inserted(h, id) ==
               if |g.active| <= h.limit then Added(g, true, None)
               else Added(g.(active := g.active - {g.minId}, minId := Least((g.active - {g.minId}).Keys)),
                          true, Some(g.active[g.minId]))
  {
    hide Least;
  }

  lemma PutActive(objects: seq<ReferenceProxy>, a: map<Id, nat>, active: map<Id, ReferenceProxy>, id: Id, o: nat)
    requires NamesActive(objects, a, active) && o < |objects|
    ensures NamesActive(objects, a[id := o], active[id := objects[o]])
  {
  }

  lemma CutActive(objects: seq<ReferenceProxy>, a: map<Id, nat>, active: map<Id, ReferenceProxy>, id: Id)
    requires NamesActive(objects, a, active)
    ensures a.Keys == active.Keys
    ensures NamesActive(objects, a - {id}, active - {id}) && (active - {id}).Keys == (a - {id}).Keys
    ensures id in active ==> id in a && a[id] < |objects| && objects[a[id]] == active[id]
    ensures |active| == |a|
    ensures |active| > 1 ==> (a - {id}).Keys != {}
  {
    assert |active.Keys| == |a.Keys|;
    SomeLeft(active.Keys, id);
    assert (a - {id}).Keys == active.Keys - {id};
    assert (active - {id}).Keys == active.Keys - {id};
  }

  lemma SomeLeft(keys: set<Id>, m: Id)
    ensures |keys| <= 1 || keys - {m} != {}
  {
    if keys - {m} == {} {
      SubsetSize(keys, {m});
    }
  }

  /** The loop of BackgroundGC over its local list (lines 213-216). */
  function UnRefAll(h: Holder, q: seq<nat>): Holder
    requires forall i :: 0 <= i < |q| ==> q[i] < |h.snaps|
    decreases |q|
  {
    if q == [] then h else UnRefAll(SetSnap(h, q[0], UnRefed(h.snaps[q[0]])), q[1..])
  }

  /** n references given back. */
  function UnRefTimes(x: Snap, n: nat): Snap
    decreases n
  {
    if n == 0 then x else UnRefTimes(UnRefed(x), n - 1)
  }

  /** Giving back as many references as are held calls every callback once, with the last one and
      not before; giving back more does nothing. */
  lemma {:induction false} LastUnRefCalls(x: Snap, n: nat)
    requires x.refcnt >= 1
    ensures UnRefTimes(x, n) ==
              x.(refcnt := if n < x.refcnt then x.refcnt - n else 0,
                 ran := if n < x.refcnt then x.ran else x.ran + x.callbacks)
    decreases n
  {
    if n > 0 {
      if x.refcnt > 1 {
        LastUnRefCalls(UnRefed(x), n - 1);
      } else {
        NothingToGive(UnRefed(x), n - 1);
      }
    }
  }

  lemma {:induction false} NothingToGive(x: Snap, n: nat)
    requires x.refcnt == 0
    ensures UnRefTimes(x, n) == x
  {
    if n > 0 {
      NothingToGive(x, n - 1);
    }
  }

  /** The loop gives back one reference of each snapshot for each time it is listed, and changes
      nothing else. */
  lemma {:induction false} UnRefAllEach(h: Holder, q: seq<nat>)
    requires forall i :: 0 <= i < |q| ==> q[i] < |h.snaps|
    ensures var t := UnRefAll(h, q);
            && t == h.(snaps := t.snaps) && |t.snaps| == |h.snaps|
            && forall o :: 0 <= o < |h.snaps| ==> t.snaps[o] == UnRefTimes(h.snaps[o], multiset(q)[o])
    decreases |q|
  {
    hide UnRefed;
    if q != [] {
      var h1 := SetSnap(h, q[0], UnRefed(h.snaps[q[0]]));
      UnRefAllEach(h1, q[1..]);
      assert q == [q[0]] + q[1..];
      assert multiset(q) == multiset{q[0]} + multiset(q[1..]);
      forall o | 0 <= o < |h.snaps|
        ensures UnRefTimes(h1.snaps[o], multiset(q[1..])[o]) == UnRefTimes(h.snaps[o], multiset(q)[o])
      {
        OneOff(h.snaps[o], multiset(q[1..])[o]);
      }
    }
  }

  lemma OneOff(x: Snap, n: nat)
    ensures UnRefTimes(UnRefed(x), n) == UnRefTimes(x, n + 1)
  {
  }

  lemma ListedOnce(q: seq<nat>, o: nat)
    requires forall i, j :: 0 <= i < j < |q| ==> q[i] != q[j]
    ensures multiset(q)[o] == if o in q then 1 else 0
  {
    if o in q {
      var i :| 0 <= i < |q| && q[i] == o;
      assert q == q[..i] + [o] + q[i + 1..];
      assert o !in q[..i] && o !in q[i + 1..];
    }
  }

  /** A round over a list without repetitions: each listed snapshot has one reference less, and has
      been called back if that was its last; the others are as before. */
  lemma RoundEach(h: Holder, q: seq<nat>, o: nat)
    requires forall i :: 0 <= i < |q| ==> q[i] < |h.snaps|
    requires (forall i, j :: 0 <= i < j < |q| ==> q[i] != q[j]) && o < |h.snaps|
    ensures |UnRefAll(h, q).snaps| == |h.snaps|
    ensures UnRefAll(h, q).snaps[o] == if o in q then UnRefed(h.snaps[o]) else h.snaps[o]
  {
    UnRefAllEach(h, q);
    ListedOnce(q, o);
    hide UnRefed;
    assert UnRefTimes(h.snaps[o], 1) == UnRefed(h.snaps[o]) by {
      OneOff(h.snaps[o], 0);
    }
  }

  // ---- The round among the steps of the threads ----

  function Gives(n: nat): seq<Act> { seq(n, _ => Give) }

  lemma {:induction false} GivesAll(s: State)
    requires forall i :: 0 <= i < |s.gc| ==> s.gc[i] < |s.h.snaps| && s.gc[i] < |s.places|
    ensures IsRun(s, Gives(|s.gc|))
    ensures var t := After(s, Gives(|s.gc|)); t.h == UnRefAll(s.h, s.gc) && t.gc == []
    decreases |s.gc|
  {
    hide UnRefed;
    if s.gc != [] {
      GivesAll(Next(s, Give));
      assert Gives(|s.gc|)[1..] == Gives(|s.gc| - 1);
    }
  }

  /** In every state that the threads can reach, a round of the collector is the step Collect and
      then one step Give for each snapshot listed, so what `Snapshots.ReachableCounts` says of runs
      holds before and after it. */
  lemma RoundIsSteps(k: nat, acts: seq<Act>)
    requires k >= 1 && IsRun(New(k), acts)
    requires After(New(k), acts).gc == [] && After(New(k), acts).h.toRelease != []
    ensures var s := After(New(k), acts);
            var q, round := s.h.toRelease, [Collect] + Gives(|s.h.toRelease|);
            && (forall i :: 0 <= i < |q| ==> q[i] < |s.h.snaps|) && IsRun(s, round)
            && After(s, round).h == UnRefAll(s.h.(toRelease := []), q) && After(s, round).gc == []
  {
    hide Inserted, Found, UnRefed;
    var s := After(New(k), acts);
    NewInv(k);
    RunInv(New(k), acts);
    hide TopOk, ActiveOk, AddersOk;
    var round := [Collect] + Gives(|s.h.toRelease|);
    assert round[1..] == Gives(|s.h.toRelease|);
    GivesAll(Next(s, Collect));
  }

  class SnapshotsHolder {
    const numVersions: nat
    var minId: Id
    var maxId: Id
    var active: map<Id, ReferenceProxy>
    var toRelease: seq<ReferenceProxy>
    var done: bool
    ghost var objects: seq<ReferenceProxy>
    ghost var view: Holder

    ghost predicate Valid()
      reads this, objects
    {
      && SnapsOk(objects, view.snaps)
      && view.limit == numVersions && view.minId == minId && view.maxId == maxId && view.done == done
      && NamesActive(objects, view.active, active)
      && Names(objects, view.toRelease, toRelease)
    }

    /** Lines 104, 163-168. */
    constructor (k: nat)
      ensures Valid() && view == NewHolder(k) && objects == []
    {
      numVersions := k;
      minId, maxId, active, toRelease, done := MAX_ID, MIN_ID, map[], [], false;
      objects, view := [], NewHolder(k);
    }

    /** The first section of Add (lines 106-111). */
    method Refuse(id: Id) returns (refused: bool)
      requires Valid()
      ensures refused == Refuses(view, id)
    {
      refused := |active| > 0 && id < maxId;
    }

    /** The construction of the snapshot, and lines 118-119. */
    method Register(id: Id) returns (ss: ReferenceProxy)
      requires Valid()
      modifies this`objects, this`view
      ensures Valid() && fresh(ss) && objects == old(objects) + [ss] && |objects| == |view.snaps|
      ensures view == old(view).(snaps := old(view).snaps + [Snap(id, 1, 1, 0)])
    {
      ss := new ReferenceProxy(id);
      ss.RegisterOnNoRefCB();
      ss.Ref();
      objects, view := objects + [ss], view.(snaps := view.snaps + [Snap(id, 1, 1, 0)]);
    }

    /** Lines 125-133: the bounds and the map. */
    method Enter(id: Id, ss: ReferenceProxy)
      requires Valid() && |objects| > 0 && objects[|objects| - 1] == ss
      modifies this`minId, this`maxId, this`active, this`view
      ensures Valid()
      ensures view == old(view).(minId := if old(minId) > id then id else old(minId),
                                 maxId := if old(maxId) < id then id else old(maxId),
                                 active := old(view).active[id := |objects| - 1])
    {
      hide SnapsOk, NamesActive, Names;
      PutActive(objects, view.active, active, id, |objects| - 1);
      if minId > id {
        minId := id;
      }
      if maxId < id {
        maxId := id;
      }
      active := active[id := ss];
      view := view.(minId := minId, maxId := maxId, active := view.active[id := |objects| - 1]);
    }

    /** Lines 137-140: the oldest snapshot leaves the map. */
    method EvictOldest() returns (oldest: ReferenceProxy)
      requires Valid() && minId in active && |active| > 1
      modifies this`minId, this`active, this`view
      ensures Valid() && old(view).active[old(minId)] < |objects| && oldest == objects[old(view).active[old(minId)]]
      ensures var left := old(view).active - {old(minId)};
              view == old(view).(active := left, minId := Least(left.Keys))
    {
      hide SnapsOk, NamesActive, Names;
      oldest := active[minId];
      ghost var left := view.active - {minId};
      CutActive(objects, view.active, active, minId);
      active := active - {minId};
      ghost var first := Least(left.Keys);
      var begin :| begin in active && forall x :: x in active ==> begin <= x;
      minId := begin;
      view := view.(minId := minId, active := left);
    }

    /** Lines 125-140, for the snapshot just registered. */
    method Settle(id: Id, ss: ReferenceProxy, ghost h: Holder) returns (oldest: ReferenceProxy?)
      requires Valid() && BoundsOk(h) && !h.done && id !in h.active
      requires view == h.(snaps := h.snaps + [Snap(id, 1, 1, 0)])
      requires |objects| == |h.snaps| + 1 && objects[|h.snaps|] == ss
      modifies this`minId, this`maxId, this`active, this`view
      ensures Valid()
      ensures var a := Inserted(h, id);
              && view == a.h
              && (a.evicted.None? ==> oldest == null)
              && (a.evicted.Some? ==> a.evicted.value < |objects| && oldest == objects[a.evicted.value])
    {
      hide SnapsOk, NamesActive, Names, Inserted, BoundsOk, Least;
      FreshId(h, id);
      Enter(id, ss);
      CutActive(objects, view.active, active, id);
      if |active| <= numVersions {
        return null;
      }
      oldest := EvictOldest();
    }

    /** The second section of Add (lines 113-141). */
    method Insert(id: Id) returns (ok: bool, oldest: ReferenceProxy?)
      requires Valid() && BoundsOk(view)
      modifies this
      ensures Valid() && old(objects) <= objects && fresh(objects[|old(objects)|..])
      ensures var a := Inserted(old(view), id);
              && view == a.h && ok == a.ok
              && (a.evicted.None? ==> oldest == null)
              && (a.evicted.Some? ==> a.evicted.value < |objects| && oldest == objects[a.evicted.value])
    {
      hide SnapsOk, NamesActive, Names, BoundsOk, Least;
      ghost var h := view;
      if done {
        return false, null;
      }
      var ss := Register(id);
      CutActive(objects, view.active, active, id);
      ok, oldest := false, null;
      if id !in active {
        oldest := Settle(id, ss, h);
        ok := true;
      }
    }

    /** ReadyForRelease (lines 153-158). */
    method ReadyForRelease(ss: ReferenceProxy, ghost o: nat)
      requires Valid() && o < |objects| && objects[o] == ss
      modifies this`toRelease, this`view
      ensures Valid() && view == old(view).(toRelease := old(view).toRelease + [o])
    {
      toRelease := toRelease + [ss];
      view := view.(toRelease := view.toRelease + [o]);
    }

    /** Add, when nothing happens between its parts (lines 105-144). */
    method Add(id: Id) returns (ok: bool)
      requires Valid() && BoundsOk(view)
      modifies this
      ensures Valid()
      ensures var a := Inserted(old(view), id);
              if Refuses(old(view), id) then view == old(view) && !ok
              else
                && ok == a.ok
                && view == if a.evicted.None? then a.h
                           else a.h.(toRelease := a.h.toRelease + [a.evicted.value])
    {
      var refused := Refuse(id);
      if refused {
        return false;
      }
      ghost var a := Inserted(view, id);
      var oldest;
      ok, oldest := Insert(id);
      if oldest != null {
        ReadyForRelease(oldest, a.evicted.value);
      }
    }

    /** GetSnapshot (lines 171-187). */
    method GetSnapshot(id: Id, scoped: bool) returns (ss: ScopedSnapshot)
      requires Valid() && (id == 0 || id == view.maxId ==> id in view.active)
      modifies this`view, objects
      ensures Valid() && fresh(ss) && objects == old(objects)
      ensures match Found(old(view), id)
              case None => view == old(view) && ss.res == null && !ss.scoped
              case Some(o) =>
                && o < |objects| && ss.res == objects[o] && ss.scoped == scoped
                && view == if scoped then SetSnap(old(view), o, Refed(old(view).snaps[o])) else old(view)
    {
      if id == 0 || id == maxId {
        ss := Scope(id, scoped);
        return;
      }
      if id < minId || id > maxId || id !in active {
        ss := new ScopedSnapshot(null, false);
        return;
      }
      ss := Scope(id, scoped);
    }

    method Scope(id: Id, scoped: bool) returns (ss: ScopedSnapshot)
      requires Valid() && id in active
      modifies this`view, objects
      ensures Valid() && fresh(ss) && objects == old(objects)
      ensures var o := old(view).active[id];
              && o < |objects| && ss.res == objects[o] && ss.scoped == scoped
              && view == if scoped then SetSnap(old(view), o, Refed(old(view).snaps[o])) else old(view)
    {
      ghost var o := view.active[id];
      ss := new ScopedSnapshot(active[id], scoped);
      if scoped {
        view := SetSnap(view, o, Refed(view.snaps[o]));
      }
    }

    /** Line 214, for one snapshot. */
    method GiveBack(ss: ReferenceProxy, ghost o: nat)
      requires Valid() && o < |objects| && objects[o] == ss
      modifies this`view, objects
      ensures Valid() && objects == old(objects) && view == SetSnap(old(view), o, UnRefed(old(view).snaps[o]))
    {
      ss.UnRef();
      view := SetSnap(view, o, UnRefed(view.snaps[o]));
    }

    /** The loop over the local list (lines 213-216). */
    method GiveBackAll(sss: seq<ReferenceProxy>, ghost q: seq<nat>)
      requires Valid() && Names(objects, q, sss)
      modifies this`view, objects
      ensures Valid() && objects == old(objects) && Names(objects, q, sss) && |objects| == |old(view).snaps|
      ensures view == UnRefAll(old(view), q)
    {
      ghost var all := UnRefAll(view, q);
      var i := 0;
      assert q[0..] == q;
      while i < |sss|
        invariant 0 <= i <= |sss| && Valid() && objects == old(objects)
        invariant Names(objects, q, sss) && all == UnRefAll(view, q[i..])
      {
        assert q[i..][0] == q[i] && q[i..][1..] == q[i + 1..];
        GiveBack(sss[i], q[i]);
        i := i + 1;
      }
    }

    /** One round of the collector (lines 202-216): one reference less for each time that a snapshot
        was listed, and nothing else changed. */
    method CollectRound()
      requires Valid()
      modifies this`toRelease, this`view, objects
      ensures Valid() && objects == old(objects) && view == UnRefAll(old(view).(toRelease := []), old(view).toRelease)
      ensures toRelease == [] && view == old(view).(toRelease := [], snaps := view.snaps)
      ensures |view.snaps| == |old(view).snaps|
      ensures forall o :: 0 <= o < |view.snaps| ==>
                view.snaps[o] == UnRefTimes(old(view).snaps[o], multiset(old(view).toRelease)[o])
    {
      hide UnRefAll, UnRefTimes, NamesActive;
      var sss := toRelease;
      ghost var q := view.toRelease;
      toRelease := [];
      view := view.(toRelease := []);
      UnRefAllEach(view, q);
      GiveBackAll(sss, q);
    }
  }
}
